/** The worker reconciler: the names every sub-resource of a worker shares, the
    desired Deployment / Service / IngressRoute derived from a `WorkerAppSpec`,
    and the five get-or-create / update steps over an abstract cluster. Each
    step is a transition of its own; nothing here orders them. */
module WorkerController {
  import opened Wrappers
  import opened Text
  import opened Cluster

  /** The desired state of one worker. */
  datatype WorkerAppSpec = WorkerAppSpec(
    workerID: string,
    ownerID: string,
    ownerSK: string,
    image: string,
    port: int64,
    assignedCPU: string,
    assignedMemory: string,
    assignedDisk: string,
    maxReplicas: int64,
    mainRegion: string)

  /** System-managed environment keys: kept out of the config map, forced into the secret. */
  const ReservedEnvKeys: seq<string> := ["COMBINATOR_API_ENDPOINT", "RAYSAIL_UID", "RAYSAIL_SECRET_KEY"]

  const ReservedKeys: set<string> := set k | k in ReservedEnvKeys

  const ClientNotInitialized := "k8s client not initialized"
  const DynamicClientNotInitialized := "dynamic client not initialized"

  // ---------------------------------------------------------------------------
  // Names

  function WorkerName(workerID: string, ownerID: string): string {
    "w-" + workerID + "-" + ownerID
  }

  function Name(w: WorkerAppSpec): string {
    WorkerName(w.workerID, w.ownerID)
  }

  function EnvConfigMapName(w: WorkerAppSpec): string {
    Name(w) + "-env"
  }

  function SecretName(w: WorkerAppSpec): string {
    Name(w) + "-secret"
  }

  function Labels(w: WorkerAppSpec): map<string, string> {
    map["app" := Name(w), "worker-id" := w.workerID, "owner-id" := w.ownerID]
  }

  /** All sub-resource names extend the worker name, which itself embeds both
      identifiers; the config-map and secret names never coincide with each
      other or with the worker name. */
  lemma NamesShareWorkerName(w: WorkerAppSpec)
    ensures StartsWith(Name(w), "w-" + w.workerID + "-")
    ensures Name(w)[|Name(w)| - |w.ownerID|..] == w.ownerID
    ensures TrimPrefix(EnvConfigMapName(w), Name(w)) == "-env"
    ensures TrimPrefix(SecretName(w), Name(w)) == "-secret"
    ensures EnvConfigMapName(w) != SecretName(w)
    ensures Name(w) != EnvConfigMapName(w) && Name(w) != SecretName(w)
  {
    var n := Name(w);
    assert n == ("w-" + w.workerID + "-") + w.ownerID;
    assert n[..|"w-" + w.workerID + "-"|] == "w-" + w.workerID + "-";
    TrimPrefixUndoesConcat(n, "-env");
    TrimPrefixUndoesConcat(n, "-secret");
    assert EnvConfigMapName(w)[|n| + 1] == 'e';
    assert SecretName(w)[|n| + 1] == 's';
    assert |EnvConfigMapName(w)| > |n| && |SecretName(w)| > |n|;
  }

  function CombinatorEndpoint(env: Env): string {
    "http://combinator." + env.combinatorNamespace + ".svc.cluster.local:8899"
  }

  /** The reserved key/value pairs injected into every worker secret. */
  function SystemSecretData(env: Env, w: WorkerAppSpec): (m: map<string, string>)
    ensures m.Keys == ReservedKeys
    ensures m["RAYSAIL_UID"] == w.ownerID && m["RAYSAIL_SECRET_KEY"] == w.ownerSK
    ensures m["COMBINATOR_API_ENDPOINT"] == CombinatorEndpoint(env)
  {
    map[
      "COMBINATOR_API_ENDPOINT" := CombinatorEndpoint(env),
      "RAYSAIL_UID" := w.ownerID,
      "RAYSAIL_SECRET_KEY" := w.ownerSK]
  }

  // ---------------------------------------------------------------------------
  // Desired Deployment

  const DefaultCPU := "1"
  const DefaultMemory := "500Mi"
  const DefaultDisk := "2Gi"

  function Replicas(w: WorkerAppSpec): int {
    if w.maxReplicas > 0 then ToInt32(w.maxReplicas) else 1
  }

  function OrDefault(value: string, default: string): string {
    if value == "" then default else value
  }

  function DesiredResources(w: WorkerAppSpec): Resources {
    var quantities := ResourceList(
      OrDefault(w.assignedCPU, DefaultCPU),
      OrDefault(w.assignedMemory, DefaultMemory),
      OrDefault(w.assignedDisk, DefaultDisk));
    Resources(quantities, quantities)
  }

  function DesiredAffinity(env: Env, w: WorkerAppSpec): Affinity {
    var colocate := PreferredPodTerm(100, map["app" := "combinator"], [env.combinatorNamespace], "kubernetes.io/hostname");
    var region :=
      if w.mainRegion != "" then Some(NodeRequirement("topology.kubernetes.io/region", "In", [w.mainRegion]))
      else None;
    Affinity([colocate], region)
  }

  /** The Deployment EnsureDeployment writes: replica count, per-field resource
      defaults with limits equal to requests, the co-location preference, the
      region requirement only when a region is named, and environment drawn
      from the worker's config map and secret. */
  function DesiredDeployment(env: Env, w: WorkerAppSpec): (d: Deployment)
    ensures d.spec.replicas == (if w.maxReplicas > 0 then ToInt32(w.maxReplicas) else 1)
    ensures 0 < w.maxReplicas < 0x8000_0000 ==> d.spec.replicas == w.maxReplicas as int
    ensures w.maxReplicas <= 0 ==> d.spec.replicas == 1
    ensures |d.spec.containers| == 1
    ensures d.spec.containers[0].resources.limits == d.spec.containers[0].resources.requests
    ensures var q := d.spec.containers[0].resources.requests;
            && (w.assignedCPU == "" ==> q.cpu == "1") && (w.assignedCPU != "" ==> q.cpu == w.assignedCPU)
            && (w.assignedMemory == "" ==> q.memory == "500Mi") && (w.assignedMemory != "" ==> q.memory == w.assignedMemory)
            && (w.assignedDisk == "" ==> q.ephemeralStorage == "2Gi") && (w.assignedDisk != "" ==> q.ephemeralStorage == w.assignedDisk)
    ensures d.spec.affinity.requiredNode.Some? <==> w.mainRegion != ""
    ensures d.spec.affinity.requiredNode.Some? ==>
              d.spec.affinity.requiredNode.value == NodeRequirement("topology.kubernetes.io/region", "In", [w.mainRegion])
    ensures |d.spec.affinity.preferredPod| == 1 && d.spec.affinity.preferredPod[0].weight == 100
    ensures d.spec.containers[0].envFromConfigMap == EnvConfigMapName(w)
    ensures d.spec.containers[0].envFromSecret == SecretName(w)
    ensures d.spec.selector == map["app" := Name(w)] && d.spec.selector.Items <= d.spec.templateLabels.Items
  {
    var container := Container(Name(w), w.image, ToInt32(w.port), DesiredResources(w), EnvConfigMapName(w), SecretName(w));
    Deployment(
      Meta(Labels(w), ""),
      DeploymentSpec(Replicas(w), map["app" := Name(w)], Labels(w), DesiredAffinity(env, w), [container]))
  }

  function DesiredService(w: WorkerAppSpec): Service {
    Service(Meta(Labels(w), ""), ClusterIP(map["app" := Name(w)], ToInt32(w.port), "TCP"))
  }

  // ---------------------------------------------------------------------------
  // Desired IngressRoute

  function IngressHost(env: Env, w: WorkerAppSpec): string {
    w.workerID + "-" + w.ownerID + ".worker." + env.domain
  }

  function DesiredIngressRoute(env: Env, w: WorkerAppSpec, resourceVersion: string): IngressRoute {
    IngressRoute(
      Meta(Labels(w), resourceVersion),
      ["websecure"],
      "Host(`" + IngressHost(env, w) + "`)",
      "Rule",
      [RouteBackend(Name(w), Some(env.workerNamespace), w.port as int)],
      "worker-tls")
  }

  // ---------------------------------------------------------------------------
  // Ensure steps

  /** A write call whose outcome is `outcome`: on success the cluster becomes `after`. */
  function Commit(before: Cluster, after: Cluster, call: WriteCall, outcome: Outcome): Step {
    if outcome.Succeeds? then Step(after, call, None) else Step(before, call, Some(outcome.msg))
  }

  /** Get-or-create / update of the worker Deployment. `get` answers the Get
      call when it fails for a reason other than not-found; `write` answers the
      Create or Update that follows. */
  function EnsureDeployment(env: Env, clients: Clients, w: WorkerAppSpec, c: Cluster, get: Outcome, write: Outcome): (r: Step)
    ensures var ref := Ref(env.workerNamespace, Name(w));
            && (r.write == CreateCall <==> clients.core && get.Succeeds? && ref !in c.deployments)
            && (r.write == UpdateCall <==> clients.core && get.Succeeds? && ref in c.deployments)
            && (r.err.None? <==> clients.core && get.Succeeds? && write.Succeeds?)
            && (!clients.core ==> r.err == Some(ClientNotInitialized))
            && (clients.core && get.Fails? ==> r.err == Some(get.msg))
            && (r.write != NoWrite && write.Fails? ==> r.err == Some(write.msg))
            && (r.err.None? ==> r.cluster == c.(deployments := c.deployments[ref := DesiredDeployment(env, w)]))
            && (r.err.Some? ==> r.cluster == c)
  {
    if !clients.core then Step(c, NoWrite, Some(ClientNotInitialized))
    else if get.Fails? then Step(c, NoWrite, Some(get.msg))
    else
      var ref := Ref(env.workerNamespace, Name(w));
      var after := c.(deployments := c.deployments[ref := DesiredDeployment(env, w)]);
      Commit(c, after, if ref !in c.deployments then CreateCall else UpdateCall, write)
  }

  /** Create-if-absent of the worker Service; an existing Service is never touched. */
  function EnsureService(env: Env, clients: Clients, w: WorkerAppSpec, c: Cluster, get: Outcome, write: Outcome): (r: Step)
    ensures var ref := Ref(env.workerNamespace, Name(w));
            && (r.write != NoWrite <==> clients.core && get.Succeeds? && ref !in c.services)
            && (r.write != UpdateCall)
            && (ref in c.services ==> r.cluster == c)
            && (r.err.Some? ==> r.cluster == c)
            && (r.err.None? <==> clients.core && get.Succeeds? && (ref in c.services || write.Succeeds?))
            && (!clients.core ==> r.err == Some(ClientNotInitialized))
            && (clients.core && get.Fails? ==> r.err == Some(get.msg))
            && (r.write != NoWrite && write.Fails? ==> r.err == Some(write.msg))
            && (r.err.None? ==>
                  && ref in r.cluster.services
                  && r.cluster.services[ref] == if ref in c.services then c.services[ref] else DesiredService(w))
            && (r.cluster == c || r.cluster == c.(services := c.services[ref := DesiredService(w)]))
  {
    if !clients.core then Step(c, NoWrite, Some(ClientNotInitialized))
    else if get.Fails? then Step(c, NoWrite, Some(get.msg))
    else
      var ref := Ref(env.workerNamespace, Name(w));
      if ref in c.services then Step(c, NoWrite, None)
      else Commit(c, c.(services := c.services[ref := DesiredService(w)]), CreateCall, write)
  }

  /** Deletes, in `keys` order, every key present in `data`; the flag says whether
      anything was deleted. */
  function StripKeys(data: map<string, string>, keys: seq<string>): (r: (map<string, string>, bool))
    ensures r.0.Keys == data.Keys - (set k | k in keys)
    ensures forall k :: k in r.0 ==> r.0[k] == data[k]
    ensures r.1 <==> exists k :: k in keys && k in data
    decreases |keys|
  {
    if |keys| == 0 then (data, false)
    else
      var rest := StripKeys(data - {keys[0]}, keys[1..]);
      assert forall k :: k in keys ==> k == keys[0] || k in keys[1..];
      (rest.0, keys[0] in data || rest.1)
  }

  predicate HasReservedKey(data: map<string, string>) {
    exists k :: k in ReservedKeys && k in data
  }

  /** Creates the worker's env config map empty when absent; when present,
      strips every reserved key and writes only if one was there. */
  function EnsureConfigMap(env: Env, clients: Clients, w: WorkerAppSpec, c: Cluster, get: Outcome, write: Outcome): (r: Step)
    ensures var ref := Ref(env.workerNamespace, EnvConfigMapName(w));
            && (r.write == CreateCall <==> clients.core && get.Succeeds? && ref !in c.configMaps)
            && (r.write == UpdateCall <==> clients.core && get.Succeeds? && ref in c.configMaps && HasReservedKey(c.configMaps[ref].data))
            && (r.err.None? <==> clients.core && get.Succeeds? && (r.write == NoWrite || write.Succeeds?))
            && (!clients.core ==> r.err == Some(ClientNotInitialized))
            && (clients.core && get.Fails? ==> r.err == Some(get.msg))
            && (r.write != NoWrite && write.Fails? ==> r.err == Some(write.msg))
            && (r.err.Some? ==> r.cluster == c)
            && (r.err.None? ==> ref in r.cluster.configMaps && !HasReservedKey(r.cluster.configMaps[ref].data))
            && (r.err.None? && ref !in c.configMaps ==> r.cluster.configMaps[ref].data == map[])
            && (r.err.None? && ref in c.configMaps ==>
                  r.cluster.configMaps[ref] == c.configMaps[ref].(data := c.configMaps[ref].data - ReservedKeys))
            && r.cluster == c.(configMaps := r.cluster.configMaps)
            && r.cluster.configMaps - {ref} == c.configMaps - {ref}
  {
    if !clients.core then Step(c, NoWrite, Some(ClientNotInitialized))
    else if get.Fails? then Step(c, NoWrite, Some(get.msg))
    else
      var ref := Ref(env.workerNamespace, EnvConfigMapName(w));
      if ref !in c.configMaps then
        var cm := ConfigMap(Meta(Labels(w), ""), map[]);
        Commit(c, c.(configMaps := c.configMaps[ref := cm]), CreateCall, write)
      else
        var existing := c.configMaps[ref];
        var stripped := StripKeys(existing.data, ReservedEnvKeys);
        assert stripped.0 == existing.data - ReservedKeys;
        if stripped.1 then
          Commit(c, c.(configMaps := c.configMaps[ref := existing.(data := stripped.0)]), UpdateCall, write)
        else
          Step(c, NoWrite, None)
  }

  /** Creates the worker's secret holding exactly the system keys when absent;
      when present, overwrites the system keys and keeps every other key. It
      always writes. */
  function EnsureSecret(env: Env, clients: Clients, w: WorkerAppSpec, c: Cluster, get: Outcome, write: Outcome): (r: Step)
    ensures var ref := Ref(env.workerNamespace, SecretName(w));
            && (r.write == CreateCall <==> clients.core && get.Succeeds? && ref !in c.secrets)
            && (r.write == UpdateCall <==> clients.core && get.Succeeds? && ref in c.secrets)
            && (r.err.None? <==> clients.core && get.Succeeds? && write.Succeeds?)
            && (!clients.core ==> r.err == Some(ClientNotInitialized))
            && (clients.core && get.Fails? ==> r.err == Some(get.msg))
            && (r.write != NoWrite && write.Fails? ==> r.err == Some(write.msg))
            && (r.err.Some? ==> r.cluster == c)
            && (r.err.None? ==> ref in r.cluster.secrets && (forall k :: k in ReservedKeys ==>
                  k in r.cluster.secrets[ref].data && r.cluster.secrets[ref].data[k] == SystemSecretData(env, w)[k]))
            && (r.err.None? && ref !in c.secrets ==> r.cluster.secrets[ref].data.Keys == ReservedKeys)
            && (r.err.None? && ref in c.secrets ==>
                  && r.cluster.secrets[ref].data.Keys == c.secrets[ref].data.Keys + ReservedKeys
                  && (forall k :: k in c.secrets[ref].data && k !in ReservedKeys ==>
                        r.cluster.secrets[ref].data[k] == c.secrets[ref].data[k]))
            && r.cluster == c.(secrets := r.cluster.secrets)
            && r.cluster.secrets - {ref} == c.secrets - {ref}
  {
    if !clients.core then Step(c, NoWrite, Some(ClientNotInitialized))
    else if get.Fails? then Step(c, NoWrite, Some(get.msg))
    else
      var ref := Ref(env.workerNamespace, SecretName(w));
      if ref !in c.secrets then
        var secret := Secret(Meta(Labels(w), ""), SystemSecretData(env, w));
        Commit(c, c.(secrets := c.secrets[ref := secret]), CreateCall, write)
      else
        var existing := c.secrets[ref];
        var merged := existing.(data := existing.data + SystemSecretData(env, w));
        Commit(c, c.(secrets := c.secrets[ref := merged]), UpdateCall, write)
  }

  /** Create-or-update of the worker IngressRoute; an update carries the existing
      object's resource version. */
  function EnsureIngressRoute(env: Env, clients: Clients, w: WorkerAppSpec, c: Cluster, get: Outcome, write: Outcome): (r: Step)
    ensures var ref := Ref(env.ingressNamespace, Name(w));
            && (r.write == CreateCall <==> clients.dynamic && get.Succeeds? && ref !in c.ingressRoutes)
            && (r.write == UpdateCall <==> clients.dynamic && get.Succeeds? && ref in c.ingressRoutes)
            && (r.err.None? <==> clients.dynamic && get.Succeeds? && write.Succeeds?)
            && (!clients.dynamic ==> r.err == Some(DynamicClientNotInitialized))
            && (clients.dynamic && get.Fails? ==> r.err == Some(get.msg))
            && (r.write != NoWrite && write.Fails? ==> r.err == Some(write.msg))
            && (r.err.Some? ==> r.cluster == c)
            && (r.err.None? ==>
                  && ref in r.cluster.ingressRoutes
                  && r.cluster.ingressRoutes[ref].matchRule == "Host(`" + w.workerID + "-" + w.ownerID + ".worker." + env.domain + "`)"
                  && r.cluster.ingressRoutes[ref].meta.resourceVersion ==
                       (if ref in c.ingressRoutes then c.ingressRoutes[ref].meta.resourceVersion else ""))
            && r.cluster == c.(ingressRoutes := r.cluster.ingressRoutes)
            && r.cluster.ingressRoutes - {ref} == c.ingressRoutes - {ref}
  {
    if !clients.dynamic then Step(c, NoWrite, Some(DynamicClientNotInitialized))
    else if get.Fails? then Step(c, NoWrite, Some(get.msg))
    else
      var ref := Ref(env.ingressNamespace, Name(w));
      if ref !in c.ingressRoutes then
        Commit(c, c.(ingressRoutes := c.ingressRoutes[ref := DesiredIngressRoute(env, w, "")]), CreateCall, write)
      else
        var rv := c.ingressRoutes[ref].meta.resourceVersion;
        Commit(c, c.(ingressRoutes := c.ingressRoutes[ref := DesiredIngressRoute(env, w, rv)]), UpdateCall, write)
  }

  // ---------------------------------------------------------------------------
  // Re-running a step

  /** A second EnsureConfigMap right after a successful one issues no write. */
  lemma ConfigMapSecondRunWritesNothing(env: Env, clients: Clients, w: WorkerAppSpec, c: Cluster,
                                        get1: Outcome, write1: Outcome, write2: Outcome)
    requires EnsureConfigMap(env, clients, w, c, get1, write1).err.None?
    ensures var c1 := EnsureConfigMap(env, clients, w, c, get1, write1).cluster;
            var second := EnsureConfigMap(env, clients, w, c1, Succeeds, write2);
            second.write == NoWrite && second.err.None? && second.cluster == c1
  {
  }

  /** A second EnsureService never writes once the Service exists. */
  lemma ServiceSecondRunWritesNothing(env: Env, clients: Clients, w: WorkerAppSpec, c: Cluster,
                                      get1: Outcome, write1: Outcome, write2: Outcome)
    requires EnsureService(env, clients, w, c, get1, write1).err.None?
    ensures var c1 := EnsureService(env, clients, w, c, get1, write1).cluster;
            var second := EnsureService(env, clients, w, c1, Succeeds, write2);
            second.write == NoWrite && second.cluster == c1
  {
  }

  /** EnsureSecret writes on every run, but a second successful run leaves the
      cluster as the first one did. */
  lemma SecretSecondRunChangesNothing(env: Env, clients: Clients, w: WorkerAppSpec, c: Cluster,
                                      get1: Outcome, write1: Outcome)
    requires EnsureSecret(env, clients, w, c, get1, write1).err.None?
    ensures var c1 := EnsureSecret(env, clients, w, c, get1, write1).cluster;
            var second := EnsureSecret(env, clients, w, c1, Succeeds, Succeeds);
            second.write == UpdateCall && second.cluster == c1
  {
    var ref := Ref(env.workerNamespace, SecretName(w));
    var c1 := EnsureSecret(env, clients, w, c, get1, write1).cluster;
    var d1 := c1.secrets[ref].data;
    var sys := SystemSecretData(env, w);
    assert d1 + sys == d1;
    assert c1.secrets[ref].(data := d1 + sys) == c1.secrets[ref];
  }

  /** Running EnsureDeployment again after it succeeded updates and converges
      to the same cluster. */
  lemma DeploymentRerunStable(env: Env, clients: Clients, w: WorkerAppSpec, c: Cluster, get1: Outcome, write1: Outcome)
    requires EnsureDeployment(env, clients, w, c, get1, write1).err.None?
    ensures var c1 := EnsureDeployment(env, clients, w, c, get1, write1).cluster;
            EnsureDeployment(env, clients, w, c1, Succeeds, Succeeds) == Step(c1, UpdateCall, None)
  {
  }

  /** Running EnsureIngressRoute again after it succeeded updates, keeps the
      stored resource version, and converges to the same cluster. */
  lemma IngressRouteRerunStable(env: Env, clients: Clients, w: WorkerAppSpec, c: Cluster, get1: Outcome, write1: Outcome)
    requires EnsureIngressRoute(env, clients, w, c, get1, write1).err.None?
    ensures var c1 := EnsureIngressRoute(env, clients, w, c, get1, write1).cluster;
            EnsureIngressRoute(env, clients, w, c1, Succeeds, Succeeds) == Step(c1, UpdateCall, None)
  {
  }

  /** The reserved-key rule: after both store steps succeed, every reserved key is
      in the secret with its system value and none is in the config map, whatever
      either store held before. The two steps touch different maps, so the rule
      holds in either order. */
  lemma ReservedKeysEnforced(env: Env, clients: Clients, w: WorkerAppSpec, c: Cluster,
                             g1: Outcome, w1: Outcome, g2: Outcome, w2: Outcome)
    requires EnsureConfigMap(env, clients, w, c, g1, w1).err.None?
    requires EnsureSecret(env, clients, w, EnsureConfigMap(env, clients, w, c, g1, w1).cluster, g2, w2).err.None?
    ensures var c2 := EnsureSecret(env, clients, w, EnsureConfigMap(env, clients, w, c, g1, w1).cluster, g2, w2).cluster;
            var cmRef := Ref(env.workerNamespace, EnvConfigMapName(w));
            var secRef := Ref(env.workerNamespace, SecretName(w));
            && cmRef in c2.configMaps && secRef in c2.secrets
            && (forall k :: k in ReservedKeys ==> k !in c2.configMaps[cmRef].data)
            && (forall k :: k in ReservedKeys ==> k in c2.secrets[secRef].data && c2.secrets[secRef].data[k] == SystemSecretData(env, w)[k])
  {
  }

  // ---------------------------------------------------------------------------
  // Deletion

  /** The answers of the five best-effort deletes DeleteAll issues. */
  datatype DeleteOutcomes = DeleteOutcomes(
    deployment: Outcome, service: Outcome, configMap: Outcome, secret: Outcome, ingressRoute: Outcome)

  /** Best-effort delete of the five sub-resources; errors are ignored, and a
      missing client skips its deletes. Each delete removes only its own target. */
  function DeleteAll(env: Env, clients: Clients, w: WorkerAppSpec, c: Cluster, outcomes: DeleteOutcomes): (c': Cluster)
    ensures var ns := env.workerNamespace;
            && RemovesOnly(c.deployments, c'.deployments, Ref(ns, Name(w)), clients.core && outcomes.deployment.Succeeds?)
            && RemovesOnly(c.services, c'.services, Ref(ns, Name(w)), clients.core && outcomes.service.Succeeds?)
            && RemovesOnly(c.configMaps, c'.configMaps, Ref(ns, EnvConfigMapName(w)), clients.core && outcomes.configMap.Succeeds?)
            && RemovesOnly(c.secrets, c'.secrets, Ref(ns, SecretName(w)), clients.core && outcomes.secret.Succeeds?)
            && RemovesOnly(c.ingressRoutes, c'.ingressRoutes, Ref(env.ingressNamespace, Name(w)),
                           clients.dynamic && outcomes.ingressRoute.Succeeds?)
            && c'.certificates == c.certificates
  {
    var ns := env.workerNamespace;
    var core := clients.core;
    Cluster(
      Drop(c.deployments, Ref(ns, Name(w)), core && outcomes.deployment.Succeeds?),
      Drop(c.services, Ref(ns, Name(w)), core && outcomes.service.Succeeds?),
      Drop(c.configMaps, Ref(ns, EnvConfigMapName(w)), core && outcomes.configMap.Succeeds?),
      Drop(c.secrets, Ref(ns, SecretName(w)), core && outcomes.secret.Succeeds?),
      Drop(c.ingressRoutes, Ref(env.ingressNamespace, Name(w)), clients.dynamic && outcomes.ingressRoute.Succeeds?),
      c.certificates)
  }

  /** Deleting again after a full delete changes nothing, whatever the second
      round's calls answer. */
  lemma DeleteAllRepeatable(env: Env, w: WorkerAppSpec, c: Cluster, clients: Clients, outcomes: DeleteOutcomes)
    ensures var all := DeleteOutcomes(Succeeds, Succeeds, Succeeds, Succeeds, Succeeds);
            var both := Clients(true, true);
            var once := DeleteAll(env, both, w, c, all);
            DeleteAll(env, clients, w, once, outcomes) == once
  {
    var all := DeleteOutcomes(Succeeds, Succeeds, Succeeds, Succeeds, Succeeds);
    var once := DeleteAll(env, Clients(true, true), w, c, all);
    var ns := env.workerNamespace;
    assert once.deployments - {Ref(ns, Name(w))} == once.deployments;
    assert once.services - {Ref(ns, Name(w))} == once.services;
    assert once.configMaps - {Ref(ns, EnvConfigMapName(w))} == once.configMaps;
    assert once.secrets - {Ref(ns, SecretName(w))} == once.secrets;
    assert once.ingressRoutes - {Ref(env.ingressNamespace, Name(w))} == once.ingressRoutes;
  }

  // ---------------------------------------------------------------------------
  // A worked example

  /** Worker `abc123` of owner `u1` with no overrides: name `w-abc123-u1`, one
      replica, CPU "1", memory "500Mi", ephemeral storage "2Gi", no region term. */
  lemma DefaultWorkerExample(env: Env)
    ensures var w := WorkerAppSpec("abc123", "u1", "sk", "nginx:latest", 8080, "", "", "", 0, "");
            var d := DesiredDeployment(env, w);
            && Name(w) == "w-abc123-u1"
            && d.spec.replicas == 1
            && d.spec.containers[0].resources.requests == ResourceList("1", "500Mi", "2Gi")
            && d.spec.containers[0].containerPort == 8080
            && d.spec.affinity.requiredNode.None?
  {
  }
}
