/** An abstract Kubernetes cluster: one map per resource kind the core touches,
    keyed by namespace and name, holding typed resource descriptions. The model
    never decides whether an API call fails; that answer is always an input
    (`Wrappers.Outcome`). */
module Cluster {
  import opened Wrappers

  /** The object address inside one kind: namespace and name. */
  datatype Ref = Ref(namespace: string, name: string)

  /** Object metadata the model keeps: labels and the optimistic-concurrency token. */
  datatype Meta = Meta(labels: map<string, string>, resourceVersion: string)

  /** The fields of a Deployment that EnsureDeployment sets. */
  datatype ResourceList = ResourceList(cpu: string, memory: string, ephemeralStorage: string)

  datatype Resources = Resources(limits: ResourceList, requests: ResourceList)

  /** Soft pod-affinity toward pods carrying `matchLabels` in `namespaces`. */
  datatype PreferredPodTerm = PreferredPodTerm(
    weight: int,
    matchLabels: map<string, string>,
    namespaces: seq<string>,
    topologyKey: string)

  /** One hard node-selector requirement `key operator values`. */
  datatype NodeRequirement = NodeRequirement(key: string, operator: string, values: seq<string>)

  datatype Affinity = Affinity(
    preferredPod: seq<PreferredPodTerm>,
    requiredNode: Option<NodeRequirement>)

  /** A container of the pod template; `envFromConfigMap` and `envFromSecret`
      name the config map and secret whose entries become environment variables. */
  datatype Container = Container(
    name: string,
    image: string,
    containerPort: int,
    resources: Resources,
    envFromConfigMap: string,
    envFromSecret: string)

  datatype DeploymentSpec = DeploymentSpec(
    replicas: int,
    selector: map<string, string>,
    templateLabels: map<string, string>,
    affinity: Affinity,
    containers: seq<Container>)

  datatype Deployment = Deployment(meta: Meta, spec: DeploymentSpec)

  /** A Service is either a selector-based cluster service on one TCP port, or an
      ExternalName alias to another host. */
  datatype ServiceSpec =
    | ClusterIP(selector: map<string, string>, port: int, protocol: string)
    | ExternalName(externalName: string)

  datatype Service = Service(meta: Meta, spec: ServiceSpec)

  datatype ConfigMap = ConfigMap(meta: Meta, data: map<string, string>)

  /** Secret values are bytes in the API; the model keeps the strings they were built from. */
  datatype Secret = Secret(meta: Meta, data: map<string, string>)

  /** A backend of an IngressRoute rule; `namespace` is omitted by some callers. */
  datatype RouteBackend = RouteBackend(name: string, namespace: Option<string>, port: int)

  /** A Traefik IngressRoute with one rule. */
  datatype IngressRoute = IngressRoute(
    meta: Meta,
    entryPoints: seq<string>,
    matchRule: string,
    ruleKind: string,
    services: seq<RouteBackend>,
    tlsSecretName: string)

  /** A cert-manager Certificate request. */
  datatype Certificate = Certificate(
    meta: Meta,
    secretName: string,
    dnsNames: seq<string>,
    issuerName: string,
    issuerKind: string)

  datatype Cluster = Cluster(
    deployments: map<Ref, Deployment>,
    services: map<Ref, Service>,
    configMaps: map<Ref, ConfigMap>,
    secrets: map<Ref, Secret>,
    ingressRoutes: map<Ref, IngressRoute>,
    certificates: map<Ref, Certificate>)

  /** Package-level settings of the k8s package (namespaces and the base domain),
      set outside the files this model covers. */
  datatype Env = Env(
    workerNamespace: string,
    ingressNamespace: string,
    combinatorNamespace: string,
    domain: string)

  /** Which of the process-wide clients were initialised (Go: non-nil handles). */
  datatype Clients = Clients(core: bool, dynamic: bool)

  /** What one ensure-step did to the cluster: at most one write call. */
  datatype WriteCall = NoWrite | CreateCall | UpdateCall

  /** The result of one ensure-step: the cluster afterwards, the write issued, the error returned. */
  datatype Step = Step(cluster: Cluster, write: WriteCall, err: Error)

  /** Exactly `r` is removed from `before` when `removed`, and nothing else
      changes: the shape of one best-effort delete call. */
  ghost predicate RemovesOnly<V>(before: map<Ref, V>, after: map<Ref, V>, r: Ref, removed: bool) {
    && after.Keys <= before.Keys
    && (forall k :: k in after ==> after[k] == before[k])
    && (removed ==> r !in after)
    && (forall k :: k in before && (k != r || !removed) ==> k in after)
  }

  /** A delete call on one map: `ok` says it succeeded (not-found counts as success,
      since the object is then gone either way). */
  function Drop<V>(m: map<Ref, V>, r: Ref, ok: bool): (m': map<Ref, V>)
    ensures RemovesOnly(m, m', r, ok)
  {
    if ok then m - {r} else m
  }
}
