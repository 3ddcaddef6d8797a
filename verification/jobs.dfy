/** The background jobs: their `Type` and `ID` strings and what `Do` does to
    the worker's config map or secret, to the database's status records and to
    the external calls it issues. Every external answer is an input (`Oracles`);
    the status store is the log of status writes a run issues. */
module Jobs {
  import opened Wrappers
  import opened Text
  import opened Cluster
  import opened WorkerController

  /** One queued job. */
  datatype Job =
    | DeployWorker(workerID: string, userUID: string, versionID: int64)
    | SyncEnv(workerID: string, userUID: string, data: map<string, string>)
    | SyncSecret(workerID: string, userUID: string, data: map<string, string>)
    | DeleteWorkerCR(workerID: string, userUID: string)
    | RegisterUser(userUID: string)

  const WorkerFamily := "worker."
  const AuthFamily := "auth."
  const DeployType := WorkerFamily + "deploy_worker"
  const SyncEnvType := WorkerFamily + "sync_env"
  const SyncSecretType := WorkerFamily + "sync_secret"
  const DeleteType := WorkerFamily + "delete_worker_cr"
  const RegisterType := AuthFamily + "register_user"

  /** A kind string lies in exactly one family. */
  lemma FamilyOf(family: string, name: string)
    requires family == WorkerFamily || family == AuthFamily
    ensures StartsWith(family + name, WorkerFamily) <==> family == WorkerFamily
    ensures StartsWith(family + name, AuthFamily) <==> family == AuthFamily
  {
    assert (family + name)[..|family|] == family;
    assert (family + name)[0] == family[0];
  }

  /** Both jobs are of the same variant. */
  predicate SameKind(a: Job, b: Job) {
    || (a.DeployWorker? && b.DeployWorker?)
    || (a.SyncEnv? && b.SyncEnv?)
    || (a.SyncSecret? && b.SyncSecret?)
    || (a.DeleteWorkerCR? && b.DeleteWorkerCR?)
    || (a.RegisterUser? && b.RegisterUser?)
  }

  /** The job's kind string: worker jobs live under `worker.`, the user
      registration under `auth.`. */
  function Type(j: Job): (t: string)
    ensures StartsWith(t, "worker.") <==> !j.RegisterUser?
    ensures StartsWith(t, "auth.") <==> j.RegisterUser?
  {
    match j
    case DeployWorker(_, _, _) => FamilyOf(WorkerFamily, "deploy_worker"); DeployType
    case SyncEnv(_, _, _) => FamilyOf(WorkerFamily, "sync_env"); SyncEnvType
    case SyncSecret(_, _, _) => FamilyOf(WorkerFamily, "sync_secret"); SyncSecretType
    case DeleteWorkerCR(_, _) => FamilyOf(WorkerFamily, "delete_worker_cr"); DeleteType
    case RegisterUser(_) => FamilyOf(AuthFamily, "register_user"); RegisterType
  }

  /** The kind string tells the variant apart: two jobs share a `Type` exactly
      when they are of the same variant. */
  lemma TypeIdentifiesKind(a: Job, b: Job)
    ensures Type(a) == Type(b) <==> SameKind(a, b)
  {
  }

  /** The job's identity string: it leads with the worker id for worker jobs
      and is the user id for the registration job. */
  function ID(j: Job): (id: string)
    ensures !j.RegisterUser? ==> StartsWith(id, j.workerID)
    ensures j.RegisterUser? ==> id == j.userUID
    ensures j.DeployWorker? ==> |id| > |j.workerID| + |j.userUID| + 2
  {
    match j
    case DeployWorker(w, u, v) =>
      var id := w + "-" + u + "-" + IntToDecimal(v);
      assert id[..|w|] == w;
      id
    case SyncEnv(w, _, _) => w
    case SyncSecret(w, _, _) => w
    case DeleteWorkerCR(w, _) => w
    case RegisterUser(u) => u
  }

  /** A deploy job's ID ends with the decimal version, after the worker and
      user ids; for a fixed worker and user it tells versions apart. */
  lemma DeployIdDeterminesVersion(w: string, u: string, v1: int64, v2: int64)
    ensures StartsWith(ID(DeployWorker(w, u, v1)), w + "-" + u + "-")
    ensures TrimPrefix(ID(DeployWorker(w, u, v1)), w + "-" + u + "-") == IntToDecimal(v1)
    ensures ID(DeployWorker(w, u, v1)) == ID(DeployWorker(w, u, v2)) <==> v1 == v2
  {
    var p := w + "-" + u + "-";
    TrimPrefixUndoesConcat(p, IntToDecimal(v1));
    TrimPrefixUndoesConcat(p, IntToDecimal(v2));
    IntToDecimalInjective(v1, v2);
  }

  /** The deploy ID is not injective in the worker and user ids once they hold
      a `-`: these two deploy jobs of different workers share one ID. */
  lemma DeployIdsCanCollide()
    ensures ID(DeployWorker("a-b", "c", 1)) == ID(DeployWorker("a", "b-c", 1))
  {
    assert IntToDecimal(1) == "1";
  }

  /** Sync and delete jobs are identified by the worker alone: the user id and
      the payload do not enter the ID. */
  lemma WorkerJobIdsIgnorePayload(w: string, u1: string, u2: string, d1: map<string, string>, d2: map<string, string>)
    ensures ID(SyncEnv(w, u1, d1)) == ID(SyncEnv(w, u2, d2)) == ID(SyncSecret(w, u2, d2)) == ID(DeleteWorkerCR(w, u1)) == w
  {
  }

  // ---------------------------------------------------------------------------
  // External answers and effects

  /** What the database returns for a deploy version: the image and port, the
      worker record (its numeric row id, its public id and its owner) and the
      owner's secret key. */
  datatype DeployVersion = DeployVersion(image: string, port: int64)
  datatype WorkerRecord = WorkerRecord(dbID: int64, wid: string, userUID: string)
  datatype VersionLookup =
    | LookupFailed(msg: string)
    | Found(version: DeployVersion, worker: WorkerRecord, secretKey: string)

  /** A status write against the database. */
  datatype StatusWrite =
    | VersionStatus(versionID: int64, status: string, message: string)
    | WorkerStatus(workerID: string, status: string)
    | VersionSuccess(versionID: int64, workerDbID: int64)

  /** The arguments of a WorkerApp custom-resource create. */
  datatype CrRequest = CrRequest(name: string, workerID: string, userUID: string, image: string, secretKey: string, port: int64)

  /** A call into code outside this model. */
  datatype ExternalCall =
    | CreateWorkerAppCR(request: CrRequest)
    | DeleteWorkerAppCR(name: string)
    | InitUserRdb(userUID: string)

  /** The answers a run receives. `get` is a Get fault other than not-found;
      `rdbManager` is None when the database manager was never set up. */
  datatype Oracles = Oracles(
    lookup: VersionLookup,
    crCall: Outcome,
    recordSuccess: Outcome,
    clients: Clients,
    get: Outcome,
    update: Outcome,
    rdbManager: Option<Outcome>)

  /** What one `Do` did: the cluster afterwards, the status writes and external
      calls issued in order, and the error returned. */
  datatype Run = Run(cluster: Cluster, writes: seq<StatusWrite>, calls: seq<ExternalCall>, err: Error)

  const StatusError := "error"
  const StatusActive := "active"

  // ---------------------------------------------------------------------------
  // deploy

  /** The custom resource a found version asks for; it is named after the
      worker record, not after the job's own fields. */
  function DeployRequest(found: VersionLookup): CrRequest
    requires found.Found?
  {
    CrRequest(WorkerName(found.worker.wid, found.worker.userUID), found.worker.wid, found.worker.userUID,
              found.version.image, found.secretKey, found.version.port)
  }

  /** The deploy job: look the version up, request its custom resource and
      record the result. A failed lookup marks only the version; a failed create
      marks the version and the worker; after a successful create the job
      succeeds whatever recording the success answers. */
  function DoDeploy(c: Cluster, versionID: int64, o: Oracles): (r: Run)
    ensures r.cluster == c
    ensures r.calls == if o.lookup.Found? then [CreateWorkerAppCR(DeployRequest(o.lookup))] else []
    ensures r.err.None? <==> o.lookup.Found? && o.crCall.Succeeds?
    ensures o.lookup.LookupFailed? ==>
              && r.writes == [VersionStatus(versionID, StatusError, o.lookup.msg)]
              && r.err == Some("get version " + IntToDecimal(versionID) + ": " + o.lookup.msg)
    ensures o.lookup.Found? && o.crCall.Fails? ==>
              && r.writes == [VersionStatus(versionID, StatusError, o.crCall.msg), WorkerStatus(o.lookup.worker.wid, StatusError)]
              && r.err == Some("create CR for version " + IntToDecimal(versionID) + ": " + o.crCall.msg)
    ensures r.err.None? ==> r.writes == [VersionSuccess(versionID, o.lookup.worker.dbID)]
  {
    match o.lookup
    case LookupFailed(msg) =>
      Run(c, [VersionStatus(versionID, StatusError, msg)], [],
          Some("get version " + IntToDecimal(versionID) + ": " + msg))
    case Found(_, worker, _) =>
      var call := CreateWorkerAppCR(DeployRequest(o.lookup));
      if o.crCall.Fails? then
        Run(c, [VersionStatus(versionID, StatusError, o.crCall.msg), WorkerStatus(worker.wid, StatusError)], [call],
            Some("create CR for version " + IntToDecimal(versionID) + ": " + o.crCall.msg))
      else
        Run(c, [VersionSuccess(versionID, worker.dbID)], [call], None)
  }

  /** The worker status a run leaves in the log, if any. */
  function LastWorkerStatus(writes: seq<StatusWrite>): Option<string> {
    if |writes| == 0 then None
    else if writes[|writes| - 1].WorkerStatus? then Some(writes[|writes| - 1].status)
    else LastWorkerStatus(writes[..|writes| - 1])
  }

  /** A deploy never marks the worker active and marks it `error` exactly when
      the custom-resource create failed; a failed lookup leaves it alone. */
  lemma DeployWorkerStatus(c: Cluster, versionID: int64, o: Oracles)
    ensures var r := DoDeploy(c, versionID, o);
            && (LastWorkerStatus(r.writes) == Some(StatusError) <==> o.lookup.Found? && o.crCall.Fails?)
            && (LastWorkerStatus(r.writes).None? <==> !(o.lookup.Found? && o.crCall.Fails?))
  {
    var r := DoDeploy(c, versionID, o);
    if o.lookup.Found? && o.crCall.Fails? {
      assert r.writes[|r.writes| - 1] == WorkerStatus(o.lookup.worker.wid, StatusError);
    } else {
      assert r.writes[..|r.writes| - 1] == [];
    }
  }

  // ---------------------------------------------------------------------------
  // sync-env and sync-secret

  /** The config map a sync-env job targets. */
  function SyncEnvRef(env: Env, workerID: string, userUID: string): Ref {
    Ref(env.workerNamespace, WorkerName(workerID, userUID) + "-env")
  }

  /** The secret a sync-secret job targets. */
  function SyncSecretRef(env: Env, workerID: string, userUID: string): Ref {
    Ref(env.workerNamespace, WorkerName(workerID, userUID) + "-secret")
  }

  /** The sync jobs address the very objects the reconciler maintains for the
      worker with the same ids. */
  lemma SyncTargetsReconciledObjects(env: Env, w: WorkerAppSpec)
    ensures SyncEnvRef(env, w.workerID, w.ownerID) == Ref(env.workerNamespace, EnvConfigMapName(w))
    ensures SyncSecretRef(env, w.workerID, w.ownerID) == Ref(env.workerNamespace, SecretName(w))
  {
  }

  /** The sync-env job: when the client is up and the config map exists, its
      data is replaced wholesale by the job's map and the worker is marked
      `active` (or `error`, returning the failure, when the update fails). In
      every other case nothing changes and no error is returned. */
  function DoSyncEnv(env: Env, workerID: string, userUID: string, data: map<string, string>, c: Cluster, o: Oracles): (r: Run)
    ensures var ref := SyncEnvRef(env, workerID, userUID);
            var reached := o.clients.core && o.get.Succeeds? && ref in c.configMaps;
            && r.calls == []
            && (!reached ==> r.cluster == c && r.writes == [] && r.err.None?)
            && (reached ==> r.writes == [WorkerStatus(workerID, if o.update.Succeeds? then StatusActive else StatusError)])
            && (r.err.Some? <==> reached && o.update.Fails?)
            && (r.err.Some? ==> r.cluster == c && r.err.value == "sync env configmap: " + o.update.msg)
            && (reached && o.update.Succeeds? ==>
                  r.cluster == c.(configMaps := c.configMaps[ref := c.configMaps[ref].(data := data)]))
  {
    var ref := SyncEnvRef(env, workerID, userUID);
    if !o.clients.core || o.get.Fails? || ref !in c.configMaps then Run(c, [], [], None)
    else if o.update.Fails? then
      Run(c, [WorkerStatus(workerID, StatusError)], [], Some("sync env configmap: " + o.update.msg))
    else
      Run(c.(configMaps := c.configMaps[ref := c.configMaps[ref].(data := data)]), [WorkerStatus(workerID, StatusActive)], [], None)
  }

  /** The sync-secret job: as sync-env, on the worker's secret. */
  function DoSyncSecret(env: Env, workerID: string, userUID: string, data: map<string, string>, c: Cluster, o: Oracles): (r: Run)
    ensures var ref := SyncSecretRef(env, workerID, userUID);
            var reached := o.clients.core && o.get.Succeeds? && ref in c.secrets;
            && r.calls == []
            && (!reached ==> r.cluster == c && r.writes == [] && r.err.None?)
            && (reached ==> r.writes == [WorkerStatus(workerID, if o.update.Succeeds? then StatusActive else StatusError)])
            && (r.err.Some? <==> reached && o.update.Fails?)
            && (r.err.Some? ==> r.cluster == c && r.err.value == "sync secret: " + o.update.msg)
            && (reached && o.update.Succeeds? ==>
                  r.cluster == c.(secrets := c.secrets[ref := c.secrets[ref].(data := data)]))
  {
    var ref := SyncSecretRef(env, workerID, userUID);
    if !o.clients.core || o.get.Fails? || ref !in c.secrets then Run(c, [], [], None)
    else if o.update.Fails? then
      Run(c, [WorkerStatus(workerID, StatusError)], [], Some("sync secret: " + o.update.msg))
    else
      Run(c.(secrets := c.secrets[ref := c.secrets[ref].(data := data)]), [WorkerStatus(workerID, StatusActive)], [], None)
  }

  /** Sync-secret does not re-inject the system keys: a reserved key missing
      from the job's map is gone from the secret after a successful sync. */
  lemma SyncSecretCanDropReservedKey(env: Env, w: WorkerAppSpec, data: map<string, string>, c: Cluster, o: Oracles, k: string)
    requires k in ReservedKeys && k !in data
    requires SyncSecretRef(env, w.workerID, w.ownerID) in c.secrets
    requires o.clients.core && o.get.Succeeds? && o.update.Succeeds?
    ensures var c1 := DoSyncSecret(env, w.workerID, w.ownerID, data, c, o).cluster;
            var ref := Ref(env.workerNamespace, SecretName(w));
            ref in c1.secrets && k !in c1.secrets[ref].data
  {
    SyncTargetsReconciledObjects(env, w);
  }

  /** Sync-env does not strip the system keys: a reserved key in the job's map
      lands in the config map. */
  lemma SyncEnvCanInjectReservedKey(env: Env, w: WorkerAppSpec, data: map<string, string>, c: Cluster, o: Oracles, k: string)
    requires k in ReservedKeys && k in data
    requires SyncEnvRef(env, w.workerID, w.ownerID) in c.configMaps
    requires o.clients.core && o.get.Succeeds? && o.update.Succeeds?
    ensures var c1 := DoSyncEnv(env, w.workerID, w.ownerID, data, c, o).cluster;
            var ref := Ref(env.workerNamespace, EnvConfigMapName(w));
            ref in c1.configMaps && k in c1.configMaps[ref].data
  {
    SyncTargetsReconciledObjects(env, w);
  }

  /** The next successful EnsureSecret after any sync-secret restores every
      system key with its system value and keeps the user's other keys. */
  lemma EnsureSecretRepairsSync(env: Env, w: WorkerAppSpec, data: map<string, string>, c: Cluster, o: Oracles,
                                get: Outcome, write: Outcome)
    requires EnsureSecret(env, o.clients, w, DoSyncSecret(env, w.workerID, w.ownerID, data, c, o).cluster, get, write).err.None?
    requires o.get.Succeeds? && o.update.Succeeds? && SyncSecretRef(env, w.workerID, w.ownerID) in c.secrets
    ensures var c2 := EnsureSecret(env, o.clients, w, DoSyncSecret(env, w.workerID, w.ownerID, data, c, o).cluster, get, write).cluster;
            var ref := Ref(env.workerNamespace, SecretName(w));
            && ref in c2.secrets
            && (forall k :: k in ReservedKeys ==> k in c2.secrets[ref].data && c2.secrets[ref].data[k] == SystemSecretData(env, w)[k])
            && (forall k :: k in data && k !in ReservedKeys ==> k in c2.secrets[ref].data && c2.secrets[ref].data[k] == data[k])
  {
    SyncTargetsReconciledObjects(env, w);
  }

  /** The next successful EnsureConfigMap after any sync-env removes every
      system key again and keeps the user's other keys. */
  lemma EnsureConfigMapRepairsSync(env: Env, w: WorkerAppSpec, data: map<string, string>, c: Cluster, o: Oracles,
                                   get: Outcome, write: Outcome)
    requires EnsureConfigMap(env, o.clients, w, DoSyncEnv(env, w.workerID, w.ownerID, data, c, o).cluster, get, write).err.None?
    requires o.get.Succeeds? && o.update.Succeeds? && SyncEnvRef(env, w.workerID, w.ownerID) in c.configMaps
    ensures var c2 := EnsureConfigMap(env, o.clients, w, DoSyncEnv(env, w.workerID, w.ownerID, data, c, o).cluster, get, write).cluster;
            var ref := Ref(env.workerNamespace, EnvConfigMapName(w));
            && ref in c2.configMaps
            && !HasReservedKey(c2.configMaps[ref].data)
            && (forall k :: k in data && k !in ReservedKeys ==> k in c2.configMaps[ref].data && c2.configMaps[ref].data[k] == data[k])
  {
    SyncTargetsReconciledObjects(env, w);
  }

  // ---------------------------------------------------------------------------
  // delete and register

  /** The delete job asks for the worker's custom resource to go and returns
      that call's answer. */
  function DoDeleteWorkerCR(c: Cluster, workerID: string, userUID: string, o: Oracles): (r: Run)
    ensures r.cluster == c && r.writes == []
    ensures r.calls == [DeleteWorkerAppCR(WorkerName(workerID, userUID))]
    ensures r.err.None? <==> o.crCall.Succeeds?
    ensures r.err.Some? ==> r.err.value == o.crCall.msg
  {
    Run(c, [], [DeleteWorkerAppCR(WorkerName(workerID, userUID))], if o.crCall.Succeeds? then None else Some(o.crCall.msg))
  }

  /** The registration job sets up the user's database when the manager
      exists, and succeeds whatever that answers. */
  function DoRegisterUser(c: Cluster, userUID: string, o: Oracles): (r: Run)
    ensures r.cluster == c && r.writes == [] && r.err.None?
    ensures r.calls == if o.rdbManager.Some? then [InitUserRdb(userUID)] else []
  {
    Run(c, [], if o.rdbManager.Some? then [InitUserRdb(userUID)] else [], None)
  }

  /** The deploy and delete jobs agree on the custom resource's name: the
      resource a deploy of worker `wid` asks for is the one the delete job for
      the same worker and owner removes, and it carries the name the reconciler
      gives every object of that worker. */
  lemma CrNamesAgree(env: Env, c: Cluster, o: Oracles, versionID: int64, spec: WorkerAppSpec)
    requires o.lookup.Found?
    requires spec.workerID == o.lookup.worker.wid && spec.ownerID == o.lookup.worker.userUID
    ensures var deployed := Do(env, DeployWorker("", "", versionID), c, o).calls;
            var deleted := Do(env, DeleteWorkerCR(spec.workerID, spec.ownerID), c, o).calls;
            && |deployed| == 1 && deployed[0].CreateWorkerAppCR?
            && |deleted| == 1 && deleted[0].DeleteWorkerAppCR?
            && deployed[0].request.name == deleted[0].name == WorkerController.Name(spec)
            && deployed[0].request.workerID == spec.workerID && deployed[0].request.userUID == spec.ownerID
  {
  }

  /** `Do` of any job. */
  function Do(env: Env, j: Job, c: Cluster, o: Oracles): (r: Run)
    ensures !(j.SyncEnv? || j.SyncSecret?) ==> r.cluster == c
    ensures r.err.Some? ==> r.cluster == c
    ensures j.RegisterUser? ==> r.err.None?
    ensures (j.SyncEnv? || j.SyncSecret?) ==> r.calls == []
  {
    match j
    case DeployWorker(_, _, v) => DoDeploy(c, v, o)
    case SyncEnv(w, u, data) => DoSyncEnv(env, w, u, data, c, o)
    case SyncSecret(w, u, data) => DoSyncSecret(env, w, u, data, c, o)
    case DeleteWorkerCR(w, u) => DoDeleteWorkerCR(c, w, u, o)
    case RegisterUser(u) => DoRegisterUser(c, u, o)
  }

  /** Outcomes the jobs only log never change a run: recording a deploy's
      success and initialising the user's database. */
  lemma LoggedOutcomesIgnored(env: Env, j: Job, c: Cluster, o: Oracles, record: Outcome, init: Outcome)
    ensures Do(env, j, c, o.(recordSuccess := record)) == Do(env, j, c, o)
    ensures o.rdbManager.Some? ==> Do(env, j, c, o.(rdbManager := Some(init))) == Do(env, j, c, o)
  {
  }

  /** A deploy's effects come from the version record alone: the job's worker
      and user ids do not reach `Do`. */
  lemma DeployIgnoresJobIds(env: Env, w1: string, u1: string, w2: string, u2: string, v: int64, c: Cluster, o: Oracles)
    ensures Do(env, DeployWorker(w1, u1, v), c, o) == Do(env, DeployWorker(w2, u2, v), c, o)
  {
  }
}
