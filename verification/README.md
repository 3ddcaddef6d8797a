# A Dafny model of the console's worker, custom-domain and job logic

The console is a control plane that deploys user "workers" onto Kubernetes, lets
users attach custom domains to them, gives each user a database on a shared
CockroachDB cluster, and runs background jobs for these tasks. This project
models the deterministic core of that logic in Dafny and proves properties of
the model:

- **Worker reconciler** (`worker_controller.dfy`, module `WorkerController`).
  - Derives the worker's resource names and its desired Deployment, Service and
    IngressRoute from a `WorkerAppSpec`.
  - Models the five get-or-create / update steps as separate transitions over an
    abstract cluster.
  - Covers the reserved-key rule that keeps system variables out of the config
    map and forces them into the secret.
  - Covers best-effort deletion.
- **Custom-domain claims** (`custom_domain.dfy`, module `CustomDomain`).
  - The claim record: hex token, TXT record name and value.
  - The TXT and CNAME checks over given DNS answers.
  - The bounded verification run, a recursion over twelve per-attempt
    observations.
  - Three-step provisioning that stops at the first failure.
  - Deletion: the database row first, then best-effort cluster deletes.
- **Per-user database naming** (`rdb.dfy`, module `Rdb`).
  - Identifier sanitising; the role, database, schema and secret names.
  - The connection string.
  - The password generator.
  - The schema-listing prefix strip.
- **Background jobs** (`jobs.dfy`, module `Jobs`).
  - `Type` and `ID` of every job.
  - `Do` of the deploy, sync-env, sync-secret, delete and register jobs, over the
    cluster, a log of database status writes and a record of external calls.
- **KV handlers** (`combinator_handler.dfy`, module `CombinatorHandler`): append
  and remove-by-id on a user's KV list.
- **Verification codes** (`auth.dfy`, module `Auth`): the six-digit zero-padded
  code.

Shared pieces:

- `wrappers.dfy`: `Option`, `Result` and `Outcome`. An `Outcome` is the answer of
  a call this model does not execute.
- `text.dfy`: Go's `%d` and `%06d` formatting with its parser as the inverse,
  `strings.TrimPrefix`, ASCII lower-casing, and the `int` to `int32` conversion
  with its wrap-around written out.
- `cluster.dfy`: the abstract cluster. It holds one map per resource kind, keyed
  by namespace and name.

Every Kubernetes, DNS, SQL and random-number call is an input to the model. A
failing Get stands for an error other than not-found. Absence from the cluster
map stands for not-found.

## Model

| member | source | states |
|---|---|---|
| `WorkerController.NamesShareWorkerName` | k8s/controller/worker.go:24-47 | The worker name is `w-<worker>-<owner>`. The config map and secret names are that name followed by `-env` and `-secret`. The three names are pairwise distinct. |
| `WorkerController.SystemSecretData` | k8s/controller/worker.go:235-241 | The system secret data has exactly the three reserved keys. Their values are the combinator endpoint, the owner id and the owner's secret key. |
| `WorkerController.DesiredDeployment` | k8s/controller/worker.go:57-157 | Replicas are `int32(MaxReplicas)` when MaxReplicas is positive, else 1. CPU, memory and disk default to "1", "500Mi" and "2Gi" only when empty. Limits equal requests. The region node term is present iff MainRegion is non-empty, and its values are exactly `[MainRegion]`. The container draws its environment from the worker's config map and secret. |
| `WorkerController.EnsureDeployment` | k8s/controller/worker.go:52-167 | Create when absent, update when present. A missing client returns "k8s client not initialized" and a get fault returns the get error itself, both with no write. A failed create or update returns its own error and leaves the cluster unchanged. After success the desired Deployment is stored. |
| `WorkerController.EnsureService` | k8s/controller/worker.go:170-196 | The service is created only when absent and never modified when present. A missing client returns "k8s client not initialized" and a get fault returns the get error itself, both with no write. A failed create returns its own error. |
| `WorkerController.StripKeys` | k8s/controller/worker.go:220-227 | The strip loop removes exactly the listed keys and keeps every other value. The dirty flag is set iff some listed key was present. |
| `WorkerController.EnsureConfigMap` | k8s/controller/worker.go:199-232 | A missing client returns "k8s client not initialized" and a get fault returns that error, both with no write. A failed create or update returns its error. When absent, the config map is created with empty data. When present, every reserved key is removed and the other keys are unchanged, and the update is issued iff a reserved key was present. No other object changes. |
| `WorkerController.EnsureSecret` | k8s/controller/worker.go:244-273 | When absent, the secret is created with exactly the system keys. When present, the old data is overridden by the system keys: reserved keys are overwritten and user keys kept. An update is always issued. A missing client, a get fault or a failed write returns that exact error and leaves the cluster unchanged. |
| `WorkerController.EnsureIngressRoute` | k8s/controller/worker.go:276-327 | The host is `<worker>-<owner>.worker.<domain>`. An update carries the existing object's resource version; a create carries none. A missing dynamic client returns "dynamic client not initialized"; a get fault or a failed write returns that exact error. Errors leave the cluster unchanged. |
| `WorkerController.ConfigMapSecondRunWritesNothing` | k8s/controller/worker.go:220-231 | After a successful EnsureConfigMap, a second run issues no write and changes nothing. |
| `WorkerController.ServiceSecondRunWritesNothing` | k8s/controller/worker.go:190-195 | After a successful EnsureService, a second run never writes. |
| `WorkerController.SecretSecondRunChangesNothing` | k8s/controller/worker.go:266-272 | A second EnsureSecret still issues an update but leaves the stored secret as the first run did. |
| `WorkerController.DeploymentRerunStable` | k8s/controller/worker.go:159-166 | After a successful EnsureDeployment, running it again issues an update and leaves the cluster as it was. |
| `WorkerController.IngressRouteRerunStable` | k8s/controller/worker.go:318-326 | After a successful EnsureIngressRoute, running it again issues an update that keeps the stored resource version and leaves the cluster as it was. |
| `WorkerController.ReservedKeysEnforced` | k8s/controller/worker.go:19-21 | After EnsureConfigMap and EnsureSecret both succeed, no reserved key is in the config map. Every reserved key is in the secret with its system value. |
| `WorkerController.DeleteAll` | k8s/controller/worker.go:330-340 | Each of the five deletes removes only its own target, and only when its client exists and the call succeeds. Nothing else changes. |
| `WorkerController.DeleteAllRepeatable` | k8s/controller/worker.go:330-340 | Deleting again after a full delete changes nothing, whatever the second round answers. |
| `WorkerController.DefaultWorkerExample` | k8s/controller/worker.go:57-117 | A worker with no overrides gets one replica, "1"/"500Mi"/"2Gi" and no region term. |
| `CustomDomain.HexEncode` | k8s/customdomain.go:40-44 | Hex encoding yields two lower-case hex digits per byte. |
| `CustomDomain.HexRoundTrip` | k8s/customdomain.go:43 | Decoding the hex spelling gives back the bytes. |
| `CustomDomain.HexEncodeConcat` | k8s/customdomain.go:48 | Encoding works byte by byte, so the first 8 hex digits of a token spell its first 4 bytes. |
| `CustomDomain.GenerateVerifyToken` | k8s/customdomain.go:40-44 | The token is 32 hex characters and decodes to the 16 random bytes. |
| `CustomDomain.NewCustomDomain` | k8s/customdomain.go:47-71 | A failed insert returns its error and no claim. Otherwise the claim has status pending and an 8-hex-digit id that decodes to the first 4 random bytes of its draw. Its TXT name is `_combinator-verify.` + domain, and its TXT value is `combinator-verify=` + a 32-hex token. |
| `CustomDomain.Contains` | k8s/customdomain.go:81 | The scan is true iff the value is among the records. |
| `CustomDomain.VerifyTXT` | k8s/customdomain.go:74-88 | The TXT check is true iff the lookup succeeded and some record equals the TXT value exactly. |
| `CustomDomain.TrimTrailingDot` | k8s/customdomain.go:98-107 | Removes exactly one trailing dot when there is one, else leaves the string unchanged. |
| `CustomDomain.VerifyCNAME` | k8s/customdomain.go:91-116 | The check passes iff the lookup succeeded and the answer, less one trailing dot, equals either the target less one trailing dot or the target as stored. |
| `CustomDomain.CnameTrailingDot` | k8s/customdomain.go:98-109 | The target, and the target with its root dot, both match. A double trailing dot does not match. |
| `CustomDomain.CreateIngressRoute` | k8s/customdomain.go:154-254 | Creation order is service, then certificate, then route, all named `custom-domain-<cdid>`, with TLS secret `custom-domain-tls-<cdid>`. The created list is a prefix of that order, ending at the first failure. Nothing else changes. |
| `CustomDomain.VerifyFrom` | k8s/customdomain.go:121-148 | Provisioning runs iff some remaining attempt passes. It runs at the first passing attempt, with status writes `success` or `success`,`error`. Otherwise all twelve attempts run and `error` is written once. |
| `CustomDomain.StartVerification` | k8s/customdomain.go:119-150 | The run makes between 1 and 12 attempts and writes a non-pending status first. |
| `CustomDomain.FirstPassingAttemptWins` | k8s/customdomain.go:128-139 | When attempt k is the first passing one, the run stops after k+1 attempts and provisions once. It ends `success` iff provisioning succeeded, else the status trace is `success`,`error`. |
| `CustomDomain.NoPassingAttemptFails` | k8s/customdomain.go:145-148 | When no attempt passes, 12 attempts run, `error` is written once, nothing is provisioned and the cluster is unchanged. |
| `CustomDomain.LaterAnswersIgnored` | k8s/customdomain.go:139 | DNS answers after the deciding attempt never affect the run. |
| `CustomDomain.VerificationEndsTerminal` | k8s/customdomain.go:128-148 | A run never writes `pending` and writes at most two statuses. It ends `success` iff all three resources were created. |
| `CustomDomain.ExampleClaimRecord` | k8s/customdomain.go:50-64 | The claim for `example.com` publishes `_combinator-verify.example.com` and starts pending. |
| `CustomDomain.ExampleDomainVerifies` | k8s/customdomain.go:98-131 | A first attempt with the TXT value among other records and the CNAME carrying its root dot succeeds in one attempt. |
| `CustomDomain.DeleteCustomDomain` | k8s/customdomain.go:300-325 | A failed row delete returns its error and leaves the cluster unchanged. Otherwise the service, route and certificate are removed best-effort and nil is returned. |
| `CustomDomain.DeleteRemovesProvisioned` | k8s/customdomain.go:300-325 | After successful provisioning and a fully successful delete, none of the three resources remains. Deleting again is harmless. |
| `Rdb.ReplaceChar` | k8s/rdb.go:42-43 | Replacing one character keeps the length and maps each position independently. |
| `Rdb.ToLower` | k8s/rdb.go:44 | Lower-casing keeps the length and lower-cases each ASCII letter. |
| `Rdb.SanitizeShape` | k8s/rdb.go:41-45 | Sanitize keeps the length and maps each character on its own. The output has no `-`, no `.` and no ASCII upper-case letter. |
| `Rdb.SanitizeFixpoints` | k8s/rdb.go:41-45 | Sanitize leaves a string unchanged iff it is already sanitized. Sanitize is idempotent. |
| `Rdb.SanitizeMergesIds` | k8s/rdb.go:41-45 | `a-b`, `a.b` and `A_B` all sanitize to `a_b`. |
| `Rdb.NamesFromUid` | k8s/rdb.go:58-76 | Username and Database are `user_`/`db_` + sanitize(uid). The secret name is `rdb-secret-` + the raw uid, so it is injective in the uid. |
| `Rdb.DSN` | k8s/rdb.go:68-71 | The DSN is exactly `postgresql://<user>:<password>@<host>:<port>` followed by `/<database>?sslmode=disable`, with nothing in between. |
| `Rdb.DSNIdentifiesUser` | k8s/rdb.go:58-71 | For one address and password, two DSNs are equal iff the role names are equal, and iff the database names are. |
| `Rdb.StripSchemaRows` | k8s/rdb.go:127-133 | Never more names than rows. No name comes out when no row is readable. When every row is readable, name i is row i without its `schema_` prefix. |
| `Rdb.StripSchemaRowsConcat` | k8s/rdb.go:127-133 | Rows are handled one at a time: the names of two batches of rows are those of the first followed by those of the second. |
| `Rdb.StripSchemaRowsMembers` | k8s/rdb.go:127-133 | The names listed are exactly the readable rows without their `schema_` prefix. |
| `Rdb.ListSchemas` | k8s/rdb.go:114-135 | A query error is passed on unchanged. Otherwise every readable row contributes its name without the `schema_` prefix, nothing else is listed, and when all rows are readable the names keep their order. |
| `Rdb.ListSchemasRecoversIds` | k8s/rdb.go:92-131 | Listing the schemas created for a list of ids yields their sanitized ids in order. |
| `Rdb.PasswordCharIndex` | k8s/rdb.go:49 | Every alphabet character has a position. |
| `Rdb.PasswordCharInjective` | k8s/rdb.go:49 | Distinct positions of the alphabet hold distinct characters. |
| `Rdb.GeneratePassword` | k8s/rdb.go:48-55 | The password is 24 characters and character i is alphabet character `i mod 62`. So it is always `abcdefghijklmnopqrstuvwx`. |
| `Rdb.PasswordIsConstant` | k8s/rdb.go:48-55 | The generated characters spell `abcdefghijklmnopqrstuvwx`. |
| `Rdb.GeneratePasswordFrom` | k8s/rdb.go:47-55 | The corrected generator yields 24 alphabet characters drawn from random bytes. |
| `Rdb.PasswordFromCoversAlphabet` | k8s/rdb.go:47-55 | Every 24-character string over the alphabet comes out of the corrected generator for some random input. |
| `Jobs.Type` | handlers/jobs/worker.jobs.go:31-33 | Worker jobs' kinds start with `worker.` and the registration job's kind starts with `auth.`. |
| `Jobs.TypeIdentifiesKind` | handlers/jobs/auth.jobs.go:19-21 | Two jobs share a kind string iff they are of the same variant. |
| `Jobs.ID` | handlers/jobs/auth.jobs.go:23-25 | The registration job's ID is the user id. Every worker job's ID starts with the worker id; a deploy ID is longer than both ids and the two dashes. |
| `Jobs.DeployIdDeterminesVersion` | handlers/jobs/worker.jobs.go:35-37 | The deploy ID is `<worker>-<user>-` followed by the decimal version. For a fixed worker and user, two IDs are equal iff the versions are. |
| `Jobs.DeployIdsCanCollide` | handlers/jobs/worker.jobs.go:35-37 | Different worker and user ids containing `-` can share a deploy ID. |
| `Jobs.WorkerJobIdsIgnorePayload` | handlers/jobs/worker.jobs.go:82-84 | Sync and delete jobs are identified by the worker id alone. |
| `Jobs.CrNamesAgree` | handlers/jobs/worker.jobs.go:46-50 | A deploy requests the custom resource that the delete job for the same worker and owner removes. Its name is the one the reconciler gives every object of that worker. |
| `Jobs.DoDeploy` | handlers/jobs/worker.jobs.go:39-62 | A failed lookup writes version `error`, issues no create and returns `get version N: ...`. A failed create writes version and worker `error` and returns `create CR for version N: ...`. A successful create records success and returns nil. |
| `Jobs.DeployWorkerStatus` | handlers/jobs/worker.jobs.go:40-55 | A deploy marks the worker `error` iff the create failed, and otherwise writes no worker status. |
| `Jobs.SyncTargetsReconciledObjects` | handlers/jobs/worker.jobs.go:90 | The sync jobs target the config map and secret the reconciler maintains for the same worker. |
| `Jobs.DoSyncEnv` | handlers/jobs/worker.jobs.go:86-105 | A missing client, a get fault or an absent config map gives no change, no status write and nil. Otherwise the data is replaced wholesale. Success writes `active`. A failed update writes `error` and returns the error. |
| `Jobs.DoSyncSecret` | handlers/jobs/worker.jobs.go:129-152 | The same behaviour on the worker's secret. |
| `Jobs.SyncSecretCanDropReservedKey` | handlers/jobs/worker.jobs.go:141-145 | A reserved key missing from the job's map is gone from the secret after a successful sync. |
| `Jobs.SyncEnvCanInjectReservedKey` | handlers/jobs/worker.jobs.go:98 | A reserved key in the job's map lands in the config map. |
| `Jobs.EnsureSecretRepairsSync` | k8s/controller/worker.go:266-272 | The next successful EnsureSecret after a sync restores every system key and keeps the user's other keys. |
| `Jobs.EnsureConfigMapRepairsSync` | k8s/controller/worker.go:220-231 | The next successful EnsureConfigMap after a sync removes the system keys and keeps the user's other keys. |
| `Jobs.DoDeleteWorkerCR` | handlers/jobs/worker.jobs.go:174-177 | The delete job asks for `WorkerName(worker, user)` to be deleted and returns that call's error. |
| `Jobs.DoRegisterUser` | handlers/jobs/auth.jobs.go:27-38 | Database initialisation is requested only when the manager exists, and nil is always returned. |
| `Jobs.Do` | handlers/jobs/auth.jobs.go:27-38 | Only sync jobs change the modelled objects; deploy and delete record a custom-resource request instead. A job that fails leaves the modelled objects unchanged, and the registration job never fails. |
| `Jobs.LoggedOutcomesIgnored` | handlers/jobs/worker.jobs.go:58-61 | The outcome of recording a deploy's success, and that of database initialisation, never change a run. |
| `Jobs.DeployIgnoresJobIds` | handlers/jobs/worker.jobs.go:39-50 | A deploy's effects depend on the version record, not on the job's worker and user ids. |
| `CombinatorHandler.CreateKV` | handlers/combinator.handler.go:49-82 | A bad body gives 400, and a config load failure gives 500. Otherwise the list to save is the old list with the new entry appended, and the status is 200 whether or not the save fails. |
| `CombinatorHandler.CreateKVAppends` | handlers/combinator.handler.go:67-72 | The saved list is one longer, keeps the old entries as its prefix and ends with the new entry. |
| `CombinatorHandler.WithoutId` | handlers/combinator.handler.go:128-136 | No remaining entry has the id. Every entry with another id is kept, and nothing new appears. |
| `CombinatorHandler.WithoutIdConcat` | handlers/combinator.handler.go:128-136 | Filtering distributes over concatenation, so kept entries keep their relative order. |
| `CombinatorHandler.WithoutAbsentId` | handlers/combinator.handler.go:128-136 | When no entry has the id, the list is unchanged. |
| `CombinatorHandler.WithoutIdRemovesAll` | handlers/combinator.handler.go:130-134 | Exactly as many entries are dropped as carry the id, so all duplicates go. |
| `CombinatorHandler.RemoveById` | handlers/combinator.handler.go:128-136 | The loop computes the filtered list and reports whether any entry matched. |
| `CombinatorHandler.DeleteKV` | handlers/combinator.handler.go:116-150 | A config load failure gives 500. An absent id gives 404 with nothing saved. Otherwise the filtered list is saved, and the status is 200 or 500 according to the save. |
| `CombinatorHandler.CreateThenDeleteRestores` | handlers/combinator.handler.go:67-136 | Deleting an entry just created under a fresh id gives back the original list. |
| `Auth.GenerateCode` | auth.go:57-59 | The code is six characters, all decimal digits. |
| `Auth.GenerateCodeValue` | auth.go:57-59 | The code reads back as the clock value mod 1000000. |
| `Auth.GenerateCodePadding` | auth.go:57-59 | The code starts with `0` iff the value is below 100000. |
| `Text.ToInt32` | k8s/controller/worker.go:57-60 | `int32(x)` keeps the low 32 bits in two's complement and is the identity on values in range. |
| `Text.IntToDecimal` | handlers/jobs/worker.jobs.go:36 | `%d` prints a leading `-` iff the value is negative. |
| `Text.IntToDecimalInjective` | handlers/jobs/worker.jobs.go:36 | Distinct integers print differently. |
| `Text.NatToDecimal` | auth.go:58 | A non-negative value prints as digits with no leading zero. |
| `Text.ParseFormatsBack` | auth.go:58 | Parsing undoes decimal printing. |
| `Text.PadLeft` | auth.go:58 | Padding reaches the width, keeps the string as a suffix and fills with the pad character. |
| `Text.TrimPrefix` | k8s/rdb.go:131 | When the prefix is present, it followed by the result gives the input; otherwise the input is returned unchanged. |
| `Text.AsciiLower` | k8s/rdb.go:44 | An upper-case ASCII letter moves to lower case, and every other character is unchanged. |

## Left out

- Kubernetes, DNS, SQL and random-number calls are inputs: the model does not
  model their semantics.
  - API-server answers are inputs: conflicts and AlreadyExists on a racing
    create. The server's assignment of resource versions is not modelled: a
    created object carries an empty version.
  - `net.LookupTXT` and `net.LookupCNAME` resolution is an input.
  - SQL is an input, including the `LIKE 'schema_%'` pattern, whose `_` is itself
    a wildcard. `ListSchemas` takes the rows the query returned.
- The goroutine and the five-second sleep in `StartVerification`: attempts are
  modelled in sequence; wall-clock timing cannot be stated here.
- `crypto/rand`: the random bytes are a parameter.
  - `rand.Read`'s own error is ignored by the source, and so by the model.
- `resource.MustParse` quantities are opaque strings. An unparseable quantity,
  which panics in the source, is not modelled.
- `CustomDomain` object fields `ID` and `CreatedAt`: the database and the clock
  own them.
- `GetCustomDomain`, `ListCustomDomains` and `ListWorkers`: list and convert
  wrappers over external queries.
- The `init` function of `k8s/rdb.go`, which reads the database host, port and
  admin DSN from environment variables: `DSN` takes the address as a
  parameter.
- `CreateSchema`, `DeleteSchema`, `SchemaExists`, `InitUserRDB` and the
  admin-DSN variable of `k8s/rdb.go`: SQL statements and secret writes whose
  effect lies entirely in the database. Only the schema name they share is
  modelled.
- `CreateWorkerAppCR` and `DeleteWorkerAppCR` are not part of this model. The
  deploy and delete jobs record the request and take the answer as an input.
- The dblayer status functions are not part of this model. A job's effect on
  them is the list of writes it issues; write failures are ignored by the
  source.
- The background job processor and cron scheduler: their point is concurrency.
- The HTTP plumbing: request binding, the JSON response bodies beyond the status
  and error text, and the handlers other than the KV append and delete
  (`CreateRDB`, `ListRDBs`, `ListKVs`, `DeleteRDB`).
- `CombinatorHandler.CreateKV`: the validator's wording for an empty required
  field belongs to the HTTP framework. The model states only that an error is
  returned, under a placeholder text.
- `GenerateResourceUID` and the combinator config's `UpdateConfig`: the new id
  and the save outcome are inputs.
- `Auth.GenerateCode`: it takes a non-negative clock reading. For a negative
  reading, Go's `%` gives a negative remainder; that case is not modelled.
- `Rdb.ToLower`: it lower-cases ASCII letters only. Go's Unicode case mapping of
  other letters is not modelled.
- bcrypt and JWT helpers of `auth.go`, and the other files of the program: HTTP
  handlers, client set-up and flag parsing.
- `WorkerController.DeleteAll` does not order the five deletes. Each touches a
  different map, so the order does not matter.
- None of the modelled files sequences the five Ensure steps or sets the
  status phase, so each step is a separate transition.
- The TXT record name follows the code, `_combinator-verify.<domain>`.

## Findings

| source | as written | input that shows it | evidently intended | confidence | as-written member | corrected member |
|---|---|---|---|---|---|---|
| k8s/rdb.go:47-55 | `generatePassword` takes character `i mod 62` of the alphabet for position i, so every user gets the same password | any call: the result is always `abcdefghijklmnopqrstuvwx` | a random password, as the function's comment says: each position drawn from the alphabet by a random byte | high (not executed) | `Rdb.GeneratePassword` | `Rdb.GeneratePasswordFrom` |
