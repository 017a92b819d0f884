# halldyll-starter: a Dafny model of its RunPod decision logic

halldyll-starter drives GPU pods on RunPod. This project models the parts of
it that make decisions, and proves what those decisions promise.

**Reconciliation engine** (`PodState`, `pod_state.dfy`):
- The local owner keeps a `RunPodState`: a pod name, an optional pod id, a
  target status, the last remote snapshot, a timestamp and a policy.
- `reconcile` first folds a remote observation (`Found`, `NotFound` or
  `Unknown`) into that state.
- Then it lets the auto-terminate policy force the target to `Terminated`.
- Last, it picks exactly one action from an exhaustive decision table.
- The table is the function `Decide`. Each of its five actions is
  characterised by an if-and-only-if.
- The class `RunPodState` assigns its fields as the source does. Each method
  is proved to leave the fields exactly as the specification function
  `ReconcileStep` (or a record update) says.

**State store** (`StateStore`, `state_store.dfy`):
- `JsonFileStateStore` is modelled over a map from paths to documents.
- Its `load` and `save` share one validation.
- Its save sequence is: write `.<file>.tmp`, remove the old file, rename.
  A `FileSystem` object performs it and records every intermediate map.
  This states what a crash at each step leaves behind.

**Retry loops** (`Retry`, `retry.dfy`):
- `RunpodStarter` and `RunpodClient` use the same retry loop:
  - count the attempt and send;
  - stop on success;
  - on a transient failure, sleep while `attempt <= retry_max`, doubling the
    delay up to a cap (5 s for the starter, 10 s for the client).
- The network is an oracle `net(i)`, the reply to the `i`-th request.
- Durations are whole nanoseconds.

**Starter** (`Starter`, `starter.dfy`): the REST start and stop URLs, and the
POST-with-retry calls built on them.

**Client** (`Client`, `client.dfy`): the GraphQL `execute`, including how it
reports GraphQL errors, and how each query method picks its result out of
`data`.

**Orchestrator** (`Orchestrator`, `orchestrator.dfy`):
- `ensure_ready_pod`: list the pods, take the first one with the configured
  name, then reuse it, recreate it or create a new one.
- `wait_for_ready`: poll until the pod is running, has a public IP and maps
  every required port.
- The helpers around these: the `PodLease` endpoint helpers, and the
  comma-separated setting and reconcile-mode parsers.

**Shared code**:
- `text.dfy`: the Rust string operations the core relies on (`trim`,
  `trim_end_matches`, `split`, `join`, `u16::from_str`, decimal rendering).
- `ints.dfy`: the fixed-width integer types.
- `wrappers.dfy`: `Option` and `Result`.

In three places the code does less than its own comments suggest, and the
model follows the code. These lemmas show the three departures:
- `PodState.NotFoundKeepsPodId`: the comment on `NotFound`
  (`src/runpod_state.rs:236`) takes the pod to be deleted or terminated,
  but `reconcile` keeps its id. The id is then stale: with a live target
  the planned `CreatePod` sits beside it until `apply_created` replaces it.
- `PodState.CreatedThenUnknownCreatesAgain`: the comment on `Unknown`
  (`src/runpod_state.rs:241`) is "don't break local state on transient
  failures". But right after `apply_created` there is an id and no snapshot
  yet, so an `Unknown` reads as "absent" and the table plans a second
  `CreatePod`.
- `StateStore.SaveHasMissingFileWindow` and
  `StateStore.RenameFailureLosesState`: `save` writes a temporary file "for
  atomic rename" (`src/runpod_state.rs:430`), yet it removes the old file
  before the rename (449-453). Between the two steps `load` reports "no
  state yet", and if the rename then fails the saved state is gone. The
  comments call the replace "best-effort" and give the reason for the
  removal: on Windows a rename over an existing file can fail.

## Model

| member | source | states |
|---|---|---|
| PodState.Decide | src/runpod_state.rs:259-293 | Each action holds exactly when its row(s) of the table apply. Noop: the status meets the target, or the target is Terminated and no status is known. CreatePod (named after the pod): no live pod and a live target, or a status but no id, or an exited pod that must not be reused. StartPod: an exited pod may be reused. StopPod: Exited wanted, pod running. TerminatePod: Terminated wanted, a live pod. Every action that names a pod names the state's id. |
| PodState.PodDesiredStatus.IsTerminal | src/runpod_state.rs:50-54 | Definition, not a contract: only Terminated is terminal. `TerminalStatusActsAsAbsent` states what that means for the table. |
| PodState.NewRecord | src/runpod_state.rs:192-202 | Definition, not a contract, of `new`: version 1, the given name and time, no id, target Running, no snapshot, and `StatePolicy::default` (lines 161-168: reuse exited pods, no auto-terminate), held in `DEFAULT_POLICY`. The class constructor is proved to build exactly this record. |
| PodState.Assimilate | src/runpod_state.rs:228-245 | Definition, not a contract, of phase 1. `ReconcileAssimilates` states what it does with each observation. |
| PodState.AutoTerminateDue | src/runpod_state.rs:248-253 | Definition, not a contract: a threshold is set, the snapshot says Exited, and `now_ms.saturating_sub(observed_at_ms)` reaches the threshold. |
| PodState.ApplyPolicy | src/runpod_state.rs:247-257 | Definition, not a contract, of phase 2. `ReconcilePolicyOverride` states that it only ever forces Terminated, and exactly when. |
| PodState.ReconcileStep | src/runpod_state.rs:225-294 | Definition, not a contract: stamp the time, then phases 1, 2 and 3. The lemmas below state its properties, and `RunPodState.Reconcile` is proved to update the fields as it says. |
| PodState.ReconcileAssimilates | src/runpod_state.rs:225-245 | reconcile stamps `last_updated_ms`. It keeps version, name and policy. Found replaces the id and the snapshot and uses the snapshot's status. NotFound clears the snapshot, keeps the id, and leaves no status. Unknown keeps both and reuses the old snapshot's status. |
| PodState.ReconcilePolicyOverride | src/runpod_state.rs:247-257 | The policy only ever rewrites the target to Terminated. It does so exactly when a threshold is set, the snapshot says Exited, and the saturating time since the observation reaches the threshold. Otherwise the target is unchanged. |
| PodState.TerminalStatusActsAsAbsent | src/runpod_state.rs:260-270 | A terminal status (`is_terminal`) leads to the same decision as no status at all. |
| PodState.ReconcileIdempotent | src/runpod_state.rs:225-294 | Reconciling the result again with the same observation and time gives the same state and the same action. |
| PodState.UnknownKeepsKnownPod | src/runpod_state.rs:240-293 | With an id and a live snapshot, Unknown keeps both. It plans CreatePod only when the target is Running, the pod had exited, and reuse is off. So a running pod wanted running gives no CreatePod. |
| PodState.SteadyStateIsNoop | src/runpod_state.rs:262-264 | A Found whose status equals the target plans Noop, unless the policy is due to terminate an exited pod. |
| PodState.AutoTerminateThreshold | src/runpod_state.rs:247-293 | Exited pod observed at 1000, threshold 5000: at 5999 the target stays Running and the pod is started. At 6001 the target becomes Terminated and the pod is terminated. |
| PodState.TerminatedThenNotFoundIsNoop | src/runpod_state.rs:304-308 | After `apply_terminated` with target Terminated, a NotFound plans Noop. |
| PodState.NotFoundKeepsPodId | src/runpod_state.rs:235-239 | NotFound clears the snapshot but keeps the pod id. With a live target the action is CreatePod while the state still holds the old id. |
| PodState.CreatedThenUnknownCreatesAgain | src/runpod_state.rs:240-270 | Just after `apply_created` (an id, no snapshot), an Unknown plans CreatePod again. |
| PodState.RunPodState.constructor | src/runpod_state.rs:192-202 | `new`: version 1, no id, target Running, no snapshot, policy "reuse exited pods, never auto-terminate". |
| PodState.RunPodState.FromRecord | src/runpod_state.rs:170-187 | The aggregate holds exactly the given record, field by field, as deserialisation fills the struct. |
| PodState.RunPodState.SetTarget | src/runpod_state.rs:205-208 | Only the target and the timestamp change. |
| PodState.RunPodState.ApplyCreated | src/runpod_state.rs:297-301 | Only the id and the timestamp change. The snapshot is left for the next observation. |
| PodState.RunPodState.ApplyTerminated | src/runpod_state.rs:304-308 | The id and the snapshot are cleared and the timestamp is set. Nothing else changes. |
| PodState.RunPodState.Reconcile | src/runpod_state.rs:225-294 | The in-place field updates and the returned action are exactly those of `ReconcileStep` on the old state. The properties above then apply to the aggregate. |
| StateStore.TempPath | src/runpod_state.rs:431-439 | The temporary file sits in the same directory, is named `.<file name>.tmp` (`.runpod_state.tmp` without a file name), and is never the canonical path. |
| StateStore.IsValidRecord | src/runpod_state.rs:421-426 | Definition, not a contract: version 1 and a name with a non-whitespace character. `Validate` is proved to accept exactly these records. |
| StateStore.SaveTrace | src/runpod_state.rs:428-454 | Definition, not a contract: the file maps a valid `save` passes through under each fault. A failed directory or file creation changes nothing. A failed write leaves a malformed temporary file. Otherwise come the written temporary file, the removal when the path exists and the removal succeeds, and the rename unless it fails. |
| StateStore.Saved | src/runpod_state.rs:420-457 | Definition, not a contract: the map a successful `save` leaves, with the record at the path, no temporary file, and every other file as it was. `Save` is proved to end in it. |
| StateStore.Decode | src/runpod_state.rs:407-408 | A document decodes exactly when it holds an encoded record. Anything else is a serde error. |
| StateStore.DecodeEncode | src/runpod_state.rs:408 | Decoding an encoded record gives it back. |
| StateStore.Validate | src/runpod_state.rs:421-426 | A record is accepted exactly when its version is 1 and its name has a non-whitespace character. The version is checked first, with the caller's message. An empty trimmed name gives "pod_name is empty". |
| StateStore.Load | src/runpod_state.rs:403-418 | No file means `Ok(None)`, and `Ok(None)` only then. A loaded record is the one in the file and is valid. A valid encoded record is loaded. A malformed file is a serde error. A wrong version gives "unsupported state format version". |
| StateStore.FileSystem.Write | src/runpod_state.rs:443-447 | Creating and writing a file replaces what is at the path. The change is appended to the history. |
| StateStore.FileSystem.Remove | src/runpod_state.rs:450-453 | `remove_file` deletes the path and nothing else. |
| StateStore.FileSystem.Rename | src/runpod_state.rs:454 | `rename` moves the document to the target path, replacing what was there. |
| StateStore.Save | src/runpod_state.rs:420-457 | An invalid record fails validation and no file is touched. For a valid one, the recorded maps are exactly the save sequence under the given I/O fault. It succeeds exactly when no step fails, a failed removal being ignored, and every failure is an I/O error. On success the path holds the new record, the temporary file is gone, and every other file is as before. |
| StateStore.WriteAndReplace | src/runpod_state.rs:428-454 | The file steps of `save` after validation: same trace, outcome and final map as `Save`. |
| StateStore.Replace | src/runpod_state.rs:449-454 | Remove the old file if it exists, then rename. It fails only when the rename fails. On success the path holds what the temporary file held. |
| StateStore.SavedThenLoad | src/runpod_state.rs:403-457 | After a successful save, `load` returns exactly the saved record. |
| StateStore.LoadRejectsWhatSaveRejects | src/runpod_state.rs:409-426 | An encoded record loads exactly when `save` would accept it. |
| StateStore.SaveNeverExposesPartialFile | src/runpod_state.rs:441-454 | After every step of `save`, whatever the fault, `load` sees the old result, no file, or the new record. A partially written file never reaches the canonical path. |
| StateStore.SaveHasMissingFileWindow | src/runpod_state.rs:449-454 | With a valid old state saved, a fault-free save passes through a map where `load` reports no state: the replace is not atomic. |
| StateStore.RenameFailureLosesState | src/runpod_state.rs:449-454 | If the rename fails after the removal, `load` reports no state at all, although a valid state was saved before. |
| Retry.SaturatingDouble | src/runpod_starter.rs:290 | `Duration::saturating_mul(2)`: twice the duration, or `Duration::MAX` when that overflows. |
| Retry.IsRetryableStatus | src/runpod_starter.rs:275-280 | Definition, not a contract: exactly 408, 409, 425, 429, 500, 502, 503 and 504. `src/runpod_client.rs:744-749` has the same list. `RetryableStatusIsError` and `NotRetryableExamples` state its properties. |
| Retry.ShouldRetry | src/runpod_starter.rs:175-190 | Definition, not a contract: a reply is retried exactly when `attempt <= retry_max` and it is either a non-success response with a retryable status or a transient transport error. |
| Retry.NextBackoff | src/runpod_starter.rs:288-292 | The next delay is at most the cap and at most twice the current delay, and it is one of the two. |
| Retry.Schedule | src/runpod_starter.rs:177-178 | The recorded sleeps are b, next(b), next(next(b)), …, one per retry. |
| Retry.DelayClosedForm | src/runpod_starter.rs:288-292 | For milliseconds-sized inputs, the k-th delay (k ≥ 1) is min(initial·2^k, cap). |
| Retry.DelayBounded | src/runpod_starter.rs:288-292 | From the first retry on, no delay exceeds the cap. |
| Retry.RetryableStatusIsError | src/runpod_starter.rs:275-280 | Every retryable status is a 4xx or 5xx error, never a success. |
| Retry.NotRetryableExamples | src/runpod_starter.rs:275-280 | 400, 401, 404, 501 and 505 are not retried. |
| Retry.AttemptsFrom | src/runpod_starter.rs:156-195 | From attempt k on, the loop makes between k and `retry_max + 1` attempts. |
| Retry.AttemptsCharacterised | src/runpod_starter.rs:156-195 | The number of attempts is at least 1 and at most `retry_max + 1`. The last reply is not retried, and every earlier one was. |
| Retry.AttemptsIsFirstStop | src/runpod_starter.rs:156-195 | If the replies before `i` are all retried and reply `i` is not, exactly `i + 1` attempts are made. |
| Retry.StopsAtFirstSuccess | src/runpod_starter.rs:171-173 | A success at reply `i` means at most `i + 1` attempts. |
| Retry.PermanentFailureNoRetry | src/runpod_starter.rs:176-192 | A non-retryable status or a non-transient transport error on the first attempt ends the loop after one attempt. |
| Retry.PersistentFailureExhausts | src/runpod_starter.rs:184-192 | With transient failures throughout, exactly `retry_max + 1` attempts are made. |
| Retry.RetryLoop | src/runpod_starter.rs:153-196 | The loop returns the attempt count as characterised above, the reply that ended it (never retried), and the backoff schedule of its retries. |
| Retry.SaturatingAttempt | src/runpod_starter.rs:153-157 | The `u32` counter after k saturating increments is min(k, `u32::MAX`). |
| Retry.AsWrittenGuardNeverCloses | src/runpod_starter.rs:153-186 | With `retry_max = u32::MAX` the guard as written admits a retry at every attempt, including attempt 2^32 + 1 and later. |
| Retry.ExactCounterAgrees | src/runpod_client.rs:343-369 | For any smaller `retry_max`, the saturating counter equals the exact count at every reachable attempt, and the guard agrees. |
| Starter.NextBackoffIsCappedDouble | src/runpod_starter.rs:288-292 | `next_backoff(c) = min(2c, 5 s)` for every delay the loop can hold. |
| Starter.NextBackoff | src/runpod_starter.rs:288-292 | No delay exceeds 5 s. |
| Starter.StartUrl | src/runpod_starter.rs:79-85 | The URL is the REST base without its trailing slashes, followed by `/pods/<id>/start`. |
| Starter.StopUrl | src/runpod_starter.rs:89-95 | The same base, followed by `/pods/<id>/stop`. |
| Starter.TrailingSlashIgnored | src/runpod_starter.rs:79-95 | An extra trailing slash on the REST URL changes neither URL. |
| Starter.RestBaseUnique | src/runpod_starter.rs:79-95 | Only one string is the REST URL without its trailing slashes, so the URLs are determined. |
| Starter.StartUrlExample | src/runpod_starter.rs:79-85 | `https://rest.runpod.io/v1//` with pod `abc` gives `https://rest.runpod.io/v1/pods/abc/start`. |
| Starter.PostOutcome | src/runpod_starter.rs:168-192 | The final reply is reported as Ok with the body exactly on success, as Api(status, body) for any other response, and as Http for a transport error. |
| Starter.PostWithRetry | src/runpod_starter.rs:152-196 | It posts the same URL once per attempt, between 1 and `retry_max + 1` times. It reports the final reply, and sleeps the 5 s-capped backoff schedule. |
| Starter.StartOrResume | src/runpod_starter.rs:128-131 | The same, posting the start URL. |
| Starter.Stop | src/runpod_starter.rs:140-143 | The same, posting the stop URL. |
| Starter.SuccessAfterTransientFailures | src/runpod_starter.rs:171-180 | After `i` retried failures, a success at reply `i` ends the loop with its body. |
| Starter.PermanentStatusReportedAtOnce | src/runpod_starter.rs:175-182 | A non-retryable error status on the first attempt is reported with its status and body, with no sleep. |
| Client.NextBackoffIsCappedDouble | src/runpod_client.rs:757-760 | `next_backoff(c) = min(2c, 10 s)` for every delay the loop can hold. |
| Client.NextBackoff | src/runpod_client.rs:757-760 | No delay exceeds 10 s. |
| Client.CheckGraphQLErrors | src/runpod_client.rs:387-398 | The response passes exactly when its error list is absent or empty. Otherwise the error is GraphQL with the messages joined by `"; "`. |
| Client.GraphQLMessageKeepsEveryError | src/runpod_client.rs:390-395 | Every error message appears unchanged, at its place in order, inside the joined message. |
| Client.GraphQLMessageExample | src/runpod_client.rs:390-395 | Errors `a` and `b` give the message `a; b`. |
| Client.ExecuteOutcome | src/runpod_client.rs:362-408 | The final reply is read as follows. Ok exactly for a success that decodes and carries no GraphQL errors. Any other response is Api(status, body). An undecodable success is Json. A transport error is Http. |
| Client.Execute | src/runpod_client.rs:338-411 | `execute` reports the final reply of the retry loop and sleeps the 10 s-capped backoff schedule. |
| Client.GraphQLErrorsAreNotRetried | src/runpod_client.rs:381-396 | A success carrying GraphQL errors ends the loop at that attempt with the GraphQL error. |
| Client.RequireField | src/runpod_client.rs:118-120 | The field is Ok exactly when data and the field are present. Otherwise the error is EmptyResponse. |
| Client.PodOf | src/runpod_client.rs:278 | The pod is present exactly when data and pod are. |
| Client.PodsOf | src/runpod_client.rs:305-309 | The pods of `myself`, or none when data or `myself` is absent. |
| Client.GpuTypesOf | src/runpod_client.rs:334 | The GPU types, or none when data is absent. |
| Client.AndThen | src/runpod_client.rs:116-120 | An error of `execute` passes through unchanged. Otherwise the method picks its result from the response. |
| Client.DeployOnDemand | src/runpod_client.rs:116-120 | An `execute` error passes through. A result exists exactly when data and `podFindAndDeployOnDemand` are present, and then it is that field. Otherwise the error is EmptyResponse. |
| Client.DeploySpot | src/runpod_client.rs:147-151 | As above, for `podRentInterruptable`. |
| Client.ResumePod | src/runpod_client.rs:179-183 | As above, for `podResume`. |
| Client.StopPod | src/runpod_client.rs:206-210 | As above, for `podStop`. |
| Client.TerminatePod | src/runpod_client.rs:230-232 | It succeeds exactly when `execute` does, whatever the data holds. |
| Client.GetPod | src/runpod_client.rs:276-278 | An `execute` error passes through. Otherwise the result is Ok; it holds a pod exactly when data and pod are present, and then it is that pod. |
| Client.ListPods | src/runpod_client.rs:303-309 | An `execute` error passes through. Otherwise the result is the pods of `myself`, or an empty list when data or `myself` is absent. |
| Client.ListGpuTypes | src/runpod_client.rs:332-334 | An `execute` error passes through. Otherwise the result is the GPU types, or an empty list without data. |
| Client.MissingMutationResultIsEmptyResponse | src/runpod_client.rs:208-210 | A successful response without data or without the mutation field gives EmptyResponse. |
| Orchestrator.ParseReconcileMode | src/runpod_orchestrator.rs:85-91 | The mode is Recreate exactly when the variable is set and equals `recreate` up to case. Otherwise it is Reuse. |
| Orchestrator.LowerIsRecreate | src/runpod_orchestrator.rs:86 | Lower-casing gives `recreate` exactly for the spellings of `recreate` that differ only in case. |
| Orchestrator.ReconcileModeExamples | src/runpod_orchestrator.rs:85-91 | `ReCreate` gives Recreate. `recreate ` (trailing space), `reuse` and unset all give Reuse. |
| Orchestrator.SplitCsv | src/runpod_orchestrator.rs:559-565 | Every value is non-empty, trimmed and comma-free. The values are exactly the non-empty trims of the comma-separated pieces, in input order: value k is the trim of piece idx[k], the positions strictly increase, and every piece whose trim is not empty has its position among them. |
| Orchestrator.SplitCsvBlankAfterComma | src/runpod_orchestrator.rs:561-563 | `a, b` gives exactly `a` and `b`, for any two setting values (so `22/tcp, 8888/http` gives the two port specs). |
| Orchestrator.SplitCsvEmptyBetweenCommas | src/runpod_orchestrator.rs:561-563 | `a,,b` gives exactly `a` and `b`: the empty piece is dropped. |
| Orchestrator.SplitCsvOfPieces | src/runpod_orchestrator.rs:561-563 | A setting written as comma-free pieces joined by commas gives the non-empty trims of exactly those pieces. |
| Orchestrator.TrimmedNonEmpty | src/runpod_orchestrator.rs:562-563 | The kept pieces are trimmed and non-empty, and there are no more of them than pieces. |
| Orchestrator.TrimmedNonEmptyKeepsOrder | src/runpod_orchestrator.rs:562-563 | The kept values are exactly the non-empty trims, in order: value k is the trim of piece idx[k], the positions strictly increase, and every piece with a non-empty trim is among them. |
| Orchestrator.TrimmedNonEmptyCons | src/runpod_orchestrator.rs:562-563 | A piece in front is dropped when its trim is empty and otherwise kept, trimmed, ahead of the rest. |
| Orchestrator.TrimmedNonEmptyNoComma | src/runpod_orchestrator.rs:561-563 | Comma-free pieces give comma-free values. |
| Orchestrator.TrimmedPiecesKept | src/runpod_orchestrator.rs:562-563 | Pieces that trimming leaves alone are all kept, in order. |
| Orchestrator.SplitCsvOfJoin | src/runpod_orchestrator.rs:559-565 | Joining non-empty, trimmed, comma-free values with commas and splitting the result gives back exactly those values, in input order. |
| Orchestrator.DefaultPorts | src/runpod_orchestrator.rs:100 | The default `22/tcp,8888/http` gives the SSH and Jupyter specs. |
| Orchestrator.ListPodsOutcome | src/runpod_orchestrator.rs:238-260 | Ok exactly for a decodable success, with the decoded list. A failure status is Api(status, body), undecodable JSON is Json, and a transport error is Http. |
| Orchestrator.StartOutcome | src/runpod_orchestrator.rs:284-306 | Ok exactly for a success status. A failure status is Api(status, body), and a transport error is Http. |
| Orchestrator.GetPodOutcome | src/runpod_orchestrator.rs:348-378 | 404, and only 404, means no pod. A decodable success gives the pod. Any other failure status is Api, undecodable JSON is Json, and a transport error is Http. |
| Orchestrator.FirstNamed | src/runpod_orchestrator.rs:265 | The index of the first pod with that name: every earlier pod has another name. |
| Orchestrator.FindPodByName | src/runpod_orchestrator.rs:263-266 | None exactly when no pod has the name. Otherwise it is the first such pod in list order. |
| Orchestrator.IsCompatible | src/runpod_orchestrator.rs:269-281 | Definition, not a contract: the pod has the configured image and its desired status is not TERMINATED. A missing image is incompatible, and a missing status is not TERMINATED. |
| Orchestrator.ChooseBranch | src/runpod_orchestrator.rs:209-227 | Reuse happens exactly for a found, compatible pod in Reuse mode: the pod's id, started exactly when EXITED. Recreate happens exactly for a found pod in Recreate mode, and terminates that pod. Create happens exactly when no pod was found, or it is incompatible in Reuse mode. |
| Orchestrator.PortMapOf | src/runpod_orchestrator.rs:408-415 | A container port is a key exactly when some entry's key text parses as that u16. |
| Orchestrator.PortMapValue | src/runpod_orchestrator.rs:410-413 | A port's public port is that of the last entry for it. |
| Orchestrator.BuildPortMap | src/runpod_orchestrator.rs:407-415 | The `for` loop's map is exactly `PortMapOf` of the mappings, or empty without them. |
| Orchestrator.RequiredPort | src/runpod_orchestrator.rs:420-421 | Definition, not a contract: the text before the first `/`, parsed as a `u16`. `SshPortSpec`, `JupyterPortSpec` and `NamedPortSpec` give its values on the usual specs. |
| Orchestrator.HasRequiredPorts | src/runpod_orchestrator.rs:418-426 | Definition, not a contract: every spec names a port that parses and is a key of the map. `UnparsableSpecNeverReady` states the failing case. |
| Orchestrator.UnparsableSpecNeverReady | src/runpod_orchestrator.rs:418-426 | A required spec whose port does not parse is never satisfied, whatever the map holds. |
| Orchestrator.SshPortSpec | src/runpod_orchestrator.rs:420-421 | `22/tcp` requires container port 22. |
| Orchestrator.JupyterPortSpec | src/runpod_orchestrator.rs:420-421 | `8888/http` requires container port 8888. |
| Orchestrator.NamedPortSpec | src/runpod_orchestrator.rs:420-425 | `ssh/tcp` names no port and is never satisfied. |
| Orchestrator.ReadyLease | src/runpod_orchestrator.rs:393-440 | A lease is given exactly when the pod is RUNNING, has a non-empty public IP and maps every required port. Its IP and port map are exactly those checked. |
| Orchestrator.WaitFrom | src/runpod_orchestrator.rs:381-444 | Definition, not a contract: the outcome from check `i` on. Timeout past the deadline, a `get_pod` error as is, PodNotFound without a pod, the lease once ready, otherwise the next check. The three lemmas below state its properties. |
| Orchestrator.WaitReturnsReadyLease | src/runpod_orchestrator.rs:386-443 | Every lease `wait_for_ready` returns is running, has a non-empty IP and maps every required port, and comes from a poll made before the deadline. |
| Orchestrator.MissingPodIsNotRetried | src/runpod_orchestrator.rs:391-442 | A poll that finds no pod ends the wait at once with PodNotFound. |
| Orchestrator.TimeoutCheckedFirst | src/runpod_orchestrator.rs:386-389 | Once a clock reading is past the deadline the result is Timeout, whatever the remaining polls would say. |
| Orchestrator.WaitForReady | src/runpod_orchestrator.rs:381-444 | The loop with its `continue`s returns exactly the outcome `WaitFrom` specifies, from the first clock reading. |
| Orchestrator.PrepareBranches | src/runpod_orchestrator.rs:209-227 | A pod is terminated exactly in Recreate mode with a found pod, and only that pod, before a create. A reused pod keeps its id, nothing is created, and it is started exactly when EXITED. In Reuse mode an absent or incompatible pod leads only to a create. |
| Orchestrator.Prepare | src/runpod_orchestrator.rs:205-231 | Definition, not a contract: for the chosen branch, the calls made before the wait and the pod to wait for, or the error that stops the run. `PrepareBranches` states its properties. |
| Orchestrator.EnsureReadyPod | src/runpod_orchestrator.rs:205-231 | A listing error stops everything. Otherwise the calls are those of the chosen branch. Its error stops the run; else the run ends with the wait on the chosen pod and returns the outcome of `wait_for_ready`. |
| Orchestrator.SshEndpoint | src/runpod_orchestrator.rs:130-134 | `Some((ip, map[22]))` exactly when 22 is mapped. |
| Orchestrator.HttpEndpoint | src/runpod_orchestrator.rs:140-144 | Present exactly when the port is mapped. |
| Orchestrator.HttpEndpointPort | src/runpod_orchestrator.rs:143 | The URL is `http://<ip>:` followed by a non-empty run of digits with no leading zero whose value is the mapped public port, and which `u16` parsing reads back as that port. |
| Orchestrator.JupyterEndpoint | src/runpod_orchestrator.rs:150-152 | It equals `http_endpoint(8888)`, present exactly when 8888 is mapped. |
| Orchestrator.TcpEndpoint | src/runpod_orchestrator.rs:158-162 | `Some((ip, map[p]))` exactly when `p` is mapped. |
| Orchestrator.DefaultLeaseHasEndpoints | src/runpod_orchestrator.rs:418-426 | A lease ready under the default port list has both an SSH and a Jupyter endpoint. |
| Text.TrimEmptyIffWhitespace | src/runpod_state.rs:424 | `trim().is_empty()` holds exactly for strings of whitespace. |
| Text.Trim | src/runpod_state.rs:424 | The result neither starts nor ends with whitespace and is no longer than the input. `TrimStart` and `TrimEnd` state that only leading and trailing whitespace is removed. |
| Text.TrimStart | src/runpod_state.rs:424 | The result is a suffix of the input, everything dropped is whitespace, and it does not start with whitespace. |
| Text.TrimEnd | src/runpod_state.rs:424 | The result is a prefix of the input, everything dropped is whitespace, and it does not end with whitespace. |
| Text.Split | src/runpod_orchestrator.rs:561 | There is at least one piece. No piece contains the separator, and the pieces joined with it give back the input. |
| Text.Join | src/runpod_client.rs:394 | Definition, not a contract: the pieces with the separator between each two. `SplitJoin` and `GraphQLMessageKeepsEveryError` state its properties. |
| Text.ToLower | src/runpod_orchestrator.rs:86 | Same length, and each character is lower-cased as an ASCII letter. |
| Text.NatToString | src/runpod_orchestrator.rs:143 | A non-empty run of digits, with no leading zero, whose value is the number. |
| Text.TrimEndMatches | src/runpod_starter.rs:82 | The result is a prefix, only `/` was removed, and it does not end in `/`. |
| Text.SplitJoin | src/runpod_orchestrator.rs:561 | Splitting a join of separator-free pieces gives the pieces back. |
| Text.ParseU16 | src/runpod_orchestrator.rs:411 | `parse::<u16>()` succeeds exactly for an optional `+` followed by digits whose value fits in 16 bits, and returns that value. |
| Text.ParseU16OfNatToString | src/runpod_orchestrator.rs:143 | Rendering a port in decimal and parsing it back is the identity. |

## Left out

- HTTP (reqwest), async/await and `tokio::time::sleep`:
  - each request is replaced by its reply, from an oracle or a parameter;
  - the retry loops record their sleeps instead of sleeping;
  - the poll-interval sleeps of `wait_for_ready` are not recorded.
- Transport error kinds: a transport error is only "transient or not". This
  stands for `is_timeout() || is_connect() || is_request()`.
- Configuration loading is not modelled: `from_env`, `must_env`, the
  `parse_*_env` helpers, `dotenvy` and `default_path` read the process
  environment. Only the string logic of `split_csv_env` and of the
  reconcile-mode parse is modelled.
- The clock (`now_unix_ms`, `Instant::elapsed`) is not modelled.
  - Time enters as `now_ms` arguments.
  - For `wait_for_ready` it is the sequence of elapsed readings, in
    nanoseconds, taken before each poll. The sequence must end with a
    reading past the deadline, which is what makes the loop finite.
- serde JSON: no JSON text is modelled.
  - A file is either an encoded record or a malformed document, so the
    round trip holds by construction.
  - Read errors (`fs::read`) in `load` are not modelled.
  - Neither are the body and variables of each GraphQL query.
- File-system semantics: fsync, `create_dir_all`, atomicity, Windows
  behaviour, and parsing paths from strings are not modelled. A path is a
  directory with an optional final component. Each step's failure is an
  `IoFault` parameter.
- `wait_for_ready` port maps: `portMappings` is a JSON object read into a
  `HashMap`. The model takes its entries in the map's iteration order, later
  entries winning. Only the set of keys is independent of that order.
- `ReconcileMode` parsing models `to_lowercase` on ASCII letters only. This
  is exact for the comparison with `"recreate"`. No non-ASCII character
  lower-cases to an ASCII letter except U+212A KELVIN SIGN (to `k`) and
  U+0130 (to `i` plus a combining dot), and neither letter nor sequence
  occurs in `recreate`.
- The orchestrator's termination of a recreated pod: its outcome is ignored
  by the code, so it appears only as a call.
- The orchestrator's URL builders, and `create_new_pod`: `create_new_pod`
  lives in `src/runpod_provisioner.rs`, which is not part of this model.
  It stands for the created pod's id or its error message.
- `src/lib.rs` and `src/main.rs`: they only declare modules and write to the console.
- `Display`/`Debug` impls, the API key and user agent headers, and the
  `f32` GPU utilisation fields.

## Findings

| source | as written | input that shows it | evidently intended | confidence | as-written member | corrected member |
|---|---|---|---|---|---|---|
| src/runpod_starter.rs:153-157, 176, 186 and src/runpod_client.rs:343-347, 369, 401 | The attempt counter is a `u32` advanced with `saturating_add(1)`, and a retry is allowed while `attempt <= retry_max`. | `retry_max = u32::MAX` with a server that always answers 503: the counter sticks at `u32::MAX`, the guard never fails, and the loop retries forever. | At most `retry_max + 1` attempts, as for every smaller `retry_max`. | not executed | Retry.AsWrittenGuardNeverCloses | Retry.RetryLoop |
