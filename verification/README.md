# dbx: verified models of its stateful cores

dbx is a database client. Its desktop program talks to agents, one per database family, that run as
separate processes; its documentation site has a worker that turns visitors' drafts into GitHub issues. This
project models the parts of dbx in which order, counting or framing matters, and proves what they promise:

* **Cassandra agent** (`Cassandra*.dfy`, without paging). Agent sessions share reference-counted connection
  runtimes; each runtime caches one driver session per keyspace, limits work by two permit pools, and retires
  its metadata session after a schema change. `CassandraRuntime` has one runtime as an object, `CassandraServer`
  the two maps of the agent as an object. `CassandraAgent` is a state machine over all interleavings of any
  number of request threads: every block under one mutex, every channel operation and every driver close is one
  step. `CassandraSafety` has the main results; `CassandraLedger`, `CassandraReferences`, `CassandraPermits` and
  `CassandraDrivers` have the invariants they rest on. `CassandraOrigins`, `CassandraWitness` and `CassandraLimit`
  show where the protection ends, and `CassandraKeyspaces` that driver sessions and keyspaces are never mixed up.
* **WebView2 recovery** (`WebView*.dfy`). Which failure of the browser process earns a reload, a restart or a
  log line. A decision and the commit of its reload are separate steps, so several can be outstanding.
* **ZooKeeper client** (`ZooKeeper*.dfy`). The wire codec, frames over partial writes and reads, requests matched by
  transaction number (XID), and the SASL negotiation.
* **Paged queries** (`HivePaging`, `HiveQueries`, `CassandraPaging`, `ResultSets`). Pages against one-shot reads.
* **Issue limiter and drafts** (`Issue*.dfy`). The rolling limit with its clean-up, claims on drafts, and the two together.
* **Hadoop delegation tokens** (`HadoopToken`) and **CQL type names** (`Cql*.dfy`).

Code that updates state in place is modelled by classes and methods with loops. Each such method is tied by its
`ensures` to a function on values, and the promises are proved of that function over all inputs or all runs.

Where the code falls short of a promise, the model keeps the code and a lemma shows the input:

* A dispatch that looked its agent session up before the session was closed, and locked it afterwards, can have a
  driver session closed under it while it holds a permit (`CassandraWitness.ClosedInUse`). This happens exactly when
  its runtime is closed (`CassandraOrigins.ClosedInUseIff`).
* The limit of 256 agent sessions is checked before the connection is opened and not again: with n requests at once
  there can be 255 + n sessions, and no more (`CassandraLimit.LimitCanBeExceeded`, `CassandraLimit.SessionBound`).
* The reload budget and the cooldown of WebView2 hold as documented only while one reload decision is outstanding;
  with K outstanding the budget grows by K - 1 (`WebViewBudget.ReloadBudget`), and the cooldown holds only between a
  reload and the K-th after it (`WebViewRounds.RoundsOfK`, `WebViewRounds.CooldownNeedsOneAtATime`). How many reloads
  one window can then have is known exactly for every policy (`WebViewRounds.CommitsInWindowIff`).
* The flag that keeps the restart for a browser exit single does not bound the restarts that failed reloads ask for
  (`WebViewProtocol.TwoRestartRequests`; `WebViewProtocol.RestartRequestsAreCounted` has the exact number).
* The Truncated flag of a paged CQL query can be set although no row was cut off (`CassandraPaging.FlagWithoutCut`;
  `CassandraPaging.FlagDiffersIff` says exactly when), and a server that answers with more rows than were asked for
  makes a paged query skip rows (`CassandraPaging.LargeAnswersSkipRows`; `CassandraPaging.StepSoundIff` says exactly
  when).
* A slow claim holder or a lost complete call can make two issues from one draft
  (`IssueSubmit.SlowHolderMakesTwo`, `IssueSubmit.LostCompleteMakesTwo`; `IssueSubmit.SecondGrantIff` says exactly
  when a second claim is granted).
* The alarm of the limiter can delete a draft before it expires: in some run exactly when drafts may be stored more than
  thirty minutes and one second after their request (`IssueLifetime.NeverLosesIff`). It can delete a submitted draft
  before the expiresAt that complete wrote (`IssueLifetime.SubmittedIsLost`).
* A ZooKeeper buffer of 2^31 bytes or more does not survive encoding (`ZooKeeperRoundTrip.BufferSurvivesIff`), and
  after 2^32 requests a late reply can be taken for another one (`ZooKeeperXid.OneMoreRequestMayMismatch`).

`dafny verify dfyconfig.toml` checks the whole project.

## Model

| member | source | states |
|---|---|---|
| CassandraRuntime.PoolSize | agents/drivers/cassandra-go/runtime.go:196-204 | The pool size is the configured number when that is between 1 and 128, and 32 otherwise. |
| CassandraRuntime.MetadataLimit | agents/drivers/cassandra-go/runtime.go:206-214 | The metadata limit is the configured number when that fits the pool, otherwise 8 or the whole of a smaller pool. |
| CassandraRuntime.ConnectionRuntime.constructor | agents/drivers/cassandra-go/runtime.go:38-50 | A new runtime has no driver session, no permit taken and no reference. |
| CassandraRuntime.ConnectionRuntime.SessionFor | agents/drivers/cassandra-go/runtime.go:52-72 | For the keyspace without the white space around it: the cached session if nobody closed it, otherwise a new one, which is cached; what is handed out stands under that keyspace. A closed runtime gives none and changes nothing. |
| CassandraRuntime.TrimIff | agents/drivers/cassandra-go/runtime.go:53 | Trimming gives the one slice that only white space was cut from and that has none at its ends. |
| CassandraRuntime.SpaceIs | agents/drivers/cassandra-go/runtime.go:53 | White space is the twenty-five characters that Unicode calls so. |
| CassandraRuntime.InvalidateHandsOver | agents/drivers/cassandra-go/runtime.go:74-89 | No driver session is lost: what leaves the live map is retired while an operation is active, and handed over at once when none is. |
| CassandraRuntime.EndHandsOver | agents/drivers/cassandra-go/runtime.go:108-124 | The last active operation takes over the whole retired list, and no other operation takes anything. |
| CassandraRuntime.CloseHandsOver | agents/drivers/cassandra-go/runtime.go:133-151 | Closing hands over everything the runtime has, live or retired, and leaves nothing. |
| CassandraRuntime.ConnectionRuntime.InvalidateMetadataSession | agents/drivers/cassandra-go/runtime.go:74-89 | The metadata session leaves the live map; it is retired while an operation is active and otherwise handed to the caller for closing. |
| CassandraRuntime.ConnectionRuntime.Acquire | agents/drivers/cassandra-go/runtime.go:91-131 | Success takes exactly the permits the operation needs and counts it; a timeout on either permit gives back all that was taken. |
| CassandraRuntime.ConnectionRuntime.Release | agents/drivers/cassandra-go/runtime.go:108-124 | A release gives the permits back; the last active operation takes over the whole retired list. |
| CassandraRuntime.ConnectionRuntime.CloseAll | agents/drivers/cassandra-go/runtime.go:133-151 | Closing hands over every session the runtime still owns, live or retired, and leaves it closed and empty; closing again hands over nothing. |
| CassandraServer.RuntimeServer.AcquireRuntime | agents/drivers/cassandra-go/runtime.go:153-168 | One more reference on the runtime of the key, which is created only if the map has none. |
| CassandraServer.RuntimeServer.ReleaseRuntime | agents/drivers/cassandra-go/runtime.go:170-188 | One reference less; the last one takes the runtime out of the map and closes it; an unknown key changes nothing. |
| CassandraServer.RuntimeServer.CloseSession | agents/drivers/cassandra-go/main.go:280-294 | Whatever other requests in flight owe, a registered session is removed and its runtime leaves the map, closed, exactly when nobody else owes it a release; then all its driver sessions are handed over to be closed, and otherwise none. An unknown name changes nothing. |
| CassandraServer.RuntimeServer.MappedIffOwed | agents/drivers/cassandra-go/runtime.go:153-188 | A runtime is mapped exactly while a session or a request in flight owes it a release. |
| CassandraServer.RuntimeServer.CloseEachSession | agents/drivers/cassandra-go/main.go:296-305 | The loop closes every session; of the runtimes mapped before, those that left the map are closed, and each driver session is in a mapped runtime or was handed over. |
| CassandraServer.RuntimeServer.Sweep | agents/drivers/cassandra-go/main.go:306-313 | The sweep empties the map and closes what was in it. |
| CassandraServer.RuntimeServer.CloseAllSessions | agents/drivers/cassandra-go/main.go:296-314 | Alone after the drain, closing the sessions takes every runtime out of the map, closes it and hands over all driver sessions, and the final sweep finds nothing. |
| CassandraReferences.StepKeepsReferences | agents/drivers/cassandra-go/runtime.go:153-188 | Every step of every thread keeps each counter equal to the opens, registered sessions and closes that still owe a release, all of them pointing at the mapped runtime. |
| CassandraReferences.ReleaseHitsItsRuntime | agents/drivers/cassandra-go/runtime.go:170-188 | releaseRuntime finds the very runtime its caller acquired, with a positive counter. |
| CassandraPermits.StepKeepsPermits | agents/drivers/cassandra-go/runtime.go:91-131 | Every step keeps the two permit channels and activeOperations equal to what the threads hold and within their capacities. |
| CassandraDrivers.StepKeepsHomes | agents/drivers/cassandra-go/runtime.go:52-151 | Every step keeps an assignment of each created driver session to one place: a live map, a retired list, the hand of a thread that will close it, or closed. |
| CassandraDrivers.LiveIsOpen | agents/drivers/cassandra-go/runtime.go:52-72 | A session in a live map was never closed, so the branch that would replace a closed one and lose it is not taken. |
| CassandraDrivers.LastActive | agents/drivers/cassandra-go/runtime.go:108-124 | The operation that brings activeOperations to zero is the only active one on its runtime. |
| CassandraSafety.RunKeepsInv | agents/drivers/cassandra-go/main.go:169-314 | Every schedule of any number of threads keeps all invariants together. |
| CassandraSafety.PermitsInEveryRun | agents/drivers/cassandra-go/runtime.go:91-131 | In every reachable state active operations are at most the permits held, those at most the pool, metadata operations in the pool at most the metadata limit; when no request runs, all permits are back. |
| CassandraSafety.ReferenceAccounting | agents/drivers/cassandra-go/runtime.go:153-188 | In every reachable state the counter of a mapped runtime is at least one and equals the threads that owe a release plus the registered sessions; the runtime is open. |
| CassandraSafety.DebtorFindsItsRuntime | agents/drivers/cassandra-go/runtime.go:170-188 | Whoever owes a release finds its own runtime under its key, never a missing or a newer one. |
| CassandraSafety.GuardedRuntimeStaysOpen | agents/drivers/cassandra-go/main.go:219-236 | While an operation that locked a registered session runs, its runtime is mapped, referenced and open, and no thread is about to close it. |
| CassandraSafety.InUseIsNeverClosed | agents/drivers/cassandra-go/runtime.go:74-131 | A driver session that an active operation obtained is not closed nor taken out for closing while its runtime is open, which is certain for an operation that locked a registered session. |
| CassandraOrigins.RunKeepsBred | agents/drivers/cassandra-go/runtime.go:52-151 | In every run, what a runtime holds and what its operations obtained was created for that runtime, the session of a keyspace for that keyspace, and what is retired for none. |
| CassandraKeyspaces.OneKeyspace | agents/drivers/cassandra-go/runtime.go:52-89 | In every schedule, a driver session once handed out for a keyspace of a runtime is handed out again only for that keyspace of that runtime, up to white space, and is retired only if that is no keyspace. |
| CassandraKeyspaces.LiveServesItsKeyspace | agents/drivers/cassandra-go/runtime.go:52-72 | In every schedule, while the session is live, a use of its runtime is given it if and only if it asks for the same keyspace, up to white space. |
| CassandraOrigins.ClosedInUseIff | agents/drivers/cassandra-go/runtime.go:52-151 | In every reachable state, a driver session that an active operation obtained is closed, or taken out for closing, exactly when the operation's runtime is closed; never under an operation that locked a registered session. |
| CassandraWitness.ClosedInUse | agents/drivers/cassandra-go/main.go:219-294 | A reachable state in which a driver session is retired while a permit-holding operation that obtained it is active, and two steps of another thread after which it is closed under that operation. |
| CassandraLimit.SessionBound | agents/drivers/cassandra-go/main.go:238-268 | In every reachable state the registered sessions and the opens past the check are at most 255 plus the number of request threads. |
| CassandraLimit.OpenGoesOnIff | agents/drivers/cassandra-go/main.go:238-247 | An open request goes on if and only if its name is free and there are at most 255 sessions; otherwise nothing changes. |
| CassandraLimit.NameIsKept | agents/drivers/cassandra-go/main.go:238-294 | In every schedule a registered session keeps its name until it is closed; a second open under the name never replaces it. |
| CassandraLimit.LimitCanBeExceeded | agents/drivers/cassandra-go/main.go:238-268 | For every number of request threads some run reaches that bound. |
| CassandraSafety.SomewhereAlways | agents/drivers/cassandra-go/runtime.go:52-151 | No created driver session is ever lost. |
| CassandraSafety.NowhereTwice | agents/drivers/cassandra-go/runtime.go:52-151 | No driver session is in two places: two maps, twice in a list, or closed and still held. |
| CassandraSafety.ClosedOnce | agents/drivers/cassandra-go/runtime.go:74-151 | Close is never called on a driver session that was closed before. |
| CassandraSafety.NeverObtainedAgain | agents/drivers/cassandra-go/runtime.go:52-89 | In any continuation of any run, an operation that does not have a retired, taken or closed driver session never obtains it. |
| CassandraSafety.RetiredIsGone | agents/drivers/cassandra-go/runtime.go:74-89 | A retired, taken or closed driver session is in no live map, so the previous result applies to it. |
| CassandraSafety.ShutdownLeavesNothing | agents/drivers/cassandra-go/main.go:110-145 | Once the requests have drained and no session is registered, no runtime is mapped, every runtime ever created is closed, and so is every driver session. |
| WebViewRecovery.Recovery.HandleProcessFailed | src-tauri/src/webview2_recovery.rs:238-295 | The object's state and answer are those of the policy function for the failure. |
| WebViewDecisions.DecidedByHistory | src-tauri/src/webview2_recovery.rs:238-333 | After any run, the action and the detail that a failure is answered with are those that the events of the run give: commits, browser exits, and the place of the failure among the unresponsive events of its window. |
| WebViewDecisions.ReloadIff | src-tauri/src/webview2_recovery.rs:238-333 | After any run, a failure earns a reload if and only if the cooldown and the budget allow one and it is the exit of the renderer, or the unresponsive event that completes a batch of the threshold in its window. |
| WebViewDecisions.BystandersLeaveNoTrace | src-tauri/src/webview2_recovery.rs:286-295 | Failures of the GPU process, of a subframe and of other processes can be erased from any run: the rest can happen too and leads to the same machine, commits and outstanding decisions. |
| WebViewDecisions.ShippedThirdHang | src-tauri/src/webview2_recovery.rs:163-195 | Under the shipped policy the third of three unresponsive events earns a reload if and only if it comes within sixty seconds of the first. |
| WebViewRecovery.Recovery.RecordReloadSuccess | src-tauri/src/webview2_recovery.rs:336-350 | The deque loses the elapsed reloads by a loop from the front, gains the new one, and the failure counter is reset. |
| WebViewRecovery.Recovery.RecordReloadExecutionFailure | src-tauri/src/webview2_recovery.rs:354-357 | The failure is counted, and the answer says whether it escalates. |
| WebViewRecovery.Recovery.SettleReloadExecution | src-tauri/src/webview2_recovery.rs:383-409 | A success is recorded; a failed reload counts and tells whether to retry or restart; a reload that could not be attempted restarts. |
| WebViewBudget.DequeDecidesLikeHistory | src-tauri/src/webview2_recovery.rs:299-350 | After any run the pruned deque gives the same eligibility, at any later time, as the full history of committed reloads. |
| WebViewBudget.ReloadBudget | src-tauri/src/webview2_recovery.rs:238-350 | With at most k decisions outstanding, any span shorter than the window holds at most the maximum plus k - 1 committed reloads. |
| WebViewRounds.RoundsOfK | src-tauri/src/webview2_recovery.rs:299-350 | With at most k decisions outstanding, any k + 1 committed reloads in a row take at least the cooldown. |
| WebViewRounds.CommitsInWindowIff | src-tauri/src/webview2_recovery.rs:238-350 | For every policy, k and n, some run with at most k decisions outstanding commits n reloads within one window if and only if n is at most the maximum plus k - 1 and the rounds of k that n needs, one cooldown apart, are shorter than the window. |
| WebViewRounds.BudgetReachedIff | src-tauri/src/webview2_recovery.rs:238-350 | The bound of the budget is reached by exactly the policies of which (maximum + k - 2) / k cooldowns are shorter than the window. |
| WebViewRounds.ReloadCooldown | src-tauri/src/webview2_recovery.rs:316-350 | With one decision at a time, committed reloads are at least the cooldown apart. |
| WebViewRounds.CooldownNeedsOneAtATime | src-tauri/src/webview2_recovery.rs:485-560 | With two decisions outstanding, two reloads can commit at the same instant. |
| WebViewRounds.ShippedBudget | src-tauri/src/webview2_recovery.rs:163-195 | The shipped policy: at most three reloads in any ten minutes, thirty seconds apart, with one decision at a time; with k at a time no run has more than k + 2 and some run has as many. |
| WebViewProtocol.TriggersAreBacked | src-tauri/src/webview2_recovery.rs:253-285 | Every unresponsive trigger has a batch of at least the threshold of events inside one window, and no two triggers share an event. |
| WebViewProtocol.TriggeredReloadIsRecorded | src-tauri/src/webview2_recovery.rs:253-285 | After any run, a reload decided for unresponsiveness adds one trigger, whose batch ends with this very event. |
| WebViewProtocol.FailuresChangeNoDecision | src-tauri/src/webview2_recovery.rs:299-357 | Erasing all failed reload executions from a run changes no decision of the run. |
| WebViewProtocol.CounterIsTrailingErrors | src-tauri/src/webview2_recovery.rs:336-357 | The failure counter is the number of reload errors since the last success. |
| WebViewProtocol.EscalationRule | src-tauri/src/webview2_recovery.rs:354-409 | A failed reload escalates exactly when it could not be attempted or is at least the third error in a row. |
| WebViewProtocol.RestartsAtMostOnce | src-tauri/src/webview2_recovery.rs:238-295 | Of all process failures of a run at most one is answered with a restart. |
| WebViewProtocol.RestartRequestsAreCounted | src-tauri/src/webview2_recovery.rs:238-409 | In any run the restarts asked for, by decisions and by settled reloads together, are one if the browser process ever exits and one more for each failed reload that could not be attempted or was the third or later error in a row. |
| WebViewProtocol.TwoRestartRequests | src-tauri/src/webview2_recovery.rs:383-409 | Two outstanding reloads that find no window make the shipped policy ask for two restarts without any browser exit. |
| BigEndian.SignedRoundTrip | agents/drivers/hive-go/zookeeper_protocol.go:407-480 | Every signed integer in range comes back from its big-endian bytes. |
| BigEndian.FourBytes | agents/drivers/hive-go/zookeeper_protocol.go:411-415 | The four bytes of an unsigned number, most significant first. |
| ZooKeeperCodec.Encoder.WriteBytes | agents/drivers/hive-go/zookeeper_protocol.go:407-446 | A buffer is appended as its int32 length and its bytes, a nil one as -1. |
| ZooKeeperCodec.Encoder.Int32 | agents/drivers/hive-go/zookeeper_protocol.go:411-415 | Four big-endian bytes are appended. |
| ZooKeeperCodec.Encoder.Int64 | agents/drivers/hive-go/zookeeper_protocol.go:417-421 | Eight big-endian bytes are appended. |
| ZooKeeperCodec.Encoder.Boolean | agents/drivers/hive-go/zookeeper_protocol.go:423-429 | One byte, 1 or 0, is appended. |
| ZooKeeperCodec.Encoder.WriteString | agents/drivers/hive-go/zookeeper_protocol.go:431-433 | A string is appended as a buffer that is never nil. |
| ZooKeeperRequests.ConnectPayload | agents/drivers/hive-go/zookeeper_protocol.go:149-154 | The connect request is read back as its five fields and nothing else. |
| ZooKeeperRequests.AuthBody | agents/drivers/hive-go/zookeeper_protocol.go:232-239 | The body of an authentication request is the encoding of zero, the scheme and the credentials, and is read back as these while their lengths fit an int32. |
| ZooKeeperRequests.PathBody | agents/drivers/hive-go/zookeeper_protocol.go:241-265 | The body of a request for children or data is read back as the path, with one zero byte left, exactly when the length of the path fits an int32. |
| ZooKeeperCodec.Decoder.TakeBytes | agents/drivers/hive-go/zookeeper_protocol.go:457-464 | The next bytes, or an error that consumes nothing. |
| ZooKeeperCodec.Decoder.Int32 | agents/drivers/hive-go/zookeeper_protocol.go:466-472 | The signed number in the next four bytes. |
| ZooKeeperCodec.Decoder.Int64 | agents/drivers/hive-go/zookeeper_protocol.go:474-480 | The signed number in the next eight bytes. |
| ZooKeeperCodec.Decoder.ReadBuffer | agents/drivers/hive-go/zookeeper_protocol.go:482-498 | The decoder reads a buffer and moves past it, or fails without passing the end. |
| ZooKeeperCodec.Decoder.Strings | agents/drivers/hive-go/zookeeper_protocol.go:505-525 | The loop reads exactly the vector that the specification reads, with the same length checks and offset. |
| ZooKeeperCodec.ReadVectorInside | agents/drivers/hive-go/zookeeper_protocol.go:505-525 | Reading a vector moves the offset forward and not past the end. |
| ZooKeeperRoundTrip.FieldsRoundTrip | agents/drivers/hive-go/zookeeper_protocol.go:407-568 | Decoding an encoded field list gives the fields back, nil and empty buffers identified, and consumes exactly their bytes, wherever the list stands. |
| ZooKeeperRoundTrip.DecodeAllInside | agents/drivers/hive-go/zookeeper_protocol.go:448-568 | Whatever the data, decoding any field list never moves the offset back or past the end. |
| ZooKeeperRoundTrip.VectorLimitIsHarmless | agents/drivers/hive-go/zookeeper_protocol.go:505-525 | Within a legal frame, reading a vector with the length limit and without it succeed alike. |
| ZooKeeperRoundTrip.BufferSurvivesIff | agents/drivers/hive-go/zookeeper_protocol.go:407-498 | A buffer comes back exactly when its length is below 2^31. |
| ZooKeeperRoundTrip.BufferOutcome | agents/drivers/hive-go/zookeeper_protocol.go:482-498 | The length in front of a buffer decides: below -1 it is refused, -1 is empty, too long for the data is the end of the data, and otherwise so many bytes are read. |
| ZooKeeperRoundTrip.VectorOutcome | agents/drivers/hive-go/zookeeper_protocol.go:505-525 | A vector is refused for its length exactly when that is below -1 or above 4194304, before any string is read. |
| ZooKeeperFrames.Connection.Write | agents/drivers/hive-go/zookeeper_protocol.go:374 | One write sends as many leading bytes as its outcome takes, which may come with an error. |
| ZooKeeperFrames.Connection.WriteAll | agents/drivers/hive-go/zookeeper_protocol.go:372-384 | Over any partial writes the bytes go out in order, as many as the writes take, and it succeeds exactly as the specification on their outcomes says. |
| ZooKeeperFrames.SendsIff | agents/drivers/hive-go/zookeeper_protocol.go:372-384 | It succeeds if and only if the first writes each take something without an error and together take all the bytes. |
| ZooKeeperFrames.FrameSendsIff | agents/drivers/hive-go/zookeeper_protocol.go:338-351 | A frame goes out whole if and only if its payload is at most 16777216 bytes and writes without an error cover its header and then its payload. |
| ZooKeeperFrames.Connection.WriteFrame | agents/drivers/hive-go/zookeeper_protocol.go:338-351 | The length and the payload go out in order, success exactly when all writes of both succeed; an oversized payload is refused before a byte is sent. |
| ZooKeeperFrames.Connection.ReceiveFrame | agents/drivers/hive-go/zookeeper_protocol.go:353-370 | Whatever part of the stream arrives by the deadline, the frame or the error and the stream left behind are the specified ones. |
| ZooKeeperFrames.FrameInTimeIff | agents/drivers/hive-go/zookeeper_protocol.go:353-370 | A frame is read, and only it, if and only if all of it arrives by the deadline; otherwise what arrived is lost and the stream is left in the middle of the frame. |
| ZooKeeperFrames.ReadInTime | agents/drivers/hive-go/zookeeper_protocol.go:353-370 | A frame read by a deadline is the one that would be read without it, with the same stream behind. |
| ZooKeeperFrames.OversizedFrame | agents/drivers/hive-go/zookeeper_protocol.go:361-364 | A frame is refused by its length alone if and only if that is above 16777216, and only the length is consumed. |
| ZooKeeperFrames.FramesRoundTrip | agents/drivers/hive-go/zookeeper_protocol.go:338-370 | Frames written one after the other are read back one by one, in order. |
| ZooKeeperClient.ParseReplyFrame | agents/drivers/hive-go/zookeeper_protocol.go:297-336 | A reply is accepted exactly when it carries the XID and no error, and gives its body. |
| ZooKeeperClient.Client.Request | agents/drivers/hive-go/zookeeper_protocol.go:297-336 | The result and both streams, the counter and the outcomes left are the specified ones on every path: closed, write failed, no frame, refused, or the body. |
| ZooKeeperClient.SucceedsIff | agents/drivers/hive-go/zookeeper_protocol.go:297-336 | A request of an open client succeeds if and only if every write of its frame is taken without an error and the next frame arrives in time and is a reply without an error under the new XID; the whole frame has then gone out. |
| ZooKeeperClient.FailsIff | agents/drivers/hive-go/zookeeper_protocol.go:297-336 | Each failure of a request has its exact condition: a closed client, which changes nothing, a failed write, a frame that does not arrive, and a reply that is refused for its own error. |
| ZooKeeperClient.RequestRead | agents/drivers/hive-go/zookeeper_protocol.go:302-309 | The server reads from a request its XID, its opcode and its body. |
| ZooKeeperClient.CheckReply | agents/drivers/hive-go/zookeeper_protocol.go:315-335 | The checks on a reply frame give the specified outcome: malformed, wrong XID, server error, or the body. |
| ZooKeeperXid.RepliesMatchRequests | agents/drivers/hive-go/zookeeper_protocol.go:297-370 | In any run of at most 2^32 requests, however late the replies, a request that succeeds returns the body of the reply to that same request. |
| ZooKeeperXid.RequestIsStep | agents/drivers/hive-go/zookeeper_protocol.go:297-336 | A request of the client object, once its frame went out, is one Receive or Timeout step of the machine, with the same result and the same stream left. |
| ZooKeeperXid.OneMoreRequestMayMismatch | agents/drivers/hive-go/zookeeper_protocol.go:297-336 | With one request more, a run exists in which the last request returns the body of the reply to the first. |
| ZooKeeperSasl.Exchange | agents/drivers/hive-go/zookeeper_protocol.go:202-216 | One round sends the token in one request and returns the challenge of the reply to it, or none. |
| ZooKeeperSasl.RoundsAreDialogue | agents/drivers/hive-go/zookeeper_protocol.go:202-216 | After any number of rounds that went through, the tokens stand in the sent stream, each in its own request, and the replies carried the challenges, in order. |
| ZooKeeperTokens.ServerReadsTurns | agents/drivers/hive-go/zookeeper_protocol.go:202-212 | After any number of rounds, what the client sent is read back frame by frame, each a SASL request under the next XID with the token of the next turn, empty where the mechanism had none. |
| ZooKeeperSasl.Authenticate | agents/drivers/hive-go/zookeeper_protocol.go:193-230 | It succeeds if and only if, within eight rounds that all go through, the mechanism completes without a failed turn and the challenge after that is empty; then all tokens went out once and in order and all other challenges went to the mechanism once and in order. In any case the mechanism is disposed of. |
| HivePaging.PagesEqualOneShot | agents/drivers/hive-go/query.go:216-256 | Whatever the page sizes, the pages put together are the rows of the one-shot read, the last Truncated flag is the one-shot flag, and the same reads fail with the same error. |
| HivePaging.FetchingEnds | agents/drivers/hive-go/query.go:216-256 | Each page that promises more uses up a row of the limit and of the result set, so a client that keeps fetching finishes. |
| HivePaging.LaterPagesHaveRows | agents/drivers/hive-go/query.go:216-256 | Every page after the first has a row. |
| HivePaging.PageShape | agents/drivers/hive-go/query.go:216-256 | A page that promises more is as large as was asked for and not marked as truncated. |
| HivePaging.PagesWithin | agents/drivers/hive-go/query.go:216-256 | Whatever sizes are asked for, no page is larger than asked for and all pages of a query together stay within its row limit. |
| HivePaging.CancellationOnlyFails | agents/drivers/hive-go/query.go:232-236 | A cancelled context can only turn a page into its error and never changes its rows. |
| HiveQueries.ReadRows | agents/drivers/hive-go/query.go:408-422 | The loop gives the first rows up to the limit and whether there are more, or the error at the end. |
| HiveQueries.Cursor.Next | agents/drivers/hive-go/query.go:424-443 | The next row, or the end, or the error in place of the end. |
| HiveQueries.QuerySession.ReadPage | agents/drivers/hive-go/query.go:216-256 | The loop with its held-back row gives the specified page and leaves a session that stands behind it, with the budget that is left. |
| HiveQueries.QuerySession.Fill | agents/drivers/hive-go/query.go:223-240 | The row loop fills the page from the rows that follow, or stops it at the end, at an error or at a cancellation as specified. |
| HiveQueries.QueryTable.CloseSession | agents/drivers/hive-go/query.go:258-267 | The session is removed and its result set closed; no result set stays open without a session. |
| HiveQueries.QueryTable.ExpireIdle | agents/drivers/hive-go/query.go:284-295 | Exactly the sessions idle for ten minutes are closed; the others are untouched. |
| HiveQueries.QueryTable.CloseAll | agents/drivers/hive-go/query.go:269-282 | No session is left and every result set ever opened is closed. |
| HiveQueries.QueryTable.FetchPage | agents/drivers/hive-go/query.go:180-214 | The next page of a live session, which stays exactly while there is more: at most the requested rows, or 1000 if that is no number of rows, exactly so many if there is more, and never past the limit of the session; an unknown session or one idle for ten minutes is not found; other sessions are untouched. |
| HiveQueries.QueryTable.ExecutePage | agents/drivers/hive-go/query.go:83-178 | The first page, of the requested size or 1000 and under the requested row limit or 10000, with a session number never used before that stays exactly while there is more; on every error path the result set is closed. |
| CassandraPaging.FetchCqlPage | agents/drivers/cassandra-go/query.go:129-172 | The loop takes at most the requested rows of an answer, and its continuation. |
| CassandraPaging.ReadAll | agents/drivers/cassandra-go/query.go:43-66 | The row loop of a one-shot query gives the first rows up to the limit and whether there are more. |
| CassandraPaging.CqlSessions.ExecutePage | agents/drivers/cassandra-go/query.go:70-102 | The first page: at most the requested rows, or the fetch size, or 500, within the requested row limit or 10000, no row held back that fits; and a new session exactly while there is more, for the rest of the limit. |
| CassandraPaging.CqlSessions.FetchPage | agents/drivers/cassandra-go/query.go:104-127 | The page at which the session stands: at most the requested rows, or 500, within what is left of the limit, which is reduced by them; a failed request leaves the session as it was. |
| CassandraPaging.RunWithinLimit | agents/drivers/cassandra-go/query.go:70-172 | Whatever the server answers, all pages of a run together stay within the row limit and none is larger than asked for. |
| CassandraPaging.CqlSessions.CloseSession | agents/drivers/cassandra-go/query.go:174-180 | The session is removed, and the answer says whether there was one. |
| CassandraPaging.PagesAreThePrefix | agents/drivers/cassandra-go/query.go:70-172 | However short the server's pages and however many requests fail, the pages are a prefix of the rows, nothing skipped or repeated, and in the end all rows or as many as the limit allows. |
| CassandraPaging.StepSoundIff | agents/drivers/cassandra-go/query.go:152-163 | A page keeps that exactly when the answer is within the requested size, or is cut where the budget ends and says that it goes on. |
| CassandraPaging.FlagAtTheLimit | agents/drivers/cassandra-go/query.go:86-90 | With exactly as many rows as the limit, Truncated is set exactly when the server sends a continuation with the last of them. |
| CassandraPaging.FlagDiffersIff | agents/drivers/cassandra-go/query.go:86-90 | Over whole honest runs, the flag of a finished paged query differs from the one-shot flag exactly when there are as many rows as the limit and the answer that ends the run carries a continuation. |
| CassandraPaging.FlagWithoutCut | agents/drivers/cassandra-go/query.go:86-90 | One row, a limit of one and a continuation with it: the paged query says truncated, the one-shot query does not. |
| CassandraPaging.FailuresLeaveNoTrace | agents/drivers/cassandra-go/query.go:112-115 | A run with failed requests delivers what the run of its successful requests delivers. |
| CassandraPaging.LargeAnswersSkipRows | agents/drivers/cassandra-go/query.go:152-163 | A server that answers with too many rows makes a run that misses a row and reports no truncation. |
| IssueLimiter.ConsumeRollingLimit | docs/lib/issueSubmission.ts:188-200 | The filter, sort and push loops compute the specified verdict. |
| IssueLimiter.SortSorts | docs/lib/issueSubmission.ts:194 | The sort orders the active timestamps. |
| IssueLimiter.SortPermutes | docs/lib/issueSubmission.ts:194 | The sort neither adds nor drops a timestamp. |
| IssueWindow.Limiter.Consume | docs/worker.ts:532-543 | A request is one transaction on the stored window, written only when allowed, and sets the alarm behind its last timestamp. |
| IssueWindow.Limiter.DeleteAll | docs/worker.ts:617-619 | The clean-up empties the stored window. |
| IssueWindow.WindowNeverOverfull | docs/worker.ts:532-543 | Over any run of requests and alarms, no window of an hour, wherever it lies, has more than eight allowed requests. |
| IssueWindow.DeniedIffFull | docs/lib/issueSubmission.ts:188-200 | After any run, a request is denied exactly when the window that ends with it has eight allowed requests. |
| IssueWindow.ResetAtIsExact | docs/lib/issueSubmission.ts:195-197 | A denied request changes nothing and is told the first instant at which a retry is allowed. |
| IssueWindow.ResetOfAllowedIsExact | docs/lib/issueSubmission.ts:198-199 | After any run, an allowed request is told the first instant at which, without further requests, the window has fewer allowed ones. |
| IssueWindow.RemainingIsExact | docs/lib/issueSubmission.ts:198-199 | After any run, the remaining count of an allowed request is positive exactly when one more request at that instant is allowed, which is told one less. |
| IssueWindow.CleanUpChangesNoVerdict | docs/worker.ts:617-619 | In any run of requests and alarms, every verdict and all allowed times are those of the same requests without a single alarm. |
| IssueWindow.AlarmKeepsNextVerdict | docs/worker.ts:617-619 | A verdict is the same whether the alarm went off just before it or not. |
| IssueDrafts.DraftStore.Create | docs/worker.ts:552-557 | The draft is stored, and other drafts are untouched. |
| IssueDrafts.DraftStore.Claim | docs/worker.ts:559-579 | The answer and the stored record are those of the claim rule, checked in the source's order; other drafts are untouched. |
| IssueDrafts.DraftStore.Release | docs/worker.ts:581-589 | A draft under submission becomes ready; any other is left alone. |
| IssueDrafts.DraftStore.Complete | docs/worker.ts:591-612 | A stored draft keeps the issue; an unusable issue is refused; a missing draft stays missing. |
| IssueDrafts.DraftStore.DeleteAll | docs/worker.ts:617-619 | The clean-up removes every draft. |
| IssueLifetime.NeverLosesIff | docs/worker.ts:395-453 | In all runs of one limiter object the alarm deletes no draft that is neither submitted nor expired, if and only if every draft is stored within thirty minutes and one second of its request. |
| IssueLifetime.FoundUntilItExpires | docs/worker.ts:525-620 | A draft stored in time and not submitted is found until it expires, through claims, releases, further requests and alarms. |
| IssueLifetime.SubmittedIsLost | docs/worker.ts:591-619 | A submitted draft can be deleted by the alarm before the expiresAt that complete wrote; a claim is then told that there is none, where it would have been told the issue. |
| IssueSubmit.RunKeepsInv | docs/worker.ts:455-513 | Every orderly interleaving of any number of submit handlers keeps at most one holder, for whom the draft is held or gone, and accounts for the issue. |
| IssueSubmit.AtMostOneIssue | docs/worker.ts:455-513 | In every run in which no claim runs out on its holder and no complete call is lost, at most one issue is made from a draft. |
| IssueSubmit.NoClaimAfterTheIssue | docs/worker.ts:559-579 | Once the issue is made, a claim is never granted; the answer names that issue or says gone, expired or busy. |
| IssueSubmit.SecondGrantIff | docs/worker.ts:563-577 | In every orderly run, while a handler holds a stored draft, and after its complete or release call is lost, a claim is granted exactly when it was sent after that handler's claim ran out and before the draft expires. |
| IssueSubmit.AnswerIs | docs/worker.ts:559-579 | In every orderly run without lost release calls, every claim is answered by the state of the draft: missing, its issue, expired and deleted, busy while a handler holds it for less than two minutes, or granted with its images and its end. |
| IssueSubmit.ReleaseGivesBack | docs/worker.ts:581-589 | In every orderly run, once the release call of the holder arrives at the stored draft, a claim is granted if and only if the draft has not expired, and the draft is as it was first stored. |
| IssueSubmit.CompleteKeeps | docs/worker.ts:591-612 | In every orderly run, the complete call leaves the draft with the one issue made from it and its images, for one hour from the call on. |
| IssueSubmit.CompletedAnswersTheIssue | docs/worker.ts:566-568 | Once the complete call has arrived at a stored draft, every later claim is answered with that issue, whatever the time. |
| IssueSubmit.SlowHolderMakesTwo | docs/worker.ts:581-589 | When a claim runs out on its holder, a run without any lost call makes two issues. |
| IssueSubmit.LostCompleteMakesTwo | docs/worker.ts:494-499 | When a complete call is lost, a run in which every holder is in time makes two issues. |
| HadoopToken.Reader.ReadVInt | agents/drivers/hive-go/config.go:820-847 | The loop reads the integer that the bytes spell, with 64-bit wrap-around, or reports the end of the data. |
| HadoopToken.Reader.ReadByteArray | agents/drivers/hive-go/config.go:798-818 | The array behind a length, or the fault: negative, above 64 MiB, or short. |
| HadoopToken.DecodeToken | agents/drivers/hive-go/config.go:773-796 | The four reads and their checks, in the source's order. |
| HadoopToken.VIntAtIff | agents/drivers/hive-go/config.go:820-847 | An integer is read exactly where bytes stand that spell it. |
| HadoopToken.ArrayAtIff | agents/drivers/hive-go/config.go:798-818 | An array is read exactly where bytes stand that are a length and that many bytes. |
| HadoopToken.ArrayOutcome | agents/drivers/hive-go/config.go:798-818 | The length in front of an array decides: negative, above 64 MiB, too long for the data, or so many bytes. |
| HadoopToken.VLongRoundTrip | agents/drivers/hive-go/config.go:820-847 | Hadoop's variable-length encoding of every 64-bit integer spells that integer. |
| HadoopToken.VIntInvertsVLong | agents/drivers/hive-go/config.go:820-847 | Reading inverts that encoding for every 64-bit integer, whatever follows, and consumes exactly its bytes. |
| HadoopToken.TokenIsFourArrays | agents/drivers/hive-go/config.go:773-796 | A token is accepted only if four length-prefixed arrays fill it exactly; it gives the first two, which are not empty. |
| HadoopToken.FourArraysAreAToken | agents/drivers/hive-go/config.go:773-796 | And every such token is accepted. |
| HadoopToken.EmptyPartIff | agents/drivers/hive-go/config.go:782-784 | Where two arrays stand in front, the token is refused for an empty part if and only if one of them is empty, whatever follows. |
| HadoopToken.TrailingDataIff | agents/drivers/hive-go/config.go:785-795 | Four arrays are a token if nothing follows them, and are refused for trailing data otherwise. |
| HadoopToken.TokenRoundTrip | agents/drivers/hive-go/config.go:753-796 | A token as Hadoop writes it gives back its identifier and password. |
| CqlTypes.TypeName | agents/drivers/cassandra-go/values.go:79-119 | The recursive printer with its tuple loop gives the specified text. |
| CqlParser.QuotedRoundTrip | agents/drivers/cassandra-go/metadata.go:618-620 | A quoted identifier is read back whatever quotes, commas or brackets it has. |
| CqlReadability.ReadBack | agents/drivers/cassandra-go/values.go:79-119 | Wherever a printed type stands in a text, an independent reader finds that type and where it ends. |
| CqlReadability.RoundTrip | agents/drivers/cassandra-go/values.go:79-119 | Reading the printed text of any nested type gives the type, with varchar read as text. |
| CqlVocabulary.Readable | agents/drivers/cassandra-go/values.go:79-119 | With a fixed table of CQL's words, the text of every type is read back, wherever it stands. |
| CqlVocabulary.VocabularyFits | agents/drivers/cassandra-go/values.go:96-119 | The printer uses the words of that table, each for its kind and each head for its bracket. |
| CqlVocabulary.SameTextIff | agents/drivers/cassandra-go/values.go:79-119 | Two types have the same text exactly when they are the same up to what the text cannot show. |

## Left out

- Driver libraries, TLS, Kerberos, DNS and the GSSAPI mechanism: driver sessions are numbers, result sets are sequences that may end in an error, the mechanism is an arbitrary script.
- Wall clocks and context deadlines: they are time inputs that do not go back, or steps that may fail.
- JSON-RPC decoding, error texts and classification, metadata queries: plumbing and string tables.
- The validation of connection parameters: easy members.
- validate_session uses a driver session without a permit; the claims are about operations that hold one.
- CassandraAgent.Register: the runtime mutex that openSession holds while it releases a losing open is not held in the model, which allows more interleavings.
- CassandraAgent.CloseOne: a batch of driver sessions is closed one at a time, and other threads may run in between.
- WebView2 log texts, window lookup and the restart itself; the 32-bit counters of the policy do not overflow in the model.
- ZooKeeperXid.RepliesMatchRequests: supposes replies within the frame size and deadlines that do not pass in the middle of a frame, because either leaves the client's stream out of step; and a write that fails in the middle of a frame, which leaves the server's stream out of step, counts as nothing sent.
- ZooKeeperXid.RequestIsStep: the deadline passes before the replies on the way or after them.
- ZooKeeper node statistics, boolean decoding, the connect reply and the close request: fixed lists of the fields that are modelled.
- Hive schema context, statement classification and value normalisation: calls into the driver and string tables.
- HiveQueries.QueryTable.ExecutePage: takes the trimmed statement and the outcome of its execution as inputs; cancellation by the user is an error of the result set.
- CassandraPaging.PagesAreThePrefix: does not promise an end, because a server may answer with empty pages and a continuation for ever.
- CassandraPaging.CqlSessions.FetchPage: takes the server's answer as input and does not model columns.
- OAuth, cookies, HMAC, the AI preview, image storage and the GitHub call: making an issue is one step that succeeds or fails.
- IssueWindow.Limiter.Consume: the stored window and the alarm change in one step, as the object serves one request at a time.
- IssueSubmit.AtMostOneIssue: is about one draft, whose identifier is not created again; other drafts in the store do not interact with it but through the clean-up.
- HadoopToken.DecodeToken: starts after the four attempts at base64.
- CqlReadability.RoundTrip: the text does not show the keyspace of a user type, the key of a list or set, or which unnamed code an unknown type has.
- deploy/dbx_tunnel.php, startup recovery, Linux GPU workarounds, the DER wrapper, native menus, packaging and the documentation site: easier members or user interface.
