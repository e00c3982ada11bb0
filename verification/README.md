# Verification of podsh

podsh is an SSH gateway to pods. This project models the parts of it whose correctness rests on
arithmetic over time or on the interleaving of goroutines, and proves properties of them in Dafny.
`dafny verify dfyconfig.toml` checks everything.

| file | models |
|---|---|
| Limiter.dfy | the limiter's result, and a table of independent keys |
| Gcra.dfy | the GCRA script and the Redis-backed limiter |
| MonoLimiter.dfy | the in-process token bucket |
| Compare.dfy | the two limiters on the same run of calls |
| Tarpit.dfy | the accept loop, the tarpit's queue, dispatcher and workers |
| Overload.dfy | limiter and tarpit together |
| Decimal.dfy | decimal rendering and the string keys built from it |
| Connector.dfy | one connection: channel loop, tunnel cache, capped task group |
| Session.dfy | one session channel: request loop and worker |
| ForwardManager.dfy | port forwards sharing one SPDY connection |
| IdentityCache.dfy | the polled identity cache and its lookup |
| Wrap.dfy | greedy line breaking |
| SplitArgs.dfy | the exec command tokenizer |

## How it is modelled

- Sequential code that updates variables is written as methods with loops, proved equal to a
  specification function; the properties are lemmas about that function.
- Concurrent code is a state machine. Each atomic step (a critical section, a channel operation, one
  arm of a `select`) is an event; `Step` gives its effect and leaves the state alone when the event is
  blocked; a run is any sequence of events, so every interleaving and every outcome of an external
  call is covered. A class beside each machine has the program's variables as fields and the steps as
  methods, each proved to do what `Step` says and to keep `Valid()`, the invariant of all runs.
- Time, tokens and rates are exact reals, in nanoseconds as in Go.
- What the outside world does (opening a tunnel, creating a stream, a Redis write, a payload that does
  not parse, the moment a timer fires) is part of the event or an argument.

## Where the code differs from what one might expect

- The in-process limiter's retry time is not always enough. `Mono.RetryHonouredIff` gives the exact
  condition, `Mono.RetryTimeCanBeTooShort` a run, and `Mono.FollowingRetryTimeTerminates` the number
  of retries that is enough. The GCRA retry time is exact for a burst of at least one
  (`Gcra.RetryTimeIsExact`); with a burst below one nothing is ever admitted.
- Forgetting state is invisible exactly when rate times time to live covers the burst, or the burst is
  below one (`Gcra.ForgettingIsVisible`, `Mono.ForgettingIsVisible` give the other half). So is the
  bound on windows kept (`Gcra.WindowBoundIffForgettable`, `Mono.WindowBoundNeedsTtl`).
- After the global-request task of a connection has ended, ten channels can run instead of nine
  (`Connector.TenChannelsCanRun`).
- A session grants start requests that section 6.5 of RFC 4254 would refuse
  (`Session.TwoStartsCanBeGranted`; `Session.OneStartIffOneAsked` says exactly when it does not), panics
  on a second sftp request (`Session.PanicsIffSecondSftp`), and can block for good on a full channel
  (`Session.ProgressIffNotStuck`, with runs in `Session.NinthSizeIsStuck` and `Session.FailedShellIsStuck`).
- A connection queued in the tarpit is beyond closing exactly when the dispatcher has left, as on
  cancellation it may (`Tarpit.NeverClosedIffDispatcherLeft`, `Tarpit.SomeAreLeftQueued`).
- A first word as long as the line or longer makes the greedy wrap emit an empty first line
  (`Wrap.GreedyIsOptimal`).

## Model

| member | source | states |
|---|---|---|
| Limiter.KeysAreIsolated | internal/ratelimit/mono_limiter.go:42-45 | in any interleaving of calls on any keys, a key's entry is the one its own calls would have produced |
| Gcra.RedisLimiter.Allow | internal/ratelimit/redis_limiter.go:36-72 | one call runs the script on the key, keeps every other key, and stores a new arrival time with an expiry only on admission |
| Gcra.KeyHoldsItsOwnCalls | internal/ratelimit/redis_limiter.go:39-46 | the Redis entry of a key is a function of the calls on that key |
| Gcra.TatClosedForm | internal/ratelimit/gcra.lua:11-25 | the stored arrival time is the maximum over the admissions k of a[k] + (n - k) * interval |
| Gcra.DeniedIffWindowFull | internal/ratelimit/gcra.lua:8-25 | on a key that expires no sooner than a refill, and with a clock that does not go back, a call is denied if and only if admitting it would put more than burst + rate * length into some window ending now |
| Gcra.AdmittedConforms | internal/ratelimit/gcra.lua:11-25 | when rate * ttl covers the burst, no window of any run on a key that expires holds more than burst + rate * length admissions, in whatever order the clock readings reach Redis |
| Gcra.WindowBoundIffForgettable | internal/ratelimit/gcra.lua:11-25 | that bound holds of all runs if and only if rate * ttl covers the burst or the burst is below one, and so it does of the runs on a forward clock |
| Gcra.NoConformingPolicyAdmitsMore | internal/ratelimit/gcra.lua:17-25 | on a forward clock no choice of calls that respects that bound in every window contains more calls than the limiter admits, whatever the expiry |
| Gcra.ScriptIsTokenBucket | internal/ratelimit/gcra.lua:11-27 | the script, with a long enough expiry, and a continuously refilled token bucket hold the same tokens after every run and answer the next call alike |
| Gcra.RetryTimeIsExact | internal/ratelimit/gcra.lua:17-23 | for a burst of at least one and whatever arrival time is stored, a later call is admitted if and only if the retry time has passed |
| Gcra.RetryHonouredAcrossExpiry | internal/ratelimit/gcra.lua:11-25 | the same for the call that follows a denial on a key that may expire in between |
| Gcra.RetryTimeNeedsBurst | internal/ratelimit/gcra.lua:17-23 | for a burst below one every call is denied, so no retry time is kept |
| Gcra.RetryWithinOneInterval | internal/ratelimit/gcra.lua:20-25 | with a clock that does not go back the retry time is positive and at most one interval, whatever the expiry |
| Gcra.ForgettingIsInvisible | internal/ratelimit/gcra.lua:11-25 | when rate * ttl covers the burst, or the burst is below one, every call of every run is answered as if keys never expired |
| Gcra.ForgettingIsVisible | internal/ratelimit/gcra.lua:11-25 | when that condition fails, some run with a forward clock tells the two apart |
| Mono.BucketCell.Charge | internal/ratelimit/mono_limiter.go:48-81 | reset, lazy refill and charge of one bucket in place, with the answer and the new bucket |
| Mono.MonoLimiter.Allow | internal/ratelimit/mono_limiter.go:36-82 | one call updates the bucket of its key only, inserting a full one when absent; no two keys share a bucket |
| Mono.KeyHoldsItsOwnCalls | internal/ratelimit/mono_limiter.go:42-46 | the bucket of a key is a function of the calls on that key |
| Mono.AlwaysAtRest | internal/ratelimit/mono_limiter.go:42-78 | between calls a bucket is never below zero and at least one token short of full |
| Mono.WindowBound | internal/ratelimit/mono_limiter.go:37-81 | given rate * ttl >= burst, any stretch of calls with readings in [t1, t2], in any order, after any history, admits at most burst + rate * (t2 - t1) |
| Mono.WindowBoundNeedsTtl | internal/ratelimit/mono_limiter.go:48-52 | without that condition some run breaks the bound |
| Mono.ForgettingIsInvisible | internal/ratelimit/mono_limiter.go:49-64 | under the same condition every call of every run is answered as by a limiter without the reset |
| Mono.ForgettingIsVisible | internal/ratelimit/mono_limiter.go:49-64 | when the condition fails, some run tells the two apart |
| Mono.DenialChangesNothing | internal/ratelimit/mono_limiter.go:66-76 | for a burst of at least one a denial leaves the bucket as it was and asks for exactly the missing fraction of a token |
| Mono.RetryWithinOneInterval | internal/ratelimit/mono_limiter.go:67-75 | in every state the retry time is positive and at most 1 / rate |
| Mono.IntervalSuffices | internal/ratelimit/mono_limiter.go:54-64 | a call 1 / rate after the last refill is admitted |
| Mono.RetryHonouredIff | internal/ratelimit/mono_limiter.go:54-78 | a call made 1 - tokens worth of waiting after a denial, which is the time announced, is admitted if and only if the burst is at least one and what had accrued at the denial was worth the tokens held, or the bucket has gone stale |
| Mono.RetryTimeCanBeTooShort | internal/ratelimit/mono_limiter.go:54-78 | a run in which such a retry is denied again |
| Mono.FollowingRetryTimeTerminates | internal/ratelimit/mono_limiter.go:54-78 | a lone caller that waits after each denial what that denial announces is admitted within ceil(1 / (1 - tokens)) retries |
| Mono.DeniedAttemptsAnnounceTheSame | internal/ratelimit/mono_limiter.go:66-76 | as long as its attempts are denied the bucket stays as it was and each announces the time of the first |
| Compare.MonoConforms | internal/ratelimit/mono_limiter.go:37-81 | on a forward clock the in-process admissions satisfy the bound the GCRA limiter enforces, in every window |
| Compare.MonoNeverAdmitsMore | internal/ratelimit/limiter.go:29-32 | with equal rate and burst and on a forward clock, the in-process limiter never admits more calls of a run than the Redis limiter, whatever the expiry of its keys |
| Compare.MonoAdmitsNoFewer | internal/ratelimit/mono_limiter.go:54-81 | on a forward clock the in-process limiter admits at least as many calls of a run as a GCRA limiter of the same rate whose burst is one less, resets or not |
| Compare.NoStricterPolicyAdmitsMore | internal/ratelimit/mono_limiter.go:54-81 | no choice of calls that keeps every window within burst - 1 + rate * length contains more calls of a run than it admits |
| Tarpit.Server.RouteConnection | internal/sshd/listen.go:38-54 | where an accepted connection goes: closed, handed to the connector, or queued with its retry time |
| Tarpit.Server.AddJob | internal/tarpit/tarpit.go:64-71 | a job is queued, or its connection closed when the queue is full |
| Tarpit.Server.TakeJob | internal/tarpit/tarpit.go:38 | the dispatcher takes the oldest job |
| Tarpit.Server.AcquireSlot | internal/tarpit/tarpit.go:39-41 | a job starts when a slot is free, and the dispatcher goes on |
| Tarpit.Server.FireTimer | internal/tarpit/tarpit.go:53-61 | a worker closes its connection after the delay or on cancellation |
| Tarpit.Server.LeaveDispatcher | internal/tarpit/tarpit.go:35-44 | on cancellation the dispatcher leaves, abandoning the job it holds |
| Tarpit.EveryConnectionHasOnePlace | internal/sshd/listen.go:28-73 | in every reachable state each accepted connection is at exactly one place, at most 1000 are queued and at most maxWorkers slots are used |
| Tarpit.JobsStartInOrder | internal/tarpit/tarpit.go:20-48 | jobs start in the order in which they were queued |
| Tarpit.NoEarlyClose | internal/tarpit/tarpit.go:53-61 | before cancellation no worker closes its connection before the delay has passed |
| Tarpit.RouteDecidesPlace | internal/sshd/listen.go:38-54 | in every reachable state the answer to a connection decides its place: closed, handed over, or queued when the retry time is positive and fewer than 1000 wait, else closed |
| Tarpit.HeldForRetryTime | internal/sshd/listen.go:45-49 | in every run without cancellation a denied connection that found room in the queue is closed no sooner than its retry time after it was routed |
| Tarpit.CancelReleases | internal/tarpit/tarpit.go:32-61 | once cancelled, every worker can close its connection at once, and the dispatcher can leave, abandoning what it holds |
| Tarpit.AbandonedOnlyByCancel | internal/tarpit/tarpit.go:32-48 | without cancellation nothing is abandoned and the dispatcher stays |
| Tarpit.NeverClosedIffDispatcherLeft | internal/tarpit/tarpit.go:32-48 | a queued connection is closed in no continuation if and only if the dispatcher has left, or there are no workers |
| Tarpit.SomeAreLeftQueued | internal/tarpit/tarpit.go:35-36 | a run that leaves a connection queued when the dispatcher leaves |
| Tarpit.QueuedConnectionIsClosedInTime | internal/tarpit/tarpit.go:32-62 | under immediate dispatch with m workers and delays up to d, a connection behind q unfinished ones is closed within q * d / m + d |
| Tarpit.TimeCanAlwaysPass | internal/tarpit/tarpit.go:32-62 | under immediate dispatch some run without cancellation reaches any later time, so the bound is not met by time standing still |
| Tarpit.SomeCalmRunCloses | internal/tarpit/tarpit.go:32-62 | so from every state some such run closes a waiting connection |
| Overload.TarpittedClientWaits | internal/sshd/listen.go:45-53 | in a run from the start whose denials come from the in-process limiter, a connection behind q unfinished ones is closed within (q / m + 1) / rate |
| Overload.TarpittedClientWaitsBehindRedis | internal/sshd/listen.go:45-53 | the same when they come from the Redis limiter, with a clock that does not go back |
| Overload.HeldAsAnnounced | internal/sshd/listen.go:45-49 | a connection that the in-process limiter denies is held for no less than the time it answers |
| Overload.ReleasedClientIsAdmitted | internal/sshd/listen.go:45-49 | a client that the Redis limiter denied is let go no sooner than the limiter would admit its next call |
| Decimal.TunnelKeyIsInjective | internal/sshd/connector.go:262 | different address and port pairs have different cache keys, colons in addresses included |
| Decimal.ValueOfRender | internal/sshd/connector.go:262 | a rendered number reads back as the number |
| Decimal.RenderNameIsInjective | internal/k8s/forward_manager.go:89-119 | different request numbers and stream kinds have different map keys |
| Connector.Handler.FindTunnel | internal/sshd/connector.go:262-279 | a direct-tcpip channel reuses the cached tunnel, opens and caches a new one, or is rejected when opening fails |
| Connector.Handler.StartTask | internal/sshd/connector.go:293-310 | an accepted channel becomes a task, or is closed when the group is full |
| Connector.Handler.CloseForwarded | internal/sshd/connector.go:320-323 | every cached tunnel is closed, once for each entry that names it |
| Connector.EveryChannelHasOnePlace | internal/sshd/connector.go:208-325 | in every reachable state each received channel is at exactly one place, at most ten tasks run, at most nine channels beside the global-request task, and none once the handler has returned |
| Connector.TunnelsServeTheirPairs | internal/sshd/connector.go:255-325 | each running direct-tcpip task copies to a tunnel opened for its own pair, no pair has two tunnels, and each tunnel is closed exactly once before the return |
| Connector.SecondLookupReuses | internal/sshd/connector.go:263-279 | a pair that has a tunnel gets that tunnel again, whatever an open would have done |
| Connector.DispatchDecides | internal/sshd/connector.go:214-313 | in every reachable state of the loop, what a new channel asks for and what the outside world answers decide its place; a tunnel is opened exactly for a pair that has none, and a direct-tcpip channel that runs copies to a tunnel of its own pair |
| Connector.TaskClosesItsChannel | internal/sshd/connector.go:228-236 | a task that ends closes its own channel and moves no other |
| Connector.HandlerCanReturn | internal/sshd/connector.go:210-325 | from every reachable state some continuation ends the handler |
| Connector.TenChannelsCanRun | internal/sshd/connector.go:208-255 | after the global-request task has ended, n sessions can run at once for every n up to ten |
| Session.SessionV2.HandleRequest | internal/sshd/connector.go:394-460 | what the loop does with each kind of request, the panic on a second sftp request included |
| Session.SessionV2.PickHandler | internal/sshd/connector.go:356-384 | the worker takes a closed or filled channel, invokes its handler, and chooses no more |
| Session.SessionV2.TakeSize | internal/k8s/shell.go:94-104 | the oldest buffered size is taken and returned modulo 65536 in each dimension |
| Session.AtMostOneHandler | internal/sshd/connector.go:356-384 | at most one handler is ever invoked, and a request of its kind was received |
| Session.EveryRequestAnsweredOnce | internal/sshd/connector.go:386-462 | requests are answered in order and once each, all but the one in hand; at most one shell request is granted |
| Session.ReturnsAfterWorker | internal/sshd/connector.go:356-393 | the session returns only after its worker has finished, and a worker that invoked a handler finishes only when that handler returns |
| Session.AnswersAreDeserved | internal/sshd/connector.go:394-460 | in every run each answer is true if and only if the request parses and is a pty-req, window-change, env, exec, the first shell, or an sftp subsystem |
| Session.HandlerCanBeInvokedIff | internal/sshd/connector.go:356-384 | a handler of a kind can be the next to be invoked if and only if the worker has not chosen and a request of that kind was granted |
| Session.CommandsAreQueued | internal/sshd/connector.go:365-439 | the command handed to the exec handler, followed by the one still held, are the commands of the granted exec requests in order |
| Session.CanReturnIff | internal/sshd/connector.go:386-462 | from a reachable state the session can still return, with or without the client closing the channel, if and only if it is not stuck and a second sftp request has not doomed it |
| Session.SelectingReturns | internal/sshd/connector.go:386-393 | between requests the loop ends when the client closes the channel, and on cancellation |
| Session.SelectingSeesWorker | internal/sshd/connector.go:358-389 | between requests the loop ends when its worker is done |
| Session.EndsForAReason | internal/sshd/connector.go:386-393 | and for no other reason, in any run |
| Session.PanicsIffSecondSftp | internal/sshd/connector.go:449-452 | acting on a request panics if and only if it is an sftp request and another came before |
| Session.TwoSftpRequestsPanic | internal/sshd/connector.go:449-452 | a run of two sftp requests that panics |
| Session.SizesAreQueued | internal/sshd/connector.go:395-413 | the sizes taken, followed by the at most eight buffered, are the sizes of the granted requests in order |
| Session.SmallSizesAreKept | internal/k8s/shell.go:100-103 | a size below 65536 in each dimension reaches the shell as it was sent |
| Session.GrantedStartsAreServedOrHeld | internal/sshd/connector.go:423-452 | the start requests granted are those served and those still held in the channels, none lost and none made up |
| Session.OneStartIffOneAsked | internal/sshd/connector.go:423-452 | in every run at most one start is granted if and only if the requests answered ask for at most one, counting every well-formed exec request, and shell and sftp once each |
| Session.SecondStartGrantedIff | internal/sshd/connector.go:423-452 | acting on a request grants a start beside an earlier one if and only if the request is grantable and a start channel is closed or filled, or a handler was invoked |
| Session.TwoStartsCanBeGranted | internal/sshd/connector.go:423-441 | an exec and then a shell request are both granted |
| Session.ProgressIffNotStuck | internal/sshd/connector.go:402-439 | a request in hand can still be dealt with if and only if the channel it needs has room or someone who may take from it: for sizes a stream that was started or a shell that may still start one, for commands a worker yet to choose; a stuck loop never moves again |
| Session.NinthSizeIsStuck | internal/sshd/connector.go:395-413 | nine pty requests and no shell block the loop for good |
| Session.FailedShellIsStuck | internal/k8s/shell.go:14-38 | a ninth size blocks the loop for good once the shell's handler returns without having started its stream, and not before |
| ForwardManager.Manager.OpenStreams | internal/k8s/forward_manager.go:92-120 | both streams are registered, or none is and the one created is closed |
| ForwardManager.Manager.EnterCleanUp | internal/k8s/forward_manager.go:128-146 | of the calls of the cleanup only the first enters it |
| ForwardManager.Manager.CloseStreams | internal/k8s/forward_manager.go:134-139 | cleanup closes both streams of a call and removes its two names |
| ForwardManager.Manager.CloseManager | internal/k8s/forward_manager.go:185-203 | Close closes every registered stream, empties the map, and does nothing the second time |
| ForwardManager.MapHoldsLivePairs | internal/k8s/forward_manager.go:81-203 | over all interleavings the map holds exactly the error and data pair of each registered call not yet cleaned up, and nothing after Close |
| ForwardManager.RequestNumbersAreUnique | internal/k8s/forward_manager.go:89 | no two calls ever made get the same request number, returned or not, and a call keeps its number |
| ForwardManager.GaugeIsBalanced | internal/k8s/forward_manager.go:125-146 | however the two closers of a call race, each call raises the gauge at most once and lowers it at most once and only after; the gauge is increments minus decrements, counts the calls in between, and is zero when every call has returned |
| ForwardManager.EveryStreamIsClosed | internal/k8s/forward_manager.go:114-203 | a stream is closed if and only if Close has run or its call is no longer registered: none outlives its call or the manager, none is cut off before |
| ForwardManager.ClosedIffClose | internal/k8s/forward_manager.go:185-189 | the manager is closed if and only if Close has run |
| ForwardManager.CloseIsFinal | internal/k8s/forward_manager.go:81-203 | after Close every stream is closed and the map empty, and in every continuation no stream is created and new calls fail before they get a number |
| ForwardManager.ForwardRoundTrip | internal/k8s/forward_manager.go:81-183 | until Close a call whose streams can be created registers both and is counted; when it has returned, map and gauge are as it found them and exactly its own two streams have been closed |
| ForwardManager.FailedForwardLeavesNothing | internal/k8s/forward_manager.go:99-118 | a call one of whose streams cannot be created leaves map and gauge as they were and the stream created, if any, closed |
| IdentityCache.PeriodicSyncer.WriteKeys | internal/workers/syncdb/periodic.go:87-98 | the keys of one user are written in order, skipping those that do not normalize and going on after a failed write |
| IdentityCache.PeriodicSyncer.SyncOnce | internal/workers/syncdb/periodic.go:51-103 | one pass performs the writes of all its rows in cursor order, or none when the query fails |
| IdentityCache.PeriodicSyncer.Start | internal/workers/syncdb/periodic.go:35-49 | the passes of successive ticks add up, until a query fails |
| IdentityCache.LookupIsLastWrite | internal/auth/redisImpl.go:23-42 | a lookup answers v if and only if the last successful write of the key wrote v less than its time to live ago |
| IdentityCache.LookupIsFresh | internal/workers/syncdb/periodic.go:94-95 | what a lookup returns was written less than interval + 5 seconds before |
| IdentityCache.RemovedKeyExpires | internal/workers/syncdb/periodic.go:94-95 | a key no longer written is refused from interval + 5 seconds after its last write |
| IdentityCache.PassKeepsLastLister | internal/workers/syncdb/periodic.go:58-99 | a pass leaves each key that some user writes at the last such user in cursor order, expiring interval + 5 seconds after that user's last write of it, and every other key alone; failed writes count for nothing |
| IdentityCache.PassesAddUp | internal/workers/syncdb/periodic.go:39-47 | as long as no query fails the writes of successive ticks add up |
| IdentityCache.FailureEnds | internal/workers/syncdb/periodic.go:43-46 | the first failing query ends the syncer, whatever later ticks would have found |
| IdentityCache.CacheAfterTicks | internal/workers/syncdb/periodic.go:35-103 | after any number of ticks the keys of the last pass are at its last users, and every other key is as the ticks before left it |
| IdentityCache.WrittenKeyIsFound | internal/workers/syncdb/periodic.go:35-99 | after any number of ticks a user whose key the last pass wrote is found until that write expires, and no longer |
| IdentityCache.NeverMissed | internal/workers/syncdb/periodic.go:35-99 | a key rewritten at gaps under its time to live is found at every moment until the last write expires |
| IdentityCache.ShortPassesLeaveNoGap | internal/workers/syncdb/periodic.go:35-95 | passes that write the key within five seconds of their tick leave no such gap |
| Wrap.WrapText | pkg/notice/wrap.go:5-28 | the loop on strings produces the lines of the greedy grouping |
| Wrap.WordsAreKept | pkg/notice/wrap.go:10-25 | the lines hold exactly the words, in order |
| Wrap.WrappingKeepsTheText | pkg/notice/wrap.go:7-27 | the words read off the lines, line by line, are the words of the text |
| Wrap.OverlongLineIsOneWord | pkg/notice/wrap.go:10-21 | a line longer than the width is a single word |
| Wrap.NoSplitIsShorter | pkg/notice/wrap.go:10-25 | no split of the words into fitting lines has fewer lines, an extra empty first line aside |
| Wrap.GreedyIsOptimal | pkg/notice/wrap.go:9-25 | when every word fits, the lines fit, and their number is the least possible if and only if the first word is shorter than the width |
| SplitArgs.SplitCommand | internal/k8s/shell.go:115-153 | the two loops compute the tokens with the tail after `sh -c` joined |
| SplitArgs.BuildCommand | internal/k8s/shell.go:60-63 | the command is the arguments of all the strings, one after another |
| SplitArgs.CommandsAddUp | internal/k8s/shell.go:60-63 | the command of several strings is that of the first ones followed by that of the others |
| SplitArgs.TokensKeepTheText | internal/k8s/shell.go:120-139 | for any input no token is empty or holds a quote, and the tokens together are the input minus quotes and unquoted spaces |
| SplitArgs.SplitHasNoEmpty | internal/k8s/shell.go:137-152 | no argument is empty after joining either |
| SplitArgs.JoinShCIsIdempotent | internal/k8s/shell.go:141-150 | the joining pass changes nothing the second time |
| SplitArgs.TokenizeInvertsQuoting | internal/k8s/shell.go:120-139 | however arguments are cut into quoted and unquoted stretches and spaced, the tokens are the arguments |
| SplitArgs.SplitInvertsQuoted | internal/k8s/shell.go:115-153 | quoting each argument, joining with spaces and splitting gives the list back with the tail after `sh -c` joined |
| SplitArgs.ShCTailIsOneArgument | internal/k8s/shell.go:141-150 | of the first `sh -c` of a quoted command line all that follows becomes one argument, which for plain arguments tokenizes to them again |
| SplitArgs.OtherCommandsStay | internal/k8s/shell.go:141-150 | a quoted command line without `sh -c` is split into the arguments as they were |
| SplitArgs.TokenizeInvertsJoin | internal/k8s/shell.go:145 | joining arguments that need no quotes and tokenizing gives them back |
| SplitArgs.JoinAppend | internal/k8s/shell.go:145 | one space separates what is joined |
| SplitArgs.ExpressibleIff | internal/k8s/shell.go:115-139 | an argument list is the tokens of some command line if and only if no argument is empty and none holds a quote |

## Left out

- Floating-point rounding, nanosecond truncation of durations and Redis truncating returned numbers: arithmetic is exact.
- Redis being unreachable, which admits the call: the limiter theorems are about runs of the script.
- Key expiry by a clock other than the one the calls read: the Redis entry expires by the call's own reading.
- Gcra.DeniedIffWindowFull: assumes a clock that does not go back, as do Gcra.NoConformingPolicyAdmitsMore and Gcra.ScriptIsTokenBucket; Gcra.AdmittedConforms does not.
- Tarpit.QueuedConnectionIsClosedInTime: assumes immediate dispatch, that is, that no goroutine stays runnable while time passes, and no cancellation.
- Connector.TunnelsServeTheirPairs: assumes that a successful open yields a forwarder that is not nil.
- ForwardManager.MapHoldsLivePairs: assumes that creating a stream on a closed connection fails, and that fewer than 2^64 calls take a request number.
- ForwardManager.Manager.OpenStreams: map keys are a kind and a number instead of strings; Decimal.RenderNameIsInjective shows the strings to be in one-to-one correspondence.
- Session.ProgressIffNotStuck: a stream that was started may ask for a size at any time, also after its handler returned.
- IdentityCache.ShortPassesLeaveNoGap: a pass is identified by its tick; passes so long that ticks are dropped are not covered.
- The syncer's `lastSync`, which nothing reads, and the reason a cursor ends: the rows of a pass are those the cursor yields.
- SSH payload parsing, the identity codec and public-key normalization: their outcome is an argument.
- Wrap.WrappingKeepsTheText: white space is the ASCII kind; Wrap.WrapText starts from the words.
- The back-off of the accept loop: the group has no limit, so starting a handler cannot fail.
- SSH handshake, authorization checks and exit statuses of a connection.
- The change-stream syncer (internal/workers/syncdb/watch.go), which the worker does not select.
- Configuration, profiles, metrics registry and server, generated protobuf code, charts, and the helper commands: no property beyond reading them.
- Label resolution, permission validation, agent containers and IP normalization: short branches.
