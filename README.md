# job-blocker: the job-status handler and the completion wait

job-blocker watches one Kubernetes batch/v1 Job by name and blocks until the
Job reports a succeeded pod. This project models its two pieces of logic in
`main.go`:

- `handler.dfy`, module `JobHandler`: the three informer callbacks
  (`AddFunc`, `UpdateFunc`, `DeleteFunc`). Each is a pure function from a Job
  snapshot to the ordered list of what it does: `Log(line)` for each
  `log.Println` and `Send` for `done <- true`. Lines are rendered as
  `log.Println` renders its operands (joined by one space). The status counts
  are Go `int32`. Lemmas state when each status line is logged, that the send
  follows the "Succeeded" line, the fixed order of the checks, and how Added,
  Updated and Deleted relate.
- `wait.dfy`, module `CompletionWait`: the main goroutine's
  `done := make(chan bool)` … `<-done`, `close(stop)`, "Completed" sequence,
  together with the callback goroutine that sends on `done`. A `Process` value
  records the wait state (Waiting or Done), whether the callback goroutine is
  stuck in a send, the number of sends, the callbacks' log, how much of that
  log was written when main received, and main's own trace. `Run` gives the state after a finite sequence of delivered events.
  The method `AwaitCompletion` runs the same events one effect at a time and is
  proved equal to `Run`.

`done` is unbuffered and main receives from it exactly once. So the first
send ends the wait, and main then closes `stop` and logs "Completed". Nothing
in the code guards against a repeated signal: a later success event sends
again, and nothing ever receives that send. The callback goroutine blocks
there for good. That event's "Failed" line and every later event are never
handled (`LogStopsAtSecondSignal`). The model claims only that the first
signal ends the wait, not that the signal is sent at most once.

The callbacks' lines and main's lines are kept as two traces, linked by the
point where main received. `done` is unbuffered (main.go:55), so the send that
main receives (main.go:72/91, 103) orders the two goroutines. Every callback
line logged up to that send, which ends with the first "<name> Succeeded"
line, comes before main closes `stop` and logs "<job> Completed"
(`ReceivedAfterFirstSuccess`). Every later callback line comes after main's
receive, so after its "Started Watching" line. Nothing else orders lines of the
two goroutines.

## Model

| member | source | states |
|---|---|---|
| JobHandler.AddFunc | main.go:64-78 | an Added callback first logs "Job Added: <name>", then at most four more effects |
| JobHandler.UpdateFunc | main.go:83-96 | an Updated callback first logs "Job Updated: <name>" for the new object, then at most four more effects |
| JobHandler.DeleteFunc | main.go:79-82 | a Deleted callback does exactly one thing: log "Job Deleted: <name>" |
| JobHandler.LogLine | main.go:66 | the line `log.Println` writes for two operands: the first operand, one space, then the second (its length is the sum plus one, with the space right after the first operand) |
| JobHandler.SignalsCompletion | main.go:70 | the guard of the send: the event is Added or Updated and `Status.Succeeded > 0` (the same guard is at line 89; `SendsOnlyOnSuccess` proves it is exactly when a callback sends) |
| JobHandler.Handle | main.go:63-97 | every callback logs its own header line first |
| JobHandler.SendsOnlyOnSuccess | main.go:64-96 | a callback sends on `done` at most once, and does so exactly when it is Added or Updated with `Status.Succeeded > 0` |
| JobHandler.SendSplitsHandle | main.go:66-76 | a signalling callback is: header, the "Active" line if any, the "Succeeded" line, the one send, then the "Failed" line if any; these lines are the ones logged before the send |
| JobHandler.NoSendWithoutSuccess | main.go:64-96 | a callback whose event is a deletion or has no succeeded count never sends |
| JobHandler.ActiveLogged | main.go:67-69 | the "<name> Active" line is logged if and only if the event is Added or Updated and `Status.Active > 0` (the same holds at lines 86-88) |
| JobHandler.SucceededThenSignal | main.go:70-73 | the "<name> Succeeded" line is logged exactly when the signal is sent, and every send comes right after that line and never first (the same holds at lines 89-92) |
| JobHandler.FailedNeverSignals | main.go:74-76 | the "<name> Failed" line is logged if and only if the event is Added or Updated and `Status.Failed > 0`, and without a succeeded count there is no send (the same holds at lines 93-95) |
| JobHandler.ChecksInOrder | main.go:67-76 | consecutive effects strictly follow the order header, Active, Succeeded, send, Failed, so each check fires at most once and in that order |
| JobHandler.IdleSnapshotOnlyHeader | main.go:64-82 | a callback produces only its header line exactly when the event is a deletion or no count is positive, and then it does not signal |
| JobHandler.AddedUpdatedAgree | main.go:64-96 | for the same snapshot, Added and Updated give the same status lines and signal; only the header word differs |
| JobHandler.UpdateIgnoresPrevious | main.go:83-84 | the output of an update does not depend on the old object |
| JobHandler.DeleteInspectsNoStatus | main.go:79-82 | a deletion logs only "Job Deleted: <name>", depends on the name alone and never signals |
| CompletionWait.StartedLine | main.go:102 | the line main logs after starting the informer is "Started Watching <job> Job" |
| CompletionWait.CompletedLine | main.go:105 | the line main logs at the end is "<job> Completed" |
| CompletionWait.Start | main.go:100-102 | after starting the informer, main is Waiting, nothing has been sent or logged by the callbacks, no receive point is set, and main has logged "Started Watching <job> Job" |
| CompletionWait.Step | main.go:103-105 | one effect of a callback: a blocked goroutine does nothing; while main waits, a send (`done <- true` at lines 72/91) is received and main goes to Done, appending receive, close `stop` and "<job> Completed" to its trace and recording that it received after the callback lines logged so far; a send after Done has no receiver and blocks the callback goroutine; each send adds one to the count, and the log grows by at most one line |
| CompletionWait.Feed | main.go:64-96 | a callback's effects run one after another: a blocked goroutine stays unchanged, Done stays Done, and the send count and main's trace only grow |
| CompletionWait.Run | main.go:100-105 | the state after delivering a sequence of events; main's trace always begins with its "Started Watching" line |
| CompletionWait.FeedKeepsConsistent | main.go:89-92 | one callback keeps the invariant: main is Done exactly when a send happened, the second send blocks, and there is never a third |
| CompletionWait.FeedKeepsReceipt | main.go:103 | once main has received, a callback leaves the receive point unchanged and only adds lines to the log |
| CompletionWait.FeedLogsInOrder | main.go:64-96 | a callback logs its lines in order up to the send that blocks it, and all of them if it does not block; a blocked goroutine changes nothing |
| CompletionWait.DeliverKeepsConsistent | main.go:64-96 | delivering one event keeps the invariant and adds that event's signal, if any, to the send count (capped at two) |
| CompletionWait.RunKeepsConsistent | main.go:100-105 | after any event sequence the invariant holds and the send count is the number of success events, capped at two |
| CompletionWait.RunLogsInOrder | main.go:64-96 | the callback log is always a prefix of all the events' lines in delivery order, and equals them when the callbacks did not block |
| CompletionWait.DoneIffSignalled | main.go:103 | the wait is over if and only if some delivered event is Added or Updated with a succeeded count |
| CompletionWait.WaitEndsAtFirstSignal | main.go:103-105 | main is still Waiting before the first success event and Done right after it |
| CompletionWait.StopClosedAfterSignal | main.go:102-105 | once Done, main's trace is: start line, receive, close `stop`, "<job> Completed"; while Waiting, only the start line |
| CompletionWait.SecondSignalBlocks | main.go:89-92 | two success events mean two sends; the second has no receiver and blocks the callback goroutine |
| CompletionWait.RunStaysBlocked | main.go:89-92 | once the callback goroutine is blocked in a send, later events change nothing |
| CompletionWait.DeliverAfterDone | main.go:89-95 | a success event delivered after main has received logs its lines up to "Succeeded" and then blocks in the send, with two sends in all; its "Failed" line is not logged |
| CompletionWait.LogStopsAtSecondSignal | main.go:89-95 | at the second success event, the final state is already reached: the callback goroutine is blocked with two sends, and the callback log is every earlier event's lines plus this event's header, "Active" (if any) and "Succeeded" lines, and nothing else |
| CompletionWait.DeliverWhileWaiting | main.go:70-103 | a success event delivered while main waits logs its lines up to "Succeeded", then main receives its send: main is Done, having received right after those lines |
| CompletionWait.RunKeepsReceipt | main.go:103 | once main is Done, later events keep it Done, keep the receive point, and only add callback lines |
| CompletionWait.ReceivedAtFirstSuccess | main.go:64-105 | right after the first success event, main is Done and received after exactly the earlier events' lines and that event's lines up to "Succeeded" |
| CompletionWait.ReceivedAfterFirstSuccess | main.go:55-105 | in any run with a success event, the callback lines before main's receive (and so before `close(stop)` and "<job> Completed") are exactly the lines up to and including the first "<name> Succeeded" |
| CompletionWait.WatchLogComplete | main.go:64-96 | with at most one success event nothing blocks, and every line of every callback is logged |
| CompletionWait.Build42Callbacks | main.go:64-96 | the callbacks' output for an active, a succeeded and a failed snapshot of job "build-42" |
| CompletionWait.ActiveThenSucceeded | main.go:64-105 | Added{active 1} then Updated{succeeded 1} logs the header and status line of each, ends the wait and logs "build-42 Completed" |
| CompletionWait.FailedOnlyKeepsWaiting | main.go:83-103 | Updated{failed 1} alone logs "Job Updated: build-42" and "build-42 Failed", and main keeps waiting |
| CompletionWait.AwaitCompletion | main.go:100-105 | running the callbacks effect by effect, with main's receive, close and log on the first send, gives `Run`: main is Done exactly when some event signalled, main's trace matches its state, and the callback log is a prefix of all the lines |

## Left out

- Flag parsing and the `$HOME`-based kubeconfig default (main.go:19-36): process configuration. The job name is a parameter of the model.
- Building the cluster config and the clientset, and the `panic` on their errors (main.go:39-53): calls into client-go.
- The ListWatch, the name field selector, the informer and its 60-second resync (main.go:57-63): the watch transport. Its output is modelled as an arbitrary finite sequence of events, so redelivered, out-of-order or mismatched events are all covered.
- `go controller.Run(stop)` and what the informer does once `stop` is closed (main.go:101, 104): the model keeps handling delivered events after Done. Cutting the event sequence short models the informer stopping.
- Process exit after "Completed" (main.go:105-107): callback lines logged after that may never reach the output. The model still records them.
- Goroutine scheduling: a channel send is modelled as received at once when main is waiting. The interleaving of the two goroutines' lines is not modelled; the two traces are kept apart.
- The `obj.(*bV1.Job)` type assertions (main.go:65, 80, 84), which would panic on a non-Job or tombstone object: every event carries a Job.
- The timestamp prefix and trailing newline that `log.Println` adds: lines are plain strings.
