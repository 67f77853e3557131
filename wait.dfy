/** The completion sequence in job-blocker's main: an unbuffered `done` channel
    that the main goroutine receives from once, after which it closes `stop` and
    logs "Completed". The informer's callbacks run on another goroutine and send
    on `done` whenever a snapshot reports success. */
module CompletionWait {
  import opened JobHandler

  /** The wait of the main goroutine at `<-done`. */
  datatype WaitState = Waiting | Done

  /** What the main goroutine does, in program order. */
  datatype MainAction = MainLog(line: string) | Received | StopClosed

  /** Everything the two goroutines have done so far.
      - wait: whether main has received from `done`;
      - handlerBlocked: the callback goroutine is stuck in a send on `done` that
        nobody will receive (main receives only once);
      - sends: the sends on `done` the callbacks have started;
      - watchLog: the lines the callbacks logged, in order;
      - receivedAt: how many of those lines were logged when main received from
        `done` (0 while it waits);
      - mainTrace: what main did after starting the informer.
      The two logs go to the same output. The unbuffered `done` orders them only
      at the send that main receives: the first receivedAt callback lines come
      before main's receive, its close of `stop` and its "Completed" line, and
      the later ones after main's receive (so after its "Started Watching"
      line). Nothing else orders lines of the two goroutines, so the logs are
      kept apart and linked by receivedAt. */
  datatype Process = Process(
    wait: WaitState,
    handlerBlocked: bool,
    sends: nat,
    watchLog: seq<string>,
    receivedAt: nat,
    mainTrace: seq<MainAction>)

  /** `log.Println("Started Watching", jobName, "Job")` */
  function StartedLine(jobName: string): (line: string)
    ensures line == "Started Watching " + jobName + " Job"
  {
    LogLine(LogLine("Started Watching", jobName), "Job")
  }

  /** `log.Println(jobName, "Completed")` */
  function CompletedLine(jobName: string): (line: string)
    ensures line == jobName + " Completed"
  {
    LogLine(jobName, "Completed")
  }

  /** The state once main has started the informer and is blocked on `done`. */
  function Start(jobName: string): (p: Process)
    ensures p.wait == Waiting && !p.handlerBlocked && p.sends == 0 && p.watchLog == [] && p.receivedAt == 0
    ensures p.mainTrace == [MainLog(StartedLine(jobName))]
  {
    Process(Waiting, false, 0, [], 0, [MainLog(StartedLine(jobName))])
  }

  /** One effect of a callback. A log line is appended. A send while main waits
      is received after the lines logged so far: main then closes `stop` and
      logs "Completed". A send after
      that has no receiver and blocks the callback goroutine for good; a blocked
      goroutine does nothing more. */
  function Step(jobName: string, p: Process, effect: Effect): (r: Process)
    ensures p.handlerBlocked ==> r == p
    ensures p.wait == Waiting && !p.handlerBlocked ==> (r.wait == Done <==> effect == Send)
    ensures p.wait == Done ==> r.wait == Done
    ensures r.handlerBlocked <==> p.handlerBlocked || (p.wait.Done? && effect == Send)
    ensures r.sends == p.sends + (if !p.handlerBlocked && effect == Send then 1 else 0)
    ensures p.watchLog <= r.watchLog && |r.watchLog| <= |p.watchLog| + 1
    ensures r.receivedAt == if p.wait == Waiting && r.wait == Done then |p.watchLog| else p.receivedAt
    ensures r.mainTrace == p.mainTrace
              + (if p.wait == Waiting && r.wait == Done
                 then [Received, StopClosed, MainLog(CompletedLine(jobName))] else [])
  {
    if p.handlerBlocked then p
    else match effect
      case Log(line) => p.(watchLog := p.watchLog + [line])
      case Send =>
        if p.wait == Waiting then
          p.(wait := Done, sends := p.sends + 1, receivedAt := |p.watchLog|,
             mainTrace := p.mainTrace + [Received, StopClosed, MainLog(CompletedLine(jobName))])
        else
          p.(sends := p.sends + 1, handlerBlocked := true)
  }

  /** The effects of one callback, one after another. */
  function Feed(jobName: string, p: Process, effects: seq<Effect>): (r: Process)
    ensures p.handlerBlocked ==> r == p
    ensures p.wait == Done ==> r.wait == Done
    ensures p.sends <= r.sends && p.mainTrace <= r.mainTrace
  {
    if effects == [] then p
    else Step(jobName, Feed(jobName, p, effects[..|effects| - 1]), effects[|effects| - 1])
  }

  /** The process after the informer has delivered the given events in order. */
  function Run(jobName: string, events: seq<Event>): (r: Process)
    ensures [MainLog(StartedLine(jobName))] <= r.mainTrace
  {
    if events == [] then Start(jobName)
    else Feed(jobName, Run(jobName, events[..|events| - 1]), Handle(events[|events| - 1]))
  }

  /** The lines all the callbacks would log if none of them blocked. */
  function AllLines(events: seq<Event>): seq<string>
  {
    if events == [] then []
    else AllLines(events[..|events| - 1]) + Lines(Handle(events[|events| - 1]))
  }

  /** The number of events whose callback sends on `done`. */
  function SignalCount(events: seq<Event>): nat
  {
    if events == [] then 0
    else SignalCount(events[..|events| - 1]) + (if SignalsCompletion(events[|events| - 1]) then 1 else 0)
  }

  function Min(a: nat, b: nat): nat
  {
    if a <= b then a else b
  }

  /** What main has done in a given wait state: it logged that it started
      watching; once it received, it closed `stop` and then logged "Completed". */
  function MainTraceFor(jobName: string, wait: WaitState): seq<MainAction>
  {
    [MainLog(StartedLine(jobName))]
    + (if wait == Done then [Received, StopClosed, MainLog(CompletedLine(jobName))] else [])
  }

  /** The invariant of the two goroutines: main is Done exactly when a send has
      happened; the callbacks block exactly at the second send, and never send a
      third time; main's trace matches its wait state. */
  predicate Consistent(jobName: string, p: Process)
  {
    (p.wait == Done <==> p.sends >= 1)
    && (p.handlerBlocked <==> p.sends == 2)
    && p.sends <= 2
    && p.mainTrace == MainTraceFor(jobName, p.wait)
  }

  // ---------------------------------------------------------------------------
  // One callback.

  /** A callback keeps the invariant, and its sends take effect until the
      second send of the whole run blocks. */
  lemma {:induction false} FeedKeepsConsistent(jobName: string, p: Process, effects: seq<Effect>)
    requires Consistent(jobName, p)
    ensures Consistent(jobName, Feed(jobName, p, effects))
    ensures Feed(jobName, p, effects).sends == Min(2, p.sends + Sends(effects))
  {
    if effects != [] {
      FeedKeepsConsistent(jobName, p, effects[..|effects| - 1]);
    }
  }

  /** A blocked callback goroutine does nothing more; otherwise a callback logs
      its lines in order up to the point where it blocks, and all of them if it
      does not. */
  lemma {:induction false} FeedLogsInOrder(jobName: string, p: Process, effects: seq<Effect>)
    ensures p.handlerBlocked ==> Feed(jobName, p, effects) == p
    ensures !p.handlerBlocked ==> p.watchLog <= Feed(jobName, p, effects).watchLog <= p.watchLog + Lines(effects)
    ensures !Feed(jobName, p, effects).handlerBlocked
            ==> Feed(jobName, p, effects).watchLog == p.watchLog + Lines(effects)
  {
    if effects != [] {
      var init := effects[..|effects| - 1];
      var last := effects[|effects| - 1];
      FeedLogsInOrder(jobName, p, init);
      var q := Feed(jobName, p, init);
      var r := Step(jobName, q, last);
      assert Feed(jobName, p, effects) == r;
      var tail: seq<string> := match last case Log(line) => [line] case Send => [];
      assert Lines(effects) == Lines(init) + tail;
      if !q.handlerBlocked {
        assert q.watchLog == p.watchLog + Lines(init);
        assert p.watchLog + Lines(effects) == q.watchLog + tail;
      }
    }
  }

  /** After main has received, a callback keeps the point of the receive and
      only adds lines. */
  lemma {:induction false} FeedKeepsReceipt(jobName: string, p: Process, effects: seq<Effect>)
    requires p.wait == Done
    ensures Feed(jobName, p, effects).receivedAt == p.receivedAt
    ensures p.watchLog <= Feed(jobName, p, effects).watchLog
  {
    if effects != [] {
      FeedKeepsReceipt(jobName, p, effects[..|effects| - 1]);
    }
  }

  // ---------------------------------------------------------------------------
  // Whole runs.

  /** Every run keeps the invariant, and the sends it has made are its
      signalling events, capped at two: the second one blocks the callbacks. */
  lemma {:induction false} RunKeepsConsistent(jobName: string, events: seq<Event>)
    ensures Consistent(jobName, Run(jobName, events))
    ensures Run(jobName, events).sends == Min(2, SignalCount(events))
  {
    if events != [] {
      var init := events[..|events| - 1];
      var last := events[|events| - 1];
      RunKeepsConsistent(jobName, init);
      DeliverKeepsConsistent(jobName, Run(jobName, init), last);
    }
  }

  /** One delivered event keeps the invariant and adds its signal, if any, to
      the sends until they reach two. */
  lemma DeliverKeepsConsistent(jobName: string, p: Process, e: Event)
    requires Consistent(jobName, p)
    ensures Consistent(jobName, Feed(jobName, p, Handle(e)))
    ensures Feed(jobName, p, Handle(e)).sends == Min(2, p.sends + if SignalsCompletion(e) then 1 else 0)
  {
    FeedKeepsConsistent(jobName, p, Handle(e));
    SendsOnlyOnSuccess(e);
  }

  /** The callback log of every run is a prefix of all the lines its events
      produce, and is all of them unless the callbacks blocked. */
  lemma {:induction false} RunLogsInOrder(jobName: string, events: seq<Event>)
    ensures Run(jobName, events).watchLog <= AllLines(events)
    ensures !Run(jobName, events).handlerBlocked ==> Run(jobName, events).watchLog == AllLines(events)
  {
    if events != [] {
      var init := events[..|events| - 1];
      var last := events[|events| - 1];
      RunLogsInOrder(jobName, init);
      RunKeepsConsistent(jobName, init);
      var q := Run(jobName, init);
      var r := Feed(jobName, q, Handle(last));
      assert Run(jobName, events) == r;
      FeedLogsInOrder(jobName, q, Handle(last));
      assert AllLines(events) == AllLines(init) + Lines(Handle(last));
      if q.handlerBlocked {
        assert r == q;
      } else {
        assert q.watchLog == AllLines(init);
      }
    }
  }

  /** SignalCount is positive exactly when some event signals. */
  lemma {:induction false} SignalCountPositive(events: seq<Event>)
    ensures SignalCount(events) > 0 <==> exists i :: 0 <= i < |events| && SignalsCompletion(events[i])
  {
    if events != [] {
      var init := events[..|events| - 1];
      SignalCountPositive(init);
      if SignalCount(init) > 0 {
        var i :| 0 <= i < |init| && SignalsCompletion(init[i]);
        assert events[i] == init[i];
      }
      if exists i :: 0 <= i < |events| && SignalsCompletion(events[i]) {
        var i :| 0 <= i < |events| && SignalsCompletion(events[i]);
        if i < |init| {
          assert init[i] == events[i];
        }
      }
    }
  }

  /** The wait is over exactly when some delivered event reported success. A
      deletion, an active or a failed snapshot never ends it. */
  lemma DoneIffSignalled(jobName: string, events: seq<Event>)
    ensures Run(jobName, events).wait == Done
            <==> exists i :: 0 <= i < |events| && SignalsCompletion(events[i])
  {
    RunKeepsConsistent(jobName, events);
    SignalCountPositive(events);
  }

  /** The wait ends exactly at the first signalling event: before it main still
      waits, right after it main is Done. */
  lemma WaitEndsAtFirstSignal(jobName: string, events: seq<Event>, first: nat)
    requires first < |events| && SignalsCompletion(events[first])
    requires forall i :: 0 <= i < first ==> !SignalsCompletion(events[i])
    ensures Run(jobName, events[..first]).wait == Waiting
    ensures Run(jobName, events[..first + 1]).wait == Done
  {
    DoneIffSignalled(jobName, events[..first]);
    DoneIffSignalled(jobName, events[..first + 1]);
    assert events[..first + 1][first] == events[first];
  }

  /** `stop` is closed only after main received the signal, exactly once, and
      "Completed" is logged after it; without a signal main has only logged that
      it started. */
  lemma StopClosedAfterSignal(jobName: string, events: seq<Event>)
    ensures Run(jobName, events).wait == Done ==>
              Run(jobName, events).mainTrace
              == [MainLog(StartedLine(jobName)), Received, StopClosed, MainLog(CompletedLine(jobName))]
    ensures Run(jobName, events).wait == Waiting ==>
              Run(jobName, events).mainTrace == [MainLog(StartedLine(jobName))]
  {
    RunKeepsConsistent(jobName, events);
  }

  /** A second signalling event sends again; nobody receives it, so the callback
      goroutine blocks, having sent twice. */
  lemma SecondSignalBlocks(jobName: string, events: seq<Event>, i: nat, j: nat)
    requires i < j < |events|
    requires SignalsCompletion(events[i]) && SignalsCompletion(events[j])
    ensures Run(jobName, events).handlerBlocked
    ensures Run(jobName, events).sends == 2
    ensures Run(jobName, events).wait == Done
  {
    RunKeepsConsistent(jobName, events);
    SignalCountAtLeastTwo(events, i, j);
  }

  /** Two signalling events count at least two. */
  lemma {:induction false} SignalCountAtLeastTwo(events: seq<Event>, i: nat, j: nat)
    requires i < j < |events|
    requires SignalsCompletion(events[i]) && SignalsCompletion(events[j])
    ensures SignalCount(events) >= 2
  {
    var init := events[..|events| - 1];
    if j < |events| - 1 {
      assert init[i] == events[i] && init[j] == events[j];
      SignalCountAtLeastTwo(init, i, j);
    } else {
      assert init[i] == events[i];
      SignalCountPositive(init);
    }
  }

  /** Feeding two runs of effects is feeding their concatenation. */
  lemma {:induction false} FeedAppend(jobName: string, p: Process, x: seq<Effect>, y: seq<Effect>)
    ensures Feed(jobName, p, x + y) == Feed(jobName, Feed(jobName, p, x), y)
    decreases |y|
  {
    if y == [] {
      assert x + y == x;
    } else {
      assert (x + y)[..|x + y| - 1] == x + y[..|y| - 1];
      FeedAppend(jobName, p, x, y[..|y| - 1]);
    }
  }

  /** Once the callback goroutine is blocked, later events change nothing. */
  lemma {:induction false} RunStaysBlocked(jobName: string, events: seq<Event>, k: nat)
    requires k <= |events| && Run(jobName, events[..k]).handlerBlocked
    ensures Run(jobName, events) == Run(jobName, events[..k])
  {
    if k < |events| {
      var init := events[..|events| - 1];
      assert init[..k] == events[..k];
      RunStaysBlocked(jobName, init, k);
    } else {
      assert events[..k] == events;
    }
  }

  /** A signalling event delivered after main has received: the callback logs
      up to "Succeeded", then blocks in its send. */
  lemma DeliverAfterDone(jobName: string, q: Process, e: Event)
    requires Consistent(jobName, q) && q.sends == 1
    requires SignalsCompletion(e)
    ensures Feed(jobName, q, Handle(e)).handlerBlocked
    ensures Feed(jobName, q, Handle(e)).sends == 2
    ensures Feed(jobName, q, Handle(e)).watchLog == q.watchLog + LinesUpToSend(e)
  {
    var before := EffectsBeforeSend(e);
    var after := EffectsAfterSend(e);
    SendSplitsHandle(e);
    FeedAppend(jobName, q, before + [Send], after);
    FeedAppend(jobName, q, before, [Send]);
    var q1 := Feed(jobName, q, before);
    FeedKeepsConsistent(jobName, q, before);
    FeedLogsInOrder(jobName, q, before);
    assert q1.sends == 1 && !q1.handlerBlocked && q1.wait == Done;
    assert [Send][..0] == [];
    assert Feed(jobName, q1, [Send]) == Step(jobName, q1, Send);
  }

  /** At the second signalling event the callback goroutine blocks in its send:
      that event's lines up to "Succeeded" are logged, its "Failed" line is not,
      and no later event has any effect. */
  lemma LogStopsAtSecondSignal(jobName: string, events: seq<Event>, j: nat)
    requires j < |events| && SignalsCompletion(events[j])
    requires SignalCount(events[..j]) == 1
    ensures Run(jobName, events) == Run(jobName, events[..j + 1])
    ensures Run(jobName, events).handlerBlocked && Run(jobName, events).sends == 2
    ensures Run(jobName, events).watchLog == AllLines(events[..j]) + LinesUpToSend(events[j])
  {
    var q := Run(jobName, events[..j]);
    RunKeepsConsistent(jobName, events[..j]);
    RunLogsInOrder(jobName, events[..j]);
    DeliverAfterDone(jobName, q, events[j]);
    assert events[..j + 1][..j] == events[..j];
    assert Run(jobName, events[..j + 1]) == Feed(jobName, q, Handle(events[j]));
    RunStaysBlocked(jobName, events, j + 1);
  }

  /** A signalling event delivered while main waits: its lines up to
      "Succeeded" are logged, then main receives its send. */
  lemma DeliverWhileWaiting(jobName: string, q: Process, e: Event)
    requires Consistent(jobName, q) && q.sends == 0 && !q.handlerBlocked
    requires SignalsCompletion(e)
    ensures Feed(jobName, q, Handle(e)).wait == Done
    ensures Feed(jobName, q, Handle(e)).receivedAt == |q.watchLog| + |LinesUpToSend(e)|
    ensures q.watchLog + LinesUpToSend(e) <= Feed(jobName, q, Handle(e)).watchLog
  {
    var before := EffectsBeforeSend(e);
    var after := EffectsAfterSend(e);
    SendSplitsHandle(e);
    FeedAppend(jobName, q, before + [Send], after);
    FeedAppend(jobName, q, before, [Send]);
    var q1 := Feed(jobName, q, before);
    FeedKeepsConsistent(jobName, q, before);
    FeedLogsInOrder(jobName, q, before);
    assert q1.sends == 0 && !q1.handlerBlocked && q1.wait == Waiting;
    assert q1.watchLog == q.watchLog + LinesUpToSend(e);
    assert [Send][..0] == [];
    assert Feed(jobName, q1, [Send]) == Step(jobName, q1, Send);
    FeedKeepsReceipt(jobName, Step(jobName, q1, Send), after);
  }

  /** Once main has received, later events keep the point of the receive and
      only add callback lines. */
  lemma {:induction false} RunKeepsReceipt(jobName: string, events: seq<Event>, k: nat)
    requires k <= |events| && Run(jobName, events[..k]).wait == Done
    ensures Run(jobName, events).wait == Done
    ensures Run(jobName, events).receivedAt == Run(jobName, events[..k]).receivedAt
    ensures Run(jobName, events[..k]).watchLog <= Run(jobName, events).watchLog
  {
    if k < |events| {
      var init := events[..|events| - 1];
      assert init[..k] == events[..k];
      RunKeepsReceipt(jobName, init, k);
      var q := Run(jobName, init);
      assert Run(jobName, events) == Feed(jobName, q, Handle(events[|events| - 1]));
      FeedKeepsReceipt(jobName, q, Handle(events[|events| - 1]));
    } else {
      assert events[..k] == events;
    }
  }

  /** The run up to the first signalling event: main has just received, after
      the earlier events' lines and this event's lines up to "Succeeded". */
  lemma ReceivedAtFirstSuccess(jobName: string, events: seq<Event>, first: nat)
    requires first < |events| && SignalsCompletion(events[first])
    requires forall i :: 0 <= i < first ==> !SignalsCompletion(events[i])
    ensures Run(jobName, events[..first + 1]).wait == Done
    ensures Run(jobName, events[..first + 1]).receivedAt
            == |AllLines(events[..first]) + LinesUpToSend(events[first])|
    ensures AllLines(events[..first]) + LinesUpToSend(events[first])
            <= Run(jobName, events[..first + 1]).watchLog
  {
    var q := Run(jobName, events[..first]);
    WaitEndsAtFirstSignal(jobName, events, first);
    RunKeepsConsistent(jobName, events[..first]);
    RunLogsInOrder(jobName, events[..first]);
    DeliverWhileWaiting(jobName, q, events[first]);
    assert events[..first + 1][..first] == events[..first];
    assert Run(jobName, events[..first + 1]) == Feed(jobName, q, Handle(events[first]));
  }

  /** Main receives right after the first signalling event's "Succeeded" line:
      the callback lines logged before the receive, and so before `stop` is
      closed and "Completed" is logged, are exactly the earlier events' lines
      and this event's lines up to "Succeeded". */
  lemma ReceivedAfterFirstSuccess(jobName: string, events: seq<Event>, first: nat)
    requires first < |events| && SignalsCompletion(events[first])
    requires forall i :: 0 <= i < first ==> !SignalsCompletion(events[i])
    ensures Run(jobName, events).wait == Done
    ensures Run(jobName, events).receivedAt <= |Run(jobName, events).watchLog|
    ensures Run(jobName, events).watchLog[..Run(jobName, events).receivedAt]
            == AllLines(events[..first]) + LinesUpToSend(events[first])
  {
    ReceivedAtFirstSuccess(jobName, events, first);
    RunKeepsReceipt(jobName, events, first + 1);
    var heard := AllLines(events[..first]) + LinesUpToSend(events[first]);
    var r := Run(jobName, events);
    assert heard <= r.watchLog && r.receivedAt == |heard|;
  }

  /** With at most one signalling event, nothing blocks: every line of every
      callback is logged. */
  lemma WatchLogComplete(jobName: string, events: seq<Event>)
    requires SignalCount(events) <= 1
    ensures Run(jobName, events).watchLog == AllLines(events)
    ensures !Run(jobName, events).handlerBlocked
  {
    RunKeepsConsistent(jobName, events);
    RunLogsInOrder(jobName, events);
  }

  // ---------------------------------------------------------------------------
  // Two runs of job "build-42", written out.

  /** What the callbacks do for the three snapshots of "build-42" used below. */
  lemma Build42Callbacks()
    ensures Handle(Added(Job("build-42", JobStatus(1, 0, 0))))
            == [Log("Job Added: build-42"), Log("build-42 Active")]
    ensures Handle(Updated(Job("build-42", JobStatus(1, 0, 0)), Job("build-42", JobStatus(0, 1, 0))))
            == [Log("Job Updated: build-42"), Log("build-42 Succeeded"), Send]
    ensures Handle(Updated(Job("build-42", JobStatus(0, 0, 1)), Job("build-42", JobStatus(0, 0, 1))))
            == [Log("Job Updated: build-42"), Log("build-42 Failed")]
    ensures StartedLine("build-42") == "Started Watching build-42 Job"
    ensures CompletedLine("build-42") == "build-42 Completed"
  {
    assert LogLine("Job Added:", "build-42") == "Job Added: build-42";
    assert LogLine("Job Updated:", "build-42") == "Job Updated: build-42";
    assert StatusLine("build-42", "Active") == "build-42 Active";
    assert StatusLine("build-42", "Succeeded") == "build-42 Succeeded";
    assert StatusLine("build-42", "Failed") == "build-42 Failed";
  }

  /** The lines of two or three effects written out. */
  lemma LinesWrittenOut(a: string, b: string)
    ensures Lines([Log(a), Log(b)]) == [a, b]
    ensures Lines([Log(a), Log(b), Send]) == [a, b]
  {
    assert [Log(a), Log(b)][..1] == [Log(a)];
    assert [Log(a)][..0] == [];
    assert [Log(a), Log(b), Send][..2] == [Log(a), Log(b)];
  }

  /** An active snapshot, then a succeeded one: the callbacks log the header and
      status line of each, and main receives, closes `stop` and logs "Completed". */
  lemma {:induction false} ActiveThenSucceeded()
    ensures var job1 := Job("build-42", JobStatus(1, 0, 0));
            var job2 := Job("build-42", JobStatus(0, 1, 0));
            var p := Run("build-42", [Added(job1), Updated(job1, job2)]);
            p.watchLog == ["Job Added: build-42", "build-42 Active", "Job Updated: build-42", "build-42 Succeeded"]
            && p.wait == Done && !p.handlerBlocked
            && p.mainTrace == [MainLog("Started Watching build-42 Job"), Received, StopClosed, MainLog("build-42 Completed")]
  {
    var job1 := Job("build-42", JobStatus(1, 0, 0));
    var job2 := Job("build-42", JobStatus(0, 1, 0));
    var events := [Added(job1), Updated(job1, job2)];
    Build42Callbacks();
    LinesWrittenOut("Job Added: build-42", "build-42 Active");
    LinesWrittenOut("Job Updated: build-42", "build-42 Succeeded");
    assert events[..1] == [Added(job1)];
    assert [Added(job1)][..0] == [];
    assert AllLines(events[..1]) == ["Job Added: build-42", "build-42 Active"];
    assert AllLines(events) == ["Job Added: build-42", "build-42 Active", "Job Updated: build-42", "build-42 Succeeded"];
    assert SignalCount(events[..1]) == 0;
    assert SignalCount(events) == 1;
    WatchLogComplete("build-42", events);
    DoneIffSignalled("build-42", events);
    assert SignalsCompletion(events[1]);
    StopClosedAfterSignal("build-42", events);
  }

  /** A snapshot that only reports a failure logs "Failed" and leaves main waiting. */
  lemma {:induction false} FailedOnlyKeepsWaiting()
    ensures var job := Job("build-42", JobStatus(0, 0, 1));
            var p := Run("build-42", [Updated(job, job)]);
            p.watchLog == ["Job Updated: build-42", "build-42 Failed"]
            && p.wait == Waiting
            && p.mainTrace == [MainLog("Started Watching build-42 Job")]
  {
    var job := Job("build-42", JobStatus(0, 0, 1));
    var events := [Updated(job, job)];
    Build42Callbacks();
    LinesWrittenOut("Job Updated: build-42", "build-42 Failed");
    assert events[..0] == [];
    assert AllLines(events) == ["Job Updated: build-42", "build-42 Failed"];
    assert SignalCount(events) == 0;
    WatchLogComplete("build-42", events);
    DoneIffSignalled("build-42", events);
    StopClosedAfterSignal("build-42", events);
  }

  // ---------------------------------------------------------------------------
  // The two goroutines, step by step.

  /** Runs the callbacks for the delivered events, one effect at a time, with
      main's reaction to the first send: receive, close `stop`, log "Completed". */
  method AwaitCompletion(jobName: string, events: seq<Event>) returns (p: Process)
    ensures p == Run(jobName, events)
    ensures p.wait == Done <==> exists i :: 0 <= i < |events| && SignalsCompletion(events[i])
    ensures p.mainTrace == MainTraceFor(jobName, p.wait)
    ensures p.watchLog <= AllLines(events)
  {
    p := Start(jobName);
    var i := 0;
    while i < |events|
      invariant 0 <= i <= |events|
      invariant p == Run(jobName, events[..i])
    {
      var effects := Handle(events[i]);
      ghost var before := p;
      var k := 0;
      while k < |effects|
        invariant 0 <= k <= |effects|
        invariant p == Feed(jobName, before, effects[..k])
      {
        assert effects[..k + 1][..k] == effects[..k];
        if !p.handlerBlocked {
          match effects[k]
          case Log(line) =>
            p := p.(watchLog := p.watchLog + [line]);
          case Send =>
            if p.wait == Waiting {
              // `<-done` returns, then `close(stop)`, then the "Completed" line.
              p := p.(wait := Done, sends := p.sends + 1, receivedAt := |p.watchLog|,
                      mainTrace := p.mainTrace + [Received, StopClosed, MainLog(CompletedLine(jobName))]);
            } else {
              // `done <- true` with no receiver left.
              p := p.(sends := p.sends + 1, handlerBlocked := true);
            }
        }
        k := k + 1;
      }
      assert effects[..k] == effects;
      assert events[..i + 1][..i] == events[..i];
      i := i + 1;
    }
    assert events[..i] == events;
    RunKeepsConsistent(jobName, events);
    RunLogsInOrder(jobName, events);
    DoneIffSignalled(jobName, events);
  }
}
