/** The informer callbacks of job-blocker: each takes one Job snapshot (or, for a
    deletion, the deleted Job) and produces, in order, the lines it logs and the
    completion signal it sends on the `done` channel. */
module JobHandler {

  /** Go's int32, the type of the counts in batch/v1 JobStatus. */
  newtype Int32 = x: int | -0x8000_0000 <= x < 0x8000_0000

  /** The part of a batch/v1 JobStatus the callbacks inspect. */
  datatype JobStatus = JobStatus(active: Int32, succeeded: Int32, failed: Int32)

  /** A Job snapshot as delivered by the informer: its name and its status. */
  datatype Job = Job(name: string, status: JobStatus)

  /** One informer notification. An update carries the previous and the new object. */
  datatype Event =
    | Added(job: Job)
    | Updated(previous: Job, job: Job)
    | Deleted(job: Job)

  /** What a callback does, in program order: log a line, or send `true` on `done`. */
  datatype Effect = Log(line: string) | Send

  /** The line `log.Println(a, b)` writes (without its timestamp prefix and newline):
      the two operands separated by one space. */
  function LogLine(a: string, b: string): (line: string)
    ensures |line| == |a| + 1 + |b| && line[|a|] == ' '
  {
    a + " " + b
  }

  /** The word each callback logs before the job name. */
  function HeaderWord(e: Event): string
  {
    match e
    case Added(_) => "Job Added:"
    case Updated(_, _) => "Job Updated:"
    case Deleted(_) => "Job Deleted:"
  }

  /** The status line for one of the words "Active", "Succeeded", "Failed". */
  function StatusLine(name: string, word: string): string
  {
    LogLine(name, word)
  }

  /** True of the events whose callback sends the completion signal. */
  predicate SignalsCompletion(e: Event)
  {
    !e.Deleted? && e.job.status.succeeded > 0
  }

  /** AddFunc: header, then the Active, Succeeded (+ send) and Failed checks. */
  function AddFunc(job: Job): (effects: seq<Effect>)
    ensures 1 <= |effects| <= 5
    ensures effects[0] == Log(LogLine("Job Added:", job.name))
  {
    [Log(LogLine("Job Added:", job.name))]
    + (if job.status.active > 0 then [Log(StatusLine(job.name, "Active"))] else [])
    + (if job.status.succeeded > 0 then [Log(StatusLine(job.name, "Succeeded")), Send] else [])
    + (if job.status.failed > 0 then [Log(StatusLine(job.name, "Failed"))] else [])
  }

  /** UpdateFunc: same checks as AddFunc on the new object; the old one is ignored. */
  function UpdateFunc(previous: Job, job: Job): (effects: seq<Effect>)
    ensures 1 <= |effects| <= 5
    ensures effects[0] == Log(LogLine("Job Updated:", job.name))
  {
    [Log(LogLine("Job Updated:", job.name))]
    + (if job.status.active > 0 then [Log(StatusLine(job.name, "Active"))] else [])
    + (if job.status.succeeded > 0 then [Log(StatusLine(job.name, "Succeeded")), Send] else [])
    + (if job.status.failed > 0 then [Log(StatusLine(job.name, "Failed"))] else [])
  }

  /** DeleteFunc: only the header line. */
  function DeleteFunc(job: Job): (effects: seq<Effect>)
    ensures |effects| == 1 && effects[0] == Log(LogLine("Job Deleted:", job.name))
  {
    [Log(LogLine("Job Deleted:", job.name))]
  }

  /** The callback the informer runs for an event. Every callback logs its
      header line first. */
  function Handle(e: Event): (effects: seq<Effect>)
    ensures 1 <= |effects| <= 5
    ensures effects[0] == Log(LogLine(HeaderWord(e), e.job.name))
  {
    match e
    case Added(job) => AddFunc(job)
    case Updated(previous, job) => UpdateFunc(previous, job)
    case Deleted(job) => DeleteFunc(job)
  }

  /** The log lines among some effects, in order. */
  function Lines(effects: seq<Effect>): (lines: seq<string>)
    ensures |lines| + Sends(effects) == |effects|
  {
    if effects == [] then []
    else Lines(effects[..|effects| - 1])
         + (match effects[|effects| - 1] case Log(line) => [line] case Send => [])
  }

  /** The number of completion sends among some effects. */
  function Sends(effects: seq<Effect>): (n: nat)
    ensures n == 0 <==> Send !in effects
  {
    if effects == [] then 0
    else Sends(effects[..|effects| - 1]) + (if effects[|effects| - 1] == Send then 1 else 0)
  }

  // ---------------------------------------------------------------------------
  // Distinctness of the lines, so that a line identifies the check that logged it.

  /** Two log lines with the same first operand are equal only if their second
      operands are. */
  lemma {:induction false} LogLineCancel(a: string, b1: string, b2: string)
    requires LogLine(a, b1) == LogLine(a, b2)
    ensures b1 == b2
  {
    assert |b1| == |b2|;
    forall k | 0 <= k < |b1| ensures b1[k] == b2[k] {
      assert LogLine(a, b1)[|a| + 1 + k] == b1[k];
      assert LogLine(a, b2)[|a| + 1 + k] == b2[k];
    }
  }

  /** A header line is never a status line of the same job: the header words
      and the status words have different lengths. */
  lemma HeaderIsNotStatus(e: Event, word: string)
    requires word in {"Active", "Succeeded", "Failed"}
    ensures LogLine(HeaderWord(e), e.job.name) != StatusLine(e.job.name, word)
  {
    assert |HeaderWord(e)| != |word|;
  }

  /** Lines and Sends of a concatenation. */
  lemma {:induction false} LinesSendsAppend(a: seq<Effect>, b: seq<Effect>)
    ensures Lines(a + b) == Lines(a) + Lines(b)
    ensures Sends(a + b) == Sends(a) + Sends(b)
    decreases |b|
  {
    if b == [] {
      assert a + b == a;
    } else {
      var n := |b| - 1;
      assert (a + b)[..|a + b| - 1] == a + b[..n];
      LinesSendsAppend(a, b[..n]);
    }
  }

  // ---------------------------------------------------------------------------
  // What one callback does.

  /** The effects a signalling callback performs before its send: the header,
      the "Active" line if any, and the "Succeeded" line. */
  function EffectsBeforeSend(e: Event): seq<Effect>
  {
    [Log(LogLine(HeaderWord(e), e.job.name))]
    + (if e.job.status.active > 0 then [Log(StatusLine(e.job.name, "Active"))] else [])
    + [Log(StatusLine(e.job.name, "Succeeded"))]
  }

  /** The effects a signalling callback performs after its send. */
  function EffectsAfterSend(e: Event): seq<Effect>
  {
    if e.job.status.failed > 0 then [Log(StatusLine(e.job.name, "Failed"))] else []
  }

  /** The lines of EffectsBeforeSend. */
  function LinesUpToSend(e: Event): seq<string>
  {
    [LogLine(HeaderWord(e), e.job.name)]
    + (if e.job.status.active > 0 then [StatusLine(e.job.name, "Active")] else [])
    + [StatusLine(e.job.name, "Succeeded")]
  }

  /** A signalling callback is its effects before the send, the one send, and
      its effects after it; only the middle part is a send. */
  lemma SendSplitsHandle(e: Event)
    requires SignalsCompletion(e)
    ensures Handle(e) == EffectsBeforeSend(e) + [Send] + EffectsAfterSend(e)
    ensures Send !in EffectsBeforeSend(e) && Send !in EffectsAfterSend(e)
    ensures Lines(EffectsBeforeSend(e)) == LinesUpToSend(e)
  {
    var job := e.job;
    var h: seq<Effect> := [Log(LogLine(HeaderWord(e), job.name))];
    var a: seq<Effect> := if job.status.active > 0 then [Log(StatusLine(job.name, "Active"))] else [];
    var s: seq<Effect> := [Log(StatusLine(job.name, "Succeeded"))];
    assert h[..0] == [] && s[..0] == [];
    if job.status.active > 0 {
      assert a[..0] == [];
    }
    LinesSendsAppend(h, a);
    LinesSendsAppend(h + a, s);
  }

  /** A callback sends the completion signal at most once, and exactly when the
      snapshot reports a succeeded pod (Added and Updated only). */
  lemma SendsOnlyOnSuccess(e: Event)
    ensures Sends(Handle(e)) == if SignalsCompletion(e) then 1 else 0
    ensures Send in Handle(e) <==> SignalsCompletion(e)
  {
    if SignalsCompletion(e) {
      SendSplitsHandle(e);
      var before := EffectsBeforeSend(e);
      assert [Send][..0] == [];
      assert Sends([Send]) == 1;
      LinesSendsAppend(before, [Send]);
      LinesSendsAppend(before + [Send], EffectsAfterSend(e));
      assert Sends(Handle(e)) == Sends(before) + 1 + Sends(EffectsAfterSend(e));
    } else {
      NoSendWithoutSuccess(e);
    }
  }

  /** A callback whose event does not report success contains no send. */
  lemma NoSendWithoutSuccess(e: Event)
    requires !SignalsCompletion(e)
    ensures Send !in Handle(e)
  {
    if !e.Deleted? {
      var job := e.job;
      var h: seq<Effect> := [Log(LogLine(HeaderWord(e), job.name))];
      var a: seq<Effect> := if job.status.active > 0 then [Log(StatusLine(job.name, "Active"))] else [];
      var f: seq<Effect> := if job.status.failed > 0 then [Log(StatusLine(job.name, "Failed"))] else [];
      assert Handle(e) == h + a + f;
    }
  }

  /** The "Active" line is logged if and only if the snapshot of an Added or
      Updated event reports active pods. */
  lemma ActiveLogged(e: Event)
    ensures Log(StatusLine(e.job.name, "Active")) in Handle(e)
            <==> !e.Deleted? && e.job.status.active > 0
  {
    HeaderIsNotStatus(e, "Active");
    if Log(StatusLine(e.job.name, "Active")) == Log(StatusLine(e.job.name, "Succeeded")) {
      LogLineCancel(e.job.name, "Active", "Succeeded");
    }
    if Log(StatusLine(e.job.name, "Active")) == Log(StatusLine(e.job.name, "Failed")) {
      LogLineCancel(e.job.name, "Active", "Failed");
    }
  }

  /** The "Succeeded" line is logged exactly when the signal is sent, and every
      send comes immediately after it. */
  lemma SucceededThenSignal(e: Event)
    ensures Log(StatusLine(e.job.name, "Succeeded")) in Handle(e) <==> SignalsCompletion(e)
    ensures forall i :: 0 < i < |Handle(e)| && Handle(e)[i] == Send ==>
              Handle(e)[i - 1] == Log(StatusLine(e.job.name, "Succeeded"))
    ensures Handle(e)[0] != Send
  {
    HeaderIsNotStatus(e, "Succeeded");
    if Log(StatusLine(e.job.name, "Succeeded")) == Log(StatusLine(e.job.name, "Active")) {
      LogLineCancel(e.job.name, "Succeeded", "Active");
    }
    if Log(StatusLine(e.job.name, "Succeeded")) == Log(StatusLine(e.job.name, "Failed")) {
      LogLineCancel(e.job.name, "Succeeded", "Failed");
    }
  }

  /** The "Failed" line is logged if and only if the snapshot of an Added or
      Updated event reports failed pods; failures alone never signal. */
  lemma FailedNeverSignals(e: Event)
    ensures Log(StatusLine(e.job.name, "Failed")) in Handle(e)
            <==> !e.Deleted? && e.job.status.failed > 0
    ensures e.job.status.succeeded <= 0 ==> Send !in Handle(e)
  {
    HeaderIsNotStatus(e, "Failed");
    if Log(StatusLine(e.job.name, "Failed")) == Log(StatusLine(e.job.name, "Active")) {
      LogLineCancel(e.job.name, "Failed", "Active");
    }
    if Log(StatusLine(e.job.name, "Failed")) == Log(StatusLine(e.job.name, "Succeeded")) {
      LogLineCancel(e.job.name, "Failed", "Succeeded");
    }
    SendsOnlyOnSuccess(e);
  }

  /** The position of an effect in a callback's output: the header, then the
      Active check, the Succeeded check and its send, then the Failed check. */
  function Rank(e: Event, effect: Effect): nat
  {
    match effect
    case Send => 3
    case Log(line) =>
      if line == StatusLine(e.job.name, "Active") then 1
      else if line == StatusLine(e.job.name, "Succeeded") then 2
      else if line == StatusLine(e.job.name, "Failed") then 4
      else 0
  }

  /** The three status checks always run in the order Active, Succeeded, Failed,
      after the header: the ranks of consecutive effects strictly increase. */
  lemma ChecksInOrder(e: Event)
    ensures forall i :: 0 < i < |Handle(e)| ==> Rank(e, Handle(e)[i - 1]) < Rank(e, Handle(e)[i])
  {
    var name := e.job.name;
    HeaderIsNotStatus(e, "Active");
    HeaderIsNotStatus(e, "Succeeded");
    HeaderIsNotStatus(e, "Failed");
    if StatusLine(name, "Succeeded") == StatusLine(name, "Active") {
      LogLineCancel(name, "Succeeded", "Active");
    }
    if StatusLine(name, "Failed") == StatusLine(name, "Active") {
      LogLineCancel(name, "Failed", "Active");
    }
    if StatusLine(name, "Failed") == StatusLine(name, "Succeeded") {
      LogLineCancel(name, "Failed", "Succeeded");
    }
    assert Rank(e, Log(LogLine(HeaderWord(e), name))) == 0;
    assert Rank(e, Log(StatusLine(name, "Active"))) == 1;
    assert Rank(e, Log(StatusLine(name, "Succeeded"))) == 2;
    assert Rank(e, Send) == 3;
    assert Rank(e, Log(StatusLine(name, "Failed"))) == 4;
    var st := e.job.status;
    var h := Handle(e);
    if !e.Deleted? {
      var a: seq<Effect> := if st.active > 0 then [Log(StatusLine(name, "Active"))] else [];
      var s: seq<Effect> := if st.succeeded > 0 then [Log(StatusLine(name, "Succeeded")), Send] else [];
      var f: seq<Effect> := if st.failed > 0 then [Log(StatusLine(name, "Failed"))] else [];
      assert h == [Log(LogLine(HeaderWord(e), name))] + a + s + f;
    }
  }

  /** A snapshot with no positive count, or a deletion, yields only the header
      line and no signal; any positive count adds a line. */
  lemma IdleSnapshotOnlyHeader(e: Event)
    ensures |Handle(e)| == 1
            <==> e.Deleted? || (e.job.status.active <= 0 && e.job.status.succeeded <= 0 && e.job.status.failed <= 0)
    ensures |Handle(e)| == 1 ==> Send !in Handle(e)
  {
  }

  /** Added and Updated log the same status lines and send the same signal for
      the same snapshot; only the header word differs, and the previous object of
      an update plays no part. */
  lemma AddedUpdatedAgree(previous: Job, job: Job)
    ensures Handle(Added(job))[1..] == Handle(Updated(previous, job))[1..]
    ensures Handle(Added(job))[0] == Log(LogLine("Job Added:", job.name))
    ensures Handle(Updated(previous, job))[0] == Log(LogLine("Job Updated:", job.name))
  {
  }

  /** An update's output does not depend on the previous object. */
  lemma UpdateIgnoresPrevious(previous1: Job, previous2: Job, job: Job)
    ensures Handle(Updated(previous1, job)) == Handle(Updated(previous2, job))
  {
  }

  /** A deletion logs only its header line, depends on nothing but the name, and
      never signals. */
  lemma DeleteInspectsNoStatus(job1: Job, job2: Job)
    requires job1.name == job2.name
    ensures Handle(Deleted(job1)) == Handle(Deleted(job2))
    ensures Lines(Handle(Deleted(job1))) == [LogLine("Job Deleted:", job1.name)]
    ensures Send !in Handle(Deleted(job1))
  {
    assert Handle(Deleted(job1))[..0] == [];
  }
}
