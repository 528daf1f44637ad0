/** The data-lake writer: one buffer, any number of concurrent flushes and timers, uploads that may fail, and `stop`. */
module LakeModel {
  import opened Basics

  type Record = string

  /**
    A flush that was called and has not taken the buffer yet, one uploading what it took, one whose upload
    failed and which waits for the lock to put its records back, and one that is over.
   */
  datatype Flush = Called | Uploading(data: seq<Record>) | Failing(data: seq<Record>) | Over

  /** A timer loop, asleep or inside the flush it called last, or one that was cancelled. */
  datatype Timer = Alive(called: Option<nat>) | Ended

  /** What `batch_task` names: the timer loop that `start` created, or a flush that a write created. */
  datatype Task = NoTask | FlushTask(flush: nat) | TimerTask(timer: nat)

  /** `accepted`, `uploaded` and `lost` are the history. */
  datatype Lake = Lake(
    buffer: seq<Record>,
    flushes: seq<Flush>,
    timers: seq<Timer>,
    task: Task,
    accepted: seq<Record>,
    uploaded: seq<Record>,
    lost: seq<Record>)

  const EMPTY: Lake := Lake([], [], [], NoTask, [], [], [])

  datatype Step =
    | Start
    | Write(record: Record)
    | CallFlush
    | TimerFires(l: nat)
    | Take(k: nat)
    | UploadDone(k: nat)
    | UploadFails(k: nat)
    | PutBack(k: nat)
    | StopCancels(stored: bool)

  predicate IsAlive(s: Lake, l: nat) { l < |s.timers| && s.timers[l].Alive? }

  predicate IsOver(s: Lake, k: nat) { k < |s.flushes| ==> s.flushes[k] == Over }

  /** `batch_task is None or batch_task.done()` */
  predicate IsDone(s: Lake)
  {
    match s.task
    case NoTask => true
    case FlushTask(k) => IsOver(s, k)
    case TimerTask(l) => !IsAlive(s, l)
  }

  /** A timer that sleeps: it has called no flush, or the flush it called is over. */
  predicate Sleeps(s: Lake, l: nat)
  {
    IsAlive(s, l) && (s.timers[l].called.Some? ==> IsOver(s, s.timers[l].called.value))
  }

  /** The flush a cancellation of the task interrupts. */
  function Target(s: Lake): (k: Option<nat>)
    ensures k.Some? ==> k.value < |s.flushes|
  {
    var k := match s.task
      case NoTask => None
      case FlushTask(k) => Some(k)
      case TimerTask(l) => if IsAlive(s, l) then s.timers[l].called else None;
    if k.Some? && k.value < |s.flushes| then k else None
  }

  predicate Enabled(s: Lake, step: Step)
  {
    match step
    case TimerFires(l) => Sleeps(s, l)
    case Take(k) => k < |s.flushes| && s.flushes[k].Called?
    case UploadDone(k) => k < |s.flushes| && s.flushes[k].Uploading?
    case UploadFails(k) => k < |s.flushes| && s.flushes[k].Uploading?
    case PutBack(k) => k < |s.flushes| && s.flushes[k].Failing?
    case _ => true
  }

  function DataOf(f: Flush): seq<Record>
  {
    match f case Uploading(data) => data case Failing(data) => data case _ => []
  }

  /** A cancelled flush loses what it held, unless the upload it was in goes through regardless. */
  function Interrupted(s: Lake, k: nat, stored: bool): Lake
    requires k < |s.flushes|
  {
    var f := s.flushes[k];
    var s' := s.(flushes := s.flushes[k := Over]);
    if f.Uploading? && stored then s'.(uploaded := s.uploaded + f.data) else s'.(lost := s.lost + DataOf(f))
  }

  /** The timer loop ends if the task is one. */
  function TimersAfterStop(s: Lake): seq<Timer>
  {
    if s.task.TimerTask? && s.task.timer < |s.timers| then s.timers[s.task.timer := Ended] else s.timers
  }

  /** The first half of `stop`: a task that is not done is cancelled and awaited. */
  function Stopped(s: Lake, stored: bool): Lake
  {
    if IsDone(s) then s
    else
      var s' := if Target(s).Some? then Interrupted(s, Target(s).value, stored) else s;
      s'.(timers := TimersAfterStop(s))
  }

  function Next(batchSize: int, s: Lake, step: Step): Lake
    requires Enabled(s, step)
  {
    match step
    case Start => if IsDone(s) then s.(timers := s.timers + [Alive(None)], task := TimerTask(|s.timers|)) else s
    case Write(r) =>
      var s' := s.(buffer := s.buffer + [r], accepted := s.accepted + [r]);
      if |s'.buffer| >= batchSize then s'.(flushes := s.flushes + [Called], task := FlushTask(|s.flushes|)) else s'
    case CallFlush => s.(flushes := s.flushes + [Called])
    case TimerFires(l) => s.(flushes := s.flushes + [Called], timers := s.timers[l := Alive(Some(|s.flushes|))])
    case Take(k) =>
      if s.buffer == [] then s.(flushes := s.flushes[k := Over])
      else s.(buffer := [], flushes := s.flushes[k := Uploading(s.buffer)])
    case UploadDone(k) => s.(flushes := s.flushes[k := Over], uploaded := s.uploaded + s.flushes[k].data)
    case UploadFails(k) => s.(flushes := s.flushes[k := Failing(s.flushes[k].data)])
    case PutBack(k) => s.(buffer := s.buffer + s.flushes[k].data, flushes := s.flushes[k := Over])
    case StopCancels(stored) => Stopped(s, stored)
  }

  ghost predicate Reaches(batchSize: int, s: Lake, steps: seq<Step>, t: Lake)
    decreases |steps|
  {
    if steps == [] then s == t
    else Enabled(s, steps[0]) && Reaches(batchSize, Next(batchSize, s, steps[0]), steps[1..], t)
  }

  /** How often a record is listed, and how often the flushes hold it. */
  function Listed(xs: seq<Record>, r: Record): nat
  {
    multiset(xs)[r]
  }

  function Held(flushes: seq<Flush>, r: Record): nat
  {
    if flushes == [] then 0 else Held(flushes[..|flushes| - 1], r) + Listed(DataOf(flushes[|flushes| - 1]), r)
  }

  lemma {:induction false} HeldAfter(flushes: seq<Flush>, k: nat, f: Flush, r: Record)
    requires k < |flushes|
    ensures Held(flushes[k := f], r) == Held(flushes, r) - Listed(DataOf(flushes[k]), r) + Listed(DataOf(f), r)
    decreases |flushes|
  {
    hide Listed, DataOf;
    var n := |flushes| - 1;
    if k < n {
      HeldAfter(flushes[..n], k, f, r);
      assert flushes[k := f][..n] == flushes[..n][k := f];
    } else {
      assert flushes[k := f][..n] == flushes[..n];
    }
  }

  lemma HeldByOneMore(flushes: seq<Flush>, r: Record)
    ensures Held(flushes + [Called], r) == Held(flushes, r)
  {
    assert (flushes + [Called])[..|flushes|] == flushes;
  }

  lemma ListedAdds(xs: seq<Record>, ys: seq<Record>, r: Record)
    ensures Listed(xs + ys, r) == Listed(xs, r) + Listed(ys, r)
  {
  }

  ghost predicate Balanced(s: Lake, r: Record)
  {
    Listed(s.accepted, r) == Listed(s.buffer, r) + Held(s.flushes, r) + Listed(s.uploaded, r) + Listed(s.lost, r)
  }

  /** Every record accepted is buffered, held by a flush, uploaded or lost, as often as it was accepted. */
  ghost predicate Conserves(s: Lake)
  {
    forall r: Record :: Balanced(s, r)
  }

  lemma CallKeepsBalance(batchSize: int, s: Lake, step: Step, r: Record)
    requires Balanced(s, r) && Enabled(s, step) && (step.Start? || step.Write? || step.CallFlush? || step.TimerFires?)
    ensures Balanced(Next(batchSize, s, step), r)
  {
    HeldByOneMore(s.flushes, r);
    if step.Write? {
      ListedAdds(s.buffer, [step.record], r);
      ListedAdds(s.accepted, [step.record], r);
    }
  }

  lemma TakeKeepsBalance(batchSize: int, s: Lake, k: nat, r: Record)
    requires Balanced(s, r) && Enabled(s, Take(k))
    ensures Balanced(Next(batchSize, s, Take(k)), r)
  {
    HeldAfter(s.flushes, k, if s.buffer == [] then Over else Uploading(s.buffer), r);
  }

  lemma UploadKeepsBalance(batchSize: int, s: Lake, k: nat, r: Record)
    requires Balanced(s, r) && Enabled(s, UploadDone(k))
    ensures Balanced(Next(batchSize, s, UploadDone(k)), r)
  {
    hide Held, Listed;
    HeldAfter(s.flushes, k, Over, r);
    ListedAdds(s.uploaded, s.flushes[k].data, r);
    assert Listed(DataOf(Over), r) == 0 by {
      NothingListed(r);
    }
  }

  lemma NothingListed(r: Record)
    ensures Listed([], r) == 0
  {
  }

  lemma FailureKeepsBalance(batchSize: int, s: Lake, k: nat, r: Record)
    requires Balanced(s, r) && Enabled(s, UploadFails(k))
    ensures Balanced(Next(batchSize, s, UploadFails(k)), r)
  {
    hide Held, Listed;
    HeldAfter(s.flushes, k, Failing(s.flushes[k].data), r);
  }

  lemma PutBackKeepsBalance(batchSize: int, s: Lake, k: nat, r: Record)
    requires Balanced(s, r) && Enabled(s, PutBack(k))
    ensures Balanced(Next(batchSize, s, PutBack(k)), r)
  {
    HeldAfter(s.flushes, k, Over, r);
    ListedAdds(s.buffer, s.flushes[k].data, r);
  }

  lemma StopKeepsBalance(s: Lake, stored: bool, r: Record)
    requires Balanced(s, r)
    ensures Balanced(Stopped(s, stored), r)
  {
    if Target(s).Some? {
      var f := s.flushes[Target(s).value];
      HeldAfter(s.flushes, Target(s).value, Over, r);
      ListedAdds(s.uploaded, DataOf(f), r);
      ListedAdds(s.lost, DataOf(f), r);
    }
  }

  lemma StepConserves(batchSize: int, s: Lake, step: Step)
    requires Conserves(s) && Enabled(s, step)
    ensures Conserves(Next(batchSize, s, step))
  {
    forall r: Record
      ensures Balanced(Next(batchSize, s, step), r)
    {
      assert Balanced(s, r);
      match step {
        case Take(k) => TakeKeepsBalance(batchSize, s, k, r);
        case UploadDone(k) => UploadKeepsBalance(batchSize, s, k, r);
        case UploadFails(k) => FailureKeepsBalance(batchSize, s, k, r);
        case PutBack(k) => PutBackKeepsBalance(batchSize, s, k, r);
        case StopCancels(stored) => StopKeepsBalance(s, stored, r);
        case _ => CallKeepsBalance(batchSize, s, step, r);
      }
    }
  }

  /** Nothing is lost or doubled in any interleaving of writes, flushes, failures and cancellations. */
  lemma {:induction false} RunConserves(batchSize: int, s: Lake, steps: seq<Step>, t: Lake)
    requires Conserves(s) && Reaches(batchSize, s, steps, t)
    ensures Conserves(t)
    decreases |steps|
  {
    if steps != [] {
      StepConserves(batchSize, s, steps[0]);
      RunConserves(batchSize, Next(batchSize, s, steps[0]), steps[1..], t);
    }
  }

  /** A cancellation that takes records with it. */
  predicate Loses(s: Lake, step: Step)
  {
    && step.StopCancels? && !IsDone(s) && Target(s).Some?
    && var f := s.flushes[Target(s).value]; DataOf(f) != [] && !(f.Uploading? && step.stored)
  }

  ghost predicate LosesNothing(batchSize: int, s: Lake, steps: seq<Step>)
    decreases |steps|
  {
    steps == [] ||
    (Enabled(s, steps[0]) && !Loses(s, steps[0]) && LosesNothing(batchSize, Next(batchSize, s, steps[0]), steps[1..]))
  }

  lemma {:induction false} LossNeverShrinks(batchSize: int, s: Lake, steps: seq<Step>, t: Lake)
    requires Reaches(batchSize, s, steps, t)
    ensures |t.lost| >= |s.lost|
    decreases |steps|
  {
    if steps != [] {
      LossNeverShrinks(batchSize, Next(batchSize, s, steps[0]), steps[1..], t);
    }
  }

  /** Records are lost exactly when `stop` cancels a flush that holds some and does not store them. */
  lemma {:induction false} LossIffCancelled(batchSize: int, s: Lake, steps: seq<Step>, t: Lake)
    requires Reaches(batchSize, s, steps, t)
    ensures t.lost == s.lost <==> LosesNothing(batchSize, s, steps)
    decreases |steps|
  {
    if steps != [] {
      var next := Next(batchSize, s, steps[0]);
      LossIffCancelled(batchSize, next, steps[1..], t);
      LossNeverShrinks(batchSize, next, steps[1..], t);
    }
  }

  /**
    Once every flush is over and the buffer is empty, each accepted record has been uploaded exactly as often
    as it was accepted, provided no cancellation took records with it, and only then.
   */
  lemma SettledMeansUploaded(batchSize: int, steps: seq<Step>, s: Lake)
    requires Reaches(batchSize, EMPTY, steps, s)
    requires s.buffer == [] && forall k :: 0 <= k < |s.flushes| ==> s.flushes[k] == Over
    ensures multiset(s.uploaded) == multiset(s.accepted) <==> LosesNothing(batchSize, EMPTY, steps)
  {
    RunConserves(batchSize, EMPTY, steps, s);
    LossIffCancelled(batchSize, EMPTY, steps, s);
    forall r: Record
      ensures Listed(s.accepted, r) == Listed(s.uploaded, r) + Listed(s.lost, r)
    {
      assert Balanced(s, r);
      AllOver(s.flushes, r);
    }
    if s.lost != [] {
      assert Listed(s.lost, s.lost[0]) > 0;
      assert Listed(s.accepted, s.lost[0]) != Listed(s.uploaded, s.lost[0]);
    } else {
      assert forall r: Record ::
        multiset(s.accepted)[r] == Listed(s.accepted, r) == Listed(s.uploaded, r) == multiset(s.uploaded)[r];
    }
  }

  lemma {:induction false} AllOver(flushes: seq<Flush>, r: Record)
    requires forall k :: 0 <= k < |flushes| ==> flushes[k] == Over
    ensures Held(flushes, r) == 0
  {
    if flushes != [] {
      AllOver(flushes[..|flushes| - 1], r);
    }
  }

  /** Stopping the writer can lose a record: the task it cancels may be a flush that a write started. */
  lemma StopCanLose(r: Record)
    ensures exists steps, s :: Reaches(1, EMPTY, steps, s) && s.accepted == [r] && s.lost == [r]
  {
    hide Interrupted;
    var s1 := EMPTY.(buffer := [r], accepted := [r], flushes := [Called], task := FlushTask(0));
    var s2 := s1.(buffer := [], flushes := [Uploading([r])]);
    var s3 := s2.(flushes := [Over], lost := [r]);
    assert Next(1, EMPTY, Write(r)) == s1 && Next(1, s1, Take(0)) == s2;
    LosingStop(s2, r);
    ThreeSteps(EMPTY, Write(r), s1, Take(0), s2, StopCancels(false), s3);
  }

  lemma LosingStop(s: Lake, r: Record)
    requires s.task == FlushTask(0) && s.flushes == [Uploading([r])] && s.lost == []
    ensures Next(1, s, StopCancels(false)) == s.(flushes := [Over], lost := [r])
  {
    assert [] + [r] == [r];
  }

  lemma ThreeSteps(s: Lake, a: Step, s1: Lake, b: Step, s2: Lake, c: Step, s3: Lake)
    requires Enabled(s, a) && Next(1, s, a) == s1 && Enabled(s1, b) && Next(1, s1, b) == s2
    requires Enabled(s2, c) && Next(1, s2, c) == s3
    ensures Reaches(1, s, [a, b, c], s3)
  {
    hide Enabled, Next;
    var steps := [a, b, c];
    assert steps[1..] == [b, c] && [b, c][1..] == [c] && [c][1..] == [];
    assert Reaches(1, s3, [], s3);
    assert Reaches(1, s2, [c], s3);
    assert Reaches(1, s1, [b, c], s3);
  }

  // ---------------------------------------------------------------- timers that outlive `stop`

  /** A timer loop runs that `batch_task` does not name. */
  ghost predicate SomeLoose(s: Lake)
  {
    exists l: nat :: IsAlive(s, l) && s.task != TimerTask(l)
  }

  /** The write that fills the buffer makes its flush the task, in place of a timer that still runs. */
  predicate Displaces(batchSize: int, s: Lake, step: Step)
  {
    step.Write? && |s.buffer| + 1 >= batchSize && s.task.TimerTask? && IsAlive(s, s.task.timer)
  }

  predicate TaskExists(s: Lake)
  {
    s.task.TimerTask? ==> s.task.timer < |s.timers|
  }

  /** Timers come loose exactly by such writes: nothing else forgets one, and nothing finds it again. */
  lemma StepLoosensIff(batchSize: int, s: Lake, step: Step)
    requires TaskExists(s) && Enabled(s, step)
    ensures TaskExists(Next(batchSize, s, step))
    ensures SomeLoose(Next(batchSize, s, step)) <==> SomeLoose(s) || Displaces(batchSize, s, step)
  {
    var s' := Next(batchSize, s, step);
    if SomeLoose(s) {
      var l: nat :| IsAlive(s, l) && s.task != TimerTask(l);
      assert IsAlive(s', l) && s'.task != TimerTask(l);
    } else if Displaces(batchSize, s, step) {
      assert IsAlive(s', s.task.timer);
    } else if SomeLoose(s') {
      var l: nat :| IsAlive(s', l) && s'.task != TimerTask(l);
      assert IsAlive(s, l);
      assert false;
    }
  }

  ghost predicate DisplacesNone(batchSize: int, s: Lake, steps: seq<Step>)
    decreases |steps|
  {
    steps == [] ||
    (&& Enabled(s, steps[0]) && !Displaces(batchSize, s, steps[0])
     && DisplacesNone(batchSize, Next(batchSize, s, steps[0]), steps[1..]))
  }

  lemma {:induction false} RunLoosensIff(batchSize: int, s: Lake, steps: seq<Step>, t: Lake)
    requires TaskExists(s) && Reaches(batchSize, s, steps, t)
    ensures TaskExists(t)
    ensures SomeLoose(t) <==> SomeLoose(s) || !DisplacesNone(batchSize, s, steps)
    decreases |steps|
  {
    if steps != [] {
      StepLoosensIff(batchSize, s, steps[0]);
      RunLoosensIff(batchSize, Next(batchSize, s, steps[0]), steps[1..], t);
    }
  }

  ghost predicate AllTimersEnded(s: Lake)
  {
    forall l: nat :: !IsAlive(s, l)
  }

  /**
    `stop` ends every timer loop, however often the writer was started, if and only if no write of the run
    took the place of a timer that still ran.
   */
  lemma StopEndsTimersIff(batchSize: int, steps: seq<Step>, s: Lake, stored: bool)
    requires Reaches(batchSize, EMPTY, steps, s)
    ensures AllTimersEnded(Next(batchSize, s, StopCancels(stored))) <==> DisplacesNone(batchSize, EMPTY, steps)
  {
    assert !SomeLoose(EMPTY);
    hide AllTimersEnded, SomeLoose, Stopped;
    RunLoosensIff(batchSize, EMPTY, steps, s);
    StopSparesLoose(s, stored);
  }

  lemma StopSparesLoose(s: Lake, stored: bool)
    requires TaskExists(s)
    ensures AllTimersEnded(Stopped(s, stored)) <==> !SomeLoose(s)
  {
    if SomeLoose(s) {
      var l: nat :| IsAlive(s, l) && s.task != TimerTask(l);
      assert IsAlive(Stopped(s, stored), l);
    } else {
      forall l: nat
        ensures !IsAlive(Stopped(s, stored), l)
      {
        assert IsAlive(s, l) ==> s.task == TimerTask(l);
      }
    }
  }

  /** A timer loop that `stop` does not end: a write made its own flush the task before. */
  lemma TimerOutlivesStop(r: Record)
    ensures exists steps, s :: Reaches(1, EMPTY, steps + [StopCancels(false)], s) && IsAlive(s, 0)
  {
    var s1 := EMPTY.(timers := [Alive(None)], task := TimerTask(0));
    var s2 := s1.(buffer := [r], accepted := [r], flushes := [Called], task := FlushTask(0));
    var s3 := s2.(flushes := [Over]);
    assert Next(1, EMPTY, Start) == s1 && Next(1, s1, Write(r)) == s2;
    assert Next(1, s2, StopCancels(false)) == s3;
    ThreeSteps(EMPTY, Start, s1, Write(r), s2, StopCancels(false), s3);
    assert [Start, Write(r)] + [StopCancels(false)] == [Start, Write(r), StopCancels(false)];
    assert IsAlive(s3, 0);
  }
}
