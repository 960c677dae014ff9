/** Readers waiting for a group to apply an index, interleaved with the worker that applies,
    with resumes and with a cancel (`src/applier.rs`).

    An atomic step is one hold of the group's lock, except that the handler runs, and a
    cancel notifies, with no lock held. Deliveries to one group are one at a time. */
module ApplyWait {
  import opened Basics
  import opened Applier

  datatype Answer =
    | WasReached(index: nat)
    | TimedOut(index: nat)
    | GroupGone(index: nat)
    | WasStalled(index: nat)

  /** A reader waiting for `index`. */
  datatype Waiter =
    | Checking(index: nat)               // about to look, under the lock
    | Parked(index: nat)                 // waiting on the condition variable
    | Answered(index: nat, answer: Answer)

  datatype Worker =
    | Resting
    | Holding(rest: seq<ApplyTask>)      // saw no stall; has tasks to hand over
    | Reported(call: Handed, rest: seq<ApplyTask>)  // the handler has answered, not yet recorded

  /** How far a cancel has got: out of the group map, marked, its waiters notified. */
  datatype Cancelling = Registered | Removed | Marked | Notified

  /** `recorded` are the calls whose reports have reached the state. */
  datatype Group = Group(st: AppliedState, recorded: seq<Handed>, worker: Worker, waiters: seq<Waiter>,
                         cancelling: Cancelling)

  datatype Step =
    | Deliver(tasks: seq<ApplyTask>)
    | Call(report: ApplyReport)
    | Record
    | ResumeGroup
    | RemoveGroup
    | MarkCancelled
    | NotifyCancelled
    | StartWait(index: nat)
    | Check(w: nat, expired: bool)
    | Rouse(w: nat)

  function NewGroup(): Group {
    Group(FRESH, [], Resting, [], Registered)
  }

  function Woken(w: Waiter): Waiter {
    if w.Parked? then Checking(w.index) else w
  }

  /** `notify_all`. */
  function AllWoken(waiters: seq<Waiter>): (r: seq<Waiter>)
    ensures |r| == |waiters| && forall i :: 0 <= i < |r| ==> r[i] == Woken(waiters[i])
  {
    seq(|waiters|, i requires 0 <= i < |waiters| => Woken(waiters[i]))
  }

  /** One pass of the wait loop. */
  function Look(st: AppliedState, index: nat, expired: bool): Waiter {
    if st.appliedIndex >= index then Answered(index, WasReached(st.appliedIndex))
    else if st.cancelled then Answered(index, GroupGone(st.appliedIndex))
    else if st.stall.Some? then Answered(index, WasStalled(st.appliedIndex))
    else if expired then Answered(index, TimedOut(st.appliedIndex))
    else Parked(index)
  }

  predicate Enabled(g: Group, step: Step) {
    match step
    case Deliver(_) => g.worker.Resting?
    case Call(_) => g.worker.Holding? && g.worker.rest != []
    case Record => g.worker.Reported?
    case ResumeGroup => true
    case RemoveGroup => g.cancelling.Registered?
    case MarkCancelled => g.cancelling.Removed?
    case NotifyCancelled => g.cancelling.Marked?
    case StartWait(_) => g.cancelling.Registered?
    case Check(w, _) => w < |g.waiters| && g.waiters[w].Checking?
    case Rouse(w) => w < |g.waiters| && g.waiters[w].Parked?
  }

  function Next(g: Group, limit: nat, step: Step): Group
    requires limit >= 1 && Enabled(g, step)
  {
    match step
    case Deliver(tasks) => if g.st.stall.Some? || tasks == [] then g else g.(worker := Holding(tasks))
    case Call(report) =>
      var n := NextBatch(limit, g.worker.rest);
      g.(worker := Reported(Handed(g.worker.rest[..n], report), g.worker.rest[n..]))
    case Record =>
      g.(st := Applied(g.st, g.worker.call),
         recorded := g.recorded + [g.worker.call],
         worker := if g.worker.call.report.Stalled? || g.worker.rest == [] then Resting else Holding(g.worker.rest),
         waiters := AllWoken(g.waiters))
    case ResumeGroup =>
      if g.st.stall.None? then g else g.(st := g.st.(stall := None), waiters := AllWoken(g.waiters))
    case RemoveGroup => g.(cancelling := Removed)
    case MarkCancelled => g.(st := g.st.(cancelled := true), cancelling := Marked)
    case NotifyCancelled => g.(cancelling := Notified, waiters := AllWoken(g.waiters))
    case StartWait(index) => g.(waiters := g.waiters + [Checking(index)])
    case Check(w, expired) => g.(waiters := g.waiters[w := Look(g.st, g.waiters[w].index, expired)])
    case Rouse(w) => g.(waiters := g.waiters[w := Checking(g.waiters[w].index)])
  }

  predicate Run(g: Group, limit: nat, steps: seq<Step>, g': Group)
    requires limit >= 1
    decreases |steps|
  {
    if steps == [] then g == g'
    else Enabled(g, steps[0]) && Run(Next(g, limit, steps[0]), limit, steps[1..], g')
  }

  // ---------------------------------------------------------------------------
  // The invariant
  // ---------------------------------------------------------------------------

  /** The wait would end if the reader looked now. */
  predicate Decided(st: AppliedState, index: nat) {
    st.appliedIndex >= index || st.cancelled || st.stall.Some?
  }

  /** What an answer, once given, goes on being. */
  predicate AnswerStands(st: AppliedState, index: nat, a: Answer) {
    && a.index <= st.appliedIndex
    && (a.WasReached? <==> a.index >= index)
    && (a.GroupGone? ==> st.cancelled)
  }

  predicate WaiterSound(g: Group, w: Waiter) {
    match w
    case Checking(_) => true
    case Parked(index) => Decided(g.st, index) ==> g.cancelling.Marked?
    case Answered(index, a) => AnswerStands(g.st, index, a)
  }

  predicate Inv(g: Group) {
    && Justified(g.st, g.recorded)
    && (!g.worker.Resting? ==> g.st.stall.None?)
    && (g.worker.Holding? ==> g.worker.rest != [])
    && (g.st.cancelled <==> g.cancelling.Marked? || g.cancelling.Notified?)
    && forall w :: 0 <= w < |g.waiters| ==> WaiterSound(g, g.waiters[w])
  }

  /** A record wakes every parked reader and takes nothing back. */
  lemma RecordedWaiters(g: Group, limit: nat)
    requires limit >= 1 && Enabled(g, Record)
    requires forall w :: 0 <= w < |g.waiters| ==> WaiterSound(g, g.waiters[w])
    ensures var g' := Next(g, limit, Record);
            forall w :: 0 <= w < |g'.waiters| ==> WaiterSound(g', g'.waiters[w])
  {
    assert g.st.appliedIndex <= Applied(g.st, g.worker.call).appliedIndex;
    assert g.st.cancelled == Applied(g.st, g.worker.call).cancelled;
    var g' := Next(g, limit, Record);
    forall w | 0 <= w < |g'.waiters| ensures WaiterSound(g', g'.waiters[w]) {
      assert WaiterSound(g, g.waiters[w]);
    }
  }

  lemma RecordInv(g: Group, limit: nat)
    requires limit >= 1 && Inv(g) && Enabled(g, Record)
    ensures Inv(Next(g, limit, Record))
  {
    RecordedWaiters(g, limit);
    AppliedJustified(g.st, g.recorded, g.worker.call);
  }

  lemma QuietInv(g: Group, limit: nat, step: Step)
    requires limit >= 1 && Inv(g) && Enabled(g, step) && !step.Record?
    ensures Inv(Next(g, limit, step))
  {
    var g' := Next(g, limit, step);
    forall w | 0 <= w < |g'.waiters| ensures WaiterSound(g', g'.waiters[w]) {
      if w < |g.waiters| {
        assert WaiterSound(g, g.waiters[w]);
      }
    }
  }

  lemma StepInv(g: Group, limit: nat, step: Step)
    requires limit >= 1 && Inv(g) && Enabled(g, step)
    ensures Inv(Next(g, limit, step))
  {
    if step.Record? { RecordInv(g, limit); } else { QuietInv(g, limit, step); }
  }

  lemma {:induction false} RunInv(g: Group, limit: nat, steps: seq<Step>, g': Group)
    requires limit >= 1 && Inv(g) && Run(g, limit, steps, g')
    ensures Inv(g') && g.st.appliedIndex <= g'.st.appliedIndex
    decreases |steps|
  {
    if steps != [] {
      StepInv(g, limit, steps[0]);
      RunInv(Next(g, limit, steps[0]), limit, steps[1..], g');
    }
  }

  // ---------------------------------------------------------------------------
  // Every run of one registration
  // ---------------------------------------------------------------------------

  ghost predicate Reachable(g: Group, limit: nat)
    requires limit >= 1
  {
    exists steps :: Run(NewGroup(), limit, steps, g)
  }

  lemma ReachableInv(g: Group, limit: nat)
    requires limit >= 1 && Reachable(g, limit)
    ensures Inv(g)
  {
    var steps :| Run(NewGroup(), limit, steps, g);
    RunInv(NewGroup(), limit, steps, g);
  }

  /** The read fence. A reader is told its index was reached only when it was: the group is at
      or past it, now and for the life of the registration, and some task whose report has been
      recorded carried the group that far. Any other answer names a smaller index. */
  lemma ReadFence(g: Group, limit: nat, w: nat)
    requires limit >= 1 && Reachable(g, limit)
    requires w < |g.waiters| && g.waiters[w].Answered?
    ensures var i, a := g.waiters[w].index, g.waiters[w].answer;
            && (a.WasReached? <==> i <= a.index) && a.index <= g.st.appliedIndex
            && (a.WasReached? && i > 0 ==>
                  exists b, k :: 0 <= b < |g.recorded| && 0 <= k < |g.recorded[b].batch|
                    && g.recorded[b].report.index >= i && Carries(g.recorded[b].batch[k]) >= i)
  {
    ReachableInv(g, limit);
    assert WaiterSound(g, g.waiters[w]);
    if g.waiters[w].answer.WasReached? && g.waiters[w].index > 0 {
      BestWorthCovered(g.recorded, g.waiters[w].index);
    }
  }

  lemma {:induction false} AnswersKept(g: Group, limit: nat, steps: seq<Step>, g': Group, w: nat)
    requires limit >= 1 && Run(g, limit, steps, g')
    requires w < |g.waiters| && g.waiters[w].Answered?
    ensures w < |g'.waiters| && g'.waiters[w] == g.waiters[w]
    decreases |steps|
  {
    if steps != [] {
      AnswersKept(Next(g, limit, steps[0]), limit, steps[1..], g', w);
    }
  }

  /** Once told that an index was reached, always right: whatever happens next, cancel included,
      the applied index is still at or past it. */
  lemma ReachedStays(g: Group, limit: nat, steps: seq<Step>, g': Group, w: nat)
    requires limit >= 1 && Reachable(g, limit) && Run(g, limit, steps, g')
    requires w < |g.waiters| && g.waiters[w].Answered? && g.waiters[w].answer.WasReached?
    ensures w < |g'.waiters| && g'.waiters[w] == g.waiters[w]
    ensures g'.st.appliedIndex >= g.waiters[w].answer.index >= g.waiters[w].index
  {
    ReachableInv(g, limit);
    assert WaiterSound(g, g.waiters[w]);
    RunInv(g, limit, steps, g');
    AnswersKept(g, limit, steps, g', w);
  }

  /** No wake is missed: a parked reader whose wait has become decidable is only parked while a
      cancel still owes its notification. */
  lemma NoMissedWake(g: Group, limit: nat, w: nat)
    requires limit >= 1 && Reachable(g, limit)
    requires w < |g.waiters| && g.waiters[w].Parked? && Decided(g.st, g.waiters[w].index)
    ensures g.cancelling.Marked? && g.st.cancelled
  {
    ReachableInv(g, limit);
    assert WaiterSound(g, g.waiters[w]);
  }

  /** Such a reader gets its answer after the owed notification and one look, with no timeout. */
  lemma DecidedWaitEnds(g: Group, limit: nat, w: nat)
    requires limit >= 1 && Reachable(g, limit)
    requires w < |g.waiters| && g.waiters[w].Parked? && Decided(g.st, g.waiters[w].index)
    ensures exists g' :: Run(g, limit, [NotifyCancelled, Check(w, false)], g')
              && w < |g'.waiters| && g'.waiters[w].Answered? && !g'.waiters[w].answer.TimedOut?
  {
    NoMissedWake(g, limit, w);
    var g1 := Next(g, limit, NotifyCancelled);
    assert g1.waiters[w] == Checking(g.waiters[w].index);
    var g2 := Next(g1, limit, Check(w, false));
    var steps := [NotifyCancelled, Check(w, false)];
    assert steps[1..] == [Check(w, false)] && steps[1..][1..] == [];
    assert Run(g2, limit, [], g2);
    assert Run(g1, limit, steps[1..], g2);
    assert Run(g, limit, steps, g2);
  }

  /** Nothing reaches the handler while the group is stalled, in any interleaving. */
  lemma StalledHandlerIdle(g: Group, limit: nat, report: ApplyReport)
    requires limit >= 1 && Reachable(g, limit) && Enabled(g, Call(report))
    ensures g.st.stall.None?
  {
    ReachableInv(g, limit);
  }

  // ---------------------------------------------------------------------------
  // Which answer a reader gets
  // ---------------------------------------------------------------------------

  /** What looking at `st` in time, or too late, must lead to. */
  predicate RightAnswer(st: AppliedState, index: nat, expired: bool, w: Waiter) {
    var below := st.appliedIndex < index;
    && w.index == index
    && (w.Parked? <==> !Decided(st, index) && !expired)
    && (w.Answered? <==> Decided(st, index) || expired)
    && (w.Answered? ==>
          && w.answer.index == st.appliedIndex
          && (w.answer.WasReached? <==> !below)
          && (w.answer.GroupGone? <==> below && st.cancelled)
          && (w.answer.WasStalled? <==> below && !st.cancelled && st.stall.Some?)
          && (w.answer.TimedOut? <==> !Decided(st, index) && expired))
  }

  function StateAt(g: Group, limit: nat, steps: seq<Step>, g': Group, j: nat): Group
    requires limit >= 1 && Run(g, limit, steps, g') && j <= |steps|
    decreases |steps|
  {
    if j == 0 then g else StateAt(Next(g, limit, steps[0]), limit, steps[1..], g', j - 1)
  }

  lemma {:induction false} AnswerFound(g: Group, limit: nat, steps: seq<Step>, g': Group, w: nat) returns (j: nat)
    requires limit >= 1 && Run(g, limit, steps, g') && w < |g'.waiters| && g'.waiters[w].Answered?
    requires w < |g.waiters| ==> !g.waiters[w].Answered?
    ensures j < |steps| && steps[j].Check? && steps[j].w == w
    ensures var at := StateAt(g, limit, steps, g', j);
            && w < |at.waiters| && at.waiters[w] == Checking(g'.waiters[w].index)
            && RightAnswer(at.st, g'.waiters[w].index, steps[j].expired, g'.waiters[w])
    decreases |steps|
  {
    var m := Next(g, limit, steps[0]);
    if w < |m.waiters| && m.waiters[w].Answered? {
      AnswersKept(m, limit, steps[1..], g', w);
      j := 0;
    } else {
      var i := AnswerFound(m, limit, steps[1..], g', w);
      j := i + 1;
    }
  }

  /** Every answer was the right one when it was given: reached at or past the index; below it,
      gone if cancelled, else stalled if stalled, else timed out, and that only too late. It names
      where the group was. */
  lemma EveryAnswerRight(limit: nat, steps: seq<Step>, g: Group, w: nat) returns (j: nat)
    requires limit >= 1 && Run(NewGroup(), limit, steps, g) && w < |g.waiters| && g.waiters[w].Answered?
    ensures j < |steps| && steps[j].Check? && steps[j].w == w
    ensures RightAnswer(StateAt(NewGroup(), limit, steps, g, j).st, g.waiters[w].index, steps[j].expired, g.waiters[w])
  {
    j := AnswerFound(NewGroup(), limit, steps, g, w);
  }

  /** A reader that looks parks exactly when nothing is decided and time is left. */
  lemma LookExact(g: Group, limit: nat, w: nat, expired: bool)
    requires limit >= 1 && Enabled(g, Check(w, expired))
    ensures RightAnswer(g.st, g.waiters[w].index, expired, Next(g, limit, Check(w, expired)).waiters[w])
  {
  }

  // ---------------------------------------------------------------------------
  // When a group is stalled
  // ---------------------------------------------------------------------------

  function WithStep(trace: seq<Mark>, g: Group, step: Step): seq<Mark> {
    if step.Record? && g.worker.Reported? then trace + [Called(g.worker.call)]
    else if step.ResumeGroup? then trace + [Resumed]
    else trace
  }

  /** The calls recorded and the resumes of a run, in order, after `trace`. */
  function History(trace: seq<Mark>, g: Group, limit: nat, steps: seq<Step>, g': Group): seq<Mark>
    requires limit >= 1 && Run(g, limit, steps, g')
    decreases |steps|
  {
    if steps == [] then trace
    else History(WithStep(trace, g, steps[0]), Next(g, limit, steps[0]), limit, steps[1..], g')
  }

  lemma {:induction false} HistoryCalm(trace: seq<Mark>, g: Group, limit: nat, steps: seq<Step>, g': Group)
    requires limit >= 1 && Inv(g) && Run(g, limit, steps, g') && Calm(trace) && StallAfter(trace) == g.st.stall
    ensures var marks := History(trace, g, limit, steps, g');
            Calm(marks) && StallAfter(marks) == g'.st.stall
    decreases |steps|
  {
    if steps != [] {
      StepCalm(trace, g, limit, steps[0]);
      StepInv(g, limit, steps[0]);
      HistoryCalm(WithStep(trace, g, steps[0]), Next(g, limit, steps[0]), limit, steps[1..], g');
    }
  }

  lemma StepCalm(trace: seq<Mark>, g: Group, limit: nat, step: Step)
    requires limit >= 1 && Inv(g) && Enabled(g, step) && Calm(trace) && StallAfter(trace) == g.st.stall
    ensures var marks := WithStep(trace, g, step);
            Calm(marks) && StallAfter(marks) == Next(g, limit, step).st.stall
  {
    if step.Record? {
      MarkAppended(trace, Called(g.worker.call));
    } else if step.ResumeGroup? {
      MarkAppended(trace, Resumed);
    }
  }

  /** In every interleaving: the group is stalled exactly when a recorded call stalled since the last
      resume, at that call's clamped report and for its reason; no call is recorded, and none handed
      over, after a recorded stall without a resume between. */
  lemma StallsHeeded(limit: nat, steps: seq<Step>, g: Group)
    requires limit >= 1 && Run(NewGroup(), limit, steps, g)
    ensures var trace := History([], NewGroup(), limit, steps, g);
            && StallExact(g.st.stall, trace) && Heeded(trace)
            && (g.worker.Holding? ==>
                  forall i :: 0 <= i < |trace| && StalledAt(trace, i) ==> ResumedBetween(trace, i, |trace|))
  {
    HistoryCalm([], NewGroup(), limit, steps, g);
    CalmIsExact(History([], NewGroup(), limit, steps, g));
    RunInv(NewGroup(), limit, steps, g);
  }

  // ---------------------------------------------------------------------------
  // The sequential applier is one schedule of this one
  // ---------------------------------------------------------------------------

  lemma {:induction false} BatchesAsSteps(g: Group, h: Handler, limit: nat, tasks: seq<ApplyTask>)
    returns (steps: seq<Step>, g': Group)
    requires limit >= 1 && tasks != [] && g.worker == Holding(tasks)
    ensures Run(g, limit, steps, g') && g'.worker.Resting?
    ensures Progress(g'.st, g'.recorded) == Batches(Progress(g.st, g.recorded), h, limit, tasks)
    decreases |tasks|
  {
    var n := NextBatch(limit, tasks);
    var report := h(g.recorded, tasks[..n]);
    var g1 := Next(g, limit, Call(report));
    var g2 := Next(g1, limit, Record);
    var rest: seq<Step>;
    if report.Stalled? || tasks[n..] == [] {
      rest, g' := [], g2;
    } else {
      rest, g' := BatchesAsSteps(g2, h, limit, tasks[n..]);
    }
    steps := [Call(report)] + ([Record] + rest);
    assert ([Record] + rest)[1..] == rest && steps[1..] == [Record] + rest;
    assert Run(g1, limit, [Record] + rest, g');
  }

  /** A delivery to a resting worker, run without interruption, does exactly what the sequential
      `handle_mail` does, whatever the handler. */
  lemma DeliveryRefines(g: Group, h: Handler, limit: nat, tasks: seq<ApplyTask>)
    returns (steps: seq<Step>, g': Group)
    requires limit >= 1 && g.worker.Resting?
    ensures Run(g, limit, [Deliver(tasks)] + steps, g') && g'.worker.Resting?
    ensures Progress(g'.st, g'.recorded) == Delivered(Progress(g.st, g.recorded), h, limit, tasks)
  {
    var g1 := Next(g, limit, Deliver(tasks));
    if g.st.stall.Some? || tasks == [] {
      steps, g' := [], g;
    } else {
      steps, g' := BatchesAsSteps(g1, h, limit, tasks);
    }
    assert ([Deliver(tasks)] + steps)[1..] == steps;
  }
}
