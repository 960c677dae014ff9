/** The selector protocol cannot get stuck, and no channel waits behind an unbounded number
    of others. */
module SelectorLiveness {
  import opened ChannelSelectors
  import opened SelectorProtocol
  import opened SelectorSafety

  // ---------------------------------------------------------------------------
  // Busy threads can go on
  // ---------------------------------------------------------------------------

  predicate Busy(pc: Pc) {
    !pc.Idle? && !pc.Parked? && !pc.Gone?
  }

  /** A step that carries on an operation under way, and starts nothing. */
  predicate Advances<Mail>(step: Step<Mail>) {
    step.Fire? || step.Recheck? || step.Lock? || step.Consume? || step.Drain?
  }

  /** The channel lock a thread needs for its next step, if any. */
  predicate Wants(pc: Pc, c: nat) {
    (pc.Fetching? || pc.MustDrain?) && pc.todo != [] && pc.todo[0] == c
  }

  lemma WakeExists(threads: seq<Thread>) returns (wake: nat)
    ensures MayWake(threads, wake)
  {
    if u :| 0 <= u < |threads| && threads[u].pc.Parked? {
      wake := u;
    } else {
      wake := |threads|;
    }
  }

  /** A busy thread can take its next step, or wants the lock of a channel some thread is
      consuming, which can. */
  lemma NextStep<Mail>(s: Config<Mail>, t: nat) returns (step: Step<Mail>)
    requires Inv(s) && At(s, t) && Busy(s.threads[t].pc)
    ensures Advances(step) && Enabled(s, step)
    ensures step.t == t || (exists c :: Wants(s.threads[t].pc, c) && HoldsLock(s.threads[step.t].pc, c))
  {
    assert PcFits(s.threads[t], |s.slots|);
    match s.threads[t].pc
    case MustFire(_) =>
      var wake := WakeExists(s.threads);
      step := Step.Fire(t, wake);
    case Woken(_, _) =>
      step := Recheck(t, false);
    case Consuming(_) =>
      step := Step.Consume(t);
    case Fetching(todo) =>
      if u :| 0 <= u < |s.threads| && HoldsLock(s.threads[u].pc, todo[0]) {
        step := Step.Consume(u);
        assert PcFits(s.threads[u], |s.slots|);
        assert Wants(s.threads[t].pc, todo[0]);
      } else {
        step := Step.Lock(t);
      }
    case MustDrain(todo) =>
      if u :| 0 <= u < |s.threads| && HoldsLock(s.threads[u].pc, todo[0]) {
        step := Step.Consume(u);
        assert PcFits(s.threads[u], |s.slots|);
        assert Wants(s.threads[t].pc, todo[0]);
      } else {
        step := Step.Drain(t);
      }
  }

  // ---------------------------------------------------------------------------
  // Operations under way finish
  // ---------------------------------------------------------------------------

  function Weight(pc: Pc): nat {
    match pc
    case MustFire(_) => 6
    case Woken(_, _) => 1
    case Fetching(todo) => 3 * |todo|
    case Consuming(todo) => if todo == [] then 0 else 3 * |todo| - 1
    case MustDrain(todo) => if todo == [] then 0 else 3 * |todo| - 2
    case _ => 0
  }

  function Weights(threads: seq<Thread>): nat {
    if threads == [] then 0 else Weight(threads[0].pc) + Weights(threads[1..])
  }

  /** What is left to do before everything handed out or about to be is finished with. */
  function Work<Mail>(s: Config<Mail>): nat {
    4 * |s.selector.list| + |s.selector.globals| + Weights(s.threads)
  }

  lemma {:induction false} WeightsUpdated(threads: seq<Thread>, t: nat, th: Thread)
    requires t < |threads|
    ensures Weights(threads[t := th]) == Weights(threads) - Weight(threads[t].pc) + Weight(th.pc)
  {
    if t > 0 {
      WeightsUpdated(threads[1..], t - 1, th);
      assert threads[t := th][1..] == threads[1..][t - 1 := th];
    } else {
      assert threads[t := th][1..] == threads[1..];
    }
  }

  lemma MovedWeights<Mail>(s: Config<Mail>, t: nat, pc: Pc)
    requires At(s, t)
    ensures Weights(Moved(s, t, pc).threads) == Weights(s.threads) - Weight(s.threads[t].pc) + Weight(pc)
  {
    WeightsUpdated(s.threads, t, s.threads[t].(pc := pc));
  }

  lemma NotifiedWeights(threads: seq<Thread>, wake: nat)
    ensures Weights(Notified(threads, wake)) <= Weights(threads) + 1
  {
    if wake < |threads| && threads[wake].pc.Parked? {
      WeightsUpdated(threads, wake, Notified(threads, wake)[wake]);
    }
  }

  lemma FireShrinks<Mail>(s: Config<Mail>, t: nat, wake: nat)
    requires Enabled(s, Step.Fire(t, wake))
    ensures Work(FireStep(s, t, wake)) < Work(s)
  {
    var c := s.threads[t].pc.c;
    var threads := if c in s.selector.active then s.threads else Notified(s.threads, wake);
    NotifiedWeights(s.threads, wake);
    WeightsUpdated(threads, t, threads[t].(pc := Idle));
  }

  /** A take leaves less to do by the global mail and by one for each channel handed over. */
  lemma TakeWork<Mail>(s: Config<Mail>, t: nat, limit: nat)
    requires At(s, t)
    ensures Work(Take(s, t, limit)) + Weight(s.threads[t].pc) + |s.selector.globals| + TakeCount(s.selector, limit)
            == Work(s)
  {
    var n := TakeCount(s.selector, limit);
    MovedWeights(s, t, After(s.selector.list[..n]));
  }

  lemma RecheckShrinks<Mail>(s: Config<Mail>, t: nat, expired: bool)
    requires Enabled(s, Recheck(t, expired))
    ensures Work(RecheckStep(s, t, expired)) < Work(s)
  {
    var pc := s.threads[t].pc;
    TakeWork(s, t, pc.limit);
    MovedWeights(s, t, Parked(pc.limit, pc.timed));
  }

  lemma FetchShrinks<Mail>(s: Config<Mail>, step: Step<Mail>)
    requires Enabled(s, step) && (step.Lock? || step.Consume? || step.Drain?)
    ensures Work(Next(s, step)) < Work(s)
  {
    var t := step.t;
    var pc := Next(s, step).threads[t].pc;
    MovedWeights(s, t, pc);
    assert Next(s, step).threads == Moved(s, t, pc).threads;
    assert Weight(pc) < Weight(s.threads[t].pc);
  }

  lemma AdvanceShrinks<Mail>(s: Config<Mail>, step: Step<Mail>)
    requires Advances(step) && Enabled(s, step)
    ensures Work(Next(s, step)) < Work(s)
  {
    match step
    case Fire(t, wake) => FireShrinks(s, t, wake);
    case Recheck(t, expired) => RecheckShrinks(s, t, expired);
    case Lock(t) => FetchShrinks(s, step);
    case Consume(t) => FetchShrinks(s, step);
    case Drain(t) => FetchShrinks(s, step);
  }

  /** A step that gets on with delivery: it carries on an operation under way, or it selects, when
      there is something to select, room for at least one channel. */
  predicate Productive<Mail>(s: Config<Mail>, step: Step<Mail>) {
    Advances(step) || (step.Select? && step.input == [] && step.limit >= 1 && Ready(s.selector))
  }

  lemma ProductiveShrinks<Mail>(s: Config<Mail>, step: Step<Mail>)
    requires Consistent(s.selector) && Productive(s, step) && Enabled(s, step)
    ensures Work(Next(s, step)) < Work(s)
  {
    if step.Select? {
      TakenExact(s.selector, step.limit);
      TakeWork(s, step.t, step.limit);
      assert Next(s, step) == Take(s, step.t, step.limit);
    } else {
      AdvanceShrinks(s, step);
    }
  }

  predicate ProductiveRun<Mail(==)>(s: Config<Mail>, steps: seq<Step<Mail>>, s': Config<Mail>)
    decreases |steps|
  {
    if steps == [] then s == s'
    else Enabled(s, steps[0]) && Productive(s, steps[0]) && ProductiveRun(Next(s, steps[0]), steps[1..], s')
  }

  // ---------------------------------------------------------------------------
  // Everything accepted is delivered
  // ---------------------------------------------------------------------------

  ghost predicate SameAccepted<Mail>(s: Config<Mail>, s': Config<Mail>) {
    && |s'.slots| == |s.slots| && s'.globalSent == s.globalSent
    && forall c :: 0 <= c < |s.slots| ==> s'.slots[c].accepted == s.slots[c].accepted
  }

  ghost predicate SamePresent<Mail>(s: Config<Mail>, s': Config<Mail>) {
    && |s'.threads| == |s.threads|
    && forall t :: 0 <= t < |s.threads| ==> Present(s'.threads[t]) == Present(s.threads[t])
  }

  /** Productive steps accept nothing, and nobody comes or goes. */
  lemma ProductiveKeeps<Mail>(s: Config<Mail>, step: Step<Mail>)
    requires Productive(s, step) && Enabled(s, step)
    ensures SameAccepted(s, Next(s, step)) && SamePresent(s, Next(s, step))
  {
    SlotsKept(s, step);
    ThreadsKept(s, step);
  }

  lemma SlotsKept<Mail>(s: Config<Mail>, step: Step<Mail>)
    requires Productive(s, step) && Enabled(s, step)
    ensures SameAccepted(s, Next(s, step))
  {
  }

  lemma ThreadsKept<Mail>(s: Config<Mail>, step: Step<Mail>)
    requires Productive(s, step) && Enabled(s, step)
    ensures SamePresent(s, Next(s, step))
  {
  }

  lemma WorkerStays<Mail>(s: Config<Mail>, s': Config<Mail>)
    requires SamePresent(s, s') && HasWorker(s)
    ensures HasWorker(s')
  {
    var t :| 0 <= t < |s.threads| && Present(s.threads[t]);
    assert Present(s'.threads[t]);
  }

  /** Every productive run is finite, within a bound known from where it starts. */
  lemma {:induction false} ProductiveRunsEnd<Mail>(s: Config<Mail>, steps: seq<Step<Mail>>, s': Config<Mail>)
    requires Inv(s) && HasWorker(s) && ProductiveRun(s, steps, s')
    ensures |steps| + Work(s') <= Work(s)
    ensures Run(s, steps, s') && Inv(s') && HasWorker(s') && SameAccepted(s, s')
    decreases |steps|
  {
    if steps != [] {
      var m := Next(s, steps[0]);
      ProductiveShrinks(s, steps[0]);
      ProductiveKeeps(s, steps[0]);
      StepInv(s, steps[0]);
      WorkerStays(s, m);
      ProductiveRunsEnd(m, steps[1..], s');
    }
  }

  /** While anything is under way or ready, some productive step is enabled. */
  lemma SomethingToDo<Mail>(s: Config<Mail>) returns (step: Step<Mail>)
    requires Inv(s) && HasWorker(s) && !(Settled(s) && !Ready(s.selector))
    ensures Productive(s, step) && Enabled(s, step)
  {
    if Settled(s) {
      var t :| 0 <= t < |s.threads| && Up(s.threads[t]);
      step := Select(t, [], 1, Now, false);
    } else {
      var t :| 0 <= t < |s.threads| && Busy(s.threads[t].pc);
      step := NextStep(s, t);
    }
  }

  /** No productive step is left. */
  ghost predicate Exhausted<Mail(!new)>(s: Config<Mail>) {
    forall step :: Enabled(s, step) ==> !Productive(s, step)
  }

  /** Every schedule delivers. From every reachable state with a worker, any way of taking
      productive steps ends, and when no more can be taken, every mail accepted so far has been
      delivered, exactly once and in order. */
  lemma EveryScheduleDelivers<Mail(!new)>(s: Config<Mail>, steps: seq<Step<Mail>>, s': Config<Mail>)
    requires Reachable(s) && HasWorker(s) && ProductiveRun(s, steps, s')
    ensures |steps| <= Work(s)
    ensures Exhausted(s') ==>
              && |s'.slots| == |s.slots|
              && (forall c :: 0 <= c < |s.slots| ==> s'.slots[c].delivered == s.slots[c].accepted)
              && s'.globalGot == s.globalSent
  {
    ReachableInv(s);
    ProductiveRunsEnd(s, steps, s');
    if Exhausted(s') {
      if !(Settled(s') && !Ready(s'.selector)) {
        var step := SomethingToDo(s');
        assert false;
      }
      SettledDelivered(s');
    }
  }

  /** And there always is such a schedule. */
  lemma {:induction false} DrainRun<Mail(!new)>(s: Config<Mail>) returns (steps: seq<Step<Mail>>, s': Config<Mail>)
    requires Inv(s) && HasWorker(s)
    ensures ProductiveRun(s, steps, s') && Exhausted(s')
    decreases Work(s)
  {
    if Settled(s) && !Ready(s.selector) {
      return [], s;
    }
    var step := SomethingToDo(s);
    var m := Next(s, step);
    ProductiveShrinks(s, step);
    ProductiveKeeps(s, step);
    StepInv(s, step);
    WorkerStays(s, m);
    var rest;
    rest, s' := DrainRun(m);
    steps := [step] + rest;
    assert steps[1..] == rest;
  }

  // ---------------------------------------------------------------------------
  // Bounded bypass
  // ---------------------------------------------------------------------------

  /** How many channels a step asks for, if it reaches the end of a select. */
  function Asked<Mail>(s: Config<Mail>, step: Step<Mail>): nat
    requires Enabled(s, step)
  {
    match step
    case Select(t, input, limit, patience, expired) =>
      if Waits(Rearranged(s.selector, input), patience, expired) then 0 else limit
    case Recheck(t, expired) =>
      if Ready(s.selector) || (s.threads[t].pc.timed && expired) then s.threads[t].pc.limit else 0
    case _ => 0
  }

  function AskedInAll<Mail(==)>(s: Config<Mail>, steps: seq<Step<Mail>>, s': Config<Mail>): nat
    requires Run(s, steps, s')
    decreases |steps|
  {
    if steps == [] then 0 else Asked(s, steps[0]) + AskedInAll(Next(s, steps[0]), steps[1..], s')
  }

  function StateAt<Mail(==)>(s: Config<Mail>, steps: seq<Step<Mail>>, s': Config<Mail>, j: nat): Config<Mail>
    requires Run(s, steps, s') && j <= |steps|
    decreases |steps|
  {
    if j == 0 then s else StateAt(Next(s, steps[0]), steps[1..], s', j - 1)
  }

  predicate HandsOut<Mail>(s: Config<Mail>, step: Step<Mail>, c: nat) {
    && Enabled(s, step) && (step.Select? || step.Recheck?)
    && var pc := Next(s, step).threads[step.t].pc; pc.Fetching? && c in pc.todo
  }

  lemma TakeMoves<Mail>(s: Config<Mail>, t: nat, limit: nat, k: nat)
    requires Consistent(s.selector) && At(s, t) && k < |s.selector.list|
    ensures var s', c := Take(s, t, limit), s.selector.list[k];
            if limit <= k then k - limit < |s'.selector.list| && s'.selector.list[k - limit] == c
            else s'.threads[t].pc.Fetching? && c in s'.threads[t].pc.todo
  {
    TakenExact(s.selector, limit);
    if limit > k {
      var n := TakeCount(s.selector, limit);
      assert s.selector.list[..n][k] == s.selector.list[k];
    }
  }

  /** The channel at position `k` is handed out by the step, or moves up by exactly what was
      asked for. */
  ghost predicate MovesUp<Mail>(s: Config<Mail>, step: Step<Mail>, k: nat)
    requires Enabled(s, step) && k < |s.selector.list|
  {
    var c, a, list := s.selector.list[k], Asked(s, step), Next(s, step).selector.list;
    if a <= k then k - a < |list| && list[k - a] == c else HandsOut(s, step, c)
  }

  lemma SelectMovesUp<Mail>(s: Config<Mail>, step: Step<Mail>, k: nat)
    requires Consistent(s.selector) && Enabled(s, step) && k < |s.selector.list| && step.Select?
    ensures MovesUp(s, step, k)
  {
    var r := s.(selector := Rearranged(s.selector, step.input));
    RearrangedAppends(s.selector, step.input);
    assert r.selector.list[k] == s.selector.list[k];
    assert Next(s, step) == Take(r, step.t, step.limit);
    TakeMoves(r, step.t, step.limit, k);
  }

  /** Channels fired meanwhile go behind. */
  lemma StepMovesUp<Mail>(s: Config<Mail>, step: Step<Mail>, k: nat)
    requires Consistent(s.selector) && Enabled(s, step) && k < |s.selector.list|
    ensures MovesUp(s, step, k)
  {
    match step
    case Select(_, _, _, _, _) => SelectMovesUp(s, step, k);
    case Recheck(t, expired) => TakeMoves(s, t, s.threads[t].pc.limit, k);
    case Fire(t, wake) => FiredConsistent(s.selector, s.threads[t].pc.c);
    case _ =>
  }

  /** Whatever is fired meanwhile, a channel at position `k` has been handed to a worker by the
      time more than `k` channels have been asked for. */
  lemma {:induction false} BoundedBypass<Mail>(s: Config<Mail>, steps: seq<Step<Mail>>, s': Config<Mail>, k: nat)
    returns (j: nat)
    requires Inv(s) && Run(s, steps, s') && k < |s.selector.list|
    requires AskedInAll(s, steps, s') > k
    ensures j < |steps| && HandsOut(StateAt(s, steps, s', j), steps[j], s.selector.list[k])
    decreases |steps|
  {
    var m := Next(s, steps[0]);
    StepMovesUp(s, steps[0], k);
    StepInv(s, steps[0]);
    if Asked(s, steps[0]) > k {
      j := 0;
    } else {
      var i := BoundedBypass(m, steps[1..], s', k - Asked(s, steps[0]));
      j := i + 1;
    }
  }
}
