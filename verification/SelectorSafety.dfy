/** What every step of the selector protocol keeps, and what follows for every run. */
module SelectorSafety {
  import opened Basics
  import opened MailChannels
  import opened ChannelSelectors
  import opened SelectorProtocol

  // ---------------------------------------------------------------------------
  // The invariant
  // ---------------------------------------------------------------------------

  /** Delivered, then staged, then live is exactly what was accepted, lane by lane. */
  ghost predicate Conserved<Mail>(x: Slot<Mail>) {
    Joined(x.delivered, Joined(x.channel.staged, x.channel.live)) == x.accepted
  }

  ghost predicate SlotSound<Mail>(x: Slot<Mail>) {
    && Conserved(x) && WellCounted(x.channel)
    && 0 <= x.channel.previousCount <= x.channel.selectorTotal
  }

  ghost predicate SlotsSound<Mail>(s: Config<Mail>) {
    forall c :: 0 <= c < |s.slots| ==> SlotSound(s.slots[c])
  }

  ghost predicate GlobalsConserved<Mail>(s: Config<Mail>) {
    s.globalGot + s.selector.globals == s.globalSent
  }

  ghost predicate PcFits(th: Thread, n: nat) {
    match th.pc
    case Idle => true
    case MustFire(c) => c < n
    case Parked(_, _) => th.worker
    case Woken(_, _) => th.worker
    case Fetching(todo) => th.worker && todo != [] && IdsBelow(todo, n)
    case Consuming(todo) => th.worker && todo != [] && IdsBelow(todo, n)
    case MustDrain(todo) => th.worker && todo != [] && IdsBelow(todo, n)
    case Gone => true
  }

  ghost predicate Fits<Mail>(s: Config<Mail>) {
    && IdsBelow(s.selector.list, |s.slots|)
    && forall t :: 0 <= t < |s.threads| ==> PcFits(s.threads[t], |s.slots|)
  }

  /** At most one thread holds a channel's lock. */
  ghost predicate Exclusive<Mail>(s: Config<Mail>) {
    forall t, u, c | 0 <= t < |s.threads| && 0 <= u < |s.threads| ::
      HoldsLock(s.threads[t].pc, c) && HoldsLock(s.threads[u].pc, c) ==> t == u
  }

  function SumCounts<Mail>(slots: seq<Slot<Mail>>): int {
    if slots == [] then 0 else slots[0].channel.previousCount + SumCounts(slots[1..])
  }

  /** The selector's total is the sum of what each channel held at its latest consume. */
  ghost predicate TotalExact<Mail>(s: Config<Mail>) {
    s.selector.total == SumCounts(s.slots)
  }

  /** The thread will still fire or consume the channel. */
  predicate OwesFetch(pc: Pc, c: nat) {
    match pc
    case MustFire(d) => d == c
    case Fetching(todo) => c in todo
    case Consuming(todo) => c in todo
    case MustDrain(todo) => todo != [] && c in todo[1..]
    case _ => false
  }

  predicate OwesDrain(pc: Pc, c: nat) {
    pc.MustDrain? && pc.todo != [] && pc.todo[0] == c
  }

  ghost predicate FetchOwed<Mail>(s: Config<Mail>, c: nat) {
    exists t :: 0 <= t < |s.threads| && OwesFetch(s.threads[t].pc, c)
  }

  ghost predicate DrainOwed<Mail>(s: Config<Mail>, c: nat) {
    exists t :: 0 <= t < |s.threads| && OwesDrain(s.threads[t].pc, c)
  }

  /** Live mail: its channel is active, or a sender is between push and fire, or a worker is
      between select and consume. Staged mail: a worker still owes the drain. */
  ghost predicate CoveredAt<Mail>(s: Config<Mail>, c: nat)
    requires c < |s.slots|
  {
    && (Queued(s.slots[c].channel.live) > 0 ==> c in s.selector.active || FetchOwed(s, c))
    && (Queued(s.slots[c].channel.staged) > 0 ==> DrainOwed(s, c))
  }

  ghost predicate Covered<Mail>(s: Config<Mail>) {
    forall c :: 0 <= c < |s.slots| ==> CoveredAt(s, c)
  }

  predicate Present(th: Thread) {
    th.worker && !th.pc.Gone?
  }

  predicate Up(th: Thread) {
    Present(th) && !th.pc.Parked?
  }

  ghost predicate HasWorker<Mail>(s: Config<Mail>) {
    exists t :: 0 <= t < |s.threads| && Present(s.threads[t])
  }

  ghost predicate SomeoneUp<Mail>(s: Config<Mail>) {
    exists t :: 0 <= t < |s.threads| && Up(s.threads[t])
  }

  /** With work ready, not every worker is asleep. */
  ghost predicate Awake<Mail>(s: Config<Mail>) {
    Ready(s.selector) && HasWorker(s) ==> SomeoneUp(s)
  }

  ghost predicate Inv<Mail>(s: Config<Mail>) {
    && SlotsSound(s) && GlobalsConserved(s) && Fits(s) && Exclusive(s)
    && Consistent(s.selector) && TotalExact(s) && Covered(s) && Awake(s)
  }

  // ---------------------------------------------------------------------------
  // Slots and totals
  // ---------------------------------------------------------------------------

  lemma PushedConserved<Mail>(x: Slot<Mail>, p: Priority, mails: seq<Mail>)
    requires SlotSound(x)
    ensures SlotSound(SlotPushed(x, p, mails))
  {
    WellCountedKept(x.channel, p, mails, 0);
    var l, g, d, i := x.channel.live, x.channel.staged, x.delivered, Index(p);
    assert d[i] + (g[i] + (l[i] + mails)) == (d[i] + (g[i] + l[i])) + mails;
  }

  lemma ConsumedConserved<Mail>(x: Slot<Mail>, total: int)
    requires SlotSound(x) && x.channel.size <= total
    ensures SlotSound(SlotConsumed(x, total))
  {
    WellCountedKept(x.channel, Urgent, [], total);
    var l, g, d := x.channel.live, x.channel.staged, x.delivered;
    assert forall i :: 0 <= i < 3 ==> d[i] + ((g[i] + l[i]) + []) == d[i] + (g[i] + l[i]);
  }

  lemma DrainedConserved<Mail>(x: Slot<Mail>)
    requires SlotSound(x)
    ensures SlotSound(SlotDrained(x))
  {
    WellCountedKept(x.channel, Urgent, [], 0);
    var l, g, d := x.channel.live, x.channel.staged, x.delivered;
    assert forall i :: 0 <= i < 3 ==> (d[i] + g[i]) + ([] + l[i]) == d[i] + (g[i] + l[i]);
  }

  lemma {:induction false} SumUpdated<Mail>(slots: seq<Slot<Mail>>, c: nat, x: Slot<Mail>)
    requires c < |slots|
    ensures SumCounts(slots[c := x])
            == SumCounts(slots) - slots[c].channel.previousCount + x.channel.previousCount
  {
    if c > 0 {
      SumUpdated(slots[1..], c - 1, x);
      assert slots[c := x][1..] == slots[1..][c - 1 := x];
    } else {
      assert slots[c := x][1..] == slots[1..];
    }
  }

  lemma {:induction false} SumAppended<Mail>(slots: seq<Slot<Mail>>, x: Slot<Mail>)
    ensures SumCounts(slots + [x]) == SumCounts(slots) + x.channel.previousCount
  {
    if slots != [] {
      SumAppended(slots[1..], x);
      assert (slots + [x])[1..] == slots[1..] + [x];
    }
  }

  lemma {:induction false} SumAtLeast<Mail>(slots: seq<Slot<Mail>>, c: nat)
    requires c < |slots|
    requires forall d :: 0 <= d < |slots| ==> slots[d].channel.previousCount >= 0
    ensures slots[c].channel.previousCount <= SumCounts(slots)
  {
    SumNonNegative(slots[1..]);
    if c > 0 {
      SumAtLeast(slots[1..], c - 1);
    }
  }

  lemma {:induction false} SumNonNegative<Mail>(slots: seq<Slot<Mail>>)
    requires forall d :: 0 <= d < |slots| ==> slots[d].channel.previousCount >= 0
    ensures SumCounts(slots) >= 0
  {
    if slots != [] {
      SumNonNegative(slots[1..]);
    }
  }

  /** A consume's new total covers what it just counted. */
  lemma TotalCovers<Mail>(s: Config<Mail>, c: nat)
    requires SlotsSound(s) && TotalExact(s) && c < |s.slots|
    ensures s.slots[c].channel.size <= s.selector.total + CountChange(s.slots[c].channel)
  {
    SumAtLeast(s.slots, c);
  }

  // ---------------------------------------------------------------------------
  // Coverage when one thread moves
  // ---------------------------------------------------------------------------

  predicate DebtFree(pc: Pc) {
    pc.Idle? || pc.Parked? || pc.Woken? || pc.Gone?
  }

  /** Every thread but `t` keeps its debts. */
  ghost predicate OthersKept<Mail>(s: Config<Mail>, s': Config<Mail>, t: nat) {
    && |s.threads| <= |s'.threads|
    && forall u :: 0 <= u < |s.threads| && u != t ==>
         s'.threads[u].pc == s.threads[u].pc || (DebtFree(s.threads[u].pc) && DebtFree(s'.threads[u].pc))
  }

  lemma DrainStillOwed<Mail>(s: Config<Mail>, s': Config<Mail>, t: nat, c: nat)
    requires OthersKept(s, s', t) && DrainOwed(s, c)
    ensures DrainOwed(s', c) || (t < |s.threads| && OwesDrain(s.threads[t].pc, c))
  {
  }

  /** Coverage of a channel whose queues did not grow survives a move of `t`, if what was
      active or owed by `t` still is, one way or another. */
  lemma CoverageKept<Mail>(s: Config<Mail>, s': Config<Mail>, t: nat, c: nat)
    requires c < |s.slots| && c < |s'.slots| && CoveredAt(s, c) && OthersKept(s, s', t)
    requires var l := Queued(s'.slots[c].channel.live);
             l > 0 ==>
               && Queued(s.slots[c].channel.live) > 0
               && (c in s.selector.active || (t < |s.threads| && OwesFetch(s.threads[t].pc, c))
                   ==> c in s'.selector.active || FetchOwed(s', c))
    requires var g := Queued(s'.slots[c].channel.staged);
             g > 0 ==>
               && Queued(s.slots[c].channel.staged) > 0
               && (t < |s.threads| && OwesDrain(s.threads[t].pc, c) ==> DrainOwed(s', c))
    ensures CoveredAt(s', c)
  {
  }

  // ---------------------------------------------------------------------------
  // Every step keeps the slots, the counts and the locks in order
  // ---------------------------------------------------------------------------

  ghost predicate Ordered<Mail>(s: Config<Mail>) {
    SlotsSound(s) && GlobalsConserved(s) && Fits(s) && Exclusive(s) && Consistent(s.selector) && TotalExact(s)
  }

  lemma PushOrdered<Mail>(s: Config<Mail>, t: nat, c: nat, p: Priority, mails: seq<Mail>)
    requires Ordered(s) && At(s, t) && c < |s.slots| && s.threads[t].pc.Idle?
    ensures Ordered(Push(s, t, c, p, mails))
  {
    PushedConserved(s.slots[c], p, mails);
    SumUpdated(s.slots, c, SlotPushed(s.slots[c], p, mails));
  }

  lemma RefuseOrdered<Mail>(s: Config<Mail>, c: nat, count: nat)
    requires Ordered(s) && c < |s.slots|
    ensures Ordered(Refuse(s, c, count))
  {
    SumUpdated(s.slots, c, s.slots[c].(channel := Refused(s.slots[c].channel, count)));
  }

  lemma FireOrdered<Mail>(s: Config<Mail>, t: nat, wake: nat)
    requires Ordered(s) && At(s, t) && s.threads[t].pc.MustFire?
    ensures Ordered(FireStep(s, t, wake))
  {
    FiredConsistent(s.selector, s.threads[t].pc.c);
  }

  lemma TakeOrdered<Mail>(s: Config<Mail>, t: nat, limit: nat)
    requires Ordered(s) && At(s, t) && s.threads[t].worker
    ensures Ordered(Take(s, t, limit))
  {
    TakenExact(s.selector, limit);
  }

  lemma RearrangeOrdered<Mail>(s: Config<Mail>, input: seq<nat>)
    requires Ordered(s) && IdsBelow(input, |s.slots|)
    ensures Ordered(s.(selector := Rearranged(s.selector, input)))
  {
    RearrangedAppends(s.selector, input);
    var r := Rearranged(s.selector, input);
    forall i | 0 <= i < |r.list| ensures r.list[i] < |s.slots| {
      assert r.list[i] in r.list;
    }
  }

  lemma ConsumeSlots<Mail>(s: Config<Mail>, t: nat)
    requires SlotsSound(s) && TotalExact(s) && Enabled(s, Step.Consume(t))
    ensures SlotsSound(ConsumeStep(s, t)) && TotalExact(ConsumeStep(s, t))
  {
    var c := s.threads[t].pc.todo[0];
    var total := s.selector.total + CountChange(s.slots[c].channel);
    TotalCovers(s, c);
    ConsumedConserved(s.slots[c], total);
    SumUpdated(s.slots, c, SlotConsumed(s.slots[c], total));
  }

  lemma ConsumeOrdered<Mail>(s: Config<Mail>, t: nat)
    requires Ordered(s) && Enabled(s, Step.Consume(t))
    ensures Ordered(ConsumeStep(s, t))
  {
    ConsumeSlots(s, t);
    assert Fits(ConsumeStep(s, t)) && Exclusive(ConsumeStep(s, t));
  }

  lemma DrainOrdered<Mail>(s: Config<Mail>, t: nat)
    requires Ordered(s) && Enabled(s, Step.Drain(t))
    ensures Ordered(DrainStep(s, t))
  {
    var c := s.threads[t].pc.todo[0];
    DrainedConserved(s.slots[c]);
    SumUpdated(s.slots, c, SlotDrained(s.slots[c]));
  }

  lemma LockOrdered<Mail>(s: Config<Mail>, t: nat)
    requires Ordered(s) && Enabled(s, Step.Lock(t))
    ensures Ordered(Next(s, Step.Lock(t)))
  {
  }

  lemma NewSlotSound<Mail>(limit: nat)
    ensures SlotSound(Slot(NewChannel<Mail>(limit), NoMail(), NoMail()))
  {
    var none: seq<Mail> := [];
    assert none + (none + none) == none;
  }

  lemma AddChannelOrdered<Mail>(s: Config<Mail>, limit: nat)
    requires Ordered(s)
    ensures Ordered(Next(s, AddChannel(limit)))
  {
    NewSlotSound<Mail>(limit);
    SumAppended(s.slots, Slot(NewChannel<Mail>(limit), NoMail(), NoMail()));
  }

  lemma SpawnOrdered<Mail>(s: Config<Mail>, worker: bool)
    requires Ordered(s)
    ensures Ordered(Next(s, Spawn(worker)))
  {
  }

  lemma BroadcastOrdered<Mail>(s: Config<Mail>, mail: Mail, wake: nat)
    requires Ordered(s)
    ensures Ordered(Broadcast(s, mail, wake))
  {
  }

  lemma RestOrdered<Mail>(s: Config<Mail>, t: nat, pc: Pc)
    requires Ordered(s) && At(s, t) && s.threads[t].worker && DebtFree(pc)
    ensures Ordered(Moved(s, t, pc))
  {
  }

  lemma RouseOrdered<Mail>(s: Config<Mail>, t: nat)
    requires Ordered(s) && Enabled(s, Rouse(t))
    ensures Ordered(Next(s, Rouse(t)))
  {
    assert PcFits(s.threads[t], |s.slots|);
    RestOrdered(s, t, Woken(s.threads[t].pc.limit, s.threads[t].pc.timed));
  }

  lemma SelectOrdered<Mail>(s: Config<Mail>, t: nat, input: seq<nat>, limit: nat, patience: Patience, expired: bool)
    requires Ordered(s) && At(s, t) && s.threads[t].worker && IdsBelow(input, |s.slots|)
    ensures Ordered(SelectStep(s, t, input, limit, patience, expired))
  {
    var r := s.(selector := Rearranged(s.selector, input));
    RearrangeOrdered(s, input);
    if Waits(r.selector, patience, expired) {
      RestOrdered(r, t, Parked(limit, patience == Timed));
    } else {
      TakeOrdered(r, t, limit);
    }
  }

  lemma RecheckOrdered<Mail>(s: Config<Mail>, t: nat, expired: bool)
    requires Ordered(s) && Enabled(s, Recheck(t, expired))
    ensures Ordered(RecheckStep(s, t, expired))
  {
    var pc := s.threads[t].pc;
    if Ready(s.selector) || (pc.timed && expired) {
      TakeOrdered(s, t, pc.limit);
    } else {
      RestOrdered(s, t, Parked(pc.limit, pc.timed));
    }
  }

  lemma ExitOrdered<Mail>(s: Config<Mail>, t: nat, mail: Mail, wake: nat)
    requires Ordered(s) && At(s, t) && s.threads[t].worker
    ensures Ordered(Broadcast(Moved(s, t, Gone), mail, wake))
  {
    RestOrdered(s, t, Gone);
    BroadcastOrdered(Moved(s, t, Gone), mail, wake);
  }

  lemma TrySendOrdered<Mail>(s: Config<Mail>, t: nat, c: nat, p: Priority, mails: seq<Mail>)
    requires Ordered(s) && Enabled(s, Step.TrySend(t, c, p, mails))
    ensures Ordered(Next(s, Step.TrySend(t, c, p, mails)))
  {
    if Admits(s.slots[c].channel, |mails|) {
      PushOrdered(s, t, c, p, mails);
    } else {
      RefuseOrdered(s, c, |mails|);
    }
  }

  lemma SenderStepOrdered<Mail>(s: Config<Mail>, step: Step<Mail>)
    requires Ordered(s) && Enabled(s, step)
    requires step.Spawn? || step.AddChannel? || step.Send? || step.TrySend? || step.Fire? || step.SendGlobal?
    ensures Ordered(Next(s, step))
  {
    match step
    case Spawn(worker) => SpawnOrdered(s, worker);
    case AddChannel(limit) => AddChannelOrdered(s, limit);
    case Send(t, c, p, mail) => PushOrdered(s, t, c, p, [mail]);
    case TrySend(t, c, p, mails) => TrySendOrdered(s, t, c, p, mails);
    case Fire(t, wake) => FireOrdered(s, t, wake);
    case SendGlobal(_, mail, wake) => BroadcastOrdered(s, mail, wake);
  }

  lemma WaitStepOrdered<Mail>(s: Config<Mail>, step: Step<Mail>)
    requires Ordered(s) && Enabled(s, step)
    requires step.Select? || step.Rouse? || step.Recheck? || step.Exit?
    ensures Ordered(Next(s, step))
  {
    match step
    case Select(t, input, limit, patience, expired) => SelectOrdered(s, t, input, limit, patience, expired);
    case Rouse(t) => RouseOrdered(s, t);
    case Recheck(t, expired) => RecheckOrdered(s, t, expired);
    case Exit(t, mail, wake) => ExitOrdered(s, t, mail, wake);
  }

  lemma FetchStepOrdered<Mail>(s: Config<Mail>, step: Step<Mail>)
    requires Ordered(s) && Enabled(s, step)
    requires step.Lock? || step.Consume? || step.Drain?
    ensures Ordered(Next(s, step))
  {
    match step
    case Lock(t) => LockOrdered(s, t);
    case Consume(t) => ConsumeOrdered(s, t);
    case Drain(t) => DrainOrdered(s, t);
  }

  lemma StepOrdered<Mail>(s: Config<Mail>, step: Step<Mail>)
    requires Ordered(s) && Enabled(s, step)
    ensures Ordered(Next(s, step))
  {
    if step.Spawn? || step.AddChannel? || step.Send? || step.TrySend? || step.Fire? || step.SendGlobal? {
      SenderStepOrdered(s, step);
    } else if step.Lock? || step.Consume? || step.Drain? {
      FetchStepOrdered(s, step);
    } else {
      WaitStepOrdered(s, step);
    }
  }

  // ---------------------------------------------------------------------------
  // Every step keeps mail covered
  // ---------------------------------------------------------------------------

  lemma OwesNow<Mail>(s: Config<Mail>, t: nat, c: nat)
    requires At(s, t) && OwesFetch(s.threads[t].pc, c)
    ensures FetchOwed(s, c)
  {
  }

  /** A step that leaves the slots alone and gives up no debt of `t`. */
  lemma MoveCovered<Mail>(s: Config<Mail>, s': Config<Mail>, t: nat)
    requires Covered(s) && OthersKept(s, s', t) && s'.slots == s.slots
    requires forall c :: c in s.selector.active || (t < |s.threads| && OwesFetch(s.threads[t].pc, c))
               ==> c in s'.selector.active || FetchOwed(s', c)
    requires t < |s.threads| ==> !s.threads[t].pc.MustDrain?
    ensures Covered(s')
  {
    forall c | 0 <= c < |s'.slots| ensures CoveredAt(s', c) {
      CoverageKept(s, s', t, c);
    }
  }

  lemma PushCovered<Mail>(s: Config<Mail>, t: nat, c: nat, p: Priority, mails: seq<Mail>)
    requires Covered(s) && At(s, t) && c < |s.slots| && s.threads[t].pc.Idle?
    ensures Covered(Push(s, t, c, p, mails))
  {
    var s' := Push(s, t, c, p, mails);
    OwesNow(s', t, c);
    forall d | 0 <= d < |s'.slots| ensures CoveredAt(s', d) {
      if d == c {
        assert CoveredAt(s, c);
        if Queued(s'.slots[c].channel.staged) > 0 {
          DrainStillOwed(s, s', t, c);
        }
      } else {
        CoverageKept(s, s', t, d);
      }
    }
  }

  lemma RefuseCovered<Mail>(s: Config<Mail>, c: nat, count: nat)
    requires Covered(s) && c < |s.slots|
    ensures Covered(Refuse(s, c, count))
  {
    var s' := Refuse(s, c, count);
    forall d | 0 <= d < |s'.slots| ensures CoveredAt(s', d) {
      CoverageKept(s, s', |s.threads|, d);
    }
  }

  lemma FireCovered<Mail>(s: Config<Mail>, t: nat, wake: nat)
    requires Covered(s) && At(s, t) && s.threads[t].pc.MustFire?
    ensures Covered(FireStep(s, t, wake))
  {
    MoveCovered(s, FireStep(s, t, wake), t);
  }

  lemma TakeCovered<Mail>(s: Config<Mail>, t: nat, limit: nat)
    requires Covered(s) && At(s, t) && DebtFree(s.threads[t].pc)
    ensures Covered(Take(s, t, limit))
  {
    var s' := Take(s, t, limit);
    var taken := s.selector.list[..TakeCount(s.selector, limit)];
    forall c | c in s.selector.active ensures c in s'.selector.active || FetchOwed(s', c) {
      if c in taken {
        OwesNow(s', t, c);
      }
    }
    MoveCovered(s, s', t);
  }

  lemma RestCovered<Mail>(s: Config<Mail>, t: nat, pc: Pc)
    requires Covered(s) && At(s, t) && DebtFree(s.threads[t].pc) && DebtFree(pc)
    ensures Covered(Moved(s, t, pc))
  {
    MoveCovered(s, Moved(s, t, pc), t);
  }

  lemma BroadcastCovered<Mail>(s: Config<Mail>, mail: Mail, wake: nat)
    requires Covered(s)
    ensures Covered(Broadcast(s, mail, wake))
  {
    MoveCovered(s, Broadcast(s, mail, wake), |s.threads|);
  }

  lemma LockCovered<Mail>(s: Config<Mail>, t: nat)
    requires Covered(s) && Enabled(s, Step.Lock(t))
    ensures Covered(Next(s, Step.Lock(t)))
  {
    var s' := Next(s, Step.Lock(t));
    forall c | OwesFetch(s.threads[t].pc, c) ensures FetchOwed(s', c) {
      OwesNow(s', t, c);
    }
    MoveCovered(s, s', t);
  }

  lemma ConsumeCovered<Mail>(s: Config<Mail>, t: nat)
    requires Covered(s) && Enabled(s, Step.Consume(t))
    ensures Covered(ConsumeStep(s, t))
  {
    var s' := ConsumeStep(s, t);
    var todo := s.threads[t].pc.todo;
    assert OwesDrain(s'.threads[t].pc, todo[0]);
    forall d | 0 <= d < |s'.slots| ensures CoveredAt(s', d) {
      if d == todo[0] {
        assert Queued(s'.slots[d].channel.live) == 0;
      } else {
        if d in todo {
          assert d in todo[1..];
          OwesNow(s', t, d);
        }
        CoverageKept(s, s', t, d);
      }
    }
  }

  lemma DrainCovered<Mail>(s: Config<Mail>, t: nat)
    requires Covered(s) && Enabled(s, Step.Drain(t))
    ensures Covered(DrainStep(s, t))
  {
    var s' := DrainStep(s, t);
    var todo := s.threads[t].pc.todo;
    forall d | 0 <= d < |s'.slots| ensures CoveredAt(s', d) {
      if d in todo[1..] {
        OwesNow(s', t, d);
      }
      CoverageKept(s, s', t, d);
    }
  }

  lemma RearrangeCovered<Mail>(s: Config<Mail>, input: seq<nat>)
    requires Covered(s) && Consistent(s.selector)
    ensures Covered(s.(selector := Rearranged(s.selector, input)))
  {
    var s' := s.(selector := Rearranged(s.selector, input));
    RearrangedAppends(s.selector, input);
    forall c | c in s.selector.active ensures c in s'.selector.active {
      assert c in s.selector.list && c in s'.selector.list;
    }
    MoveCovered(s, s', |s.threads|);
  }

  lemma AddChannelCovered<Mail>(s: Config<Mail>, limit: nat)
    requires Covered(s)
    ensures Covered(Next(s, AddChannel(limit)))
  {
    var s' := Next(s, AddChannel(limit));
    forall d | 0 <= d < |s'.slots| ensures CoveredAt(s', d) {
      if d < |s.slots| {
        CoverageKept(s, s', |s.threads|, d);
      }
    }
  }

  lemma SelectCovered<Mail>(s: Config<Mail>, t: nat, input: seq<nat>, limit: nat, patience: Patience, expired: bool)
    requires Covered(s) && Consistent(s.selector) && At(s, t) && s.threads[t].pc.Idle?
    ensures Covered(SelectStep(s, t, input, limit, patience, expired))
  {
    var r := s.(selector := Rearranged(s.selector, input));
    RearrangeCovered(s, input);
    if Waits(r.selector, patience, expired) {
      RestCovered(r, t, Parked(limit, patience == Timed));
    } else {
      TakeCovered(r, t, limit);
    }
  }

  lemma RecheckCovered<Mail>(s: Config<Mail>, t: nat, expired: bool)
    requires Covered(s) && Enabled(s, Recheck(t, expired))
    ensures Covered(RecheckStep(s, t, expired))
  {
    var pc := s.threads[t].pc;
    if Ready(s.selector) || (pc.timed && expired) {
      TakeCovered(s, t, pc.limit);
    } else {
      RestCovered(s, t, Parked(pc.limit, pc.timed));
    }
  }

  lemma TrySendCovered<Mail>(s: Config<Mail>, t: nat, c: nat, p: Priority, mails: seq<Mail>)
    requires Covered(s) && Enabled(s, Step.TrySend(t, c, p, mails))
    ensures Covered(Next(s, Step.TrySend(t, c, p, mails)))
  {
    if Admits(s.slots[c].channel, |mails|) {
      PushCovered(s, t, c, p, mails);
    } else {
      RefuseCovered(s, c, |mails|);
    }
  }

  lemma ExitCovered<Mail>(s: Config<Mail>, t: nat, mail: Mail, wake: nat)
    requires Covered(s) && At(s, t) && s.threads[t].pc.Idle?
    ensures Covered(Broadcast(Moved(s, t, Gone), mail, wake))
  {
    RestCovered(s, t, Gone);
    BroadcastCovered(Moved(s, t, Gone), mail, wake);
  }

  lemma SpawnCovered<Mail>(s: Config<Mail>, worker: bool)
    requires Covered(s)
    ensures Covered(Next(s, Spawn(worker)))
  {
    MoveCovered(s, Next(s, Spawn(worker)), |s.threads|);
  }

  lemma StepCovered<Mail>(s: Config<Mail>, step: Step<Mail>)
    requires Covered(s) && Consistent(s.selector) && Enabled(s, step)
    ensures Covered(Next(s, step))
  {
    match step
    case Spawn(worker) => SpawnCovered(s, worker);
    case AddChannel(limit) => AddChannelCovered(s, limit);
    case Send(t, c, p, mail) => PushCovered(s, t, c, p, [mail]);
    case TrySend(t, c, p, mails) => TrySendCovered(s, t, c, p, mails);
    case Fire(t, wake) => FireCovered(s, t, wake);
    case SendGlobal(_, mail, wake) => BroadcastCovered(s, mail, wake);
    case Select(t, input, limit, patience, expired) => SelectCovered(s, t, input, limit, patience, expired);
    case Rouse(t) => RestCovered(s, t, Woken(s.threads[t].pc.limit, s.threads[t].pc.timed));
    case Recheck(t, expired) => RecheckCovered(s, t, expired);
    case Lock(t) => LockCovered(s, t);
    case Consume(t) => ConsumeCovered(s, t);
    case Drain(t) => DrainCovered(s, t);
    case Exit(t, mail, wake) => ExitCovered(s, t, mail, wake);
  }

  // ---------------------------------------------------------------------------
  // Every step keeps somebody awake while there is work
  // ---------------------------------------------------------------------------

  lemma UpNow<Mail>(s: Config<Mail>, t: nat)
    requires At(s, t) && Up(s.threads[t])
    ensures SomeoneUp(s)
  {
  }

  /** After a notification, if any worker is there at all then one is up. */
  lemma NotifyLeavesOneUp<Mail>(s: Config<Mail>, s': Config<Mail>, wake: nat)
    requires Fits(s) && MayWake(s.threads, wake) && s'.threads == Notified(s.threads, wake)
    ensures HasWorker(s') ==> SomeoneUp(s')
  {
    if HasWorker(s') {
      if wake < |s.threads| && s.threads[wake].pc.Parked? {
        assert PcFits(s.threads[wake], |s.slots|);
        UpNow(s', wake);
      } else {
        var t :| 0 <= t < |s'.threads| && Present(s'.threads[t]);
        UpNow(s', t);
      }
    }
  }

  /** A step that adds no work and puts nobody to sleep. */
  lemma AwakeKept<Mail>(s: Config<Mail>, s': Config<Mail>, t: nat)
    requires Awake(s) && At(s, t) && |s'.threads| == |s.threads|
    requires Ready(s'.selector) ==> Ready(s.selector)
    requires forall u :: 0 <= u < |s.threads| && u != t ==> s'.threads[u] == s.threads[u]
    requires Up(s'.threads[t]) == Up(s.threads[t]) && Present(s'.threads[t]) == Present(s.threads[t])
    ensures Awake(s')
  {
  }

  lemma FireAwake<Mail>(s: Config<Mail>, t: nat, wake: nat)
    requires Awake(s) && Fits(s) && Consistent(s.selector) && Enabled(s, Step.Fire(t, wake))
    ensures Awake(FireStep(s, t, wake))
  {
    var s' := FireStep(s, t, wake);
    var c := s.threads[t].pc.c;
    if c in s.selector.active {
      assert c in s.selector.list;
      AwakeKept(s, s', t);
    } else {
      var m := s.(threads := Notified(s.threads, wake));
      NotifyLeavesOneUp(s, m, wake);
      if HasWorker(s') {
        var v :| 0 <= v < |s'.threads| && Present(s'.threads[v]);
        assert Present(m.threads[v]);
        var u :| 0 <= u < |m.threads| && Up(m.threads[u]);
        UpNow(s', u);
      }
    }
  }

  lemma BroadcastAwake<Mail>(s: Config<Mail>, mail: Mail, wake: nat)
    requires Fits(s) && MayWake(s.threads, wake)
    ensures Awake(Broadcast(s, mail, wake))
  {
    NotifyLeavesOneUp(s, Broadcast(s, mail, wake), wake);
  }

  lemma TakeAwake<Mail>(s: Config<Mail>, t: nat, limit: nat)
    requires At(s, t) && s.threads[t].worker
    ensures Awake(Take(s, t, limit))
  {
    UpNow(Take(s, t, limit), t);
  }

  lemma SelectAwake<Mail>(s: Config<Mail>, t: nat, input: seq<nat>, limit: nat, patience: Patience, expired: bool)
    requires At(s, t) && s.threads[t].worker
    ensures Awake(SelectStep(s, t, input, limit, patience, expired))
  {
    var r := s.(selector := Rearranged(s.selector, input));
    if !Waits(r.selector, patience, expired) {
      TakeAwake(r, t, limit);
    }
  }

  lemma RecheckAwake<Mail>(s: Config<Mail>, t: nat, expired: bool)
    requires Fits(s) && Enabled(s, Recheck(t, expired))
    ensures Awake(RecheckStep(s, t, expired))
  {
    assert PcFits(s.threads[t], |s.slots|);
    var pc := s.threads[t].pc;
    if Ready(s.selector) || (pc.timed && expired) {
      TakeAwake(s, t, pc.limit);
    }
  }

  lemma RouseAwake<Mail>(s: Config<Mail>, t: nat)
    requires Fits(s) && Enabled(s, Rouse(t))
    ensures Awake(Next(s, Rouse(t)))
  {
    assert PcFits(s.threads[t], |s.slots|);
    UpNow(Next(s, Rouse(t)), t);
  }

  lemma SpawnAwake<Mail>(s: Config<Mail>, worker: bool)
    requires Awake(s)
    ensures Awake(Next(s, Spawn(worker)))
  {
    var s' := Next(s, Spawn(worker));
    if Ready(s'.selector) && HasWorker(s') {
      if worker {
        UpNow(s', |s.threads|);
      } else {
        var v :| 0 <= v < |s'.threads| && Present(s'.threads[v]);
        assert Present(s.threads[v]);
        var u :| 0 <= u < |s.threads| && Up(s.threads[u]);
        UpNow(s', u);
      }
    }
  }

  lemma ExitAwake<Mail>(s: Config<Mail>, t: nat, mail: Mail, wake: nat)
    requires Ordered(s) && Enabled(s, Step.Exit(t, mail, wake))
    ensures Awake(Broadcast(Moved(s, t, Gone), mail, wake))
  {
    RestOrdered(s, t, Gone);
    BroadcastAwake(Moved(s, t, Gone), mail, wake);
  }

  lemma WorkAwake<Mail>(s: Config<Mail>, step: Step<Mail>)
    requires Awake(s) && Enabled(s, step)
    requires step.Send? || step.TrySend? || step.Lock? || step.Consume? || step.Drain?
    ensures Awake(Next(s, step))
  {
    AwakeKept(s, Next(s, step), step.t);
  }

  lemma StepAwake<Mail>(s: Config<Mail>, step: Step<Mail>)
    requires Awake(s) && Ordered(s) && Enabled(s, step)
    ensures Awake(Next(s, step))
  {
    match step
    case Spawn(worker) => SpawnAwake(s, worker);
    case AddChannel(limit) =>
    case Send(_, _, _, _) => WorkAwake(s, step);
    case TrySend(_, _, _, _) => WorkAwake(s, step);
    case Fire(t, wake) => FireAwake(s, t, wake);
    case SendGlobal(_, mail, wake) => BroadcastAwake(s, mail, wake);
    case Select(t, input, limit, patience, expired) => SelectAwake(s, t, input, limit, patience, expired);
    case Rouse(t) => RouseAwake(s, t);
    case Recheck(t, expired) => RecheckAwake(s, t, expired);
    case Lock(_) => WorkAwake(s, step);
    case Consume(_) => WorkAwake(s, step);
    case Drain(_) => WorkAwake(s, step);
    case Exit(t, mail, wake) => ExitAwake(s, t, mail, wake);
  }

  lemma SameThreads<Mail>(s: Config<Mail>, step: Step<Mail>)
    requires Poised(s, step)
    ensures |Next(s, step).threads| == |s.threads| + if step.Spawn? then 1 else 0
    ensures |Next(s, step).slots| >= |s.slots|
  {
  }

  // ---------------------------------------------------------------------------
  // Every run
  // ---------------------------------------------------------------------------

  lemma InitInv<Mail>()
    ensures Inv(Init<Mail>())
  {
  }

  lemma StepInv<Mail>(s: Config<Mail>, step: Step<Mail>)
    requires Inv(s) && Enabled(s, step)
    ensures Inv(Next(s, step))
  {
    StepOrdered(s, step);
    StepCovered(s, step);
    StepAwake(s, step);
  }

  lemma {:induction false} RunInv<Mail>(s: Config<Mail>, steps: seq<Step<Mail>>, s': Config<Mail>)
    requires Inv(s) && Run(s, steps, s')
    ensures Inv(s')
    decreases |steps|
  {
    if steps != [] {
      StepInv(s, steps[0]);
      RunInv(Next(s, steps[0]), steps[1..], s');
    }
  }

  ghost predicate Reachable<Mail(!new)>(s: Config<Mail>) {
    exists steps :: Run(Init(), steps, s)
  }

  lemma ReachableInv<Mail(!new)>(s: Config<Mail>)
    requires Reachable(s)
    ensures Inv(s)
  {
    var steps :| Run(Init(), steps, s);
    InitInv<Mail>();
    RunInv(Init(), steps, s);
  }

  /** In every interleaving, for each channel and priority, what has been delivered, then what
      is staged, then what is live is exactly what was accepted, in order: nothing is lost,
      duplicated or reordered. The same holds of the global mail. */
  lemma NothingLost<Mail(!new)>(s: Config<Mail>, c: nat, p: Priority)
    requires Reachable(s) && c < |s.slots|
    ensures var x := s.slots[c]; var i := Index(p);
            x.delivered[i] + (x.channel.staged[i] + x.channel.live[i]) == x.accepted[i]
    ensures s.globalGot + s.selector.globals == s.globalSent
  {
    ReachableInv(s);
    assert SlotSound(s.slots[c]);
  }

  /** Nobody is mid-operation. */
  predicate Settled<Mail>(s: Config<Mail>) {
    forall t :: 0 <= t < |s.threads| ==> s.threads[t].pc.Idle? || s.threads[t].pc.Parked? || s.threads[t].pc.Gone?
  }

  lemma SettledDelivered<Mail>(s: Config<Mail>)
    requires Inv(s) && Settled(s) && !Ready(s.selector)
    ensures forall c :: 0 <= c < |s.slots| ==> s.slots[c].delivered == s.slots[c].accepted
    ensures s.globalGot == s.globalSent
  {
    forall c | 0 <= c < |s.slots| ensures s.slots[c].delivered == s.slots[c].accepted {
      var x := s.slots[c];
      assert SlotSound(x) && CoveredAt(s, c);
      assert !FetchOwed(s, c) && !DrainOwed(s, c);
      assert forall i :: 0 <= i < 3 ==> x.channel.staged[i] == [] && x.channel.live[i] == [];
      assert forall i :: 0 <= i < 3 ==> x.delivered[i] + ([] + []) == x.delivered[i];
    }
  }

  /** When nobody is mid-operation and the selector has nothing ready, every accepted mail has
      been delivered, exactly once and in order. */
  lemma NothingStranded<Mail(!new)>(s: Config<Mail>)
    requires Reachable(s) && Settled(s) && !Ready(s.selector)
    ensures forall c :: 0 <= c < |s.slots| ==> s.slots[c].delivered == s.slots[c].accepted
    ensures s.globalGot == s.globalSent
  {
    ReachableInv(s);
    SettledDelivered(s);
  }

  /** A batch no larger than the limit is refused only while the channel is already active,
      or somebody is on the way to fire or fetch it. */
  lemma RefusalIsOwedADrain<Mail(!new)>(s: Config<Mail>, c: nat, count: nat)
    requires Reachable(s) && c < |s.slots|
    requires count <= s.slots[c].channel.limit && !Admits(s.slots[c].channel, count)
    ensures c in s.selector.active || FetchOwed(s, c)
  {
    ReachableInv(s);
    assert SlotSound(s.slots[c]) && CoveredAt(s, c);
    RefusedOnlyWhenQueued(s.slots[c].channel, count);
  }

  /** No wakeup is lost, across fires, global mail, limits, timeouts and departures. */
  lemma NoLostWakeup<Mail(!new)>(s: Config<Mail>)
    requires Reachable(s) && Ready(s.selector) && HasWorker(s)
    ensures SomeoneUp(s)
  {
    ReachableInv(s);
  }

  /** The selector's total is never negative, nor is any channel's copy of it. */
  lemma TotalsNonNegative<Mail(!new)>(s: Config<Mail>)
    requires Reachable(s)
    ensures s.selector.total == SumCounts(s.slots) >= 0
    ensures forall c :: 0 <= c < |s.slots| ==> 0 <= s.slots[c].channel.previousCount <= s.slots[c].channel.selectorTotal
  {
    ReachableInv(s);
    assert forall c :: 0 <= c < |s.slots| ==> SlotSound(s.slots[c]);
    SumNonNegative(s.slots);
  }

  /** Live mail always has its channel active, a sender on the way to fire it or a worker on the
      way to fetch it; staged mail always has a worker that still owes the drain. */
  lemma AlwaysOwed<Mail(!new)>(s: Config<Mail>, c: nat)
    requires Reachable(s) && c < |s.slots|
    ensures Queued(s.slots[c].channel.live) > 0 ==> c in s.selector.active || FetchOwed(s, c)
    ensures Queued(s.slots[c].channel.staged) > 0 ==> DrainOwed(s, c)
  {
    ReachableInv(s);
    assert CoveredAt(s, c);
  }

  // ---------------------------------------------------------------------------
  // Admission over whole runs
  // ---------------------------------------------------------------------------

  function Accepted<Mail>(s: Config<Mail>, c: nat): nat {
    if c < |s.slots| then Queued(s.slots[c].accepted) else 0
  }

  function Rejected<Mail>(s: Config<Mail>, c: nat): nat {
    if c < |s.slots| then s.slots[c].channel.rejected else 0
  }

  /** How many mails the step offers the channel. */
  function OfferedBy<Mail>(step: Step<Mail>, c: nat): nat {
    match step
    case Send(_, d, _, _) => if d == c then 1 else 0
    case TrySend(_, d, _, mails) => if d == c then |mails| else 0
    case _ => 0
  }

  /** How many of them it turns away. */
  function RefusedBy<Mail>(s: Config<Mail>, step: Step<Mail>, c: nat): nat {
    if step.TrySend? && step.c == c < |s.slots| && !Admits(s.slots[c].channel, |step.mails|) then |step.mails| else 0
  }

  function Offered<Mail>(steps: seq<Step<Mail>>, c: nat): nat {
    if steps == [] then 0 else OfferedBy(steps[0], c) + Offered(steps[1..], c)
  }

  function RefusedIn<Mail(==)>(s: Config<Mail>, steps: seq<Step<Mail>>, s': Config<Mail>, c: nat): nat
    requires Run(s, steps, s')
    decreases |steps|
  {
    if steps == [] then 0 else RefusedBy(s, steps[0], c) + RefusedIn(Next(s, steps[0]), steps[1..], s', c)
  }

  lemma StepAccounted<Mail>(s: Config<Mail>, step: Step<Mail>, c: nat)
    requires Enabled(s, step)
    ensures Accepted(Next(s, step), c) + RefusedBy(s, step, c) == Accepted(s, c) + OfferedBy(step, c)
    ensures Rejected(s, c) <= U64_MAX ==>
              Rejected(Next(s, step), c) == Min(Rejected(s, c) + RefusedBy(s, step, c), U64_MAX)
  {
  }

  lemma {:induction false} RunOffers<Mail>(s: Config<Mail>, steps: seq<Step<Mail>>, s': Config<Mail>, c: nat)
    requires Run(s, steps, s')
    ensures Accepted(s', c) + RefusedIn(s, steps, s', c) == Accepted(s, c) + Offered(steps, c)
    decreases |steps|
  {
    if steps != [] {
      StepAccounted(s, steps[0], c);
      RunOffers(Next(s, steps[0]), steps[1..], s', c);
    }
  }

  lemma {:induction false} RunRefusals<Mail>(s: Config<Mail>, steps: seq<Step<Mail>>, s': Config<Mail>, c: nat)
    requires Run(s, steps, s') && Rejected(s, c) <= U64_MAX
    ensures Rejected(s', c) == Min(Rejected(s, c) + RefusedIn(s, steps, s', c), U64_MAX)
    decreases |steps|
  {
    if steps != [] {
      StepAccounted(s, steps[0], c);
      RunRefusals(Next(s, steps[0]), steps[1..], s', c);
    }
  }

  /** Over every run, whatever is sent, fetched or drained in between: what was accepted and what
      was refused add up to what was offered, the counter holds exactly what was refused, up to
      where it saturates, and the depth is the live mail. */
  lemma OffersAccounted<Mail>(steps: seq<Step<Mail>>, s: Config<Mail>, c: nat)
    requires Run(Init(), steps, s) && c < |s.slots|
    ensures var x, refused := s.slots[c], RefusedIn(Init(), steps, s, c);
            && Queued(x.accepted) + refused == Offered(steps, c)
            && x.channel.rejected == Min(refused, U64_MAX)
            && x.channel.size == Queued(x.channel.live)
    ensures Offered(steps, c) <= U64_MAX ==>
              Queued(s.slots[c].accepted) + s.slots[c].channel.rejected == Offered(steps, c)
  {
    RunOffers(Init(), steps, s, c);
    RunRefusals(Init(), steps, s, c);
    InitInv<Mail>();
    RunInv(Init(), steps, s);
    assert SlotSound(s.slots[c]);
  }

  // ---------------------------------------------------------------------------
  // Copies of the total
  // ---------------------------------------------------------------------------

  predicate ConsumesAt<Mail>(s: Config<Mail>, step: Step<Mail>, c: nat) {
    step.Consume? && Enabled(s, step) && s.threads[step.t].pc.todo[0] == c
  }

  /** No step of the run consumes the channel. */
  predicate NeverConsumes<Mail(==)>(s: Config<Mail>, steps: seq<Step<Mail>>, s': Config<Mail>, c: nat)
    requires Run(s, steps, s')
    decreases |steps|
  {
    steps == [] || (!ConsumesAt(s, steps[0], c) && NeverConsumes(Next(s, steps[0]), steps[1..], s', c))
  }

  lemma CopyKept<Mail>(s: Config<Mail>, step: Step<Mail>, c: nat)
    requires Enabled(s, step) && c < |s.slots| && !ConsumesAt(s, step, c)
    ensures c < |Next(s, step).slots|
    ensures Next(s, step).slots[c].channel.selectorTotal == s.slots[c].channel.selectorTotal
    ensures Next(s, step).slots[c].channel.previousCount == s.slots[c].channel.previousCount
  {
  }

  lemma {:induction false} CopyKeptAlong<Mail>(s: Config<Mail>, steps: seq<Step<Mail>>, s': Config<Mail>, c: nat)
    requires Run(s, steps, s') && c < |s.slots| && NeverConsumes(s, steps, s', c)
    ensures c < |s'.slots| && s'.slots[c].channel.selectorTotal == s.slots[c].channel.selectorTotal
    ensures s'.slots[c].channel.previousCount == s.slots[c].channel.previousCount
    decreases |steps|
  {
    if steps != [] {
      CopyKept(s, steps[0], c);
      CopyKeptAlong(Next(s, steps[0]), steps[1..], s', c);
    }
  }

  /** A channel's share of the total is the live mail its latest consume found, and its copy of the
      total is the selector's total as of then, whatever other channels have consumed since. */
  lemma CopyIsTotalAtLastConsume<Mail>(s: Config<Mail>, t: nat, steps: seq<Step<Mail>>, s': Config<Mail>)
    requires Enabled(s, Step.Consume(t)) && Run(ConsumeStep(s, t), steps, s')
    requires NeverConsumes(ConsumeStep(s, t), steps, s', s.threads[t].pc.todo[0])
    ensures var c := s.threads[t].pc.todo[0];
            && c < |s'.slots| && s'.slots[c].channel.selectorTotal == ConsumeStep(s, t).selector.total
            && (Inv(s) ==> s'.slots[c].channel.previousCount == Queued(s.slots[c].channel.live))
  {
    assert Inv(s) ==> SlotSound(s.slots[s.threads[t].pc.todo[0]]);
    CopyKeptAlong(ConsumeStep(s, t), steps, s', s.threads[t].pc.todo[0]);
  }

  // ---------------------------------------------------------------------------
  // Two workers can be inside a fetch of one channel
  // ---------------------------------------------------------------------------

  lemma {:induction false} RunExtended<Mail>(s: Config<Mail>, steps: seq<Step<Mail>>, s': Config<Mail>, step: Step<Mail>)
    requires Run(s, steps, s') && Enabled(s', step)
    ensures Run(s, steps + [step], Next(s', step))
    decreases |steps|
  {
    if steps == [] {
      assert steps + [step] == [step];
    } else {
      RunExtended(Next(s, steps[0]), steps[1..], s', step);
      assert (steps + [step])[1..] == steps[1..] + [step];
    }
  }

  lemma ReachableNext<Mail(!new)>(s: Config<Mail>, step: Step<Mail>)
    requires Reachable(s) && Enabled(s, step)
    ensures Reachable(Next(s, step))
  {
    var steps :| Run(Init(), steps, s);
    RunExtended(Init(), steps, s, step);
  }

  predicate AllIdleOrDraining<Mail>(s: Config<Mail>) {
    forall u :: 0 <= u < |s.threads| ==> s.threads[u].pc.Idle? || s.threads[u].pc.MustDrain?
  }

  lemma PushAndFire<Mail(!new)>(s: Config<Mail>, sender: nat, c: nat, mail: Mail) returns (s': Config<Mail>)
    requires Reachable(s) && AllIdleOrDraining(s) && s.selector.list == [] && s.selector.active == {}
    requires sender < |s.threads| && s.threads[sender].pc.Idle? && c < |s.slots|
    ensures Reachable(s') && s'.threads == s.threads && s'.selector.list == [c] && s'.selector.active == {c}
    ensures s'.slots == s.slots[c := SlotPushed(s.slots[c], Normal, [mail])]
  {
    var s1 := Next(s, Send(sender, c, Normal, mail));
    ReachableNext(s, Send(sender, c, Normal, mail));
    s' := Next(s1, Fire(sender, 0));
    ReachableNext(s1, Fire(sender, 0));
    assert s'.threads == s.threads;
  }

  lemma SelectAndConsume<Mail(!new)>(s: Config<Mail>, w: nat, c: nat) returns (s': Config<Mail>)
    requires Reachable(s) && AllIdleOrDraining(s) && s.selector.list == [c] && s.selector.active == {c}
    requires w < |s.threads| && s.threads[w] == Thread(true, Idle) && c < |s.slots|
    ensures Reachable(s') && s'.threads == s.threads[w := Thread(true, MustDrain([c]))]
    ensures s'.selector.list == [] && s'.selector.active == {} && |s'.slots| == |s.slots|
    ensures s'.slots[c].channel.staged == Joined(s.slots[c].channel.staged, s.slots[c].channel.live)
    ensures s'.slots[c].channel.live == NoMail()
  {
    var s1 := Next(s, Select(w, [], 1, Now, false));
    ReachableNext(s, Select(w, [], 1, Now, false));
    assert TakeCount(s.selector, 1) == 1 && s.selector.list[..1] == [c];
    assert s1.threads[w].pc == Fetching([c]);
    var s2 := Next(s1, Lock(w));
    ReachableNext(s1, Lock(w));
    s' := Next(s2, Consume(w));
    ReachableNext(s2, Consume(w));
    assert s'.threads == s.threads[w := Thread(true, MustDrain([c]))];
  }

  lemma TwoWorkersStart<Mail(!new)>() returns (s: Config<Mail>)
    ensures Reachable(s) && s.threads == [Thread(true, Idle), Thread(true, Idle), Thread(false, Idle)]
    ensures s.slots == [Slot(NewChannel(8), NoMail(), NoMail())] && s.selector == NewSelector()
  {
    assert Run(Init<Mail>(), [], Init());
    var s1 := Next(Init<Mail>(), Spawn(true));
    ReachableNext(Init<Mail>(), Spawn(true));
    var s2 := Next(s1, Spawn(true));
    ReachableNext(s1, Spawn(true));
    var s3 := Next(s2, Spawn(false));
    ReachableNext(s2, Spawn(false));
    s := Next(s3, AddChannel(8));
    ReachableNext(s3, AddChannel(8));
  }

  lemma OneWorkerHolds<Mail(!new)>(first: Mail) returns (s: Config<Mail>)
    ensures Reachable(s) && s.selector.list == [] && s.selector.active == {} && |s.slots| == 1
    ensures s.threads == [Thread(true, MustDrain([0])), Thread(true, Idle), Thread(false, Idle)]
    ensures s.slots[0].channel.staged[1] == [first] && s.slots[0].channel.live == NoMail()
  {
    var s0 := TwoWorkersStart<Mail>();
    var s1 := PushAndFire(s0, 2, 0, first);
    s := SelectAndConsume(s1, 0, 0);
  }

  /** The case a consume must append for: one worker has staged mail it has not drained when a
      second consumes the same channel. Both pieces of mail are staged, in order. */
  lemma TwoWorkersInOneFetch<Mail(!new)>(first: Mail, second: Mail)
    ensures exists s: Config<Mail> ::
              && Reachable(s) && |s.threads| > 1 && |s.slots| > 0
              && OwesDrain(s.threads[0].pc, 0) && OwesDrain(s.threads[1].pc, 0)
              && s.slots[0].channel.staged[1] == [first, second]
  {
    var s := OneWorkerHolds(first);
    var s1 := PushAndFire(s, 2, 0, second);
    var s2 := SelectAndConsume(s1, 1, 0);
    assert s2.slots[0].channel.staged[1] == [first] + [second];
  }
}
