/** The selector protocol with both kinds of lock explicit: a thread wants a lock, acquires it when
    nobody holds it, and acts and releases it in a later step. A thread fetching a channel keeps the
    channel's lock while it wants, acquires and uses the selector's.

    Making the locks visible reaches exactly the same states of the protocol, so its theorems hold
    here too; and no threads ever wait for each other in a cycle. */
module SelectorLocks {
  import opened Basics
  import opened MailChannels
  import opened SelectorProtocol
  import opened SelectorSafety
  import opened SelectorLiveness

  /** A thread's dealings with the lock of its next section. */
  datatype Local = Quiet | Waiting(lock: Mutex) | Holding(lock: Mutex)

  datatype Machine<Mail> = Machine(base: Config<Mail>, locals: seq<Local>)

  datatype Move<Mail> =
    | Want(t: nat, lock: Mutex)
    | Acquire(t: nat)
    | Act(step: Step<Mail>)                 // under the lock, which is then released

  function Start<Mail>(): Machine<Mail> {
    Machine(Init(), [])
  }

  /** The thread may next enter a section under the lock. */
  predicate Opens(pc: Pc, lock: Mutex, n: nat) {
    match pc
    case Idle => lock.OfSelector? || lock.c < n
    case MustFire(_) => lock.OfSelector?
    case Woken(_, _) => lock.OfSelector?
    case Fetching(todo) => todo != [] && lock == OfChannel(todo[0])
    case Consuming(_) => lock.OfSelector?
    case MustDrain(todo) => todo != [] && lock == OfChannel(todo[0])
    case Parked(_, _) => false
    case Gone => false
  }

  predicate There<Mail>(m: Machine<Mail>, t: nat) {
    t < |m.locals| && t < |m.base.threads|
  }

  predicate Holds<Mail>(m: Machine<Mail>, t: nat, lock: Mutex)
    requires There(m, t)
  {
    m.locals[t] == Holding(lock) || (lock.OfChannel? && HoldsLock(m.base.threads[t].pc, lock.c))
  }

  predicate Held<Mail>(m: Machine<Mail>, lock: Mutex) {
    exists u :: 0 <= u < |m.locals| && There(m, u) && Holds(m, u, lock)
  }

  predicate CanMove<Mail>(m: Machine<Mail>, move: Move<Mail>) {
    match move
    case Want(t, lock) => There(m, t) && m.locals[t].Quiet? && Opens(m.base.threads[t].pc, lock, |m.base.slots|)
    case Acquire(t) => There(m, t) && m.locals[t].Waiting? && !Held(m, m.locals[t].lock)
    case Act(step) =>
      Poised(m.base, step)
      && match Takes(m.base, step)
         case None => true
         case Some(lock) => step.t < |m.locals| && m.locals[step.t] == Holding(lock)
  }

  function Perform<Mail>(m: Machine<Mail>, move: Move<Mail>): Machine<Mail>
    requires CanMove(m, move)
  {
    match move
    case Want(t, lock) => m.(locals := m.locals[t := Waiting(lock)])
    case Acquire(t) => m.(locals := m.locals[t := Holding(m.locals[t].lock)])
    case Act(step) =>
      Machine(Next(m.base, step),
              if step.Spawn? then m.locals + [Quiet]
              else if Takes(m.base, step).None? then m.locals
              else m.locals[step.t := Quiet])
  }

  predicate Moves<Mail(==)>(m: Machine<Mail>, moves: seq<Move<Mail>>, m': Machine<Mail>)
    decreases |moves|
  {
    if moves == [] then m == m'
    else CanMove(m, moves[0]) && Moves(Perform(m, moves[0]), moves[1..], m')
  }

  ghost predicate Reached<Mail(!new)>(m: Machine<Mail>) {
    exists moves :: Moves(Start(), moves, m)
  }

  // ---------------------------------------------------------------------------
  // The invariant
  // ---------------------------------------------------------------------------

  /** What a thread waits for or holds is what its next section needs. */
  ghost predicate Fitting<Mail>(m: Machine<Mail>) {
    && |m.locals| == |m.base.threads|
    && forall t :: 0 <= t < |m.locals| ==>
         m.locals[t].Quiet? || Opens(m.base.threads[t].pc, m.locals[t].lock, |m.base.slots|)
  }

  ghost predicate OneHolder<Mail>(m: Machine<Mail>)
    requires |m.locals| == |m.base.threads|
  {
    forall t, u, lock | 0 <= t < |m.locals| && 0 <= u < |m.locals| ::
      Holds(m, t, lock) && Holds(m, u, lock) ==> t == u
  }

  ghost predicate LocksInv<Mail>(m: Machine<Mail>) {
    Fitting(m) && OneHolder(m)
  }

  /** Holding the lock is what the protocol's step asks for. */
  lemma ActEnabled<Mail>(m: Machine<Mail>, step: Step<Mail>)
    requires LocksInv(m) && CanMove(m, Act(step))
    ensures Enabled(m.base, step)
  {
    var l := Takes(m.base, step);
    if l.Some? && l.value.OfChannel? && Locked(m.base, l.value.c) {
      var u :| 0 <= u < |m.base.threads| && HoldsLock(m.base.threads[u].pc, l.value.c);
      assert Holds(m, u, l.value) && Holds(m, step.t, l.value);
    }
  }

  /** The thread whose step it is. */
  predicate Owns<Mail>(step: Step<Mail>, t: nat) {
    !step.Spawn? && !step.AddChannel? && step.t == t
  }

  /** A step leaves the other threads where they are, except that it may wake one. */
  lemma OthersStay<Mail>(s: Config<Mail>, step: Step<Mail>, u: nat)
    requires Poised(s, step) && At(s, u) && !Owns(step, u)
    ensures var s' := Next(s, step);
            && At(s', u)
            && (s'.threads[u].pc == s.threads[u].pc || (s.threads[u].pc.Parked? && s'.threads[u].pc.Woken?))
  {
  }

  /** Only locking a channel leaves its lock held. */
  lemma OwnerReleases<Mail>(s: Config<Mail>, step: Step<Mail>, t: nat, c: nat)
    requires Poised(s, step) && At(s, t) && Owns(step, t) && !step.Lock?
    ensures At(Next(s, step), t) && !HoldsLock(Next(s, step).threads[t].pc, c)
  {
  }

  lemma ActHolds<Mail>(m: Machine<Mail>, step: Step<Mail>, t: nat, lock: Mutex)
    requires LocksInv(m) && CanMove(m, Act(step)) && There(Perform(m, Act(step)), t)
    requires Holds(Perform(m, Act(step)), t, lock)
    ensures There(m, t) && Holds(m, t, lock)
  {
    if t < |m.locals| && !Owns(step, t) {
      OthersStay(m.base, step, t);
    } else if t < |m.locals| && !step.Lock? && lock.OfChannel? {
      OwnerReleases(m.base, step, t, lock.c);
    }
  }

  lemma ActFits<Mail>(m: Machine<Mail>, step: Step<Mail>)
    requires LocksInv(m) && CanMove(m, Act(step))
    ensures Fitting(Perform(m, Act(step)))
  {
    var m' := Perform(m, Act(step));
    SameThreads(m.base, step);
    forall t | 0 <= t < |m'.locals|
      ensures m'.locals[t].Quiet? || Opens(m'.base.threads[t].pc, m'.locals[t].lock, |m'.base.slots|)
    {
      if t < |m.locals| && !Owns(step, t) {
        OthersStay(m.base, step, t);
      }
    }
  }

  lemma MoveKeeps<Mail>(m: Machine<Mail>, move: Move<Mail>)
    requires LocksInv(m) && CanMove(m, move)
    ensures LocksInv(Perform(m, move))
  {
    var m' := Perform(m, move);
    if move.Act? {
      ActFits(m, move.step);
      forall t, u, lock | 0 <= t < |m'.locals| && 0 <= u < |m'.locals| && Holds(m', t, lock) && Holds(m', u, lock)
        ensures t == u
      {
        ActHolds(m, move.step, t, lock);
        ActHolds(m, move.step, u, lock);
      }
    } else {
      forall t, u, lock | 0 <= t < |m'.locals| && 0 <= u < |m'.locals| && Holds(m', t, lock) && Holds(m', u, lock)
        ensures t == u
      {
        assert Holds(m, t, lock) || (move == Acquire(t) && lock == m.locals[t].lock);
        assert Holds(m, u, lock) || (move == Acquire(u) && lock == m.locals[u].lock);
      }
    }
  }

  // ---------------------------------------------------------------------------
  // The same states
  // ---------------------------------------------------------------------------

  /** The protocol's steps in a run with locks. */
  function Acts<Mail>(moves: seq<Move<Mail>>): seq<Step<Mail>> {
    if moves == [] then [] else (if moves[0].Act? then [moves[0].step] else []) + Acts(moves[1..])
  }

  /** Forgetting the locks gives a run of the protocol. */
  lemma {:induction false} LocksForgotten<Mail>(m: Machine<Mail>, moves: seq<Move<Mail>>, m': Machine<Mail>)
    requires LocksInv(m) && Moves(m, moves, m')
    ensures LocksInv(m') && Run(m.base, Acts(moves), m'.base)
    decreases |moves|
  {
    if moves != [] {
      var next := Perform(m, moves[0]);
      MoveKeeps(m, moves[0]);
      LocksForgotten(next, moves[1..], m');
      if moves[0].Act? {
        ActEnabled(m, moves[0].step);
        assert Acts(moves)[0] == moves[0].step && Acts(moves)[1..] == Acts(moves[1..]);
      } else {
        assert Acts(moves) == Acts(moves[1..]);
      }
    }
  }

  predicate AllQuiet<Mail>(m: Machine<Mail>) {
    |m.locals| == |m.base.threads| && forall t :: 0 <= t < |m.locals| ==> m.locals[t].Quiet?
  }

  /** A step of the protocol, with its lock taken just before. */
  lemma StepWithLock<Mail>(m: Machine<Mail>, step: Step<Mail>, lock: Mutex)
    requires AllQuiet(m) && Enabled(m.base, step) && Takes(m.base, step) == Some(lock)
    ensures CanMove(m, Want(step.t, lock))
    ensures var m1 := Perform(m, Want(step.t, lock));
            && CanMove(m1, Acquire(step.t))
            && var m2 := Perform(m1, Acquire(step.t));
               CanMove(m2, Act(step)) && Perform(m2, Act(step)) == Machine(Next(m.base, step), m.locals)
  {
    assert Opens(m.base.threads[step.t].pc, lock, |m.base.slots|);
    var m1 := Perform(m, Want(step.t, lock));
    assert !Held(m1, lock);
    var m2 := Perform(m1, Acquire(step.t));
    assert m2.locals[step.t := Quiet] == m.locals;
  }

  lemma {:induction false} MovesExtended<Mail>(m: Machine<Mail>, moves: seq<Move<Mail>>, m': Machine<Mail>, move: Move<Mail>)
    requires Moves(m, moves, m') && CanMove(m', move)
    ensures Moves(m, moves + [move], Perform(m', move))
    decreases |moves|
  {
    if moves == [] {
      assert moves + [move] == [move];
    } else {
      MovesExtended(Perform(m, moves[0]), moves[1..], m', move);
      assert (moves + [move])[1..] == moves[1..] + [move];
    }
  }

  lemma ReachedNext<Mail(!new)>(m: Machine<Mail>, move: Move<Mail>)
    requires Reached(m) && CanMove(m, move)
    ensures Reached(Perform(m, move))
  {
    var moves :| Moves(Start(), moves, m);
    MovesExtended(Start(), moves, m, move);
  }

  lemma StepReached<Mail(!new)>(m: Machine<Mail>, step: Step<Mail>) returns (m': Machine<Mail>)
    requires Reached(m) && AllQuiet(m) && Enabled(m.base, step)
    ensures Reached(m') && AllQuiet(m') && m'.base == Next(m.base, step)
  {
    SameThreads(m.base, step);
    match Takes(m.base, step)
    case None =>
      m' := Perform(m, Act(step));
      ReachedNext(m, Act(step));
    case Some(lock) =>
      StepWithLock(m, step, lock);
      var m1 := Perform(m, Want(step.t, lock));
      ReachedNext(m, Want(step.t, lock));
      var m2 := Perform(m1, Acquire(step.t));
      ReachedNext(m1, Acquire(step.t));
      m' := Perform(m2, Act(step));
      ReachedNext(m2, Act(step));
  }

  lemma {:induction false} RunWithLocks<Mail(!new)>(m: Machine<Mail>, steps: seq<Step<Mail>>, s': Config<Mail>)
    returns (m': Machine<Mail>)
    requires Reached(m) && AllQuiet(m) && Run(m.base, steps, s')
    ensures Reached(m') && m'.base == s'
    decreases |steps|
  {
    if steps == [] {
      m' := m;
    } else {
      var next := StepReached(m, steps[0]);
      m' := RunWithLocks(next, steps[1..], s');
    }
  }

  lemma ReachedInv<Mail(!new)>(m: Machine<Mail>)
    requires Reached(m)
    ensures LocksInv(m) && Reachable(m.base)
  {
    var moves :| Moves(Start(), moves, m);
    LocksForgotten(Start(), moves, m);
  }

  /** Making the locks visible neither adds nor loses a state of the protocol. */
  lemma SameStates<Mail(!new)>(s: Config<Mail>)
    ensures Reachable(s) <==> exists m :: Reached(m) && m.base == s
  {
    if Reachable(s) {
      var steps :| Run(Init(), steps, s);
      assert Moves(Start<Mail>(), [], Start());
      var m := RunWithLocks(Start(), steps, s);
    }
    if m :| Reached(m) && m.base == s {
      ReachedInv(m);
    }
  }

  // ---------------------------------------------------------------------------
  // Who waits for whom
  // ---------------------------------------------------------------------------

  predicate WaitsFor<Mail>(m: Machine<Mail>, t: nat, u: nat) {
    There(m, t) && There(m, u) && m.locals[t].Waiting? && Holds(m, u, m.locals[t].lock)
  }

  /** Locks nest one way only: whoever holds the selector's lock waits for none, and whoever
      holds a channel's lock waits for none but the selector's. */
  lemma NestingOrder<Mail(!new)>(m: Machine<Mail>, t: nat, lock: Mutex)
    requires Reached(m) && There(m, t) && Holds(m, t, lock) && m.locals[t].Waiting?
    ensures lock.OfChannel? && m.locals[t].lock == OfSelector
  {
    ReachedInv(m);
  }

  /** A place in the order of waiting: channel locks, then the selector's, then none. */
  function Rank<Mail>(m: Machine<Mail>, t: nat): nat
    requires There(m, t)
  {
    match m.locals[t]
    case Waiting(lock) => if lock.OfChannel? then 2 else 1
    case _ => 0
  }

  lemma WaitingFalls<Mail>(m: Machine<Mail>, t: nat, u: nat)
    requires LocksInv(m) && WaitsFor(m, t, u)
    ensures Rank(m, u) < Rank(m, t)
  {
  }

  /** Each waits for the next. */
  predicate Chain<Mail>(m: Machine<Mail>, ts: seq<nat>) {
    forall i :: 0 <= i < |ts| - 1 ==> WaitsFor(m, ts[i], ts[i + 1])
  }

  lemma {:induction false} ChainFalls<Mail>(m: Machine<Mail>, ts: seq<nat>)
    requires LocksInv(m) && |ts| >= 2 && Chain(m, ts)
    ensures There(m, ts[0]) && There(m, ts[|ts| - 1])
    ensures Rank(m, ts[|ts| - 1]) + |ts| - 1 <= Rank(m, ts[0])
    decreases |ts|
  {
    assert WaitsFor(m, ts[0], ts[1]);
    WaitingFalls(m, ts[0], ts[1]);
    if |ts| > 2 {
      var rest := ts[1..];
      forall i | 0 <= i < |rest| - 1 ensures WaitsFor(m, rest[i], rest[i + 1]) {
        assert WaitsFor(m, ts[i + 1], ts[i + 1 + 1]);
      }
      ChainFalls(m, rest);
    }
  }

  /** In no reachable state does a chain of waiting threads close on itself, over both kinds of
      lock and any number of threads; no chain is longer than three threads. */
  lemma NoWaitCycle<Mail(!new)>(m: Machine<Mail>, ts: seq<nat>)
    requires Reached(m) && |ts| >= 2 && Chain(m, ts)
    ensures ts[0] != ts[|ts| - 1] && |ts| <= 3
  {
    ReachedInv(m);
    ChainFalls(m, ts);
  }

  /** In the middle of an operation, or about to enter one. */
  predicate Engaged<Mail>(m: Machine<Mail>, t: nat) {
    There(m, t) && (!m.locals[t].Quiet? || Busy(m.base.threads[t].pc))
  }

  predicate MoveOf<Mail>(move: Move<Mail>, t: nat) {
    match move
    case Want(u, _) => u == t
    case Acquire(u) => u == t
    case Act(step) => Owns(step, t)
  }

  /** A thread that wants nothing yet can ask for its next lock. */
  lemma CanWant<Mail>(m: Machine<Mail>, t: nat) returns (move: Move<Mail>)
    requires LocksInv(m) && Inv(m.base) && There(m, t) && m.locals[t].Quiet? && Busy(m.base.threads[t].pc)
    ensures CanMove(m, move) && MoveOf(move, t)
  {
    var pc := m.base.threads[t].pc;
    assert PcFits(m.base.threads[t], |m.base.slots|);
    move := Want(t, if pc.Fetching? || pc.MustDrain? then OfChannel(pc.todo[0]) else OfSelector);
  }

  /** A thread that holds its lock can act. `mail` is one to send, for a thread about to. */
  lemma CanAct<Mail>(m: Machine<Mail>, t: nat, mail: Mail) returns (step: Step<Mail>)
    requires LocksInv(m) && Inv(m.base) && There(m, t) && m.locals[t].Holding?
    ensures CanMove(m, Act(step)) && Owns(step, t)
  {
    assert PcFits(m.base.threads[t], |m.base.slots|);
    var wake := WakeExists(m.base.threads);
    match m.base.threads[t].pc
    case Idle =>
      if m.locals[t].lock.OfChannel? {
        step := TrySend(t, m.locals[t].lock.c, Normal, []);
      } else {
        step := SendGlobal(t, mail, wake);
      }
    case MustFire(_) => step := Step.Fire(t, wake);
    case Woken(_, _) => step := Recheck(t, false);
    case Fetching(_) => step := Step.Lock(t);
    case Consuming(_) => step := Step.Consume(t);
    case MustDrain(_) => step := Step.Drain(t);
  }

  lemma {:induction false} Unblocked<Mail>(m: Machine<Mail>, t: nat, mail: Mail)
    returns (ts: seq<nat>, move: Move<Mail>)
    requires LocksInv(m) && Inv(m.base) && Engaged(m, t)
    ensures ts != [] && ts[0] == t && Chain(m, ts)
    ensures CanMove(m, move) && MoveOf(move, ts[|ts| - 1])
    decreases Rank(m, t)
  {
    ts := [t];
    if m.locals[t].Quiet? {
      move := CanWant(m, t);
    } else if m.locals[t].Holding? {
      var step := CanAct(m, t, mail);
      move := Act(step);
    } else if u :| 0 <= u < |m.locals| && There(m, u) && Holds(m, u, m.locals[t].lock) {
      WaitingFalls(m, t, u);
      var rest;
      rest, move := Unblocked(m, u, mail);
      ts := [t] + rest;
      forall i | 0 <= i < |ts| - 1 ensures WaitsFor(m, ts[i], ts[i + 1]) {
        if i > 0 {
          assert WaitsFor(m, rest[i - 1], rest[i - 1 + 1]);
        }
      }
    } else {
      move := Acquire(t);
    }
  }

  /** No deadlock: in every reachable state, following who waits for whom from any engaged thread
      leads to one that can move. */
  lemma NoDeadlock<Mail(!new)>(m: Machine<Mail>, t: nat, mail: Mail)
    requires Reached(m) && Engaged(m, t)
    ensures exists ts, move: Move<Mail> ::
              && ts != [] && ts[0] == t && Chain(m, ts)
              && CanMove(m, move) && MoveOf(move, ts[|ts| - 1])
  {
    ReachedInv(m);
    ReachableInv(m.base);
    var ts, move := Unblocked(m, t, mail);
  }
}
