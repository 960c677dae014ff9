/** Senders and workers over one selector and any number of channels, as a step relation.

    An atomic step is one lock-held section of `src/channel_selector.rs`. A sender pushes
    under the channel's lock, then fires under the selector's. A worker selects under the
    selector's lock, parking on its condition variable when there is nothing to do; then
    for each channel it was handed it consumes (under the channel's lock, taking the
    selector's inside it) and drains (under a second hold of the channel's lock).

    A channel is named by its place in the sequence of channels, which stands for its
    replica id: distinct channels have distinct ids. */
module SelectorProtocol {
  import opened Basics
  import opened MailChannels
  import opened ChannelSelectors

  /** A channel with everything it ever accepted and everything ever drained from it. */
  datatype Slot<Mail> = Slot(channel: Channel<Mail>, accepted: Lanes<Mail>, delivered: Lanes<Mail>)

  /** Where a thread is. `todo` are channels a worker was handed and has not finished with. */
  datatype Pc =
    | Idle
    | MustFire(c: nat)                      // pushed into a channel, not yet fired it
    | Parked(limit: nat, timed: bool)       // waiting on the condition variable
    | Woken(limit: nat, timed: bool)        // roused, not yet back under the selector's lock
    | Fetching(todo: seq<nat>)              // about to lock the first of them
    | Consuming(todo: seq<nat>)             // holds the first one's lock, wants the selector's
    | MustDrain(todo: seq<nat>)             // consumed the first one, not yet drained it
    | Gone

  datatype Thread = Thread(worker: bool, pc: Pc)

  datatype Config<Mail> = Config(slots: seq<Slot<Mail>>, selector: Selector<Mail>, threads: seq<Thread>,
                                 globalSent: seq<Mail>, globalGot: seq<Mail>)

  datatype Step<Mail> =
    | Spawn(worker: bool)
    | AddChannel(limit: nat)
    | Send(t: nat, c: nat, p: Priority, mail: Mail)
    | TrySend(t: nat, c: nat, p: Priority, mails: seq<Mail>)
    | Fire(t: nat, wake: nat)
    | SendGlobal(t: nat, mail: Mail, wake: nat)
    | Select(t: nat, input: seq<nat>, limit: nat, patience: Patience, expired: bool)
    | Rouse(t: nat)                         // a timeout, or a spurious wakeup
    | Recheck(t: nat, expired: bool)
    | Lock(t: nat)
    | Consume(t: nat)
    | Drain(t: nat)
    | Exit(t: nat, mail: Mail, wake: nat)   // a worker leaves, relaying one global mail

  function Init<Mail>(): Config<Mail> {
    Config([], NewSelector(), [], [], [])
  }

  // ---------------------------------------------------------------------------
  // Steps
  // ---------------------------------------------------------------------------

  predicate At<Mail>(s: Config<Mail>, t: nat) {
    t < |s.threads|
  }

  /** Some worker is between locking a channel and locking the selector. */
  predicate Locked<Mail>(s: Config<Mail>, c: nat) {
    exists u :: 0 <= u < |s.threads| && HoldsLock(s.threads[u].pc, c)
  }

  predicate HoldsLock(pc: Pc, c: nat) {
    pc.Consuming? && pc.todo != [] && pc.todo[0] == c
  }

  predicate NoneParked(threads: seq<Thread>) {
    forall u :: 0 <= u < |threads| ==> !threads[u].pc.Parked?
  }

  /** `notify_one` picks any parked thread, and is lost only when there is none. */
  predicate MayWake(threads: seq<Thread>, wake: nat) {
    if wake < |threads| && threads[wake].pc.Parked? then true else NoneParked(threads)
  }

  function Notified(threads: seq<Thread>, wake: nat): (r: seq<Thread>)
    ensures |r| == |threads|
  {
    if wake < |threads| && threads[wake].pc.Parked?
    then threads[wake := threads[wake].(pc := Woken(threads[wake].pc.limit, threads[wake].pc.timed))]
    else threads
  }

  function Moved<Mail>(s: Config<Mail>, t: nat, pc: Pc): Config<Mail>
    requires At(s, t)
  {
    s.(threads := s.threads[t := s.threads[t].(pc := pc)])
  }

  /** What is left to fetch; a worker with nothing left goes back to its loop. */
  function After(todo: seq<nat>): Pc {
    if todo == [] then Idle else Fetching(todo)
  }

  function SlotPushed<Mail>(x: Slot<Mail>, p: Priority, mails: seq<Mail>): Slot<Mail> {
    Slot(Pushed(x.channel, p, mails), x.accepted[Index(p) := x.accepted[Index(p)] + mails], x.delivered)
  }

  function SlotConsumed<Mail>(x: Slot<Mail>, total: int): Slot<Mail> {
    x.(channel := Consumed(x.channel, total))
  }

  function SlotDrained<Mail>(x: Slot<Mail>): Slot<Mail> {
    x.(channel := Drained(x.channel), delivered := Joined(x.delivered, x.channel.staged))
  }

  predicate IdsBelow(ids: seq<nat>, n: nat) {
    forall i :: 0 <= i < |ids| ==> ids[i] < n
  }

  /** The step is one its thread is ready to take, leaving locks aside. */
  predicate Poised<Mail>(s: Config<Mail>, step: Step<Mail>) {
    match step
    case Spawn(_) => true
    case AddChannel(_) => true
    case Send(t, c, _, _) => At(s, t) && s.threads[t].pc.Idle? && c < |s.slots|
    case TrySend(t, c, _, _) => At(s, t) && s.threads[t].pc.Idle? && c < |s.slots|
    case Fire(t, wake) =>
      At(s, t) && s.threads[t].pc.MustFire?
      && (s.threads[t].pc.c !in s.selector.active ==> MayWake(s.threads, wake))
    case SendGlobal(t, _, wake) => At(s, t) && s.threads[t].pc.Idle? && MayWake(s.threads, wake)
    case Select(t, input, _, _, _) =>
      At(s, t) && s.threads[t].worker && s.threads[t].pc.Idle? && IdsBelow(input, |s.slots|)
    case Rouse(t) => At(s, t) && s.threads[t].pc.Parked?
    case Recheck(t, _) => At(s, t) && s.threads[t].pc.Woken?
    case Lock(t) => At(s, t) && s.threads[t].pc.Fetching? && s.threads[t].pc.todo != []
    case Consume(t) =>
      At(s, t) && s.threads[t].pc.Consuming? && s.threads[t].pc.todo != [] && s.threads[t].pc.todo[0] < |s.slots|
    case Drain(t) =>
      At(s, t) && s.threads[t].pc.MustDrain? && s.threads[t].pc.todo != [] && s.threads[t].pc.todo[0] < |s.slots|
    case Exit(t, _, wake) => At(s, t) && s.threads[t].worker && s.threads[t].pc.Idle? && MayWake(s.threads, wake)
  }

  datatype Mutex = OfSelector | OfChannel(c: nat)

  /** The lock the step takes. A consume already holds its channel's and takes the selector's. */
  function Takes<Mail>(s: Config<Mail>, step: Step<Mail>): Option<Mutex>
    requires Poised(s, step)
  {
    match step
    case Spawn(_) => None
    case AddChannel(_) => None
    case Rouse(_) => None
    case Send(_, c, _, _) => Some(OfChannel(c))
    case TrySend(_, c, _, _) => Some(OfChannel(c))
    case Lock(t) => Some(OfChannel(s.threads[t].pc.todo[0]))
    case Drain(t) => Some(OfChannel(s.threads[t].pc.todo[0]))
    case _ => Some(OfSelector)
  }

  /** A step under a channel's lock waits for a worker that is consuming the channel. */
  predicate Enabled<Mail>(s: Config<Mail>, step: Step<Mail>) {
    && Poised(s, step)
    && var l := Takes(s, step); l.Some? && l.value.OfChannel? ==> !Locked(s, l.value.c)
  }

  function Push<Mail>(s: Config<Mail>, t: nat, c: nat, p: Priority, mails: seq<Mail>): Config<Mail>
    requires At(s, t) && c < |s.slots|
  {
    Moved(s, t, MustFire(c)).(slots := s.slots[c := SlotPushed(s.slots[c], p, mails)])
  }

  function Refuse<Mail>(s: Config<Mail>, c: nat, count: nat): Config<Mail>
    requires c < |s.slots|
  {
    s.(slots := s.slots[c := s.slots[c].(channel := Refused(s.slots[c].channel, count))])
  }

  function FireStep<Mail>(s: Config<Mail>, t: nat, wake: nat): Config<Mail>
    requires At(s, t) && s.threads[t].pc.MustFire?
  {
    var c := s.threads[t].pc.c;
    var threads := if c in s.selector.active then s.threads else Notified(s.threads, wake);
    s.(selector := Fired(s.selector, c), threads := threads[t := threads[t].(pc := Idle)])
  }

  function Broadcast<Mail>(s: Config<Mail>, mail: Mail, wake: nat): Config<Mail> {
    s.(selector := s.selector.(globals := s.selector.globals + [mail]),
       globalSent := s.globalSent + [mail],
       threads := Notified(s.threads, wake))
  }

  /** The end of a select: all the global mail, and up to `limit` channels. */
  function Take<Mail>(s: Config<Mail>, t: nat, limit: nat): Config<Mail>
    requires At(s, t)
  {
    Moved(s, t, After(s.selector.list[..TakeCount(s.selector, limit)]))
      .(selector := Taken(s.selector, limit), globalGot := s.globalGot + s.selector.globals)
  }

  function SelectStep<Mail>(s: Config<Mail>, t: nat, input: seq<nat>, limit: nat,
                            patience: Patience, expired: bool): Config<Mail>
    requires At(s, t)
  {
    var r := s.(selector := Rearranged(s.selector, input));
    if Waits(r.selector, patience, expired)
    then Moved(r, t, Parked(limit, patience == Timed))
    else Take(r, t, limit)
  }

  function RecheckStep<Mail>(s: Config<Mail>, t: nat, expired: bool): Config<Mail>
    requires At(s, t) && s.threads[t].pc.Woken?
  {
    var pc := s.threads[t].pc;
    if Waits(s.selector, if pc.timed then Timed else Forever, expired) then Moved(s, t, Parked(pc.limit, pc.timed))
    else Take(s, t, pc.limit)
  }

  function ConsumeStep<Mail>(s: Config<Mail>, t: nat): Config<Mail>
    requires Poised(s, Step.Consume(t))
  {
    var todo := s.threads[t].pc.todo;
    var x := s.slots[todo[0]];
    var total := s.selector.total + CountChange(x.channel);
    Moved(s, t, MustDrain(todo))
      .(slots := s.slots[todo[0] := SlotConsumed(x, total)], selector := s.selector.(total := total))
  }

  function DrainStep<Mail>(s: Config<Mail>, t: nat): Config<Mail>
    requires Poised(s, Step.Drain(t))
  {
    var todo := s.threads[t].pc.todo;
    Moved(s, t, After(todo[1..])).(slots := s.slots[todo[0] := SlotDrained(s.slots[todo[0]])])
  }

  function Next<Mail>(s: Config<Mail>, step: Step<Mail>): Config<Mail>
    requires Poised(s, step)
  {
    match step
    case Spawn(worker) => s.(threads := s.threads + [Thread(worker, Idle)])
    case AddChannel(limit) => s.(slots := s.slots + [Slot(NewChannel(limit), NoMail(), NoMail())])
    case Send(t, c, p, mail) => Push(s, t, c, p, [mail])
    case TrySend(t, c, p, mails) =>
      if Admits(s.slots[c].channel, |mails|) then Push(s, t, c, p, mails) else Refuse(s, c, |mails|)
    case Fire(t, wake) => FireStep(s, t, wake)
    case SendGlobal(t, mail, wake) => Broadcast(s, mail, wake)
    case Select(t, input, limit, patience, expired) => SelectStep(s, t, input, limit, patience, expired)
    case Rouse(t) => Moved(s, t, Woken(s.threads[t].pc.limit, s.threads[t].pc.timed))
    case Recheck(t, expired) => RecheckStep(s, t, expired)
    case Lock(t) => Moved(s, t, Consuming(s.threads[t].pc.todo))
    case Consume(t) => ConsumeStep(s, t)
    case Drain(t) => DrainStep(s, t)
    case Exit(t, mail, wake) => Broadcast(Moved(s, t, Gone), mail, wake)
  }

  /** `steps` leads from `s` to `s'`. */
  predicate Run<Mail(==)>(s: Config<Mail>, steps: seq<Step<Mail>>, s': Config<Mail>)
    decreases |steps|
  {
    if steps == [] then s == s'
    else Enabled(s, steps[0]) && Run(Next(s, steps[0]), steps[1..], s')
  }
}
