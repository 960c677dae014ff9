/** What a run of the selector protocol did to one channel, told by its sends: which were accepted,
    what a drain hands over, and how deep the queue ever was. */
module SelectorHistory {
  import opened Basics
  import opened MailChannels
  import opened SelectorProtocol
  import opened SelectorSafety

  // ---------------------------------------------------------------------------
  // What was accepted is what was sent
  // ---------------------------------------------------------------------------

  /** The step gets mail into the channel: every send does, and a try-send that finds room. */
  predicate GetsIn<Mail>(s: Config<Mail>, step: Step<Mail>, c: nat) {
    match step
    case Send(_, d, _, _) => d == c
    case TrySend(_, d, _, mails) => d == c < |s.slots| && HasRoom(s.slots[c].channel, |mails|)
    case _ => false
  }

  function WithStep<Mail>(sent: Sent<Mail>, s: Config<Mail>, step: Step<Mail>, c: nat): Sent<Mail> {
    if !GetsIn(s, step, c) then sent
    else if step.Send? then sent + [(step.p, [step.mail])]
    else sent + [(step.p, step.mails)]
  }

  /** `sent`, and then what a run got into the channel, in order. */
  function SentIn<Mail(==)>(sent: Sent<Mail>, s: Config<Mail>, steps: seq<Step<Mail>>, s': Config<Mail>, c: nat): Sent<Mail>
    requires Run(s, steps, s')
    decreases |steps|
  {
    if steps == [] then sent
    else SentIn(WithStep(sent, s, steps[0], c), Next(s, steps[0]), steps[1..], s', c)
  }

  ghost predicate AcceptedAs<Mail>(s: Config<Mail>, c: nat, sent: Sent<Mail>) {
    if c < |s.slots| then forall p :: s.slots[c].accepted[Index(p)] == SentAs(sent, p) else sent == []
  }

  lemma PushAccepted<Mail>(x: Slot<Mail>, p: Priority, mails: seq<Mail>, q: Priority)
    ensures SlotPushed(x, p, mails).accepted[Index(q)] == x.accepted[Index(q)] + if p == q then mails else []
  {
    assert Index(p) == Index(q) <==> p == q;
  }

  /** A step changes what a channel has accepted only by what it got in. */
  lemma AcceptedStep<Mail>(s: Config<Mail>, step: Step<Mail>, c: nat)
    requires Inv(s) && Enabled(s, step) && c < |s.slots|
    ensures var x, x' := s.slots[c], Next(s, step).slots[c];
            if GetsIn(s, step, c)
            then x' == SlotPushed(x, step.p, if step.Send? then [step.mail] else step.mails)
            else x'.accepted == x.accepted
  {
    assert SlotSound(s.slots[c]);
    if step.TrySend? {
      AdmissionExact(s.slots[c].channel, step.p, step.mails);
    }
  }

  /** A channel that is not there yet gets nothing in, and has accepted nothing when it appears. */
  lemma AcceptedNew<Mail>(s: Config<Mail>, step: Step<Mail>, c: nat)
    requires Enabled(s, step) && c >= |s.slots|
    ensures !GetsIn(s, step, c)
    ensures c < |Next(s, step).slots| ==> Next(s, step).slots[c].accepted == NoMail()
  {
  }

  lemma PushedAs<Mail>(x: Slot<Mail>, sent: Sent<Mail>, p: Priority, mails: seq<Mail>, q: Priority)
    requires x.accepted[Index(q)] == SentAs(sent, q)
    ensures SlotPushed(x, p, mails).accepted[Index(q)] == SentAs(sent + [(p, mails)], q)
  {
    PushAccepted(x, p, mails, q);
    SentMore(sent, p, mails, q);
  }

  lemma AcceptedKept<Mail>(s: Config<Mail>, step: Step<Mail>, c: nat, sent: Sent<Mail>)
    requires Inv(s) && Enabled(s, step) && AcceptedAs(s, c, sent)
    ensures AcceptedAs(Next(s, step), c, WithStep(sent, s, step, c))
  {
    SameThreads(s, step);
    if c >= |s.slots| {
      AcceptedNew(s, step, c);
    } else {
      AcceptedStep(s, step, c);
      var x := s.slots[c];
      var x' := Next(s, step).slots[c];
      var now := WithStep(sent, s, step, c);
      forall q ensures x'.accepted[Index(q)] == SentAs(now, q) {
        assert x.accepted[Index(q)] == SentAs(sent, q);
        if GetsIn(s, step, c) {
          PushedAs(x, sent, step.p, if step.Send? then [step.mail] else step.mails, q);
        }
      }
    }
  }

  lemma {:induction false} AcceptedIsSent<Mail>(sent: Sent<Mail>, s: Config<Mail>, steps: seq<Step<Mail>>, s': Config<Mail>, c: nat)
    requires Inv(s) && Run(s, steps, s') && AcceptedAs(s, c, sent)
    ensures Inv(s') && AcceptedAs(s', c, SentIn(sent, s, steps, s', c))
    decreases |steps|
  {
    if steps != [] {
      AcceptedKept(s, steps[0], c, sent);
      StepInv(s, steps[0]);
      AcceptedIsSent(WithStep(sent, s, steps[0], c), Next(s, steps[0]), steps[1..], s', c);
    }
  }

  /** In every run, for each channel and priority: what has been delivered, then what is staged, then
      what is live, is exactly what the run's sends at that priority got in, in sending order. */
  lemma DeliveredAsSent<Mail>(steps: seq<Step<Mail>>, s: Config<Mail>, c: nat, p: Priority)
    requires Run(Init(), steps, s) && c < |s.slots|
    ensures var x, i := s.slots[c], Index(p);
            x.delivered[i] + (x.channel.staged[i] + x.channel.live[i])
            == SentAs(SentIn([], Init(), steps, s, c), p)
  {
    InitInv<Mail>();
    AcceptedIsSent([], Init(), steps, s, c);
    assert SlotSound(s.slots[c]);
    assert s.slots[c].accepted[Index(p)] == SentAs(SentIn([], Init(), steps, s, c), p);
  }

  /** Whatever a drain hands over is the next undelivered urgent mail, then the next normal, then the
      next slow, each in sending order. */
  lemma DrainByPriority<Mail>(steps: seq<Step<Mail>>, s: Config<Mail>, t: nat)
    returns (urgent: seq<Mail>, normal: seq<Mail>, slow: seq<Mail>)
    requires Run(Init(), steps, s) && Enabled(s, Step.Drain(t))
    ensures var c := s.threads[t].pc.todo[0];
            var x, sent := s.slots[c], SentIn([], Init(), steps, s, c);
            && DrainOrder(x.channel.staged) == urgent + normal + slow
            && x.delivered[Index(Urgent)] + urgent <= SentAs(sent, Urgent)
            && x.delivered[Index(Normal)] + normal <= SentAs(sent, Normal)
            && x.delivered[Index(Slowly)] + slow <= SentAs(sent, Slowly)
  {
    var c := s.threads[t].pc.todo[0];
    var x := s.slots[c];
    urgent, normal, slow := x.channel.staged[Index(Urgent)], x.channel.staged[Index(Normal)], x.channel.staged[Index(Slowly)];
    DeliveredAsSent(steps, s, c, Urgent);
    DeliveredAsSent(steps, s, c, Normal);
    DeliveredAsSent(steps, s, c, Slowly);
  }

  // ---------------------------------------------------------------------------
  // Who is refused
  // ---------------------------------------------------------------------------

  /** In every reachable state a try-send is refused exactly when the live mail is at the limit or the
      batch would take it past; then nothing but the channel's counter changes. Otherwise all of the
      batch is accepted. */
  lemma RefusedOnlyWhenFull<Mail(!new)>(s: Config<Mail>, t: nat, c: nat, p: Priority, mails: seq<Mail>)
    requires Reachable(s) && Enabled(s, TrySend(t, c, p, mails))
    ensures var x, x' := s.slots[c], Next(s, TrySend(t, c, p, mails)).slots[c];
            var live := Queued(x.channel.live);
            if live >= x.channel.limit || live + |mails| > x.channel.limit
            then x' == x.(channel := x.channel.(rejected := Min(x.channel.rejected + |mails|, U64_MAX)))
            else && Queued(x'.channel.live) == live + |mails| && x'.channel.rejected == x.channel.rejected
                 && x'.accepted[Index(p)] == x.accepted[Index(p)] + mails
  {
    ReachableInv(s);
    assert SlotSound(s.slots[c]);
    AdmissionExact(s.slots[c].channel, p, mails);
  }

  /** A channel's limit is what it was made with, at least one, for good. */
  lemma LimitFixed<Mail>(s: Config<Mail>, step: Step<Mail>, c: nat)
    requires Enabled(s, step) && c < |Next(s, step).slots|
    ensures Next(s, step).slots[c].channel.limit
            == if c < |s.slots| then s.slots[c].channel.limit else if step.AddChannel? then Max(step.limit, 1) else 0
  {
  }

  // ---------------------------------------------------------------------------
  // How deep the queue was
  // ---------------------------------------------------------------------------

  function Depth<Mail>(s: Config<Mail>, c: nat): nat {
    if c < |s.slots| then Queued(s.slots[c].channel.live) else 0
  }

  function HighWater<Mail>(s: Config<Mail>, c: nat): nat {
    if c < |s.slots| then s.slots[c].channel.maxDepth else 0
  }

  /** The most live mail in any state of the run. */
  function Peak<Mail(==)>(s: Config<Mail>, steps: seq<Step<Mail>>, s': Config<Mail>, c: nat): nat
    requires Run(s, steps, s')
    decreases |steps|
  {
    if steps == [] then Depth(s, c) else Max(Depth(s, c), Peak(Next(s, steps[0]), steps[1..], s', c))
  }

  lemma PushedHigh<Mail>(c: Channel<Mail>, p: Priority, mails: seq<Mail>)
    requires WellCounted(c)
    ensures var r := Pushed(c, p, mails); r.maxDepth == Max(c.maxDepth, Queued(r.live))
  {
    WellCountedKept(c, p, mails, 0);
  }

  lemma HighWaterStep<Mail>(s: Config<Mail>, step: Step<Mail>, c: nat)
    requires c < |s.slots| ==> WellCounted(s.slots[c].channel)
    requires Enabled(s, step)
    ensures HighWater(Next(s, step), c) == Max(HighWater(s, c), Depth(Next(s, step), c))
  {
    if c < |s.slots| {
      if step.Send? {
        PushedHigh(s.slots[c].channel, step.p, [step.mail]);
      } else if step.TrySend? {
        PushedHigh(s.slots[c].channel, step.p, step.mails);
      }
    }
  }

  lemma {:induction false} HighWaterAlong<Mail>(s: Config<Mail>, steps: seq<Step<Mail>>, s': Config<Mail>, c: nat)
    requires Inv(s) && Run(s, steps, s')
    ensures HighWater(s', c) == Max(HighWater(s, c), Peak(s, steps, s', c))
    decreases |steps|
  {
    assert c < |s.slots| ==> SlotSound(s.slots[c]);
    if steps != [] {
      StepInv(s, steps[0]);
      HighWaterStep(s, steps[0], c);
      HighWaterAlong(Next(s, steps[0]), steps[1..], s', c);
    }
  }

  /** A channel's high-water mark is the most live mail it ever held. */
  lemma HighWaterExact<Mail>(steps: seq<Step<Mail>>, s: Config<Mail>, c: nat)
    requires Run(Init(), steps, s) && c < |s.slots|
    ensures s.slots[c].channel.maxDepth == Peak(Init(), steps, s, c)
  {
    InitInv<Mail>();
    HighWaterAlong(Init(), steps, s, c);
  }
}
