/** One replica's mail channel (`src/channel_selector.rs`): three priority lanes of live
    mail, three of staged mail, a depth limit of its own, and counters.

    The functions say what each lock-held section does to the channel; the class does it
    in place. The concurrent model steps with the same functions. */
module MailChannels {
  import opened Basics

  datatype Priority = Urgent | Normal | Slowly

  /** Mail by priority, urgent first. */
  type Lanes<Mail> = s: seq<seq<Mail>> | |s| == 3 witness [[], [], []]

  function Index(p: Priority): (i: nat)
    ensures i < 3
  {
    match p
    case Urgent => 0
    case Normal => 1
    case Slowly => 2
  }

  function NoMail<Mail>(): Lanes<Mail> {
    [[], [], []]
  }

  function Queued<Mail>(l: Lanes<Mail>): nat {
    |l[0]| + |l[1]| + |l[2]|
  }

  /** Lane by lane. */
  function Joined<Mail>(a: Lanes<Mail>, b: Lanes<Mail>): Lanes<Mail> {
    [a[0] + b[0], a[1] + b[1], a[2] + b[2]]
  }

  datatype Channel<Mail> = Channel(limit: nat, size: nat, previousCount: int, selectorTotal: int,
                                   maxDepth: nat, rejected: nat, live: Lanes<Mail>, staged: Lanes<Mail>)

  function NewChannel<Mail>(limit: nat): Channel<Mail> {
    Channel(if limit < 1 then 1 else limit, 0, 0, 0, 0, 0, NoMail(), NoMail())
  }

  /** The channel's own queue against its own limit. */
  predicate Overflow<Mail>(c: Channel<Mail>) {
    c.size >= c.limit
  }

  predicate Admits<Mail>(c: Channel<Mail>, count: nat) {
    !Overflow(c) && c.size + count <= c.limit
  }

  function Pushed<Mail>(c: Channel<Mail>, p: Priority, mails: seq<Mail>): Channel<Mail> {
    var size := c.size + |mails|;
    c.(live := c.live[Index(p) := c.live[Index(p)] + mails],
       size := size,
       maxDepth := if c.maxDepth < size then size else c.maxDepth)
  }

  function Refused<Mail>(c: Channel<Mail>, count: nat): Channel<Mail> {
    c.(rejected := SaturatingAdd(c.rejected, count))
  }

  function TrySent<Mail>(c: Channel<Mail>, p: Priority, mails: seq<Mail>): Channel<Mail> {
    if Admits(c, |mails|) then Pushed(c, p, mails) else Refused(c, |mails|)
  }

  /** What a consume adds to the selector's total. */
  function CountChange<Mail>(c: Channel<Mail>): int {
    c.size - c.previousCount
  }

  /** Live mail is appended to what is staged; `total` is the selector's new total. */
  function Consumed<Mail>(c: Channel<Mail>, total: int): Channel<Mail> {
    c.(previousCount := c.size, selectorTotal := total, size := 0,
       staged := Joined(c.staged, c.live), live := NoMail())
  }

  function Drained<Mail>(c: Channel<Mail>): Channel<Mail> {
    c.(staged := NoMail())
  }

  /** The order one drain hands mail over in. */
  function DrainOrder<Mail>(l: Lanes<Mail>): seq<Mail> {
    l[0] + l[1] + l[2]
  }

  // ---------------------------------------------------------------------------
  // Admission
  // ---------------------------------------------------------------------------

  /** What every operation keeps. */
  predicate WellCounted<Mail>(c: Channel<Mail>) {
    c.limit >= 1 && c.size == Queued(c.live) && c.size <= c.maxDepth
  }

  lemma WellCountedKept<Mail>(c: Channel<Mail>, p: Priority, mails: seq<Mail>, total: int)
    requires WellCounted(c)
    ensures WellCounted(Pushed(c, p, mails)) && WellCounted(TrySent(c, p, mails))
    ensures WellCounted(Consumed(c, total)) && WellCounted(Drained(c))
  {
    assert Queued(Pushed(c, p, mails).live) == Queued(c.live) + |mails|;
  }

  /** There is live mail below the limit, and the batch takes it no further. */
  predicate HasRoom<Mail>(c: Channel<Mail>, count: nat) {
    Queued(c.live) < c.limit && Queued(c.live) + count <= c.limit
  }

  /** A try-send goes in exactly when the live mail leaves room for it: then every mail of the batch
      joins the live mail and nothing is counted as refused. Otherwise only the counter moves. */
  lemma AdmissionExact<Mail>(c: Channel<Mail>, p: Priority, mails: seq<Mail>)
    requires WellCounted(c)
    ensures Admits(c, |mails|) <==> HasRoom(c, |mails|)
    ensures var r := TrySent(c, p, mails);
            if HasRoom(c, |mails|)
            then Queued(r.live) == Queued(c.live) + |mails| && r.rejected == c.rejected && r.staged == c.staged
            else r == c.(rejected := Min(c.rejected + |mails|, U64_MAX))
  {
    WellCountedKept(c, p, mails, 0);
  }

  /** A try-send is all or nothing. Accepted, the queue stays within the limit and grows by
      exactly the batch, at the back of one lane; refused, no queue changes. */
  lemma TrySendAllOrNothing<Mail>(c: Channel<Mail>, p: Priority, mails: seq<Mail>)
    requires WellCounted(c)
    ensures var r := TrySent(c, p, mails);
            if Admits(c, |mails|)
            then r.size == Queued(r.live) <= c.limit && r.live[Index(p)] == c.live[Index(p)] + mails
                 && (forall i :: 0 <= i < 3 && i != Index(p) ==> r.live[i] == c.live[i])
                 && r.rejected == c.rejected && r.staged == c.staged
            else r.live == c.live && r.staged == c.staged && r.size == c.size
  {
    WellCountedKept(c, p, mails, 0);
  }

  /** The channel cannot latch shut: a batch that could fit an empty channel is refused only
      while there is live mail, and so only while a drain is owed. */
  lemma RefusedOnlyWhenQueued<Mail>(c: Channel<Mail>, count: nat)
    requires WellCounted(c) && count <= c.limit && !Admits(c, count)
    ensures Queued(c.live) > 0
  {
  }

  // ---------------------------------------------------------------------------
  // What a fetch hands over
  // ---------------------------------------------------------------------------

  /** What an undisturbed fetch returns. */
  function Fetched<Mail>(c: Channel<Mail>): seq<Mail> {
    DrainOrder(Joined(c.staged, c.live))
  }

  /** What can happen to a channel between drains. */
  datatype Use<Mail> = Sends(p: Priority, mails: seq<Mail>) | TrySends(p: Priority, mails: seq<Mail>) | Consumes(total: int)

  function Used<Mail>(c: Channel<Mail>, use: Use<Mail>): Channel<Mail> {
    match use
    case Sends(p, mails) => Pushed(c, p, mails)
    case TrySends(p, mails) => TrySent(c, p, mails)
    case Consumes(total) => Consumed(c, total)
  }

  function UsedAll<Mail>(c: Channel<Mail>, uses: seq<Use<Mail>>): Channel<Mail>
    decreases |uses|
  {
    if uses == [] then c else UsedAll(Used(c, uses[0]), uses[1..])
  }

  /** Batches with the priority each was sent at, in sending order. */
  type Sent<Mail> = seq<(Priority, seq<Mail>)>

  /** `sent`, and then what the uses got in. */
  function SentBy<Mail>(sent: Sent<Mail>, c: Channel<Mail>, uses: seq<Use<Mail>>): Sent<Mail>
    decreases |uses|
  {
    if uses == [] then sent
    else
      var u := uses[0];
      SentBy(if u.Consumes? || (u.TrySends? && !HasRoom(c, |u.mails|)) then sent else sent + [(u.p, u.mails)],
             Used(c, u), uses[1..])
  }

  /** Everything sent at one priority, in sending order. */
  function SentAs<Mail>(sent: Sent<Mail>, p: Priority): seq<Mail> {
    if sent == [] then []
    else SentAs(sent[..|sent| - 1], p) + (if sent[|sent| - 1].0 == p then sent[|sent| - 1].1 else [])
  }

  lemma SentMore<Mail>(sent: Sent<Mail>, p: Priority, mails: seq<Mail>, q: Priority)
    ensures SentAs(sent + [(p, mails)], q) == SentAs(sent, q) + if p == q then mails else []
  {
    assert (sent + [(p, mails)])[..|sent|] == sent;
  }

  /** Staged and live mail is what was sent. */
  ghost predicate Undrained<Mail>(c: Channel<Mail>, sent: Sent<Mail>) {
    forall p :: Joined(c.staged, c.live)[Index(p)] == SentAs(sent, p)
  }

  lemma LanePushed<Mail>(c: Channel<Mail>, p: Priority, mails: seq<Mail>, q: Priority)
    ensures Joined(c.staged, Pushed(c, p, mails).live)[Index(q)]
            == Joined(c.staged, c.live)[Index(q)] + if p == q then mails else []
  {
    var l, g := c.live[Index(q)], c.staged[Index(q)];
    assert Index(p) == Index(q) <==> p == q;
    assert g + (l + mails) == (g + l) + mails;
    assert (g + l) + [] == g + l;
  }

  lemma PushedUndrained<Mail>(c: Channel<Mail>, sent: Sent<Mail>, p: Priority, mails: seq<Mail>)
    requires Undrained(c, sent)
    ensures Undrained(Pushed(c, p, mails), sent + [(p, mails)])
  {
    forall q ensures Joined(c.staged, Pushed(c, p, mails).live)[Index(q)] == SentAs(sent + [(p, mails)], q) {
      SentMore(sent, p, mails, q);
      LanePushed(c, p, mails, q);
    }
  }

  lemma ConsumedUndrained<Mail>(c: Channel<Mail>, sent: Sent<Mail>, total: int)
    requires Undrained(c, sent)
    ensures Undrained(Consumed(c, total), sent)
  {
    forall q ensures Joined(Consumed(c, total).staged, NoMail())[Index(q)] == SentAs(sent, q) {
      assert Joined(c.staged, c.live)[Index(q)] == SentAs(sent, q);
    }
  }

  lemma {:induction false} UsesUndrained<Mail>(c: Channel<Mail>, sent: Sent<Mail>, uses: seq<Use<Mail>>)
    requires WellCounted(c) && Undrained(c, sent)
    ensures Undrained(UsedAll(c, uses), SentBy(sent, c, uses))
    decreases |uses|
  {
    if uses != [] {
      match uses[0] {
        case Sends(p, mails) =>
          PushedUndrained(c, sent, p, mails);
          WellCountedKept(c, p, mails, 0);
          UsesUndrained(Pushed(c, p, mails), sent + [(p, mails)], uses[1..]);
        case TrySends(p, mails) =>
          AdmissionExact(c, p, mails);
          PushedUndrained(c, sent, p, mails);
          WellCountedKept(c, p, mails, 0);
          UsesUndrained(TrySent(c, p, mails), if HasRoom(c, |mails|) then sent + [(p, mails)] else sent, uses[1..]);
        case Consumes(total) =>
          ConsumedUndrained(c, sent, total);
          WellCountedKept(c, Urgent, [], total);
          UsesUndrained(Consumed(c, total), sent, uses[1..]);
      }
    }
  }

  /** However sends, try-sends and consumes are mixed since a channel was last empty, a fetch returns
      everything sent as urgent, then everything sent as normal, then everything sent as slow, each in
      sending order. */
  lemma FetchedByPriority<Mail>(c: Channel<Mail>, uses: seq<Use<Mail>>)
    requires WellCounted(c) && c.live == NoMail() && c.staged == NoMail()
    ensures var sent := SentBy([], c, uses);
            Fetched(UsedAll(c, uses)) == SentAs(sent, Urgent) + SentAs(sent, Normal) + SentAs(sent, Slowly)
  {
    UsesUndrained(c, [], uses);
    var sent, c' := SentBy([], c, uses), UsedAll(c, uses);
    assert Joined(c'.staged, c'.live)[Index(Urgent)] == SentAs(sent, Urgent);
    assert Joined(c'.staged, c'.live)[Index(Normal)] == SentAs(sent, Normal);
    assert Joined(c'.staged, c'.live)[Index(Slowly)] == SentAs(sent, Slowly);
  }

  // ---------------------------------------------------------------------------
  // The channel the code updates in place
  // ---------------------------------------------------------------------------

  class MailChannel<Mail> {
    const replicaId: nat
    const limit: nat
    var size: nat
    var previousCount: int
    var selectorTotal: int
    var maxDepth: nat
    var rejected: nat
    const channels: array<seq<Mail>>
    const buffered: array<seq<Mail>>

    ghost predicate Valid()
      reads this, channels, buffered
    {
      && channels != buffered && channels.Length == 3 && buffered.Length == 3
      && WellCounted(View())
    }

    ghost function View(): Channel<Mail>
      requires channels.Length == 3 && buffered.Length == 3
      reads this, channels, buffered
    {
      Channel(limit, size, previousCount, selectorTotal, maxDepth, rejected, channels[..], buffered[..])
    }

    constructor (replicaId: nat, limit: nat)
      ensures Valid() && fresh(channels) && fresh(buffered)
      ensures this.replicaId == replicaId && View() == NewChannel(limit)
    {
      this.replicaId := replicaId;
      this.limit := if limit < 1 then 1 else limit;
      size, previousCount, selectorTotal, maxDepth, rejected := 0, 0, 0, 0, 0;
      channels := new seq<Mail>[3](_ => []);
      buffered := new seq<Mail>[3](_ => []);
      new;
      assert channels[..] == NoMail<Mail>() && buffered[..] == NoMail<Mail>();
    }

    method TrySend(p: Priority, mail: Mail) returns (sent: bool)
      requires Valid()
      modifies this, channels
      ensures Valid() && View() == TrySent(old(View()), p, [mail])
      ensures sent == HasRoom(old(View()), 1)
    {
      ghost var before := View();
      if size >= limit {
        rejected := SaturatingAdd(rejected, 1);
        return false;
      }
      channels[Index(p)] := channels[Index(p)] + [mail];
      size := size + 1;
      maxDepth := if maxDepth < size then size else maxDepth;
      WellCountedKept(before, p, [mail], 0);
      return true;
    }

    /** Admits a batch of `count` or refuses it, counting the refusal. */
    method Admit(count: nat) returns (admitted: bool)
      requires channels.Length == 3 && buffered.Length == 3
      modifies this
      ensures admitted == Admits(old(View()), count)
      ensures channels[..] == old(channels[..]) && buffered[..] == old(buffered[..])
      ensures !admitted ==> View() == Refused(old(View()), count)
      ensures admitted ==> View() == old(View()).(size := size, maxDepth := maxDepth)
      ensures admitted ==> size == old(size) + count && maxDepth == if old(maxDepth) < size then size else old(maxDepth)
    {
      if size >= limit || size + count > limit {
        rejected := SaturatingAdd(rejected, count);
        return false;
      }
      size := size + count;
      maxDepth := if maxDepth < size then size else maxDepth;
      return true;
    }

    /** One batch, also for `try_send_iter_checked`, whose length is known up front. */
    method TrySendMany(p: Priority, mails: seq<Mail>) returns (sent: bool)
      requires Valid()
      modifies this, channels
      ensures Valid() && View() == TrySent(old(View()), p, mails)
      ensures sent == HasRoom(old(View()), |mails|)
    {
      ghost var before := View();
      sent := Admit(|mails|);
      if sent {
        channels[Index(p)] := channels[Index(p)] + mails;
      }
      WellCountedKept(before, p, mails, 0);
    }

    /** Unbounded. */
    method Send(p: Priority, mail: Mail)
      requires Valid()
      modifies this, channels
      ensures Valid() && View() == Pushed(old(View()), p, [mail])
    {
      ghost var before := View();
      channels[Index(p)] := channels[Index(p)] + [mail];
      size := size + 1;
      maxDepth := if maxDepth < size then size else maxDepth;
      WellCountedKept(before, p, [mail], 0);
    }

    /** Moves every live lane behind its staged lane. */
    method Stage()
      requires channels.Length == 3 && buffered.Length == 3 && channels != buffered
      modifies channels, buffered
      ensures channels[..] == NoMail<Mail>()
      ensures buffered[..] == Joined(old(buffered[..]), old(channels[..]))
    {
      for i := 0 to 3
        invariant forall k :: 0 <= k < i ==> channels[k] == [] && buffered[k] == old(buffered[k]) + old(channels[k])
        invariant forall k :: i <= k < 3 ==> channels[k] == old(channels[k]) && buffered[k] == old(buffered[k])
      {
        buffered[i] := buffered[i] + channels[i];
        channels[i] := [];
      }
    }

    /** The second lock hold of a fetch: hands over what is staged, urgent first. */
    method Drain(out: seq<Mail>) returns (r: seq<Mail>)
      requires Valid()
      modifies buffered
      ensures Valid() && View() == Drained(old(View()))
      ensures r == out + DrainOrder(old(buffered[..]))
    {
      ghost var before := View();
      r := out;
      for i := 0 to 3
        invariant forall k :: 0 <= k < i ==> buffered[k] == []
        invariant forall k :: i <= k < 3 ==> buffered[k] == old(buffered[k])
        invariant i == 0 ==> r == out
        invariant i == 1 ==> r == out + old(buffered[0])
        invariant i == 2 ==> r == out + (old(buffered[0]) + old(buffered[1]))
        invariant i == 3 ==> r == out + (old(buffered[0]) + old(buffered[1]) + old(buffered[2]))
      {
        r := r + buffered[i];
        buffered[i] := [];
      }
      assert buffered[..] == NoMail<Mail>();
      WellCountedKept(before, Urgent, [], 0);
    }
  }
}
