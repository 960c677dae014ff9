/** The multi-channel selector (`src/channel_selector.rs`): which channels are active, in
    what order they will be handed to workers, mail for no channel in particular, and a
    running total of mail counts. */
module ChannelSelectors {
  import opened Basics
  import opened MailChannels

  /** `list` holds replica ids in hand-out order. */
  datatype Selector<Mail> = Selector(total: int, active: set<nat>, list: seq<nat>, globals: seq<Mail>)

  function NewSelector<Mail>(): Selector<Mail> {
    Selector(0, {}, [], [])
  }

  predicate Ready<Mail>(s: Selector<Mail>) {
    s.list != [] || |s.globals| > 0
  }

  function Fired<Mail>(s: Selector<Mail>, id: nat): Selector<Mail> {
    if id in s.active then s else s.(active := s.active + {id}, list := s.list + [id])
  }

  /** `rearrange`: fires each channel of `input` in order, without waking anyone. */
  function Rearranged<Mail>(s: Selector<Mail>, input: seq<nat>): Selector<Mail>
    decreases |input|
  {
    if input == [] then s else Rearranged(Fired(s, input[0]), input[1..])
  }

  /** How many channels one select pops: it asks the active set, and stops at the list. */
  function TakeCount<Mail>(s: Selector<Mail>, limit: nat): (n: nat)
    ensures n <= |s.list|
  {
    var count := if limit < |s.active| then limit else |s.active|;
    if count < |s.list| then count else |s.list|
  }

  function Elements(ids: seq<nat>): (e: set<nat>)
    ensures forall i :: i in e <==> i in ids
  {
    set i | i in ids
  }

  /** The selector after a select has taken its share. */
  function Taken<Mail>(s: Selector<Mail>, limit: nat): Selector<Mail> {
    var n := TakeCount(s, limit);
    s.(globals := [], list := s.list[n..], active := s.active - Elements(s.list[..n]))
  }

  // ---------------------------------------------------------------------------
  // Waiting for work
  // ---------------------------------------------------------------------------

  /** A timeout of zero, a finite one, or the largest, which means none. */
  datatype Patience = Now | Timed | Forever

  predicate Waits<Mail>(s: Selector<Mail>, patience: Patience, expired: bool) {
    !Ready(s) && patience != Now && !(patience == Timed && expired)
  }

  /** What a wait on the condition variable came back to: the selector as other threads left it,
      and whether the time was up by then. */
  datatype Wake<Mail> = Wake(found: Selector<Mail>, expired: bool)

  /** The selector a select goes on with, or `None` if it is still waiting after these wakes. */
  function Waited<Mail>(s: Selector<Mail>, patience: Patience, expired: bool, wakes: seq<Wake<Mail>>): Option<Selector<Mail>>
    decreases |wakes|
  {
    if !Waits(s, patience, expired) then Some(s)
    else if wakes == [] then None
    else Waited(wakes[0].found, patience, wakes[0].expired, wakes[1..])
  }

  /** A select without a timeout comes back with ready work, however often it was woken for
      nothing; any other comes back with none only when its time was up. */
  lemma {:induction false} WaitedForWork<Mail>(s: Selector<Mail>, patience: Patience, expired: bool, wakes: seq<Wake<Mail>>)
    requires Waited(s, patience, expired, wakes).Some?
    ensures var r := Waited(s, patience, expired, wakes).value;
            || Ready(r) || patience == Now
            || (patience == Timed && (expired || exists i :: 0 <= i < |wakes| && wakes[i].expired && wakes[i].found == r))
    decreases |wakes|
  {
    if Waits(s, patience, expired) {
      WaitedForWork(wakes[0].found, patience, wakes[0].expired, wakes[1..]);
      var r := Waited(s, patience, expired, wakes).value;
      if i :| 0 <= i < |wakes[1..]| && wakes[1..][i].expired && wakes[1..][i].found == r {
        assert wakes[i + 1].expired && wakes[i + 1].found == r;
      } else if wakes[0].expired {
        assert !Ready(r) && patience == Timed ==> r == wakes[0].found;
      }
    }
  }

  /** What a select sees each time it looks: first at `s`, then at what each wake found. */
  function Seen<Mail>(s: Selector<Mail>, wakes: seq<Wake<Mail>>, k: nat): Selector<Mail>
    requires k <= |wakes|
  {
    if k == 0 then s else wakes[k - 1].found
  }

  function Late<Mail>(expired: bool, wakes: seq<Wake<Mail>>, k: nat): bool
    requires k <= |wakes|
  {
    if k == 0 then expired else wakes[k - 1].expired
  }

  /** It goes on at the k-th look: there is work, or the timeout is zero, or it is finite and over. */
  predicate GoesOn<Mail>(s: Selector<Mail>, patience: Patience, expired: bool, wakes: seq<Wake<Mail>>, k: nat)
    requires k <= |wakes|
  {
    || Seen(s, wakes, k).list != [] || |Seen(s, wakes, k).globals| > 0
    || patience == Now || (patience == Timed && Late(expired, wakes, k))
  }

  /** A select goes on with what it sees at the first look that allows it, and waits until then: with
      a zero timeout that is the first, and a timed one does not outlast its time. */
  lemma {:induction false} GoesOnAtFirst<Mail>(s: Selector<Mail>, patience: Patience, expired: bool, wakes: seq<Wake<Mail>>)
    ensures match Waited(s, patience, expired, wakes)
            case None => forall k :: 0 <= k <= |wakes| ==> !GoesOn(s, patience, expired, wakes, k)
            case Some(r) =>
              exists k :: 0 <= k <= |wakes| && GoesOn(s, patience, expired, wakes, k) && r == Seen(s, wakes, k)
                && forall i :: 0 <= i < k ==> !GoesOn(s, patience, expired, wakes, i)
    decreases |wakes|
  {
    if !Waits(s, patience, expired) {
      assert GoesOn(s, patience, expired, wakes, 0);
    } else {
      assert !GoesOn(s, patience, expired, wakes, 0);
      if wakes != [] {
        var next, late, rest := wakes[0].found, wakes[0].expired, wakes[1..];
        GoesOnAtFirst(next, patience, late, rest);
        LaterLooks(s, patience, expired, wakes);
        if Waited(next, patience, late, rest).Some? {
          var k :| 0 <= k <= |rest| && GoesOn(next, patience, late, rest, k)
            && Waited(next, patience, late, rest).value == Seen(next, rest, k)
            && forall i :: 0 <= i < k ==> !GoesOn(next, patience, late, rest, i);
          assert GoesOn(s, patience, expired, wakes, k + 1);
          forall i | 0 <= i < k + 1 ensures !GoesOn(s, patience, expired, wakes, i) {
            if i > 0 {
              assert !GoesOn(next, patience, late, rest, i - 1);
            }
          }
        } else {
          forall k | 0 <= k <= |wakes| ensures !GoesOn(s, patience, expired, wakes, k) {
            if k > 0 {
              assert !GoesOn(next, patience, late, rest, k - 1);
            }
          }
        }
      }
    }
  }

  /** The looks after the first are the looks of what follows the first wake. */
  lemma LaterLooks<Mail>(s: Selector<Mail>, patience: Patience, expired: bool, wakes: seq<Wake<Mail>>)
    requires wakes != []
    ensures forall k :: 0 <= k <= |wakes| - 1 ==>
              && Seen(s, wakes, k + 1) == Seen(wakes[0].found, wakes[1..], k)
              && GoesOn(s, patience, expired, wakes, k + 1)
                 == GoesOn(wakes[0].found, patience, wakes[0].expired, wakes[1..], k)
  {
  }

  // ---------------------------------------------------------------------------
  // The active set and the list always agree
  // ---------------------------------------------------------------------------

  predicate NoRepeats(ids: seq<nat>) {
    forall i, j :: 0 <= i < j < |ids| ==> ids[i] != ids[j]
  }

  predicate Consistent<Mail>(s: Selector<Mail>) {
    NoRepeats(s.list) && s.active == Elements(s.list)
  }

  lemma {:induction false} ElementsCount(ids: seq<nat>)
    requires NoRepeats(ids)
    ensures |Elements(ids)| == |ids|
  {
    if ids != [] {
      ElementsCount(ids[1..]);
      assert Elements(ids) == Elements(ids[1..]) + {ids[0]};
    } else {
      assert Elements(ids) == {};
    }
  }

  lemma FiredConsistent<Mail>(s: Selector<Mail>, id: nat)
    requires Consistent(s)
    ensures Consistent(Fired(s, id)) && id in Fired(s, id).list && s.list <= Fired(s, id).list
  {
  }

  /** Rearranging only appends: everything already listed keeps its place, every input is
      listed, and nothing else is. */
  lemma {:induction false} RearrangedAppends<Mail>(s: Selector<Mail>, input: seq<nat>)
    requires Consistent(s)
    ensures var r := Rearranged(s, input);
            && Consistent(r) && s.list <= r.list && r.globals == s.globals && r.total == s.total
            && (forall id :: id in r.list <==> id in s.list || id in input)
    decreases |input|
  {
    if input != [] {
      FiredConsistent(s, input[0]);
      RearrangedAppends(Fired(s, input[0]), input[1..]);
    }
  }

  /** A select returns exactly the first `min(limit, active)` channels, and its flag says
      exactly whether any remain. */
  lemma TakenExact<Mail>(s: Selector<Mail>, limit: nat)
    requires Consistent(s)
    ensures TakeCount(s, limit) == if limit < |s.list| then limit else |s.list|
    ensures Consistent(Taken(s, limit))
    ensures Taken(s, limit).active != {} <==> limit < |s.list|
  {
    ElementsCount(s.list);
    var n := TakeCount(s, limit);
    var rest := Taken(s, limit);
    assert s.list == s.list[..n] + s.list[n..];
    forall id | id in rest.list ensures id in rest.active {
      var k :| 0 <= k < |rest.list| && rest.list[k] == id;
      assert s.list[n + k] == id;
      assert forall j :: 0 <= j < n ==> s.list[j] != s.list[n + k];
    }
    assert rest.active == Elements(rest.list);
    if limit < |s.list| {
      assert rest.list[0] in rest.active;
    }
  }

  // ---------------------------------------------------------------------------
  // The selector the code updates in place
  // ---------------------------------------------------------------------------

  function Ids<Mail>(channels: seq<MailChannel<Mail>>): (ids: seq<nat>)
    ensures |ids| == |channels| && forall i :: 0 <= i < |ids| ==> ids[i] == channels[i].replicaId
  {
    seq(|channels|, i requires 0 <= i < |channels| => channels[i].replicaId)
  }

  /** A selector's fields, as a wait may find them. */
  datatype Found<Mail> = Found(total: int, active: set<nat>, list: seq<MailChannel<Mail>>, globals: seq<Mail>) {
    function View(): Selector<Mail> {
      Selector(total, active, Ids(list), globals)
    }
  }

  datatype Woke<Mail> = Woke(found: Found<Mail>, expired: bool)

  function Wakes<Mail>(wakes: seq<Woke<Mail>>): (r: seq<Wake<Mail>>)
    ensures |r| == |wakes|
  {
    seq(|wakes|, i requires 0 <= i < |wakes| => Wake(wakes[i].found.View(), wakes[i].expired))
  }

  class ChannelSelector<Mail> {
    var totalMailCount: int
    var activeChannels: set<nat>
    var channelList: seq<MailChannel<Mail>>
    var globalMails: seq<Mail>

    ghost function View(): Selector<Mail>
      reads this
    {
      Selector(totalMailCount, activeChannels, Ids(channelList), globalMails)
    }

    ghost predicate Valid()
      reads this
    {
      Consistent(View())
    }

    constructor ()
      ensures Valid() && View() == NewSelector()
    {
      totalMailCount, activeChannels, channelList, globalMails := 0, {}, [], [];
    }

    method SendGlobal(mail: Mail)
      modifies this
      ensures View() == old(View()).(globals := old(globalMails) + [mail])
      ensures channelList == old(channelList)
    {
      globalMails := globalMails + [mail];
    }

    /** True, and a wake is due, exactly when the channel was not active. */
    method Fire(channel: MailChannel<Mail>) returns (fired: bool)
      requires Valid()
      modifies this
      ensures Valid() && View() == Fired(old(View()), channel.replicaId)
      ensures fired == (channel.replicaId !in old(activeChannels))
      ensures channelList == if fired then old(channelList) + [channel] else old(channelList)
    {
      FiredConsistent(View(), channel.replicaId);
      if channel.replicaId in activeChannels {
        return false;
      }
      activeChannels := activeChannels + {channel.replicaId};
      channelList := channelList + [channel];
      assert Ids(channelList) == old(Ids(channelList)) + [channel.replicaId];
      return true;
    }

    method Rearrange(input: seq<MailChannel<Mail>>)
      requires Valid()
      modifies this
      ensures Valid() && View() == Rearranged(old(View()), Ids(input))
    {
      var i := 0;
      while i < |input|
        invariant i <= |input| && Valid()
        invariant Rearranged(View(), Ids(input)[i..]) == Rearranged(old(View()), Ids(input))
      {
        assert Ids(input)[i..][0] == input[i].replicaId && Ids(input)[i..][1..] == Ids(input)[i + 1..];
        var _ := Fire(input[i]);
        i := i + 1;
      }
    }

    /** Pops `count` channels off the front of the list. */
    method PopChannels(count: nat, channels0: seq<MailChannel<Mail>>) returns (channels: seq<MailChannel<Mail>>)
      requires count <= |channelList|
      modifies this`channelList, this`activeChannels
      ensures channelList == old(channelList)[count..] && channels == channels0 + old(channelList)[..count]
      ensures activeChannels == old(activeChannels) - Elements(Ids(old(channelList))[..count])
    {
      channels := channels0;
      ghost var ids := Ids(channelList);
      var n := 0;
      while n < count
        invariant n <= count
        invariant channelList == old(channelList)[n..] && channels == channels0 + old(channelList)[..n]
        invariant activeChannels == old(activeChannels) - Elements(ids[..n])
      {
        var channel := channelList[0];
        assert ids[..n + 1] == ids[..n] + [channel.replicaId];
        channelList := channelList[1..];
        activeChannels := activeChannels - {channel.replicaId};
        channels := channels + [channel];
        n := n + 1;
      }
    }

    /** The part of a select that follows any waiting: drains the global mail and pops up to
        `limit` channels, appending to the two lent buffers. */
    method TakeReady(limit: nat, channels0: seq<MailChannel<Mail>>, globals0: seq<Mail>)
      returns (channels: seq<MailChannel<Mail>>, globals: seq<Mail>, left: bool)
      requires Valid()
      modifies this
      ensures Valid() && View() == Taken(old(View()), limit)
      ensures globals == globals0 + old(globalMails)
      ensures TakeCount(old(View()), limit) <= |old(channelList)|
      ensures channels == channels0 + old(channelList)[..TakeCount(old(View()), limit)]
      ensures left == (limit < |old(channelList)|)
    {
      ghost var before := View();
      TakenExact(before, limit);
      ElementsCount(before.list);
      globals := globals0 + globalMails;
      globalMails := [];
      var count := if limit < |activeChannels| then limit else |activeChannels|;
      assert count == TakeCount(before, limit);
      channels := PopChannels(count, channels0);
      assert Ids(channelList) == before.list[count..];
      assert View() == Taken(before, limit);
      left := activeChannels != {};
    }

    method Become(found: Found<Mail>)
      modifies this
      ensures View() == found.View() && channelList == found.list
    {
      totalMailCount, activeChannels, channelList, globalMails := found.total, found.active, found.list, found.globals;
    }

    /** The waiting part of a select. Each wait gives the lock up and comes back to what other
        threads left. False if the wakes run out before there is work or the time is up. */
    method AwaitWork(patience: Patience, expired: bool, wakes: seq<Woke<Mail>>) returns (done: bool)
      requires Valid() && forall i :: 0 <= i < |wakes| ==> Consistent(wakes[i].found.View())
      modifies this
      ensures Valid()
      ensures var r := Waited(old(View()), patience, expired, Wakes(wakes));
              done == r.Some? && (done ==> View() == r.value)
    {
      var i, late := 0, expired;
      while !(channelList != [] || |globalMails| > 0) && patience != Now && !(patience == Timed && late)
        invariant i <= |wakes| && Valid()
        invariant Waited(View(), patience, late, Wakes(wakes)[i..]) == Waited(old(View()), patience, expired, Wakes(wakes))
        decreases |wakes| - i
      {
        if i == |wakes| {
          return false;
        }
        assert Wakes(wakes)[i..][0] == Wakes(wakes)[i] && Wakes(wakes)[i..][1..] == Wakes(wakes)[i + 1..];
        Become(wakes[i].found);
        late := wakes[i].expired;
        i := i + 1;
      }
      return true;
    }

    /** `select_into`: rearrange, wait for work as long as the policy says, and take it. It has not
        returned if the wakes run out first. */
    method SelectInto(limit: nat, patience: Patience, expired: bool, input: seq<MailChannel<Mail>>, wakes: seq<Woke<Mail>>)
      returns (returned: bool, channels: seq<MailChannel<Mail>>, globals: seq<Mail>, left: bool)
      requires Valid() && forall i :: 0 <= i < |wakes| ==> Consistent(wakes[i].found.View())
      modifies this
      ensures Valid()
      ensures var r := Waited(Rearranged(old(View()), Ids(input)), patience, expired, Wakes(wakes));
              && returned == r.Some?
              && (returned ==>
                    && View() == Taken(r.value, limit) && globals == r.value.globals
                    && Ids(channels) == r.value.list[..TakeCount(r.value, limit)]
                    && left == (limit < |r.value.list|))
    {
      Rearrange(input);
      returned := AwaitWork(patience, expired, wakes);
      channels, globals, left := [], [], false;
      if returned {
        ghost var list, n := channelList, TakeCount(View(), limit);
        channels, globals, left := TakeReady(limit, [], []);
        assert channels == list[..n];
        assert Ids(channels) == Ids(list)[..n];
      }
    }

    method AddTotalMailCount(diff: int) returns (total: int)
      modifies this
      ensures View() == old(View()).(total := old(totalMailCount) + diff)
      ensures channelList == old(channelList) && total == totalMailCount
    {
      totalMailCount := totalMailCount + diff;
      total := totalMailCount;
    }

    /** The first lock hold of a fetch. The selector's lock is taken inside the channel's. */
    method Consume(channel: MailChannel<Mail>)
      requires channel.Valid()
      modifies this, channel, channel.channels, channel.buffered
      ensures channel.Valid()
      ensures View() == old(View()).(total := old(totalMailCount) + CountChange(old(channel.View())))
      ensures channel.View() == Consumed(old(channel.View()), totalMailCount)
      ensures channelList == old(channelList)
    {
      ghost var before := channel.View();
      var numMails: int := channel.size;
      var diff := numMails - channel.previousCount;
      channel.previousCount := numMails;
      channel.selectorTotal := AddTotalMailCount(diff);
      channel.size := 0;
      channel.Stage();
      WellCountedKept(before, Urgent, [], totalMailCount);
    }

    /** Consume, then drain: everything queued or staged, urgent first, oldest first. */
    method FetchInto(channel: MailChannel<Mail>, out: seq<Mail>) returns (r: seq<Mail>)
      requires channel.Valid()
      modifies this, channel, channel.channels, channel.buffered
      ensures channel.Valid()
      ensures View() == old(View()).(total := old(totalMailCount) + CountChange(old(channel.View())))
      ensures channel.View() == Drained(Consumed(old(channel.View()), totalMailCount))
      ensures r == out + Fetched(old(channel.View()))
    {
      Consume(channel);
      r := channel.Drain(out);
    }
  }
}
