/** One group's apply state (`src/applier.rs`): batches go to a handler the applier does not
    trust, which reports how far it got. The report is clamped to what the batch carried.

    The handler is an oracle: an arbitrary function of everything it was handed before and
    the batch at hand. */
module Applier {
  import opened Basics

  datatype LogEntry = LogEntry(index: nat)

  /** Entries to apply, and the last index of a snapshot to install, if any. */
  datatype ApplyTask = ApplyTask(entries: seq<LogEntry>, snapshot: Option<nat>)

  datatype ApplyReport = Reached(index: nat) | Stalled(index: nat, reason: string)

  datatype ApplyStall = ApplyStall(appliedIndex: nat, reason: string)

  datatype AppliedState = AppliedState(appliedIndex: nat, batches: nat, tasks: nat, cancelled: bool,
                                       stall: Option<ApplyStall>, overReports: nat)

  const FRESH := AppliedState(0, 0, 0, false, None, 0)

  /** One call of the handler: the batch and its answer. */
  datatype Handed = Handed(batch: seq<ApplyTask>, report: ApplyReport)

  type Handler = (seq<Handed>, seq<ApplyTask>) -> ApplyReport

  /** `matrixraft_apply_task_through_index`. */
  function ThroughIndex(task: ApplyTask): nat {
    if task.entries == [] then 0 else task.entries[|task.entries| - 1].index
  }

  /** The furthest index a task could carry its group to. */
  function Carries(task: ApplyTask): nat {
    Max(ThroughIndex(task), if task.snapshot.Some? then task.snapshot.value else 0)
  }

  /** `matrixraft_apply_batch_ceiling`: the largest of them, zero for none. */
  function Ceiling(tasks: seq<ApplyTask>): (r: nat)
    ensures forall i :: 0 <= i < |tasks| ==> Carries(tasks[i]) <= r
    ensures r > 0 ==> exists i :: 0 <= i < |tasks| && Carries(tasks[i]) == r
  {
    if tasks == [] then 0
    else
      var rest := Ceiling(tasks[1..]);
      assert forall i :: 1 <= i < |tasks| ==> tasks[i] == tasks[1..][i - 1];
      assert rest > 0 ==> exists i :: 0 <= i < |tasks[1..]| && Carries(tasks[1..][i]) == rest;
      assert forall i :: 0 <= i < |tasks[1..]| ==> tasks[1..][i] == tasks[i + 1];
      Max(Carries(tasks[0]), rest)
  }

  /** What one report is worth: never more than its batch carried. */
  function Worth(h: Handed): nat {
    Min(h.report.index, Ceiling(h.batch))
  }

  /** `apply_batch_recycling` once the handler has answered. */
  function Applied(st: AppliedState, h: Handed): AppliedState {
    var ceiling := Ceiling(h.batch);
    AppliedState(
      Max(st.appliedIndex, Min(h.report.index, ceiling)),
      st.batches + 1,
      st.tasks + |h.batch|,
      st.cancelled,
      if h.report.Stalled? then Some(ApplyStall(Min(h.report.index, ceiling), h.report.reason)) else st.stall,
      if h.report.index > ceiling then SaturatingAdd(st.overReports, 1) else st.overReports)
  }

  // ---------------------------------------------------------------------------
  // Delivering a list of tasks
  // ---------------------------------------------------------------------------

  datatype Progress = Progress(st: AppliedState, handed: seq<Handed>)

  function NextBatch(limit: nat, tasks: seq<ApplyTask>): nat
    requires limit >= 1
  {
    Min(limit, |tasks|)
  }

  function ApplyNext(g: Progress, h: Handler, batch: seq<ApplyTask>): Progress {
    var call := Handed(batch, h(g.handed, batch));
    Progress(Applied(g.st, call), g.handed + [call])
  }

  /** Consecutive batches of at most `limit`, until the tasks run out or one stalls. */
  function Batches(g: Progress, h: Handler, limit: nat, tasks: seq<ApplyTask>): Progress
    requires limit >= 1
    decreases |tasks|
  {
    if tasks == [] then g
    else
      var n := NextBatch(limit, tasks);
      var g' := ApplyNext(g, h, tasks[..n]);
      if h(g.handed, tasks[..n]).Stalled? then g' else Batches(g', h, limit, tasks[n..])
  }

  /** `handle_mail`: a group already stalled takes nothing. */
  function Delivered(g: Progress, h: Handler, limit: nat, tasks: seq<ApplyTask>): Progress {
    if g.st.stall.Some? then g else Batches(g, h, Max(limit, 1), tasks)
  }

  /** The usual delivery: everything fits one batch. */
  lemma OneBatch(g: Progress, h: Handler, limit: nat, tasks: seq<ApplyTask>)
    requires 0 < |tasks| <= limit
    ensures Batches(g, h, limit, tasks) == ApplyNext(g, h, tasks)
  {
    assert tasks[..|tasks|] == tasks && tasks[|tasks|..] == [];
    assert NextBatch(limit, tasks) == |tasks|;
  }

  class GroupApplier {
    const handler: Handler
    const batchLimit: nat
    var applied: AppliedState
    var handed: seq<Handed>

    ghost function View(): Progress
      reads this
    {
      Progress(applied, handed)
    }

    constructor (handler: Handler, batchLimit: nat)
      ensures this.handler == handler && this.batchLimit == batchLimit && View() == Progress(FRESH, [])
    {
      this.handler := handler;
      this.batchLimit := batchLimit;
      applied, handed := FRESH, [];
    }

    /** One batch: the ceiling is read before the handler takes the tasks. */
    method ApplyBatch(tasks: seq<ApplyTask>) returns (stalled: bool, reusable: seq<ApplyTask>)
      modifies this
      ensures View() == ApplyNext(old(View()), handler, tasks)
      ensures stalled == handler(old(handed), tasks).Stalled? && reusable == []
    {
      var ceiling := Ceiling(tasks);
      var report := handler(handed, tasks);
      handed := handed + [Handed(tasks, report)];
      reusable := [];
      var reached := Min(report.index, ceiling);
      if report.index > ceiling {
        applied := applied.(overReports := SaturatingAdd(applied.overReports, 1));
      }
      if reached > applied.appliedIndex {
        applied := applied.(appliedIndex := reached);
      }
      applied := applied.(batches := applied.batches + 1, tasks := applied.tasks + |tasks|);
      stalled := report.Stalled?;
      if stalled {
        applied := applied.(stall := Some(ApplyStall(Min(report.index, ceiling), report.reason)));
      }
    }

    method HandleMail(tasks: seq<ApplyTask>)
      modifies this
      ensures View() == Delivered(old(View()), handler, batchLimit, tasks)
    {
      if applied.stall.Some? || tasks == [] {
        return;
      }
      var limit := Max(batchLimit, 1);
      if |tasks| <= limit {
        OneBatch(View(), handler, limit, tasks);
        var _, _ := ApplyBatch(tasks);
        return;
      }
      var remaining := tasks;
      while true
        invariant Batches(View(), handler, limit, remaining) == Delivered(old(View()), handler, batchLimit, tasks)
        decreases |remaining|
      {
        var n := Min(limit, |remaining|);
        var batch := remaining[..n];
        if batch == [] {
          return;
        }
        var stalled, _ := ApplyBatch(batch);
        if stalled {
          return;
        }
        remaining := remaining[n..];
      }
    }

    /** The same transformer, and the buffer it gives back is empty unless the group was
        already stalled, when the tasks themselves come back. */
    method HandleMailRecycling(tasks: seq<ApplyTask>) returns (r: seq<ApplyTask>)
      modifies this
      ensures View() == Delivered(old(View()), handler, batchLimit, tasks)
      ensures r == if old(applied.stall).Some? then tasks else []
    {
      if applied.stall.Some? || tasks == [] {
        return tasks;
      }
      if |tasks| <= Max(batchLimit, 1) {
        OneBatch(View(), handler, Max(batchLimit, 1), tasks);
        var _, reusable := ApplyBatch(tasks);
        return reusable;
      }
      HandleMail(tasks);
      return [];
    }

    /** Clears a stall and says whether there was one. */
    method Resume() returns (was: bool)
      modifies this
      ensures was == old(applied.stall).Some?
      ensures View() == old(View()).(st := old(applied).(stall := None))
    {
      if applied.stall.None? {
        return false;
      }
      applied := applied.(stall := None);
      return true;
    }

    method Cancel()
      modifies this
      ensures View() == old(View()).(st := old(applied).(cancelled := true))
    {
      applied := applied.(cancelled := true);
    }
  }

  // ---------------------------------------------------------------------------
  // How a delivery is cut
  // ---------------------------------------------------------------------------

  function Flat(calls: seq<Handed>): seq<ApplyTask> {
    if calls == [] then [] else calls[0].batch + Flat(calls[1..])
  }

  /** Batches of exactly `limit`, the last possibly shorter; only the last may have stalled. */
  predicate WellCut(calls: seq<Handed>, limit: nat) {
    && (forall i :: 0 <= i < |calls| ==> 1 <= |calls[i].batch| <= limit)
    && (forall i :: 0 <= i < |calls| - 1 ==> |calls[i].batch| == limit && calls[i].report.Reached?)
  }

  lemma WellCutPrepended(call: Handed, rest: seq<Handed>, limit: nat)
    requires 1 <= |call.batch| <= limit && call.report.Reached? && WellCut(rest, limit)
    requires rest != [] ==> |call.batch| == limit
    ensures WellCut([call] + rest, limit) && Flat([call] + rest) == call.batch + Flat(rest)
  {
    var calls := [call] + rest;
    assert calls[1..] == rest;
    forall i | 0 <= i < |calls| - 1 ensures |calls[i].batch| == limit && calls[i].report.Reached? {
      if i > 0 {
        assert calls[i] == rest[i - 1];
      }
    }
  }

  lemma PrefixPrepended(tasks: seq<ApplyTask>, n: nat, rest: seq<ApplyTask>)
    requires n <= |tasks| && rest <= tasks[n..]
    ensures tasks[..n] + rest <= tasks
    ensures rest == tasks[n..] ==> tasks[..n] + rest == tasks
  {
  }

  /** The calls a delivery makes, given those before it. */
  function Calls(handed: seq<Handed>, h: Handler, limit: nat, tasks: seq<ApplyTask>): seq<Handed>
    requires limit >= 1
    decreases |tasks|
  {
    if tasks == [] then []
    else
      var n := NextBatch(limit, tasks);
      var call := Handed(tasks[..n], h(handed, tasks[..n]));
      if call.report.Stalled? then [call] else [call] + Calls(handed + [call], h, limit, tasks[n..])
  }

  lemma HandedAssoc(a: seq<Handed>, call: Handed, rest: seq<Handed>)
    ensures a + ([call] + rest) == (a + [call]) + rest
  {
  }

  lemma {:induction false} BatchesMakeCalls(g: Progress, h: Handler, limit: nat, tasks: seq<ApplyTask>)
    requires limit >= 1
    ensures Batches(g, h, limit, tasks).handed == g.handed + Calls(g.handed, h, limit, tasks)
    decreases |tasks|
  {
    if tasks != [] {
      var n := NextBatch(limit, tasks);
      var next := ApplyNext(g, h, tasks[..n]);
      var call := Handed(tasks[..n], h(g.handed, tasks[..n]));
      if !call.report.Stalled? {
        BatchesMakeCalls(next, h, limit, tasks[n..]);
        HandedAssoc(g.handed, call, Calls(next.handed, h, limit, tasks[n..]));
      }
    }
  }

  /** The calls are a proper cut of the tasks, and of all of them unless the last one stalled. */
  predicate CutOf(calls: seq<Handed>, limit: nat, tasks: seq<ApplyTask>) {
    && WellCut(calls, limit) && Flat(calls) <= tasks
    && (calls == [] || calls[|calls| - 1].report.Reached? ==> Flat(calls) == tasks)
  }

  lemma CutPrepended(call: Handed, rest: seq<Handed>, limit: nat, tasks: seq<ApplyTask>, n: nat)
    requires 1 <= n <= |tasks| && call.batch == tasks[..n] && n <= limit && call.report.Reached?
    requires CutOf(rest, limit, tasks[n..]) && (rest != [] ==> n == limit)
    ensures CutOf([call] + rest, limit, tasks)
  {
    WellCutPrepended(call, rest, limit);
    PrefixPrepended(tasks, n, Flat(rest));
    assert rest != [] ==> ([call] + rest)[|rest|] == rest[|rest| - 1];
  }

  lemma CutStalled(call: Handed, limit: nat, tasks: seq<ApplyTask>, n: nat)
    requires 1 <= n <= |tasks| && call.batch == tasks[..n] && n <= limit && call.report.Stalled?
    ensures CutOf([call], limit, tasks)
  {
    assert Flat([call]) == call.batch + Flat([]);
  }

  lemma {:induction false} CallsCut(handed: seq<Handed>, h: Handler, limit: nat, tasks: seq<ApplyTask>)
    requires limit >= 1
    ensures CutOf(Calls(handed, h, limit, tasks), limit, tasks)
    decreases |tasks|
  {
    if tasks != [] {
      var n := NextBatch(limit, tasks);
      var call := Handed(tasks[..n], h(handed, tasks[..n]));
      if call.report.Stalled? {
        CutStalled(call, limit, tasks, n);
      } else {
        CallsCut(handed + [call], h, limit, tasks[n..]);
        CutPrepended(call, Calls(handed + [call], h, limit, tasks[n..]), limit, tasks, n);
      }
    }
  }

  /** Every delivery to a group that is not stalled hands the handler consecutive batches of 1
      to `limit` tasks, all but the last exactly `limit`, whose concatenation is a prefix of the
      tasks, and all of them unless the last batch stalled. A stalled group is handed nothing. */
  lemma DeliveryCut(g: Progress, h: Handler, limit: nat, tasks: seq<ApplyTask>) returns (calls: seq<Handed>)
    ensures Delivered(g, h, limit, tasks).handed == g.handed + calls
    ensures WellCut(calls, Max(limit, 1)) && Flat(calls) <= tasks
    ensures g.st.stall.Some? ==> calls == []
    ensures g.st.stall.None? && (calls == [] || calls[|calls| - 1].report.Reached?) ==> Flat(calls) == tasks
  {
    if g.st.stall.Some? {
      calls := [];
    } else {
      calls := Calls(g.handed, h, Max(limit, 1), tasks);
      BatchesMakeCalls(g, h, Max(limit, 1), tasks);
      CallsCut(g.handed, h, Max(limit, 1), tasks);
    }
  }

  // ---------------------------------------------------------------------------
  // What the applied index means
  // ---------------------------------------------------------------------------

  function BestWorth(calls: seq<Handed>): nat {
    if calls == [] then 0 else Max(BestWorth(calls[..|calls| - 1]), Worth(calls[|calls| - 1]))
  }

  /** It is the largest worth of any call, zero for none. */
  lemma {:induction false} BestWorthIsMax(calls: seq<Handed>)
    ensures forall b :: 0 <= b < |calls| ==> Worth(calls[b]) <= BestWorth(calls)
    ensures BestWorth(calls) > 0 ==> exists b :: 0 <= b < |calls| && Worth(calls[b]) == BestWorth(calls)
  {
    if calls != [] {
      var n := |calls| - 1;
      BestWorthIsMax(calls[..n]);
      assert forall b :: 0 <= b < n ==> calls[..n][b] == calls[b];
      if 0 < BestWorth(calls) == BestWorth(calls[..n]) {
        var b :| 0 <= b < n && Worth(calls[..n][b]) == BestWorth(calls[..n]);
        assert Worth(calls[b]) == BestWorth(calls);
      }
    }
  }

  function OverCount(calls: seq<Handed>): nat {
    if calls == [] then 0
    else OverCount(calls[..|calls| - 1])
         + (var last := calls[|calls| - 1]; if last.report.index > Ceiling(last.batch) then 1 else 0)
  }

  function TaskCount(calls: seq<Handed>): nat {
    if calls == [] then 0 else TaskCount(calls[..|calls| - 1]) + |calls[|calls| - 1].batch|
  }

  /** The state is exactly what the calls so far justify. */
  predicate Justified(st: AppliedState, calls: seq<Handed>) {
    && st.appliedIndex == BestWorth(calls)
    && st.batches == |calls| && st.tasks == TaskCount(calls)
    && st.overReports == Min(OverCount(calls), U64_MAX)
    && (st.stall.Some? ==> st.stall.value.appliedIndex <= st.appliedIndex)
  }

  lemma AppliedJustified(st: AppliedState, calls: seq<Handed>, h: Handed)
    requires Justified(st, calls)
    ensures Justified(Applied(st, h), calls + [h])
  {
    assert (calls + [h])[..|calls|] == calls;
  }

  /** No clamped report is worth an index that no task of its batch reached. */
  lemma {:induction false} BestWorthCovered(calls: seq<Handed>, i: nat)
    requires 0 < i <= BestWorth(calls)
    ensures exists b, k :: 0 <= b < |calls| && 0 <= k < |calls[b].batch|
              && calls[b].report.index >= i && Carries(calls[b].batch[k]) >= i
  {
    var n := |calls| - 1;
    if Worth(calls[n]) >= i {
      var k :| 0 <= k < |calls[n].batch| && Carries(calls[n].batch[k]) == Ceiling(calls[n].batch);
      assert calls[n].report.index >= i && Carries(calls[n].batch[k]) >= i;
    } else {
      BestWorthCovered(calls[..n], i);
      var b, k :| 0 <= b < n && 0 <= k < |calls[..n][b].batch|
        && calls[..n][b].report.index >= i && Carries(calls[..n][b].batch[k]) >= i;
      assert calls[..n][b] == calls[b];
    }
  }

  // ---------------------------------------------------------------------------
  // Any run of deliveries, resumes and cancels
  // ---------------------------------------------------------------------------

  datatype Event = Mail(tasks: seq<ApplyTask>) | Resume | Cancel

  function Handle(g: Progress, h: Handler, limit: nat, e: Event): Progress {
    match e
    case Mail(tasks) => Delivered(g, h, limit, tasks)
    case Resume => g.(st := g.st.(stall := None))
    case Cancel => g.(st := g.st.(cancelled := true))
  }

  function HandleAll(g: Progress, h: Handler, limit: nat, events: seq<Event>): Progress
    decreases |events|
  {
    if events == [] then g else HandleAll(Handle(g, h, limit, events[0]), h, limit, events[1..])
  }

  lemma {:induction false} BatchesJustified(g: Progress, h: Handler, limit: nat, tasks: seq<ApplyTask>)
    requires limit >= 1 && Justified(g.st, g.handed)
    ensures var g' := Batches(g, h, limit, tasks);
            Justified(g'.st, g'.handed) && g.st.appliedIndex <= g'.st.appliedIndex
    decreases |tasks|
  {
    if tasks != [] {
      var n := NextBatch(limit, tasks);
      AppliedJustified(g.st, g.handed, Handed(tasks[..n], h(g.handed, tasks[..n])));
      if !h(g.handed, tasks[..n]).Stalled? {
        BatchesJustified(ApplyNext(g, h, tasks[..n]), h, limit, tasks[n..]);
      }
    }
  }

  /** With an arbitrary handler, after any run: the applied index is the best clamped report,
      the counters count exactly, a recorded stall is at or below it, and it never fell. */
  lemma {:induction false} RunJustified(g: Progress, h: Handler, limit: nat, events: seq<Event>)
    requires Justified(g.st, g.handed)
    ensures var g' := HandleAll(g, h, limit, events);
            Justified(g'.st, g'.handed) && g.st.appliedIndex <= g'.st.appliedIndex
    decreases |events|
  {
    if events != [] {
      if events[0].Mail? {
        BatchesJustified(g, h, Max(limit, 1), events[0].tasks);
      }
      RunJustified(Handle(g, h, limit, events[0]), h, limit, events[1..]);
    }
  }

  /** After a stall nothing reaches the handler, and nothing but the cancel mark changes, until
      the group is resumed. */
  lemma {:induction false} StalledUntilResumed(g: Progress, h: Handler, limit: nat, events: seq<Event>)
    requires g.st.stall.Some? && Resume !in events
    ensures var g' := HandleAll(g, h, limit, events);
            g'.handed == g.handed && g'.st == g.st.(cancelled := g'.st.cancelled)
    decreases |events|
  {
    if events != [] {
      assert events[0] in events;
      assert forall e :: e in events[1..] ==> e in events;
      StalledUntilResumed(Handle(g, h, limit, events[0]), h, limit, events[1..]);
    }
  }

  // ---------------------------------------------------------------------------
  // When a group is stalled
  // ---------------------------------------------------------------------------

  /** What happened to a group, in order: calls of the handler, and resumes. */
  datatype Mark = Called(call: Handed) | Resumed

  predicate StalledAt(trace: seq<Mark>, i: nat)
    requires i < |trace|
  {
    trace[i].Called? && trace[i].call.report.Stalled?
  }

  predicate ResumedBetween(trace: seq<Mark>, i: nat, j: nat)
    requires j <= |trace|
  {
    exists k :: i < k < j && trace[k].Resumed?
  }

  /** The group is stalled exactly if a call stalled since the last resume, and then where that
      call got, as far as its batch carried, and for its reason. */
  ghost predicate StallExact(stall: Option<ApplyStall>, trace: seq<Mark>) {
    && (stall.Some? <==> exists i :: 0 <= i < |trace| && StalledAt(trace, i) && !ResumedBetween(trace, i, |trace|))
    && forall i :: 0 <= i < |trace| && StalledAt(trace, i) && !ResumedBetween(trace, i, |trace|) ==>
         var call := trace[i].call;
         stall == Some(ApplyStall(Min(call.report.index, Ceiling(call.batch)), call.report.reason))
  }

  /** No call follows a stalled one without a resume between them. */
  ghost predicate Heeded(trace: seq<Mark>) {
    forall i, j :: 0 <= i < j < |trace| && StalledAt(trace, i) && trace[j].Called? ==> ResumedBetween(trace, i, j)
  }

  lemma ResumesKept(trace: seq<Mark>, mark: Mark, i: nat, j: nat)
    requires i < j <= |trace|
    ensures ResumedBetween(trace + [mark], i, j) == ResumedBetween(trace, i, j)
    ensures ResumedBetween(trace + [mark], i, |trace| + 1) == (ResumedBetween(trace, i, |trace|) || mark.Resumed?)
  {
    var longer := trace + [mark];
    assert forall k :: 0 <= k < |trace| ==> longer[k] == trace[k];
    if ResumedBetween(trace, i, j) {
      var k :| i < k < j && trace[k].Resumed?;
      assert longer[k].Resumed?;
    }
    if ResumedBetween(trace, i, |trace|) {
      var k :| i < k < |trace| && trace[k].Resumed?;
      assert longer[k].Resumed?;
    }
    if mark.Resumed? {
      assert longer[|trace|].Resumed?;
    }
  }

  lemma MarkHeeded(stall: Option<ApplyStall>, trace: seq<Mark>, mark: Mark)
    requires StallExact(stall, trace) && Heeded(trace) && (mark.Called? ==> stall.None?)
    ensures Heeded(trace + [mark])
  {
    var longer := trace + [mark];
    forall i, j | 0 <= i < j < |longer| && StalledAt(longer, i) && longer[j].Called?
      ensures ResumedBetween(longer, i, j)
    {
      assert StalledAt(trace, i);
      ResumesKept(trace, mark, i, j);
    }
  }

  lemma CalledExact(trace: seq<Mark>, call: Handed)
    requires StallExact(None, trace)
    ensures StallExact(StallOf(call), trace + [Called(call)])
  {
    var n, longer := |trace|, trace + [Called(call)];
    forall i | 0 <= i < n && StalledAt(longer, i) ensures ResumedBetween(longer, i, n + 1) {
      assert StalledAt(trace, i);
      ResumesKept(trace, Called(call), i, n);
    }
    assert !ResumedBetween(longer, n, n + 1);
    assert StalledAt(longer, n) == call.report.Stalled?;
  }

  lemma ResumedExact(trace: seq<Mark>)
    ensures StallExact(None, trace + [Resumed])
  {
    var n, longer := |trace|, trace + [Resumed];
    forall i | 0 <= i < n + 1 && StalledAt(longer, i) ensures ResumedBetween(longer, i, n + 1) {
      ResumesKept(trace, Resumed, i, n);
    }
  }

  // The same, one mark at a time.

  function StallOf(call: Handed): Option<ApplyStall> {
    if call.report.Stalled? then Some(ApplyStall(Worth(call), call.report.reason)) else None
  }

  function StallAfter(trace: seq<Mark>): Option<ApplyStall> {
    if trace == [] || trace[|trace| - 1].Resumed? then None
    else if trace[|trace| - 1].call.report.Stalled? then StallOf(trace[|trace| - 1].call)
    else StallAfter(trace[..|trace| - 1])
  }

  predicate Calm(trace: seq<Mark>) {
    trace == []
    || (Calm(trace[..|trace| - 1]) && (trace[|trace| - 1].Called? ==> StallAfter(trace[..|trace| - 1]) == None))
  }

  lemma MarkAppended(trace: seq<Mark>, mark: Mark)
    requires Calm(trace) && (mark.Called? ==> StallAfter(trace) == None)
    ensures Calm(trace + [mark])
    ensures StallAfter(trace + [mark]) == if mark.Resumed? then None else StallOf(mark.call)
  {
    assert (trace + [mark])[..|trace|] == trace;
  }

  lemma {:induction false} CalmIsExact(trace: seq<Mark>)
    requires Calm(trace)
    ensures StallExact(StallAfter(trace), trace) && Heeded(trace)
  {
    if trace != [] {
      var n := |trace| - 1;
      var before, mark := trace[..n], trace[n];
      assert trace == before + [mark];
      CalmIsExact(before);
      MarkAppended(before, mark);
      MarkHeeded(StallAfter(before), before, mark);
      if mark.Resumed? { ResumedExact(before); } else { CalledExact(before, mark.call); }
    }
  }

  /** `trace`, and then these calls. */
  function WithCalls(trace: seq<Mark>, calls: seq<Handed>): seq<Mark>
    decreases |calls|
  {
    if calls == [] then trace else WithCalls(trace + [Called(calls[0])], calls[1..])
  }

  /** `trace`, and then what the event did: a resume, or the calls it made. */
  function WithEvent(trace: seq<Mark>, g: Progress, h: Handler, limit: nat, e: Event): seq<Mark> {
    var handed := Handle(g, h, limit, e).handed;
    if e.Resume? then trace + [Resumed]
    else if |g.handed| <= |handed| then WithCalls(trace, handed[|g.handed|..])
    else trace
  }

  function Trace(trace: seq<Mark>, g: Progress, h: Handler, limit: nat, events: seq<Event>): seq<Mark>
    decreases |events|
  {
    if events == [] then trace
    else Trace(WithEvent(trace, g, h, limit, events[0]), Handle(g, h, limit, events[0]), h, limit, events[1..])
  }

  /** The calls a delivery makes keep the state's stall what the marks say. */
  lemma {:induction false} CallsCalm(g: Progress, h: Handler, limit: nat, tasks: seq<ApplyTask>, trace: seq<Mark>)
    requires limit >= 1 && Calm(trace) && StallAfter(trace) == g.st.stall == None
    ensures var marks := WithCalls(trace, Calls(g.handed, h, limit, tasks));
            Calm(marks) && StallAfter(marks) == Batches(g, h, limit, tasks).st.stall
    decreases |tasks|
  {
    if tasks != [] {
      var n := NextBatch(limit, tasks);
      var g1 := ApplyNext(g, h, tasks[..n]);
      var call := Handed(tasks[..n], h(g.handed, tasks[..n]));
      assert g1.handed == g.handed + [call] && g1.st.stall == StallOf(call);
      MarkAppended(trace, Called(call));
      if !call.report.Stalled? {
        CallsCalm(g1, h, limit, tasks[n..], trace + [Called(call)]);
        var rest := Calls(g1.handed, h, limit, tasks[n..]);
        assert ([call] + rest)[0] == call && ([call] + rest)[1..] == rest;
      }
    }
  }

  lemma EventCalm(g: Progress, h: Handler, limit: nat, e: Event, trace: seq<Mark>)
    requires Calm(trace) && StallAfter(trace) == g.st.stall
    ensures var marks := WithEvent(trace, g, h, limit, e);
            Calm(marks) && StallAfter(marks) == Handle(g, h, limit, e).st.stall
  {
    match e
    case Resume => MarkAppended(trace, Resumed);
    case Cancel => assert g.handed[|g.handed|..] == [];
    case Mail(tasks) =>
      if g.st.stall.Some? {
        assert g.handed[|g.handed|..] == [];
      } else {
        BatchesMakeCalls(g, h, Max(limit, 1), tasks);
        var calls := Calls(g.handed, h, Max(limit, 1), tasks);
        assert (g.handed + calls)[|g.handed|..] == calls;
        CallsCalm(g, h, Max(limit, 1), tasks, trace);
      }
  }

  lemma {:induction false} EventsCalm(g: Progress, h: Handler, limit: nat, events: seq<Event>, trace: seq<Mark>)
    requires Calm(trace) && StallAfter(trace) == g.st.stall
    ensures var marks := Trace(trace, g, h, limit, events);
            Calm(marks) && StallAfter(marks) == HandleAll(g, h, limit, events).st.stall
    decreases |events|
  {
    if events != [] {
      EventCalm(g, h, limit, events[0], trace);
      EventsCalm(Handle(g, h, limit, events[0]), h, limit, events[1..], WithEvent(trace, g, h, limit, events[0]));
    }
  }

  /** After any run from a new group with any handler: the group is stalled exactly when a call
      stalled since the last resume, at that call's clamped report and for its reason; and no
      call was made after a stalled one without a resume between. */
  lemma StallsHeeded(h: Handler, limit: nat, events: seq<Event>)
    ensures var start := Progress(FRESH, []);
            var trace := Trace([], start, h, limit, events);
            StallExact(HandleAll(start, h, limit, events).st.stall, trace) && Heeded(trace)
  {
    var start := Progress(FRESH, []);
    EventsCalm(start, h, limit, events, []);
    CalmIsExact(Trace([], start, h, limit, events));
  }

  // ---------------------------------------------------------------------------
  // What a batch carries
  // ---------------------------------------------------------------------------

  /** Entries come in log order. */
  predicate InOrder(task: ApplyTask) {
    forall i, j :: 0 <= i < j < |task.entries| ==> task.entries[i].index <= task.entries[j].index
  }

  /** The task holds an entry, or a snapshot up to, this index. */
  predicate Brings(task: ApplyTask, index: nat) {
    (exists i :: 0 <= i < |task.entries| && task.entries[i].index == index) || task.snapshot == Some(index)
  }

  lemma CarriesFurthest(task: ApplyTask, index: nat)
    requires InOrder(task)
    ensures Brings(task, index) ==> index <= Carries(task)
    ensures Carries(task) > 0 ==> Brings(task, Carries(task))
  {
    if task.entries != [] {
      var last := |task.entries| - 1;
      assert task.entries[last].index == ThroughIndex(task);
    }
  }

  /** The ceiling of a batch in log order is the furthest index any of its entries or snapshots
      brings. */
  lemma CeilingIsFurthest(tasks: seq<ApplyTask>, k: nat, index: nat)
    requires forall i :: 0 <= i < |tasks| ==> InOrder(tasks[i])
    ensures k < |tasks| && Brings(tasks[k], index) ==> index <= Ceiling(tasks)
    ensures Ceiling(tasks) > 0 ==> exists i :: 0 <= i < |tasks| && Brings(tasks[i], Ceiling(tasks))
  {
    if k < |tasks| {
      CarriesFurthest(tasks[k], index);
    }
    if Ceiling(tasks) > 0 {
      var i :| 0 <= i < |tasks| && Carries(tasks[i]) == Ceiling(tasks);
      CarriesFurthest(tasks[i], index);
    }
  }
}
