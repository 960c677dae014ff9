/** Latency percentiles and the shape of a benchmark sample (`src/benchmark.rs`).

    A run times its operations in nanoseconds; the microsecond figures are derived from the
    same series. A validator then checks the assembled sample. Floating-point figures are
    reals here; the float rank of a percentile is an arbitrary function of the percentage and
    the last index, required only to grow with the percentage. */
module Benchmark {
  import opened Basics
  import Sorting

  // ---------------------------------------------------------------------------
  // Percentiles
  // ---------------------------------------------------------------------------

  type Rank = (nat, nat) -> nat

  ghost predicate Monotone(f: nat -> nat) {
    forall x, y :: x <= y ==> f(x) <= f(y)
  }

  ghost predicate RankGrows(rank: Rank) {
    forall p, q, last :: p <= q ==> rank(p, last) <= rank(q, last)
  }

  /** `ceil(percent / 100 * last)` without rounding errors. */
  function ExactRank(percent: nat, last: nat): nat {
    (percent * last + 99) / 100
  }

  lemma ExactRankGrows()
    ensures RankGrows(ExactRank)
  {
    forall p: nat, q: nat, last: nat | p <= q ensures ExactRank(p, last) <= ExactRank(q, last) {
      assert p * last <= q * last;
    }
  }

  function AtMost(): (nat, nat) -> bool {
    (x: nat, y: nat) => x <= y
  }

  function SortedUp(s: seq<nat>): seq<nat> {
    Sorting.Sorted(AtMost(), s)
  }

  function Mapped(f: nat -> nat, s: seq<nat>): (r: seq<nat>)
    ensures |r| == |s| && forall i :: 0 <= i < |s| ==> r[i] == f(s[i])
  {
    seq(|s|, i requires 0 <= i < |s| => f(s[i]))
  }

  lemma SortedUpIsSort(s: seq<nat>)
    ensures Sorting.SortedBy(AtMost(), SortedUp(s)) && multiset(SortedUp(s)) == multiset(s)
    ensures |SortedUp(s)| == |s|
  {
    Sorting.SortedIsSort(AtMost(), s);
    assert |multiset(SortedUp(s))| == |SortedUp(s)| && |multiset(s)| == |s|;
  }

  /** `percentile`: the sorted series at the rank, kept at or below the last place. `None` is an
      index out of bounds. */
  function Percentile(rank: Rank, percent: nat, values: seq<nat>): Option<nat> {
    var sorted := SortedUp(values);
    var last := SaturatingSub(|values|, 1);
    var at := Min(rank(percent, last), last);
    if at < |sorted| then Some(sorted[at]) else None
  }

  /** It is out of bounds exactly on the empty series, and otherwise one of the values. */
  lemma PercentileDefined(rank: Rank, percent: nat, values: seq<nat>)
    ensures var r := Percentile(rank, percent, values);
            if values == [] then r == None else r.Some? && r.value in values
  {
    SortedUpIsSort(values);
    if values != [] {
      assert Percentile(rank, percent, values).value in multiset(SortedUp(values));
    }
  }

  // What the rank means: how many values lie on either side.

  function Count(f: nat -> bool, s: seq<nat>): nat {
    if s == [] then 0 else (if f(s[0]) then 1 else 0) + Count(f, s[1..])
  }

  function UpTo(x: nat): nat -> bool {
    (v: nat) => v <= x
  }

  function From(x: nat): nat -> bool {
    (v: nat) => x <= v
  }

  lemma {:induction false} CountInserted(f: nat -> bool, x: nat, s: seq<nat>)
    ensures Count(f, Sorting.Inserted(AtMost(), x, s)) == Count(f, s) + if f(x) then 1 else 0
  {
    if s == [] || x <= s[0] {
      assert ([x] + s)[1..] == s;
    } else {
      var rest := Sorting.Inserted(AtMost(), x, s[1..]);
      CountInserted(f, x, s[1..]);
      assert ([s[0]] + rest)[1..] == rest;
    }
  }

  lemma {:induction false} CountSorted(f: nat -> bool, s: seq<nat>)
    ensures Count(f, SortedUp(s)) == Count(f, s)
  {
    if s != [] {
      CountSorted(f, s[1..]);
      CountInserted(f, s[0], SortedUp(s[1..]));
    }
  }

  lemma {:induction false} CountRange(f: nat -> bool, s: seq<nat>, i: nat, j: nat)
    requires i <= j <= |s| && forall k :: i <= k < j ==> f(s[k])
    ensures Count(f, s) >= j - i
  {
    if j > 0 {
      CountRange(f, s[1..], if i == 0 then 0 else i - 1, j - 1);
    }
  }

  lemma SortedSplits(sorted: seq<nat>, k: nat)
    requires Sorting.SortedBy(AtMost(), sorted) && k < |sorted|
    ensures Count(UpTo(sorted[k]), sorted) >= k + 1
    ensures Count(From(sorted[k]), sorted) >= |sorted| - k
  {
    assert forall i :: 0 <= i < k ==> AtMost()(sorted[i], sorted[k]);
    assert forall i :: k < i < |sorted| ==> AtMost()(sorted[k], sorted[i]);
    CountRange(UpTo(sorted[k]), sorted, 0, k + 1);
    CountRange(From(sorted[k]), sorted, k, |sorted|);
  }

  /** With `k` the rank, kept at or below the last place: at least `k + 1` of the values are at most
      the percentile, and at least all but `k` are at least it. */
  lemma PercentileSplits(rank: Rank, percent: nat, values: seq<nat>)
    requires values != []
    ensures var last := |values| - 1;
            var k := Min(rank(percent, last), last);
            var r := Percentile(rank, percent, values);
            && r.Some?
            && Count(UpTo(r.value), values) >= k + 1
            && Count(From(r.value), values) >= |values| - k
  {
    SortedUpIsSort(values);
    var last := |values| - 1;
    var k := Min(rank(percent, last), last);
    SortedSplits(SortedUp(values), k);
    CountSorted(UpTo(SortedUp(values)[k]), values);
    CountSorted(From(SortedUp(values)[k]), values);
  }

  lemma {:induction false} InsertedMapped(f: nat -> nat, x: nat, s: seq<nat>)
    requires Monotone(f) && Sorting.SortedBy(AtMost(), s)
    ensures Sorting.Inserted(AtMost(), f(x), Mapped(f, s)) == Mapped(f, Sorting.Inserted(AtMost(), x, s))
  {
    var le := AtMost();
    if s == [] || x <= s[0] {
      assert Mapped(f, [x] + s) == [f(x)] + Mapped(f, s);
    } else {
      InsertedMapped(f, x, s[1..]);
      assert Mapped(f, s)[1..] == Mapped(f, s[1..]);
      assert Mapped(f, [s[0]] + Sorting.Inserted(le, x, s[1..]))
          == [f(s[0])] + Mapped(f, Sorting.Inserted(le, x, s[1..]));
      if f(x) <= f(s[0]) {
        assert f(x) == f(s[0]);
        assert Mapped(f, s) == [f(s[0])] + Mapped(f, s[1..]);
        assert s[1..] != [] ==> le(s[0], s[1..][0]) && f(x) <= f(s[1]);
      }
    }
  }

  /** Sorting commutes with any monotone map. */
  lemma {:induction false} SortedMapped(f: nat -> nat, s: seq<nat>)
    requires Monotone(f)
    ensures SortedUp(Mapped(f, s)) == Mapped(f, SortedUp(s))
  {
    if s != [] {
      SortedMapped(f, s[1..]);
      SortedUpIsSort(s[1..]);
      assert Mapped(f, s)[1..] == Mapped(f, s[1..]);
      InsertedMapped(f, s[0], SortedUp(s[1..]));
    }
  }

  function Image(f: nat -> nat, x: Option<nat>): Option<nat> {
    if x.None? then None else Some(f(x.value))
  }

  /** A percentile of a monotone image is the image of the percentile. */
  lemma PercentileCommutes(rank: Rank, percent: nat, f: nat -> nat, values: seq<nat>)
    requires Monotone(f)
    ensures Percentile(rank, percent, Mapped(f, values)) == Image(f, Percentile(rank, percent, values))
  {
    SortedMapped(f, values);
    SortedUpIsSort(values);
  }

  lemma PercentilesOrdered(rank: Rank, p: nat, q: nat, values: seq<nat>)
    requires RankGrows(rank) && p <= q && values != []
    ensures var x, y := Percentile(rank, p, values), Percentile(rank, q, values);
            x.Some? && y.Some? && x.value <= y.value
  {
    SortedUpIsSort(values);
    var last := |values| - 1;
    assert rank(p, last) <= rank(q, last);
    var i, j := Min(rank(p, last), last), Min(rank(q, last), last);
    if i < j {
      assert AtMost()(SortedUp(values)[i], SortedUp(values)[j]);
    }
  }

  // ---------------------------------------------------------------------------
  // A timed run
  // ---------------------------------------------------------------------------

  /** The nanoseconds an operation took, or its failure, by iteration. */
  type Operation = nat -> Option<nat>

  /** The series a run records: it stops at the first failure. */
  function Timed(op: Operation, i: nat, n: nat): seq<nat>
    decreases if i < n then n - i else 0
  {
    if i >= n || op(i).None? then [] else [Max(op(i).value, 1)] + Timed(op, i + 1, n)
  }

  predicate Complete(op: Operation, n: nat) {
    forall i :: 0 <= i < n ==> op(i).Some?
  }

  /** `run_timed`: at least one iteration, whatever was asked for. */
  method RunTimed(iterations: nat, op: Operation) returns (ok: bool, latencies: seq<nat>)
    ensures latencies == Timed(op, 0, Max(iterations, 1))
    ensures ok == Complete(op, Max(iterations, 1))
  {
    latencies := [];
    var n := Max(iterations, 1);
    for i := 0 to n
      invariant latencies + Timed(op, i, n) == Timed(op, 0, n)
      invariant forall k :: 0 <= k < i ==> op(k).Some?
    {
      if op(i).None? {
        return false, latencies;
      }
      latencies := latencies + [Max(op(i).value, 1)];
    }
    ok := true;
  }

  lemma {:induction false} TimedShape(op: Operation, i: nat, n: nat)
    requires i <= n
    ensures |Timed(op, i, n)| <= n - i
    ensures |Timed(op, i, n)| == n - i <==> forall k :: i <= k < n ==> op(k).Some?
    ensures forall k :: 0 <= k < |Timed(op, i, n)| ==> Timed(op, i, n)[k] >= 1
    decreases n - i
  {
    if i < n && op(i).Some? {
      TimedShape(op, i + 1, n);
    }
  }

  /** Each latency is what its iteration took, a nanosecond if it took none. */
  lemma {:induction false} TimedAt(op: Operation, i: nat, n: nat, k: nat)
    requires i <= n && k < |Timed(op, i, n)|
    ensures op(i + k).Some?
    ensures Timed(op, i, n)[k] == if op(i + k).value == 0 then 1 else op(i + k).value
    decreases n - i
  {
    if k > 0 {
      TimedAt(op, i + 1, n, k - 1);
      assert i + 1 + (k - 1) == i + k;
    }
  }

  // ---------------------------------------------------------------------------
  // Assembling a sample
  // ---------------------------------------------------------------------------

  datatype Workload = SingleKeyWrites | BatchedWrites | ReplicationBatching | WalFsync | ReadIndexReads
                    | LeaseReads | SnapshotInstallCatchup | SnapshotStreaming | LeaderTransferUnderLoad

  datatype Engine = BaselineRaft | RustRaft

  datatype Options = Options(nodeCount: nat, iterations: nat, batchSize: nat, payloadSize: nat)

  /** Operations per second; a zero duration makes it infinite. */
  datatype Rate = Finite(value: real) | Infinite

  datatype Sample = Sample(engine: Engine, source: Engine, workload: Workload, options: Options,
                           timedIterations: nat, operationsPerIteration: nat, operationCount: nat,
                           totalMicros: nat, p50Micros: nat, p99Micros: nat,
                           totalNanos: nat, p50Nanos: nat, p99Nanos: nat, throughput: Rate)

  predicate Batched(w: Workload) {
    w.BatchedWrites? || w.ReplicationBatching?
  }

  function OperationCount(w: Workload, o: Options): nat {
    if Batched(w) then SaturatingMul(o.iterations, o.batchSize) else o.iterations
  }

  function WritesPerIteration(w: Workload, o: Options): nat {
    if Batched(w) then Max(o.batchSize, 1) else 1
  }

  function RateOf(operations: nat, micros: nat): Rate {
    if micros == 0 then Infinite else Finite(operations as real / (micros as real / 1000000.0))
  }

  function Abs(x: real): real { if x < 0.0 then -x else x }

  predicate RateMatches(operations: nat, micros: nat, declared: Rate) {
    var expected := RateOf(operations, micros);
    && declared.Finite? && expected.Finite?
    && var scale := if Abs(expected.value) < 1.0 then 1.0 else Abs(expected.value);
       Abs(declared.value - expected.value) <= scale * 0.00001
  }

  function MicrosOf(nanos: nat): nat {
    Max(nanos / 1000, 1)
  }

  function Sum(s: seq<nat>): nat {
    if s == [] then 0 else s[0] + Sum(s[1..])
  }

  /** A panic on an index out of bounds, or a sample. */
  datatype Outcome = OutOfBounds | Produced(sample: Sample)

  /** The tail of `run_rustraft_runtime_workload`, from the recorded series. */
  function Assemble(w: Workload, o: Options, latencies: seq<nat>, rank: Rank): Outcome {
    var micros := Mapped(MicrosOf, latencies);
    var total := Max(Sum(micros), 1);
    var operations := OperationCount(w, o);
    var p50, p99 := Percentile(rank, 50, micros), Percentile(rank, 99, micros);
    var n50, n99 := Percentile(rank, 50, latencies), Percentile(rank, 99, latencies);
    if p50.None? || p99.None? || n50.None? || n99.None? then OutOfBounds
    else Produced(Sample(RustRaft, RustRaft, w, o, |latencies|, WritesPerIteration(w, o), operations,
                         total, p50.value, p99.value,
                         Max(Sum(latencies), 1), n50.value, n99.value,
                         RateOf(operations, total)))
  }

  /** What the validator asks of a sample. */
  predicate WellShaped(s: Sample, engine: Engine, w: Workload, o: Options) {
    && s.engine == engine && s.source == engine && s.workload == w && s.options == o
    && s.operationCount == OperationCount(w, o)
    && s.timedIterations == o.iterations
    && s.operationsPerIteration == WritesPerIteration(w, o)
    && 0 < s.totalMicros && s.timedIterations <= s.totalMicros
    && 0 < s.p50Micros <= s.p99Micros <= s.totalMicros
    && s.throughput.Finite? && s.throughput.value > 0.0
    && RateMatches(s.operationCount, s.totalMicros, s.throughput)
  }

  datatype Blocker =
    | EngineMismatch | SourceMismatch | WorkloadMismatch | NodeCountMismatch | IterationsMismatch
    | BatchSizeMismatch | PayloadSizeMismatch | OperationCountMismatch
    | TimedIterationsMismatch | OperationsPerIterationMismatch | TotalZero | TotalBelowIterations
    | P50Zero | P99Zero | LatencyOrderInvalid | P50AboveTotal | P99AboveTotal
    | ThroughputInvalid | ThroughputMismatch

  /** The check a blocker reports, and that it failed. */
  predicate Fails(b: Blocker, s: Sample, engine: Engine, w: Workload, o: Options) {
    match b
    case EngineMismatch => s.engine != engine
    case SourceMismatch => s.source != engine
    case WorkloadMismatch => s.workload != w
    case NodeCountMismatch => s.options.nodeCount != o.nodeCount
    case IterationsMismatch => s.options.iterations != o.iterations
    case BatchSizeMismatch => s.options.batchSize != o.batchSize
    case PayloadSizeMismatch => s.options.payloadSize != o.payloadSize
    case OperationCountMismatch => s.operationCount != OperationCount(w, o)
    case TimedIterationsMismatch => s.timedIterations != o.iterations
    case OperationsPerIterationMismatch => s.operationsPerIteration != WritesPerIteration(w, o)
    case TotalZero => s.totalMicros == 0
    case TotalBelowIterations => 0 < s.totalMicros < s.timedIterations
    case P50Zero => s.p50Micros == 0
    case P99Zero => s.p99Micros == 0
    case LatencyOrderInvalid => 0 < s.p99Micros < s.p50Micros
    case P50AboveTotal => s.p50Micros > s.totalMicros
    case P99AboveTotal => s.p99Micros > s.totalMicros
    case ThroughputInvalid => s.throughput.Infinite? || s.throughput.value <= 0.0
    case ThroughputMismatch =>
      s.throughput.Finite? && s.throughput.value > 0.0 && s.totalMicros > 0
      && !RateMatches(s.operationCount, s.totalMicros, s.throughput)
  }

  predicate OfIdentity(b: Blocker) {
    b.EngineMismatch? || b.SourceMismatch? || b.WorkloadMismatch?
  }

  predicate OfOptions(b: Blocker) {
    b.NodeCountMismatch? || b.IterationsMismatch? || b.BatchSizeMismatch? || b.PayloadSizeMismatch?
  }

  predicate OfCounts(b: Blocker) {
    b.OperationCountMismatch? || b.TimedIterationsMismatch? || b.OperationsPerIterationMismatch?
  }

  predicate OfThroughput(b: Blocker) {
    b.ThroughputInvalid? || b.ThroughputMismatch?
  }

  /** The checks on what was run. */
  method IdentityBlockers(s: Sample, engine: Engine, w: Workload) returns (blockers: seq<Blocker>)
    ensures forall b :: b in blockers <==> OfIdentity(b) && Fails(b, s, engine, w, s.options)
  {
    blockers := [];
    if s.engine != engine { blockers := blockers + [EngineMismatch]; }
    if s.source != engine { blockers := blockers + [SourceMismatch]; }
    if s.workload != w { blockers := blockers + [WorkloadMismatch]; }
  }

  /** The checks on the options it was run with. */
  method OptionBlockers(s: Sample, o: Options) returns (blockers: seq<Blocker>)
    ensures forall b :: b in blockers <==> OfOptions(b) && Fails(b, s, s.engine, s.workload, o)
  {
    blockers := [];
    if s.options.nodeCount != o.nodeCount { blockers := blockers + [NodeCountMismatch]; }
    if s.options.iterations != o.iterations { blockers := blockers + [IterationsMismatch]; }
    if s.options.batchSize != o.batchSize { blockers := blockers + [BatchSizeMismatch]; }
    if s.options.payloadSize != o.payloadSize { blockers := blockers + [PayloadSizeMismatch]; }
  }

  /** The checks on how often. */
  method CountBlockers(s: Sample, w: Workload, o: Options) returns (blockers: seq<Blocker>)
    ensures forall b :: b in blockers <==> OfCounts(b) && Fails(b, s, s.engine, w, o)
  {
    blockers := [];
    if s.operationCount != OperationCount(w, o) { blockers := blockers + [OperationCountMismatch]; }
    if s.timedIterations != o.iterations { blockers := blockers + [TimedIterationsMismatch]; }
    if s.operationsPerIteration != WritesPerIteration(w, o) {
      blockers := blockers + [OperationsPerIterationMismatch];
    }
  }

  /** The checks on how long. */
  method DurationBlockers(s: Sample) returns (blockers: seq<Blocker>)
    ensures forall b :: b in blockers <==>
              !OfIdentity(b) && !OfOptions(b) && !OfCounts(b) && !OfThroughput(b) && Fails(b, s, s.engine, s.workload, s.options)
  {
    blockers := [];
    if s.totalMicros == 0 {
      blockers := blockers + [TotalZero];
    } else if s.totalMicros < s.timedIterations {
      blockers := blockers + [TotalBelowIterations];
    }
    if s.p50Micros == 0 { blockers := blockers + [P50Zero]; }
    if s.p99Micros == 0 { blockers := blockers + [P99Zero]; }
    if s.p50Micros > 0 && s.p99Micros > 0 && s.p99Micros < s.p50Micros {
      blockers := blockers + [LatencyOrderInvalid];
    }
    if s.p50Micros > s.totalMicros { blockers := blockers + [P50AboveTotal]; }
    if s.p99Micros > s.totalMicros { blockers := blockers + [P99AboveTotal]; }
  }

  /** The checks on how fast. */
  method ThroughputBlockers(s: Sample) returns (blockers: seq<Blocker>)
    ensures forall b :: b in blockers <==> OfThroughput(b) && Fails(b, s, s.engine, s.workload, s.options)
  {
    blockers := [];
    if s.throughput.Infinite? || s.throughput.value <= 0.0 {
      blockers := blockers + [ThroughputInvalid];
    } else if s.totalMicros > 0 && !RateMatches(s.operationCount, s.totalMicros, s.throughput) {
      blockers := blockers + [ThroughputMismatch];
    }
  }

  /** A sample is well shaped exactly when no check fails. */
  lemma ShapeIsChecks(s: Sample, engine: Engine, w: Workload, o: Options)
    ensures WellShaped(s, engine, w, o) <==> forall b :: !Fails(b, s, engine, w, o)
  {
    if forall b :: !Fails(b, s, engine, w, o) {
      assert !Fails(EngineMismatch, s, engine, w, o) && !Fails(SourceMismatch, s, engine, w, o)
          && !Fails(WorkloadMismatch, s, engine, w, o);
      assert !Fails(NodeCountMismatch, s, engine, w, o) && !Fails(IterationsMismatch, s, engine, w, o)
          && !Fails(BatchSizeMismatch, s, engine, w, o) && !Fails(PayloadSizeMismatch, s, engine, w, o);
      assert !Fails(OperationCountMismatch, s, engine, w, o) && !Fails(TimedIterationsMismatch, s, engine, w, o)
          && !Fails(OperationsPerIterationMismatch, s, engine, w, o);
      assert !Fails(TotalZero, s, engine, w, o) && !Fails(TotalBelowIterations, s, engine, w, o)
          && !Fails(P50Zero, s, engine, w, o) && !Fails(P99Zero, s, engine, w, o)
          && !Fails(LatencyOrderInvalid, s, engine, w, o);
      assert !Fails(P99AboveTotal, s, engine, w, o) && !Fails(ThroughputInvalid, s, engine, w, o)
          && !Fails(ThroughputMismatch, s, engine, w, o);
    }
  }

  /** `benchmark_sample_shape_blockers`: exactly the blockers whose check failed, so none exactly when
      the sample is well shaped. */
  method ShapeBlockers(s: Sample, engine: Engine, w: Workload, o: Options) returns (blockers: seq<Blocker>)
    ensures forall b :: b in blockers <==> Fails(b, s, engine, w, o)
    ensures blockers == [] <==> WellShaped(s, engine, w, o)
  {
    ShapeIsChecks(s, engine, w, o);
    var identity := IdentityBlockers(s, engine, w);
    var options := OptionBlockers(s, o);
    var counts := CountBlockers(s, w, o);
    var durations := DurationBlockers(s);
    var throughput := ThroughputBlockers(s);
    blockers := identity + options + counts + durations + throughput;
    forall b ensures b in blockers <==> Fails(b, s, engine, w, o) {
      assert Fails(b, s, s.engine, s.workload, s.options) == Fails(b, s, engine, w, o)
          || OfIdentity(b) || OfOptions(b) || OfCounts(b);
    }
    assert blockers != [] ==> blockers[0] in blockers;
  }

  // ---------------------------------------------------------------------------
  // Which runs are accepted
  // ---------------------------------------------------------------------------

  lemma {:induction false} SumAtLeastCount(s: seq<nat>)
    requires forall i :: 0 <= i < |s| ==> s[i] >= 1
    ensures Sum(s) >= |s|
  {
    if s != [] {
      SumAtLeastCount(s[1..]);
    }
  }

  lemma {:induction false} ElementAtMostSum(s: seq<nat>, x: nat)
    requires x in s
    ensures x <= Sum(s)
  {
    if x != s[0] {
      ElementAtMostSum(s[1..], x);
    }
  }

  lemma AssembledIff(w: Workload, o: Options, latencies: seq<nat>, rank: Rank)
    ensures Assemble(w, o, latencies, rank).OutOfBounds? <==> latencies == []
  {
    var micros := Mapped(MicrosOf, latencies);
    PercentileDefined(rank, 50, micros);
    PercentileDefined(rank, 99, micros);
    PercentileDefined(rank, 50, latencies);
    PercentileDefined(rank, 99, latencies);
  }

  /** One figure in microseconds and in nanoseconds: truncated, and one if that is none. */
  predicate SameFigure(micros: nat, nanos: nat) {
    if nanos < 1000 then micros == 1 else 1000 * micros <= nanos < 1000 * micros + 1000
  }

  /** In every sample the microsecond percentiles are the nanosecond ones, truncated and floored
      at one. */
  lemma FiguresAgree(w: Workload, o: Options, latencies: seq<nat>, rank: Rank)
    ensures var r := Assemble(w, o, latencies, rank);
            r.Produced? ==>
              SameFigure(r.sample.p50Micros, r.sample.p50Nanos) && SameFigure(r.sample.p99Micros, r.sample.p99Nanos)
  {
    PercentileCommutes(rank, 50, MicrosOf, latencies);
    PercentileCommutes(rank, 99, MicrosOf, latencies);
  }

  lemma {:induction false} TruncatedSum(latencies: seq<nat>)
    ensures 1000 * Sum(Mapped(MicrosOf, latencies)) <= Sum(latencies) + 1000 * |latencies|
    ensures Sum(latencies) <= 1000 * Sum(Mapped(MicrosOf, latencies)) + 999 * |latencies|
  {
    if latencies != [] {
      assert Mapped(MicrosOf, latencies)[1..] == Mapped(MicrosOf, latencies[1..]);
      TruncatedSum(latencies[1..]);
    }
  }

  /** The totals are sums over one series: the nanoseconds are its sum, and the microseconds differ
      from it by at most one an iteration. */
  lemma TotalsAgree(w: Workload, o: Options, latencies: seq<nat>, rank: Rank)
    requires forall i :: 0 <= i < |latencies| ==> latencies[i] >= 1
    ensures var r := Assemble(w, o, latencies, rank);
            r.Produced? ==>
              && r.sample.totalNanos == Sum(latencies)
              && 1000 * r.sample.totalMicros <= r.sample.totalNanos + 1000 * |latencies|
              && r.sample.totalNanos <= 1000 * r.sample.totalMicros + 999 * |latencies|
  {
    AssembledIff(w, o, latencies, rank);
    if latencies != [] {
      TruncatedSum(latencies);
      SumAtLeastCount(latencies);
      SumAtLeastCount(Mapped(MicrosOf, latencies));
    }
  }

  lemma FiguresOrdered(w: Workload, o: Options, latencies: seq<nat>, rank: Rank)
    requires RankGrows(rank)
    ensures var r := Assemble(w, o, latencies, rank);
            r.Produced? ==>
              && 0 < r.sample.p50Micros <= r.sample.p99Micros <= r.sample.totalMicros
              && |latencies| <= r.sample.totalMicros
  {
    var micros := Mapped(MicrosOf, latencies);
    AssembledIff(w, o, latencies, rank);
    if latencies != [] {
      PercentilesOrdered(rank, 50, 99, micros);
      PercentileDefined(rank, 50, micros);
      PercentileDefined(rank, 99, micros);
      ElementAtMostSum(micros, Percentile(rank, 99, micros).value);
      SumAtLeastCount(micros);
    }
  }

  lemma RatePositive(operations: nat, micros: nat)
    requires micros > 0
    ensures RateOf(operations, micros).Finite?
    ensures RateOf(operations, micros).value > 0.0 <==> operations > 0
    ensures RateMatches(operations, micros, RateOf(operations, micros))
    ensures RateOf(operations, micros).value * (micros as real) == operations as real * 1000000.0
  {
    var seconds := micros as real / 1000000.0;
    assert seconds > 0.0;
    assert operations as real / seconds * seconds == operations as real;
    if operations > 0 {
      assert operations as real / seconds > 0.0;
    } else {
      assert operations as real / seconds == 0.0;
    }
  }

  /** Counted by operation or by iteration, a workload does the same number of them, unless the
      product saturates or a batched workload has no batch. */
  lemma CountsAgree(w: Workload, o: Options)
    requires o.iterations * Max(o.batchSize, 1) <= U64_MAX && (Batched(w) ==> o.batchSize >= 1)
    ensures OperationCount(w, o) == o.iterations * WritesPerIteration(w, o)
    ensures WritesPerIteration(w, o) == if Batched(w) then o.batchSize else 1
  {
  }

  lemma OperationsPositive(w: Workload, o: Options)
    ensures OperationCount(w, o) > 0 <==> o.iterations > 0 && (Batched(w) ==> o.batchSize > 0)
  {
    if o.iterations > 0 && o.batchSize > 0 {
      assert o.iterations * o.batchSize > 0;
    } else {
      assert o.iterations * o.batchSize == 0;
    }
  }

  /** What a workload records: nothing if its clusters do not start, else a timed run. */
  function Series(started: bool, op: Operation, o: Options): seq<nat> {
    if started then Timed(op, 0, Max(o.iterations, 1)) else []
  }

  /** `run_rustraft_runtime_workload`. */
  function RunWorkload(w: Workload, o: Options, started: bool, op: Operation, rank: Rank): Outcome {
    Assemble(w, o, Series(started, op, o), rank)
  }

  predicate AcceptedBy(r: Outcome, w: Workload, o: Options) {
    r.Produced? && WellShaped(r.sample, RustRaft, w, o)
  }

  /** A run panics exactly when its clusters do not start or its first operation fails. */
  lemma PanicsIff(w: Workload, o: Options, started: bool, op: Operation, rank: Rank)
    ensures RunWorkload(w, o, started, op, rank).OutOfBounds? <==> !started || op(0).None?
  {
    AssembledIff(w, o, Series(started, op, o), rank);
  }

  /** It yields a sample the validator accepts exactly when it started, every iteration
      succeeded, at least one was asked for, and a batched workload has a batch to write. */
  lemma AcceptedIffComplete(w: Workload, o: Options, started: bool, op: Operation, rank: Rank)
    requires RankGrows(rank)
    ensures AcceptedBy(RunWorkload(w, o, started, op, rank), w, o)
            <==> started && Complete(op, o.iterations) && o.iterations >= 1 && (Batched(w) ==> o.batchSize >= 1)
  {
    var n := Max(o.iterations, 1);
    var latencies := Series(started, op, o);
    TimedShape(op, 0, n);
    PanicsIff(w, o, started, op, rank);
    FiguresOrdered(w, o, latencies, rank);
    OperationsPositive(w, o);
    var r := RunWorkload(w, o, started, op, rank);
    if r.Produced? {
      RatePositive(r.sample.operationCount, r.sample.totalMicros);
    } else if started && o.iterations >= 1 {
      assert op(0).None?;
    }
  }

  // Inputs that show each way of failing.

  function Succeeding(): Operation {
    (i: nat) => Some(1000)
  }

  function Failing(): Operation {
    (i: nat) => None
  }

  /** One iteration of single-key writes, with a first write that fails or a cluster that does
      not start, panics. */
  lemma PanicWitness(rank: Rank)
    ensures RunWorkload(SingleKeyWrites, Options(3, 1, 1, 1), true, Failing(), rank) == OutOfBounds
    ensures RunWorkload(SingleKeyWrites, Options(3, 1, 1, 1), false, Succeeding(), rank) == OutOfBounds
  {
    PanicsIff(SingleKeyWrites, Options(3, 1, 1, 1), true, Failing(), rank);
    PanicsIff(SingleKeyWrites, Options(3, 1, 1, 1), false, Succeeding(), rank);
  }

  /** Runs in which nothing fails, and whose sample the validator still rejects: no iterations
      asked for, or batches of nothing. */
  lemma RejectedWitness(rank: Rank)
    requires RankGrows(rank)
    ensures var r := RunWorkload(SingleKeyWrites, Options(3, 0, 1, 1), true, Succeeding(), rank);
            r.Produced? && !AcceptedBy(r, SingleKeyWrites, Options(3, 0, 1, 1))
    ensures var r := RunWorkload(BatchedWrites, Options(3, 1, 0, 1), true, Succeeding(), rank);
            r.Produced? && !AcceptedBy(r, BatchedWrites, Options(3, 1, 0, 1))
  {
    var idle, hollow := Options(3, 0, 1, 1), Options(3, 1, 0, 1);
    PanicsIff(SingleKeyWrites, idle, true, Succeeding(), rank);
    AcceptedIffComplete(SingleKeyWrites, idle, true, Succeeding(), rank);
    PanicsIff(BatchedWrites, hollow, true, Succeeding(), rank);
    AcceptedIffComplete(BatchedWrites, hollow, true, Succeeding(), rank);
  }
}
