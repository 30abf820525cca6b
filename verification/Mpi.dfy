/** MPI rank layout: `rank_binding_plan` and `openmpi_rankfile` of nodepilot/mpi.py. */
module Mpi {
  import opened Wrappers
  import opened Text
  import opened CpuList
  import opened Numa

  datatype RankBinding = RankBinding(rank: nat, cores: seq<nat>)

  /** `s[lo:hi]` for non-negative bounds, which Python clamps to the list. */
  function Slice<T>(s: seq<T>, lo: nat, hi: nat): seq<T> {
    var h := if hi < |s| then hi else |s|;
    if lo < h then s[lo..h] else []
  }

  function Stride(cores: seq<nat>, nprocs: nat): nat
    requires nprocs >= 1
  {
    |cores| / nprocs
  }

  function Width(cores: seq<nat>, nprocs: nat, threads: Option<int>): nat
    requires nprocs >= 1
  {
    var w := if threads.Some? then threads.value else Stride(cores, nprocs);
    if w < 1 then 1 else w
  }

  function Chunk(cores: seq<nat>, n: nat, stride: nat, width: nat, i: nat): seq<nat> {
    var start := i * stride;
    if i == n - 1 then Slice(cores, start, |cores|) else Slice(cores, start, start + width)
  }

  /** The binding `rank_binding_plan` gives to rank `i` of `n`. */
  function Binding(cores: seq<nat>, n: nat, threads: Option<int>, i: nat): RankBinding
    requires n >= 1
  {
    RankBinding(i, Chunk(cores, n, Stride(cores, n), Width(cores, n, threads), i))
  }

  /** `rank_binding_plan` */
  method RankBindingPlan(cpuList: string, nprocs: int, threads: Option<int>) returns (r: Result<seq<RankBinding>>)
    ensures r.Err? <==> nprocs < 1 || Parse(cpuList).Err? || |Parse(cpuList).value| < nprocs
    ensures r.Ok? ==> |r.value| == nprocs
    ensures r.Ok? ==> forall i | 0 <= i < nprocs :: r.value[i] == Binding(Sorted(Parse(cpuList).value), nprocs, threads, i)
    ensures r.Ok? ==> LaidOut(r.value, Sorted(Parse(cpuList).value), threads)
    ensures r.Ok? && nprocs > 1 ==>
              (RanksApart(r.value) <==> threads.None? || AtLeastOne(threads.value) <= |Parse(cpuList).value| / nprocs)
    ensures r.Ok? && nprocs > 1 ==>
              (RanksCover(r.value, Parse(cpuList).value) <==>
               threads.None? || AtLeastOne(threads.value) >= |Parse(cpuList).value| / nprocs)
  {
    if nprocs < 1 {
      return Err("nprocs must be >= 1");
    }
    var parsed := ParseCpuList(cpuList);
    if parsed.Err? {
      return Err(parsed.error);
    }
    var cores := Sorted(parsed.value);
    if |cores| < nprocs {
      return Err("need at least one core per rank");
    }
    var plan := LayOut(cores, nprocs, threads);
    SortedFacts(parsed.value);
    PlanIsLaidOut(plan, cores, threads);
    if nprocs > 1 {
      PlanApartExactly(plan, cores, threads);
      PlanCoversExactly(plan, cores, parsed.value, threads);
    }
    r := Ok(plan);
  }

  function AtLeastOne(n: int): nat {
    if n < 1 then 1 else n
  }

  /** Rank `i` of the plan starts `i` strides into the core block.  The last rank has everything from there on,
      any other rank as many cores as threads were asked for, at least one and as far as the block goes, or one
      stride of them if no number was given. */
  ghost predicate LaidOut(plan: seq<RankBinding>, cores: seq<nat>, threads: Option<int>)
    requires plan != []
  {
    var stride := |cores| / |plan|;
    forall i | 0 <= i < |plan| ::
      && plan[i].rank == i
      && |plan[i].cores| == RankSize(|cores|, |plan|, threads, i)
      && forall k | 0 <= k < |plan[i].cores| :: i * stride + k < |cores| && plan[i].cores[k] == cores[i * stride + k]
  }

  /** How many cores rank `i` gets: what is left of the block for the last rank, and otherwise no more than that. */
  ghost function RankSize(size: nat, ranks: nat, threads: Option<int>, i: nat): int
    requires i < ranks
  {
    var stride := size / ranks;
    var left := size - i * stride;
    if i == ranks - 1 then left
    else
      match threads
      case None => stride
      case Some(t) => if AtLeastOne(t) < left then AtLeastOne(t) else left
  }

  ghost predicate RanksApart(plan: seq<RankBinding>) {
    forall i, j | 0 <= i < j < |plan| :: ToSet(plan[i].cores) !! ToSet(plan[j].cores)
  }

  ghost predicate RanksCover(plan: seq<RankBinding>, cores: set<nat>) {
    forall x | x in cores :: exists i :: 0 <= i < |plan| && x in plan[i].cores
  }

  ghost predicate IsPlan(plan: seq<RankBinding>, cores: seq<nat>, threads: Option<int>) {
    && 1 <= |plan| <= |cores|
    && forall i | 0 <= i < |plan| :: plan[i] == Binding(cores, |plan|, threads, i)
  }

  lemma PlanIsLaidOut(plan: seq<RankBinding>, cores: seq<nat>, threads: Option<int>)
    requires IsPlan(plan, cores, threads)
    ensures LaidOut(plan, cores, threads)
  {
    var n, s := |plan|, |cores| / |plan|;
    StrideFacts(|cores|, n);
    forall i | 0 <= i < n
      ensures plan[i].rank == i && |plan[i].cores| == RankSize(|cores|, n, threads, i)
      ensures forall k | 0 <= k < |plan[i].cores| :: i * s + k < |cores| && plan[i].cores[k] == cores[i * s + k]
    {
      MulStep(i, n, s);
      ChunkIs(cores, n, s, Width(cores, n, threads), i);
    }
  }

  lemma ChunkIs(cores: seq<nat>, n: nat, s: nat, width: nat, i: nat)
    requires i < n && i * s <= |cores|
    ensures var chunk := Chunk(cores, n, s, width, i);
            && |chunk| == (if i == n - 1 || i * s + width > |cores| then |cores| - i * s else width)
            && forall k | 0 <= k < |chunk| :: chunk[k] == cores[i * s + k]
  {
  }

  lemma PlanApartExactly(plan: seq<RankBinding>, cores: seq<nat>, threads: Option<int>)
    requires IsPlan(plan, cores, threads) && Ascending(cores) && |plan| > 1
    ensures RanksApart(plan) <==> threads.None? || AtLeastOne(threads.value) <= |cores| / |plan|
  {
    hide Chunk;
    var n, s, width := |plan|, |cores| / |plan|, Width(cores, |plan|, threads);
    StrideFacts(|cores|, n);
    DisjointExactly(cores, n, s, width);
    assert RanksApart(plan) <==> Apart(cores, n, s, width) by {
      forall i | 0 <= i < n ensures plan[i].cores == Chunk(cores, n, s, width, i) {}
    }
  }

  lemma PlanCoversExactly(plan: seq<RankBinding>, cores: seq<nat>, block: set<nat>, threads: Option<int>)
    requires IsPlan(plan, cores, threads) && Ascending(cores) && |plan| > 1 && forall x :: x in cores <==> x in block
    ensures RanksCover(plan, block) <==> threads.None? || AtLeastOne(threads.value) >= |cores| / |plan|
  {
    hide Chunk;
    var n, s, width := |plan|, |cores| / |plan|, Width(cores, |plan|, threads);
    StrideFacts(|cores|, n);
    CoverageExactly(cores, n, s, width);
    assert RanksCover(plan, block) <==> Covers(cores, n, s, width) by {
      forall i | 0 <= i < n ensures plan[i].cores == Chunk(cores, n, s, width, i) {}
    }
  }

  /** The slice of one rank. */
  method RankChunk(cores: seq<nat>, nprocs: nat, stride: nat, width: nat, i: nat) returns (chunk: seq<nat>)
    ensures chunk == Chunk(cores, nprocs, stride, width, i)
  {
    var start := i * stride;
    if i == nprocs - 1 {
      chunk := Slice(cores, start, |cores|);
    } else {
      chunk := Slice(cores, start, start + width);
    }
  }

  method LayOut(cores: seq<nat>, nprocs: nat, threads: Option<int>) returns (plan: seq<RankBinding>)
    requires nprocs >= 1
    ensures |plan| == nprocs && forall i | 0 <= i < nprocs :: plan[i] == Binding(cores, nprocs, threads, i)
  {
    hide Chunk;
    var stride := |cores| / nprocs;
    var width := if threads.Some? then threads.value else stride;
    width := if width < 1 then 1 else width;
    assert stride == Stride(cores, nprocs) && width == Width(cores, nprocs, threads);
    hide Stride, Width;
    plan := [];
    for i := 0 to nprocs
      invariant |plan| == i
      invariant forall k | 0 <= k < i :: plan[k] == Binding(cores, nprocs, threads, k)
    {
      var chunk := RankChunk(cores, nprocs, stride, width, i);
      plan := plan + [RankBinding(i, chunk)];
    }
  }

  // ---- where the chunks lie ------------------------------------------------

  lemma MulStep(i: nat, j: nat, s: nat)
    requires i < j
    ensures i * s + s <= j * s
  {
    assert (i + 1) * s <= j * s;
  }

  lemma StrideFacts(len: nat, n: nat)
    requires 1 <= n <= len
    ensures len / n >= 1
    ensures n * (len / n) + len % n == len
  {
    assert len / n >= n / n;
  }

  ghost predicate Fits(cores: seq<nat>, n: nat, s: nat) {
    n >= 1 && s >= 1 && n * s <= |cores|
  }

  ghost function Concat(cores: seq<nat>, n: nat, s: nat, width: nat, k: nat): seq<nat> {
    if k == 0 then [] else Concat(cores, n, s, width, k - 1) + Chunk(cores, n, s, width, k - 1)
  }

  lemma InnerChunk(cores: seq<nat>, n: nat, s: nat, i: nat)
    requires Fits(cores, n, s) && i + 1 < n
    ensures (i + 1) * s == i * s + s <= |cores|
    ensures Chunk(cores, n, s, s, i) == cores[i * s..(i + 1) * s]
  {
    MulStep(i, n, s);
  }

  lemma Glue(cores: seq<nat>, p: nat, q: nat)
    requires p <= q <= |cores|
    ensures cores[..p] + cores[p..q] == cores[..q]
  {
  }

  lemma {:induction false} ConcatPrefix(cores: seq<nat>, n: nat, s: nat, k: nat)
    requires Fits(cores, n, s) && k < n
    ensures k * s + s <= |cores|
    ensures Concat(cores, n, s, s, k) == cores[..k * s]
  {
    MulStep(k, n, s);
    if k > 0 {
      ConcatPrefix(cores, n, s, k - 1);
      InnerChunk(cores, n, s, k - 1);
      Glue(cores, (k - 1) * s, k * s);
    }
  }

  lemma DefaultChunkSize(cores: seq<nat>, n: nat, s: nat, i: nat)
    requires Fits(cores, n, s) && i < n
    ensures |Chunk(cores, n, s, s, i)| == if i == n - 1 then |cores| - (n - 1) * s else s
  {
    MulStep(i, n, s);
  }

  lemma MulPredecessor(n: nat, s: nat)
    requires n >= 1
    ensures (n - 1) * s + s == n * s
  {
  }

  lemma WholeBlock(cores: seq<nat>, n: nat, s: nat)
    requires Fits(cores, n, s)
    ensures Concat(cores, n, s, s, n) == cores
  {
    ConcatPrefix(cores, n, s, n - 1);
    Glue(cores, (n - 1) * s, |cores|);
  }

  /** With the default width the ranks' chunks, laid end to end, are the core block itself; every rank has a
      core, and only the last rank gets the remainder. */
  lemma DefaultPlanPartitions(cores: seq<nat>, n: nat)
    requires 1 <= n <= |cores|
    ensures Concat(cores, n, Stride(cores, n), Width(cores, n, None), n) == cores
    ensures forall i | 0 <= i < n ::
              |Binding(cores, n, None, i).cores| == |cores| / n + (if i == n - 1 then |cores| % n else 0)
    ensures |cores| / n >= 1
  {
    var s := Stride(cores, n);
    StrideFacts(|cores|, n);
    WholeBlock(cores, n, s);
    MulPredecessor(n, s);
    forall i | 0 <= i < n ensures |Chunk(cores, n, s, s, i)| == s + (if i == n - 1 then |cores| % n else 0) {
      DefaultChunkSize(cores, n, s, i);
    }
  }

  ghost predicate Apart(cores: seq<nat>, n: nat, s: nat, width: nat) {
    forall i, j | 0 <= i < j < n :: ToSet(Chunk(cores, n, s, width, i)) !! ToSet(Chunk(cores, n, s, width, j))
  }

  ghost predicate Covers(cores: seq<nat>, n: nat, s: nat, width: nat) {
    forall x | x in cores :: exists i :: 0 <= i < n && x in Chunk(cores, n, s, width, i)
  }

  lemma SliceHas(cores: seq<nat>, lo: nat, hi: nat, p: nat)
    requires Ascending(cores) && p < |cores|
    ensures cores[p] in Slice(cores, lo, hi) <==> lo <= p < hi
  {
    var chunk := Slice(cores, lo, hi);
    forall k | 0 <= k < |chunk| ensures chunk[k] == cores[lo + k] {}
    if lo <= p < hi {
      assert chunk[p - lo] == cores[p];
    }
  }

  /** The `p`-th core goes to rank `i` exactly when it lies in that rank's window. */
  lemma ChunkHas(cores: seq<nat>, n: nat, s: nat, width: nat, i: nat, p: nat)
    requires Ascending(cores) && p < |cores|
    ensures cores[p] in Chunk(cores, n, s, width, i) <==> i * s <= p && (i == n - 1 || p < i * s + width)
  {
    SliceHas(cores, i * s, if i == n - 1 then |cores| else i * s + width, p);
  }

  lemma ChunkOfCores(cores: seq<nat>, n: nat, s: nat, width: nat, i: nat)
    ensures forall x | x in Chunk(cores, n, s, width, i) :: x in cores
  {
    var start := i * s;
    assert Chunk(cores, n, s, width, i) == if i == n - 1 then Slice(cores, start, |cores|) else Slice(cores, start, start + width);
  }

  lemma TwoChunks(cores: seq<nat>, n: nat, s: nat, width: nat, i: nat, j: nat)
    requires Ascending(cores) && i < j < n && width <= s
    ensures ToSet(Chunk(cores, n, s, width, i)) !! ToSet(Chunk(cores, n, s, width, j))
  {
    hide Chunk;
    ChunkOfCores(cores, n, s, width, i);
    forall x | x in Chunk(cores, n, s, width, i) && x in Chunk(cores, n, s, width, j) ensures false {
      var p :| 0 <= p < |cores| && cores[p] == x;
      ChunkHas(cores, n, s, width, i, p);
      ChunkHas(cores, n, s, width, j, p);
      MulStep(i, j, s);
    }
  }

  /** Chunks are disjoint exactly when no rank is wider than the stride (or there is only one rank). */
  lemma DisjointExactly(cores: seq<nat>, n: nat, s: nat, width: nat)
    requires Ascending(cores) && Fits(cores, n, s) && width >= 1
    ensures Apart(cores, n, s, width) <==> width <= s || n == 1
  {
    if width <= s || n == 1 {
      forall i, j | 0 <= i < j < n ensures ToSet(Chunk(cores, n, s, width, i)) !! ToSet(Chunk(cores, n, s, width, j)) {
        TwoChunks(cores, n, s, width, i, j);
      }
    } else {
      MulStep(1, n, s);
      ChunkHas(cores, n, s, width, 0, s);
      ChunkHas(cores, n, s, width, 1, s);
      assert cores[s] in ToSet(Chunk(cores, n, s, width, 0)) && cores[s] in ToSet(Chunk(cores, n, s, width, 1));
    }
  }

  lemma WindowOf(p: nat, n: nat, s: nat) returns (i: nat)
    requires n >= 1 && s >= 1
    ensures i < n && i * s <= p && (i == n - 1 || p < i * s + s)
  {
    if p < s || n == 1 {
      i := 0;
    } else {
      i := WindowOf(p - s, n - 1, s);
      assert (i + 1) * s == i * s + s;
      i := i + 1;
    }
  }

  /** The chunks use every core exactly when no rank is narrower than the stride (or there is only one rank). */
  lemma CoverageExactly(cores: seq<nat>, n: nat, s: nat, width: nat)
    requires Ascending(cores) && Fits(cores, n, s) && width >= 1
    ensures Covers(cores, n, s, width) <==> width >= s || n == 1
  {
    if width >= s || n == 1 {
      forall x | x in cores ensures exists i :: 0 <= i < n && x in Chunk(cores, n, s, width, i) {
        var p :| 0 <= p < |cores| && cores[p] == x;
        var i := WindowOf(p, n, s);
        ChunkHas(cores, n, s, width, i, p);
      }
    } else {
      MulStep(0, n, s);
      var p := s - 1;
      forall i | 0 <= i < n ensures cores[p] !in Chunk(cores, n, s, width, i) {
        ChunkHas(cores, n, s, width, i, p);
        if i > 0 { MulStep(0, i, s); }
      }
      assert cores[p] in cores;
    }
  }

  // ---- the rankfile -----------------------------------------------------------

  function Line(b: RankBinding): string {
    "rank " + NatText(b.rank) + "=localhost slot=" + Format(ToSet(b.cores))
  }

  function Lines(plan: seq<RankBinding>): seq<string> {
    if plan == [] then []
    else (if plan[0].cores == [] then [] else [Line(plan[0])]) + Lines(plan[1..])
  }

  /** `openmpi_rankfile` */
  function Rankfile(plan: seq<RankBinding>): string {
    if Lines(plan) == [] then "" else Join(Lines(plan), '\n') + "\n"
  }

  /** Reads a rankfile line: its rank, and the cores of its slot list. */
  function ReadLine(line: string): (Option<int>, Result<set<nat>>) {
    if |line| < 5 || line[..5] != "rank " || '=' !in line then
      (None, Err("not a rank line"))
    else
      var k := IndexOf(line, '=');
      if k < 5 || |line| < k + 16 || line[k..k + 16] != "=localhost slot=" then (None, Err("not a rank line"))
      else (PyInt(line[5..k]), Parse(line[k + 16..]))
  }

  lemma LineReads(b: RankBinding)
    ensures ReadLine(Line(b)) == (Some(b.rank), Ok(ToSet(b.cores)))
  {
    var line, rank, slots := Line(b), NatText(b.rank), Format(ToSet(b.cores));
    var k := 5 + |rank|;
    assert line == "rank " + rank + "=localhost slot=" + slots;
    assert line[k] == '=' && line[..k] == "rank " + rank;
    FirstIndex(line, '=', k);
    assert line[..5] == "rank " && line[k..k + 16] == "=localhost slot=";
    assert line[5..k] == rank && line[k + 16..] == slots;
    IntOfNatText(b.rank);
    RoundTrip(ToSet(b.cores));
  }

  lemma FormatHasNoNewline(cores: set<nat>)
    ensures '\n' !in Format(cores)
  {
    if cores != {} {
      SortedRuns(cores);
      var runs := RunsOf(Sorted(cores));
      forall k | 0 <= k < |runs| ensures '\n' !in Texts(runs)[k] {
        RunTextSolid(runs[k]);
      }
      JoinAvoids(Texts(runs), ',', '\n');
    }
  }

  lemma RunTextSolid(r: Run)
    ensures '\n' !in RunText(r)
  {
  }

  lemma {:induction false} LinesHaveNoNewline(plan: seq<RankBinding>)
    ensures forall line | line in Lines(plan) :: '\n' !in line
  {
    if plan != [] {
      LinesHaveNoNewline(plan[1..]);
      FormatHasNoNewline(ToSet(plan[0].cores));
    }
  }

  ghost function Occupied(plan: seq<RankBinding>): seq<RankBinding> {
    if plan == [] then [] else (if plan[0].cores == [] then [] else [plan[0]]) + Occupied(plan[1..])
  }

  lemma {:induction false} LinesOfOccupied(plan: seq<RankBinding>)
    ensures |Lines(plan)| == |Occupied(plan)|
    ensures forall k | 0 <= k < |Lines(plan)| :: Lines(plan)[k] == Line(Occupied(plan)[k])
  {
    if plan != [] {
      LinesOfOccupied(plan[1..]);
    }
  }

  lemma {:induction false} JoinThenBreak(lines: seq<string>)
    requires lines != []
    ensures Join(lines, '\n') + "\n" == Join(lines + [""], '\n')
  {
    assert (lines + [""])[1..] == lines[1..] + [""];
    if |lines| > 1 {
      JoinThenBreak(lines[1..]);
    } else {
      assert (lines + [""])[1..] == [""];
    }
  }

  /** Cut at its line breaks, the rankfile gives back the rank and the core set of every rank that has
      cores, in rank order. */
  lemma RankfileReadsBack(plan: seq<RankBinding>)
    ensures Occupied(plan) == [] ==> Rankfile(plan) == ""
    ensures Occupied(plan) != [] ==>
              var lines := Split(Rankfile(plan), '\n');
              && |lines| == |Occupied(plan)| + 1 && lines[|lines| - 1] == ""
              && forall k | 0 <= k < |lines| - 1 ::
                   ReadLine(lines[k]) == (Some(Occupied(plan)[k].rank as int), Ok(ToSet(Occupied(plan)[k].cores)))
  {
    LinesOfOccupied(plan);
    if Occupied(plan) != [] {
      var lines := Lines(plan);
      LinesHaveNoNewline(plan);
      JoinThenBreak(lines);
      SplitUndoesJoin(lines + [""], '\n');
      forall k | 0 <= k < |lines| ensures ReadLine(lines[k]) == (Some(Occupied(plan)[k].rank as int), Ok(ToSet(Occupied(plan)[k].cores))) {
        LineReads(Occupied(plan)[k]);
      }
    }
  }
}
