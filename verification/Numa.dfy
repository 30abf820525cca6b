/** NUMA core allocation: `_largest_contiguous_run`, `allocate` and the grouping logic of
    `detect_smt_secondary` in nodepilot/numa.py. */
module Numa {
  import opened Wrappers
  import opened CpuList
  import opened Text

  function ToSet(s: seq<nat>): set<nat> {
    set x | x in s
  }

  // ---- the first long-enough run ----------------------------------------

  /** `s`, and the `n - 1` numbers after it, are all free. */
  ghost predicate HasRun(free: set<nat>, s: nat, n: int) {
    s in free && forall k: nat | s <= k < s + n :: k in free
  }

  ghost function RunStarts(free: set<nat>, n: int): set<nat> {
    set s | s in free && HasRun(free, s, n)
  }

  ghost function FirstRun(free: set<nat>, n: int): Option<nat> {
    if RunStarts(free, n) == {} then None else Some(Least(RunStarts(free, n)))
  }

  ghost predicate Consecutive(s: seq<nat>, i: nat, j: nat)
    requires i <= j < |s|
  {
    forall k | i <= k <= j :: s[k] == s[i] + (k - i)
  }

  lemma RunFound(s: seq<nat>, i: nat, j: nat, n: int)
    requires Ascending(s) && i <= j < |s| && Consecutive(s, i, j) && j - i + 1 >= n
    requires forall k | 0 <= k < i :: s[k] !in RunStarts(ToSet(s), n)
    ensures FirstRun(ToSet(s), n) == Some(s[i])
  {
    var free := ToSet(s);
    forall x: nat | s[i] <= x < s[i] + n ensures x in free {
      assert s[i + (x - s[i])] == x;
    }
    assert HasRun(free, s[i], n);
    var starts := RunStarts(free, n);
    assert s[i] in starts;
    var m := Least(starts);
    var k :| 0 <= k < |s| && s[k] == m;
    assert k <= i;
  }

  lemma RunTooShort(s: seq<nat>, i: nat, j: nat, n: int)
    requires Ascending(s) && i <= j < |s| && Consecutive(s, i, j) && j - i + 1 < n
    requires j + 1 < |s| ==> s[j + 1] != s[j] + 1
    ensures forall k | i <= k <= j :: s[k] !in RunStarts(ToSet(s), n)
  {
    var free := ToSet(s);
    var gap: nat := s[j] + 1;
    forall k | 0 <= k < |s| ensures s[k] != gap {
      if k > j + 1 { assert s[j + 1] < s[k]; }
    }
    assert gap !in free;
    forall k | i <= k <= j ensures s[k] !in RunStarts(free, n) {
      assert s[k] <= gap < s[k] + n;
    }
  }

  /** `_largest_contiguous_run`.  In spite of its name it returns the least start of a run of at least
      `n` cores; any `n` below one asks for a run of one. */
  method LargestContiguousRun(freeSorted: seq<nat>, n: int) returns (r: Option<nat>)
    requires Ascending(freeSorted)
    ensures r == FirstRun(ToSet(freeSorted), n)
  {
    var i := 0;
    while i < |freeSorted|
      invariant 0 <= i <= |freeSorted|
      invariant forall k | 0 <= k < i :: freeSorted[k] !in RunStarts(ToSet(freeSorted), n)
    {
      var j := i;
      while j + 1 < |freeSorted| && freeSorted[j + 1] == freeSorted[j] + 1
        invariant i <= j < |freeSorted|
        invariant Consecutive(freeSorted, i, j)
      {
        j := j + 1;
      }
      if j - i + 1 >= n {
        RunFound(freeSorted, i, j, n);
        return Some(freeSorted[i]);
      }
      RunTooShort(freeSorted, i, j, n);
      i := j + 1;
    }
    NoStarts(freeSorted, n);
    r := None;
  }

  lemma NoStarts(s: seq<nat>, n: int)
    requires forall k | 0 <= k < |s| :: s[k] !in RunStarts(ToSet(s), n)
    ensures FirstRun(ToSet(s), n) == None
  {
    if x :| x in RunStarts(ToSet(s), n) {
      assert x in s;
    }
  }

  /** What the result means: the least `s` such that `s .. s+n-1` are all free, and none if there is no such `s`. */
  lemma FirstRunMeaning(free: set<nat>, n: int)
    ensures FirstRun(free, n).None? <==> forall s :: !HasRun(free, s, n)
    ensures FirstRun(free, n).Some? ==>
              HasRun(free, FirstRun(free, n).value, n)
              && forall s | HasRun(free, s, n) :: FirstRun(free, n).value <= s
  {
    assert forall s :: s in RunStarts(free, n) <==> HasRun(free, s, n);
    if s: nat :| HasRun(free, s, n) { assert s in RunStarts(free, n); }
  }

  /** `longest` is the length of the longest run of free cores. */
  ghost predicate LongestIs(free: set<nat>, longest: nat) {
    FirstRun(free, longest).Some? && FirstRun(free, longest + 1).None?
  }

  /** The docstring promises the largest run; the run found is a largest one exactly when no run that is long
      enough starts before the first largest one. */
  lemma LargestExactly(free: set<nat>, n: nat, longest: nat)
    requires 1 <= n <= longest && LongestIs(free, longest)
    ensures FirstRun(free, n).Some?
    ensures HasRun(free, FirstRun(free, n).value, longest) <==>
            forall s: nat | s < FirstRun(free, longest).value :: !HasRun(free, s, n)
  {
    FirstRunMeaning(free, n);
    FirstRunMeaning(free, longest);
    assert HasRun(free, FirstRun(free, longest).value, n);
  }

  /** Every non-empty set has a longest run, and any run that exists is at most as long. */
  lemma LongestExists(free: set<nat>, n: nat) returns (longest: nat)
    requires 1 <= n && FirstRun(free, n).Some?
    ensures n <= longest && LongestIs(free, longest)
    decreases |free| - n
  {
    FirstRunMeaning(free, n);
    if |free| < n { NoRoom(free, n); }
    if FirstRun(free, n + 1).None? {
      longest := n;
    } else {
      longest := LongestExists(free, n + 1);
    }
  }

  /** A free list on which the run found is not the largest: here a longer one starts at 4. */
  lemma NotTheLargestRun()
    ensures var free := {0, 1, 4, 5, 6};
            FirstRun(free, 2) == Some(0) && LongestIs(free, 3) && !HasRun(free, 0, 3)
  {
    var free := {0, 1, 4, 5, 6};
    TwoRuns(free);
    hide HasRun;
    FirstRunMeaning(free, 2);
    FirstRunMeaning(free, 3);
    FirstRunMeaning(free, 4);
  }

  lemma TwoRuns(free: set<nat>)
    requires free == {0, 1, 4, 5, 6}
    ensures HasRun(free, 0, 2) && !HasRun(free, 0, 3) && HasRun(free, 4, 3)
    ensures forall s: nat :: !HasRun(free, s, 4)
  {
    forall s: nat ensures !HasRun(free, s, 4) {
      assert s + 1 !in free || s + 3 !in free || s !in free;
    }
    assert HasRun(free, 0, 3) ==> 2 in free;
  }

  // ---- choosing cores on one node ----------------------------------------

  datatype Node = Node(id: int, spec: string)

  datatype Placement = Placement(cpuList: string, node: int, interleave: bool, contiguous: bool, oversubscribed: bool)

  /** The arguments of `allocate` that do not describe the machine. */
  datatype Request = Request(cores: int, ramGb: real, interleaveThreshold: real, nodeRamCap: real, nodeRamSafety: real) {
    predicate Interleaves() {
      interleaveThreshold > 0.0 && ramGb >= interleaveThreshold
    }

    predicate Gates() {
      nodeRamCap > 0.0 && !Interleaves()
    }
  }

  /** What `allocate` is told about the machine: occupied cores, SMT siblings, and the anonymous memory
      each node holds (`None` where it cannot be read). */
  datatype Machine = Machine(occupied: set<nat>, secondary: set<nat>, anon: int -> Option<real>)

  /** No node's memory is read. */
  function Unread(node: int): Option<real> {
    None
  }

  function NodeCores(node: Node): set<nat> {
    if Parse(node.spec).Ok? then Parse(node.spec).value else {}
  }

  datatype Candidate = Candidate(scattered: bool, free: nat, used: real, node: int, cores: set<nat>, oversub: bool)

  /** The sort key `(not contiguous, -free count, used GB, node)`. */
  predicate Before(a: Candidate, b: Candidate) {
    if a.scattered != b.scattered then b.scattered
    else if a.free != b.free then a.free > b.free
    else if a.used != b.used then a.used < b.used
    else a.node <= b.node
  }

  predicate RamOk(req: Request, m: Machine, node: int) {
    req.Gates() && m.anon(node).Some? ==> m.anon(node).value + req.ramGb <= req.nodeRamCap - req.nodeRamSafety
  }

  function UsedGb(req: Request, m: Machine, node: int): real {
    if req.Gates() && m.anon(node).Some? then m.anon(node).value else 0.0
  }

  /** The least `n` elements. */
  function LeastN(s: set<nat>, n: nat): set<nat>
    requires n <= |s|
  {
    ToSet(Sorted(s)[..n])
  }

  datatype Choice = Choice(cores: set<nat>, contiguous: bool, oversub: bool)

  /** `n` free cores: the first long-enough run of primaries, else the least primaries, else all primaries
      and the least siblings. */
  ghost function ChooseFrom(n: nat, primaries: set<nat>, siblings: set<nat>): Choice
    requires 1 <= n <= |primaries| + |siblings|
  {
    if |primaries| < n then
      Choice(primaries + LeastN(siblings, n - |primaries|), false, true)
    else
      match FirstRun(primaries, n)
      case Some(start) => Choice(Span(start, start + n - 1), true, false)
      case None => Choice(LeastN(primaries, n), false, false)
  }

  ghost function Choose(n: nat, free: set<nat>, secondary: set<nat>): Choice
    requires 1 <= n <= |free|
  {
    SplitSize(free, secondary);
    ChooseFrom(n, free - secondary, free * secondary)
  }

  lemma SplitSize(free: set<nat>, secondary: set<nat>)
    ensures |free| == |free - secondary| + |free * secondary|
    ensures free == (free - secondary) + free * secondary
  {
    var p, s := free - secondary, free * secondary;
    assert free == p + s && p !! s;
  }

  ghost predicate Eligible(req: Request, m: Machine, node: Node) {
    |NodeCores(node) - m.occupied| >= req.cores && RamOk(req, m, node.id)
  }

  /** The offer an eligible node makes. */
  ghost function Offer(req: Request, m: Machine, node: Node): Candidate
    requires req.cores >= 1 && Eligible(req, m, node)
  {
    var free := NodeCores(node) - m.occupied;
    var c := Choose(req.cores, free, m.secondary);
    Candidate(!c.contiguous, |free|, UsedGb(req, m, node.id), node.id, c.cores, c.oversub)
  }

  lemma HeadSize(o: seq<nat>, n: nat)
    requires Ascending(o) && n <= |o|
    ensures |ToSet(o[..n])| == n
  {
    var head := o[..n];
    ElementsIn(head);
    assert Elements(head) == ToSet(head);
  }

  lemma HeadSet(o: seq<nat>, n: nat)
    requires Ascending(o) && n <= |o|
    ensures |ToSet(o[..n])| == n && ToSet(o[..n]) <= ToSet(o)
    ensures forall x, y | x in ToSet(o[..n]) && y in ToSet(o) - ToSet(o[..n]) :: x < y
  {
    HeadSize(o, n);
    assert forall k | 0 <= k < n :: o[..n][k] == o[k];
    forall x, y | x in o[..n] && y in o && y !in o[..n] ensures x < y {
      var i :| 0 <= i < n && o[i] == x;
      var j :| 0 <= j < |o| && o[j] == y;
    }
  }

  lemma LeastNFacts(s: set<nat>, n: nat)
    requires n <= |s|
    ensures LeastN(s, n) <= s && |LeastN(s, n)| == n
    ensures forall x, y | x in LeastN(s, n) && y in s - LeastN(s, n) :: x < y
  {
    SortedToSet(s);
    SortedFacts(s);
    HeadSet(Sorted(s), n);
  }

  /** A choice is exactly as many free cores as were asked for, contiguous exactly when some run of free
      primaries is long enough.  It takes no sibling thread when the free primaries suffice; otherwise it
      takes all of them, fills up with siblings and says so. */
  lemma ChoiceFacts(n: nat, primaries: set<nat>, siblings: set<nat>)
    requires 1 <= n <= |primaries| + |siblings| && primaries !! siblings
    ensures |ChooseFrom(n, primaries, siblings).cores| == n
    ensures ChooseFrom(n, primaries, siblings).cores <= primaries + siblings
    ensures ChooseFrom(n, primaries, siblings).contiguous <==> exists s: nat :: HasRun(primaries, s, n)
    ensures ChooseFrom(n, primaries, siblings).oversub <==> |primaries| < n
    ensures if |primaries| < n then primaries <= ChooseFrom(n, primaries, siblings).cores
            else ChooseFrom(n, primaries, siblings).cores <= primaries
  {
    if |primaries| < n {
      var fill := LeastN(siblings, n - |primaries|);
      LeastNFacts(siblings, n - |primaries|);
      NoRoom(primaries, n);
      assert primaries !! fill;
    } else {
      PrimaryChoice(n, primaries);
    }
  }

  lemma OneMore(s: set<nat>, x: nat)
    requires x !in s
    ensures |s + {x}| == |s| + 1
  {
  }

  lemma {:induction false} SpanCounts(lo: nat, hi: int)
    requires lo <= hi + 1
    ensures |Span(lo, hi)| == hi - lo + 1
    decreases hi
  {
    if lo <= hi {
      var init := Span(lo, hi - 1);
      SpanCounts(lo, hi - 1);
      OneMore(init, hi);
    }
  }

  lemma SpanSize(lo: nat, n: nat)
    ensures |Span(lo, lo + n - 1)| == n
  {
    hide Span;
    SpanCounts(lo, lo + n - 1);
  }

  lemma PrimaryChoice(n: nat, primaries: set<nat>)
    requires 1 <= n <= |primaries|
    ensures FirstRun(primaries, n).Some? <==> exists s: nat :: HasRun(primaries, s, n)
    ensures FirstRun(primaries, n).Some? ==>
              var start := FirstRun(primaries, n).value;
              Span(start, start + n - 1) <= primaries && |Span(start, start + n - 1)| == n
    ensures LeastN(primaries, n) <= primaries && |LeastN(primaries, n)| == n
  {
    hide FirstRun, LeastN;
    FirstRunMeaning(primaries, n);
    LeastNFacts(primaries, n);
    if FirstRun(primaries, n).Some? { SpanSize(FirstRun(primaries, n).value, n); }
  }

  lemma OfferFacts(req: Request, m: Machine, node: Node)
    requires req.cores >= 1 && Eligible(req, m, node)
    ensures var o := Offer(req, m, node);
            |o.cores| == req.cores && o.cores <= NodeCores(node) && o.cores !! m.occupied && o.node == node.id
  {
    var free := NodeCores(node) - m.occupied;
    SplitSize(free, m.secondary);
    ChoiceFacts(req.cores, free - m.secondary, free * m.secondary);
  }

  lemma NoRoom(free: set<nat>, n: nat)
    requires |free| < n
    ensures forall s :: !HasRun(free, s, n)
  {
    if s: nat :| HasRun(free, s, n) {
      SpanSize(s, n);
      SubsetSize(Span(s, s + n - 1), free);
    }
  }

  // ---- choosing a node ----------------------------------------------------

  ghost function Offers(req: Request, m: Machine, nodes: seq<Node>): seq<Candidate>
    requires req.cores >= 1
  {
    if nodes == [] then
      []
    else
      var init, last := nodes[..|nodes| - 1], nodes[|nodes| - 1];
      Offers(req, m, init) + if Eligible(req, m, last) then [Offer(req, m, last)] else []
  }

  /** The head of the stably sorted candidate list. */
  function Best(cs: seq<Candidate>): (c: Candidate)
    requires cs != []
    ensures c in cs && forall d | d in cs :: Before(c, d)
  {
    if |cs| == 1 then
      cs[0]
    else
      var c := Best(cs[..|cs| - 1]);
      assert cs == cs[..|cs| - 1] + [cs[|cs| - 1]];
      if Before(c, cs[|cs| - 1]) then c else cs[|cs| - 1]
  }

  ghost function Allocation(req: Request, m: Machine, nodes: seq<Node>): Option<Placement> {
    if req.cores <= 0 then
      Some(Placement("", if nodes == [] then 0 else nodes[0].id, false, true, false))
    else if Offers(req, m, nodes) == [] then
      None
    else
      var c := Best(Offers(req, m, nodes));
      Some(Placement(Format(c.cores), c.node, req.Interleaves(), !c.scattered, c.oversub))
  }

  lemma {:induction false} OffersIn(req: Request, m: Machine, nodes: seq<Node>)
    requires req.cores >= 1
    ensures forall c :: c in Offers(req, m, nodes) <==>
                        exists node :: node in nodes && Eligible(req, m, node) && c == Offer(req, m, node)
    ensures Offers(req, m, nodes) == [] <==> forall node | node in nodes :: !Eligible(req, m, node)
  {
    if nodes != [] {
      var init, last := nodes[..|nodes| - 1], nodes[|nodes| - 1];
      OffersIn(req, m, init);
      assert forall node :: node in nodes <==> node in init || node == last;
    }
  }

  ghost function PlacementOf(req: Request, o: Candidate): Placement {
    Placement(Format(o.cores), o.node, req.Interleaves(), !o.scattered, o.oversub)
  }

  /** `best` is eligible and no eligible node comes before it under the key. */
  ghost predicate Wins(req: Request, m: Machine, nodes: seq<Node>, best: Node)
    requires req.cores >= 1
  {
    && best in nodes && Eligible(req, m, best)
    && forall node | node in nodes && Eligible(req, m, node) :: Before(Offer(req, m, best), Offer(req, m, node))
  }

  /** The declarative optimum: nothing exactly when no node is eligible, otherwise the winner's offer. */
  lemma AllocationOptimal(req: Request, m: Machine, nodes: seq<Node>)
    requires req.cores >= 1
    ensures Allocation(req, m, nodes).None? <==> forall node | node in nodes :: !Eligible(req, m, node)
    ensures Allocation(req, m, nodes).Some? ==>
              exists best :: Wins(req, m, nodes, best) && Allocation(req, m, nodes).value == PlacementOf(req, Offer(req, m, best))
  {
    OffersIn(req, m, nodes);
    var cs := Offers(req, m, nodes);
    if cs != [] {
      var c := Best(cs);
      var best :| best in nodes && Eligible(req, m, best) && c == Offer(req, m, best);
      forall node | node in nodes && Eligible(req, m, node) ensures Before(c, Offer(req, m, node)) {
        assert Offer(req, m, node) in cs;
      }
      assert Wins(req, m, nodes, best);
    }
  }

  ghost predicate DistinctNodes(nodes: seq<Node>) {
    forall a, b | a in nodes && b in nodes && a.id == b.id :: a == b
  }

  lemma OneWinner(req: Request, m: Machine, nodes: seq<Node>, a: Node, b: Node)
    requires req.cores >= 1 && DistinctNodes(nodes) && Wins(req, m, nodes, a) && Wins(req, m, nodes, b)
    ensures a == b
  {
    assert Before(Offer(req, m, a), Offer(req, m, b));
    assert Before(Offer(req, m, b), Offer(req, m, a));
  }

  /** The winner is unique, so the answer does not depend on the order in which the topology lists its nodes. */
  lemma OrderOfNodesIrrelevant(req: Request, m: Machine, nodes: seq<Node>, other: seq<Node>)
    requires req.cores >= 1 && DistinctNodes(nodes)
    requires forall node :: node in nodes <==> node in other
    ensures Allocation(req, m, nodes) == Allocation(req, m, other)
  {
    AllocationOptimal(req, m, nodes);
    AllocationOptimal(req, m, other);
    if Allocation(req, m, nodes).Some? {
      var a :| Wins(req, m, nodes, a) && Allocation(req, m, nodes).value == PlacementOf(req, Offer(req, m, a));
      var b :| Wins(req, m, other, b) && Allocation(req, m, other).value == PlacementOf(req, Offer(req, m, b));
      assert Wins(req, m, nodes, b);
      OneWinner(req, m, nodes, a, b);
    }
  }

  ghost function FreePrimaries(m: Machine, node: Node): set<nat> {
    NodeCores(node) - m.occupied - m.secondary
  }

  lemma OfferThreads(req: Request, m: Machine, node: Node)
    requires req.cores >= 1 && Eligible(req, m, node)
    ensures var o, free := Offer(req, m, node), FreePrimaries(m, node);
            && o.node == node.id
            && (!o.scattered <==> exists s: nat :: HasRun(free, s, req.cores))
            && (o.oversub <==> |free| < req.cores)
            && (o.oversub ==> o.scattered)
  {
    hide HasRun, ChooseFrom, NodeCores, UsedGb, RamOk;
    var free := NodeCores(node) - m.occupied;
    SplitSize(free, m.secondary);
    ChoiceFacts(req.cores, free - m.secondary, free * m.secondary);
    var primaries := FreePrimaries(m, node);
    assert primaries == free - m.secondary;
    if |primaries| < req.cores { NoRoom(primaries, req.cores); }
  }

  /** The placement is contiguous exactly when some eligible node has enough consecutive free primaries. */
  lemma ContiguousWhenPossible(req: Request, m: Machine, nodes: seq<Node>)
    requires req.cores >= 1 && Allocation(req, m, nodes).Some?
    ensures Allocation(req, m, nodes).value.contiguous <==>
            exists node, s :: node in nodes && Eligible(req, m, node) && HasRun(FreePrimaries(m, node), s, req.cores)
  {
    hide Allocation, HasRun, FreePrimaries, Offer, Eligible;
    AllocationOptimal(req, m, nodes);
    var best :| Wins(req, m, nodes, best) && Allocation(req, m, nodes).value == PlacementOf(req, Offer(req, m, best));
    forall node | node in nodes && Eligible(req, m, node)
      ensures !Offer(req, m, node).scattered <==> exists s: nat :: HasRun(FreePrimaries(m, node), s, req.cores)
    {
      OfferThreads(req, m, node);
    }
  }

  /** What the scheduler needs of a placement, read back from its text: exactly the cores asked for,
      all of them free and on the recorded node. */
  lemma PlacementSound(req: Request, m: Machine, nodes: seq<Node>)
    requires Allocation(req, m, nodes).Some?
    ensures var p := Allocation(req, m, nodes).value;
            && Parse(p.cpuList).Ok?
            && |Parse(p.cpuList).value| == (if req.cores >= 1 then req.cores else 0)
            && Parse(p.cpuList).value !! m.occupied
            && (req.cores >= 1 ==> exists node :: node in nodes && node.id == p.node && Parse(p.cpuList).value <= NodeCores(node))
  {
    if req.cores >= 1 {
      AllocationOptimal(req, m, nodes);
      var p := Allocation(req, m, nodes).value;
      var best :| Wins(req, m, nodes, best) && p == PlacementOf(req, Offer(req, m, best));
      OfferFacts(req, m, best);
      RoundTrip(Offer(req, m, best).cores);
    } else {
      BlankParses("");
    }
  }

  /** On the chosen node no sibling thread is used while free primaries suffice; otherwise all free
      primaries are used, siblings fill up the rest, and the placement says so. */
  lemma PlacementThreads(req: Request, m: Machine, nodes: seq<Node>)
    requires req.cores >= 1 && Allocation(req, m, nodes).Some?
    ensures exists node :: && node in nodes && node.id == Allocation(req, m, nodes).value.node
                           && FollowsThreads(Allocation(req, m, nodes).value, NodeCores(node) - m.occupied, m.secondary, req.cores)
  {
    AllocationOptimal(req, m, nodes);
    var p := Allocation(req, m, nodes).value;
    var best :| Wins(req, m, nodes, best) && p == PlacementOf(req, Offer(req, m, best));
    var free := NodeCores(best) - m.occupied;
    RoundTrip(Offer(req, m, best).cores);
    SplitSize(free, m.secondary);
    ChoiceFacts(req.cores, free - m.secondary, free * m.secondary);
    assert FollowsThreads(p, free, m.secondary, req.cores);
  }

  ghost predicate FollowsThreads(p: Placement, free: set<nat>, secondary: set<nat>, n: nat) {
    && Parse(p.cpuList).Ok?
    && var cores := Parse(p.cpuList).value;
       && cores <= free && |cores| == n
       && p.oversubscribed == (|free - secondary| < n)
       && if p.oversubscribed then free - secondary <= cores else cores !! secondary
  }

  /** Freeing cores never makes a request fail: what is refused on a quieter machine is refused on a busier one. */
  lemma RefusalIsMonotone(req: Request, quiet: Machine, busy: Machine, nodes: seq<Node>)
    requires quiet.occupied <= busy.occupied && quiet.anon == busy.anon
    requires Allocation(req, quiet, nodes).None?
    ensures Allocation(req, busy, nodes).None?
  {
    OffersIn(req, quiet, nodes);
    OffersIn(req, busy, nodes);
    forall node | node in nodes ensures !Eligible(req, busy, node) {
      SubsetSize(NodeCores(node) - busy.occupied, NodeCores(node) - quiet.occupied);
    }
  }

  // ---- what the flags say about the chosen node --------------------------------

  lemma ChosenNode(req: Request, m: Machine, nodes: seq<Node>, node: Node)
    requires req.cores >= 1 && DistinctNodes(nodes) && Allocation(req, m, nodes).Some?
    requires node in nodes && node.id == Allocation(req, m, nodes).value.node
    ensures Eligible(req, m, node) && Allocation(req, m, nodes).value == PlacementOf(req, Offer(req, m, node))
    ensures var p := Allocation(req, m, nodes).value; Parse(p.cpuList) == Ok(Offer(req, m, node).cores)
  {
    hide Allocation, Offer, Eligible;
    AllocationOptimal(req, m, nodes);
    var best :| Wins(req, m, nodes, best) && Allocation(req, m, nodes).value == PlacementOf(req, Offer(req, m, best));
    OfferThreads(req, m, best);
    RoundTrip(Offer(req, m, best).cores);
  }

  /** A contiguous placement starts where the first long-enough run of the node's free primaries does. */
  lemma ContiguousOffer(req: Request, m: Machine, node: Node)
    requires req.cores >= 1 && Eligible(req, m, node) && !Offer(req, m, node).scattered
    ensures var start := FirstRun(FreePrimaries(m, node), req.cores);
            start.Some? && Offer(req, m, node).cores == Span(start.value, start.value + req.cores - 1)
  {
    hide FirstRun, NodeCores, UsedGb, RamOk;
  }

  lemma SpanLeast(lo: nat, n: nat)
    requires n >= 1
    ensures lo in Span(lo, lo + n - 1) && Least(Span(lo, lo + n - 1)) == lo
  {
  }

  /** A contiguous placement lies on a largest run of the chosen node's free primaries exactly when no run
      that is long enough starts before the first largest one. */
  lemma OnLargestRunExactly(req: Request, m: Machine, nodes: seq<Node>, node: Node, longest: nat)
    requires req.cores >= 1 && DistinctNodes(nodes) && Allocation(req, m, nodes).Some?
    requires node in nodes && node.id == Allocation(req, m, nodes).value.node
    requires Allocation(req, m, nodes).value.contiguous && LongestIs(FreePrimaries(m, node), longest)
    ensures req.cores <= longest
    ensures var free, chosen := FreePrimaries(m, node), Parse(Allocation(req, m, nodes).value.cpuList);
            && chosen.Ok? && chosen.value != {}
            && (HasRun(free, Least(chosen.value), longest) <==>
                forall s: nat | s < FirstRun(free, longest).value :: !HasRun(free, s, req.cores))
  {
    hide Allocation, Offer, Eligible, FreePrimaries, HasRun, Parse, Format, Least, Span, FirstRun;
    var free := FreePrimaries(m, node);
    ChosenNode(req, m, nodes, node);
    ContiguousOffer(req, m, node);
    SpanLeast(FirstRun(free, req.cores).value, req.cores);
    NoLongerThanLongest(free, req.cores, longest);
    LargestExactly(free, req.cores, longest);
  }

  lemma NoLongerThanLongest(free: set<nat>, n: nat, longest: nat)
    requires LongestIs(free, longest) && FirstRun(free, n).Some?
    ensures n <= longest
  {
    FirstRunMeaning(free, n);
    FirstRunMeaning(free, longest + 1);
    var s := FirstRun(free, n).value;
    assert HasRun(free, s, n) && !HasRun(free, s, longest + 1);
  }

  /** The `oversubscribed` flag in terms of the chosen node: it differs from "more cores requested than the node
      has physical ones" exactly when it is the free physical cores alone that are too few. */
  lemma ChosenFlagMeaning(req: Request, m: Machine, nodes: seq<Node>, node: Node)
    requires req.cores >= 1 && DistinctNodes(nodes) && Allocation(req, m, nodes).Some?
    requires node in nodes && node.id == Allocation(req, m, nodes).value.node
    ensures (Allocation(req, m, nodes).value.oversubscribed <==> |NodeCores(node) - m.secondary| < req.cores) <==>
            !(|FreePrimaries(m, node)| < req.cores <= |NodeCores(node) - m.secondary|)
  {
    hide Allocation, Offer, Eligible, NodeCores;
    ChosenNode(req, m, nodes, node);
    OfferThreads(req, m, node);
    SubsetSize(FreePrimaries(m, node), NodeCores(node) - m.secondary);
  }

  ghost predicate Interval(cores: set<nat>) {
    exists lo: nat, hi: nat :: cores == Span(lo, hi)
  }

  lemma IntervalIsRun(cores: set<nat>, n: nat, free: set<nat>)
    requires n >= 1 && |cores| == n && Interval(cores) && cores <= free
    ensures exists s: nat :: HasRun(free, s, n)
  {
    var lo: nat, hi: nat :| cores == Span(lo, hi);
    assert lo <= hi;
    SpanSize(lo, hi - lo + 1);
    assert HasRun(free, lo, n);
  }

  lemma SpanIsInterval(lo: nat, n: nat)
    requires n >= 1
    ensures Interval(Span(lo, lo + n - 1))
  {
    var hi: nat := lo + n - 1;
    assert Span(lo, hi) == Span(lo, hi);
  }

  /** The `contiguous` flag in terms of the chosen cores: set exactly when they form an interval and the
      placement is not oversubscribed. */
  lemma ContiguousFlagMeaning(req: Request, m: Machine, nodes: seq<Node>)
    requires req.cores >= 1 && Allocation(req, m, nodes).Some?
    ensures var p := Allocation(req, m, nodes).value;
            Parse(p.cpuList).Ok? && (p.contiguous <==> !p.oversubscribed && Interval(Parse(p.cpuList).value))
  {
    hide Allocation, Offer, Eligible, Parse, Format, Interval;
    AllocationOptimal(req, m, nodes);
    var best :| Wins(req, m, nodes, best) && Allocation(req, m, nodes).value == PlacementOf(req, Offer(req, m, best));
    RoundTrip(Offer(req, m, best).cores);
    ScatteredExactly(req, m, best);
  }

  lemma ScatteredExactly(req: Request, m: Machine, node: Node)
    requires req.cores >= 1 && Eligible(req, m, node)
    ensures var o := Offer(req, m, node); !o.scattered <==> !o.oversub && Interval(o.cores)
  {
    hide Offer, Eligible, FreePrimaries, HasRun, Interval, FirstRun;
    var o := Offer(req, m, node);
    OfferThreads(req, m, node);
    if !o.scattered {
      ContiguousOffer(req, m, node);
      SpanIsInterval(FirstRun(FreePrimaries(m, node), req.cores).value, req.cores);
    } else if !o.oversub && Interval(o.cores) {
      OfferPrimaries(req, m, node);
      OfferFacts(req, m, node);
      IntervalIsRun(o.cores, req.cores, FreePrimaries(m, node));
    }
  }

  lemma OfferPrimaries(req: Request, m: Machine, node: Node)
    requires req.cores >= 1 && Eligible(req, m, node) && !Offer(req, m, node).oversub
    ensures Offer(req, m, node).cores <= FreePrimaries(m, node)
  {
    hide HasRun, ChooseFrom, NodeCores, UsedGb, RamOk;
    var free := NodeCores(node) - m.occupied;
    SplitSize(free, m.secondary);
    ChoiceFacts(req.cores, free - m.secondary, free * m.secondary);
  }

  const PAIR := Request(2, 0.0, 0.0, 0.0, 0.0)

  const BUSY_0_SIBLING_2 := Machine({0}, {2}, Unread)

  function ThreeThreads(): seq<Node> {
    [Node(0, Format({0, 1, 2}))]
  }

  /** A concrete case against both: two cores are asked for on a node with two physical cores, one of them
      occupied.  The flag is set, and the chosen cores 1 and 2 form a run that is not called contiguous. */
  lemma FlagsAgainstDocumentation()
    ensures |NodeCores(ThreeThreads()[0]) - BUSY_0_SIBLING_2.secondary| == PAIR.cores
    ensures var r := Allocation(PAIR, BUSY_0_SIBLING_2, ThreeThreads());
            && r.Some? && r.value.oversubscribed && !r.value.contiguous
            && Parse(r.value.cpuList) == Ok({1, 2}) && Interval({1, 2})
  {
    hide Allocation, Offer, Format, Parse, FreePrimaries, Eligible, NodeCores, Interval;
    var nodes, node := ThreeThreads(), ThreeThreads()[0];
    ThreeThreadsCores(node);
    AllocationOptimal(PAIR, BUSY_0_SIBLING_2, nodes);
    assert node in nodes;
    PlacementSound(PAIR, BUSY_0_SIBLING_2, nodes);
    ContiguousFlagMeaning(PAIR, BUSY_0_SIBLING_2, nodes);
    ChosenNode(PAIR, BUSY_0_SIBLING_2, nodes, node);
    OfferThreads(PAIR, BUSY_0_SIBLING_2, node);
    var chosen := Parse(Allocation(PAIR, BUSY_0_SIBLING_2, nodes).value.cpuList).value;
    BothOf(chosen);
    OneAndTwo();
  }

  lemma ThreeThreadsCores(node: Node)
    requires node == ThreeThreads()[0]
    ensures NodeCores(node) == {0, 1, 2} && |NodeCores(node) - BUSY_0_SIBLING_2.secondary| == PAIR.cores
    ensures Eligible(PAIR, BUSY_0_SIBLING_2, node) && |FreePrimaries(BUSY_0_SIBLING_2, node)| == 1
  {
    hide Parse, Format;
    RoundTrip({0, 1, 2});
    assert NodeCores(node) - {2} == {0, 1} && NodeCores(node) - {0} == {1, 2};
    assert FreePrimaries(BUSY_0_SIBLING_2, node) == {1};
  }

  lemma OneAndTwo()
    ensures Interval({1, 2})
  {
    SpanIsInterval(1, 2);
    assert Span(1, 2) == {1, 2};
  }

  lemma BothOf(cores: set<nat>)
    requires cores <= {0, 1, 2} && 0 !in cores && |cores| == 2
    ensures cores == {1, 2}
  {
    SubsetSize(cores, {1, 2});
  }

  // ---- oversubscription across nodes ------------------------------------------

  /** `a` comes before `b` if neither offer is contiguous: more free cores, then less used memory, then id. */
  ghost predicate Roomier(req: Request, m: Machine, a: Node, b: Node) {
    var fa, fb := |NodeCores(a) - m.occupied|, |NodeCores(b) - m.occupied|;
    if fa != fb then fa > fb
    else if UsedGb(req, m, a.id) != UsedGb(req, m, b.id) then UsedGb(req, m, a.id) < UsedGb(req, m, b.id)
    else a.id <= b.id
  }

  /** No eligible node has enough consecutive free primaries, and `b` is the roomiest eligible node. */
  ghost predicate RoomiestOfScattered(req: Request, m: Machine, nodes: seq<Node>, b: Node)
    requires req.cores >= 1
  {
    && b in nodes && Eligible(req, m, b)
    && (forall node, s: nat | node in nodes && Eligible(req, m, node) :: !HasRun(FreePrimaries(m, node), s, req.cores))
    && (forall node | node in nodes && Eligible(req, m, node) :: Roomier(req, m, b, node))
  }

  lemma RoomiestWins(req: Request, m: Machine, nodes: seq<Node>, b: Node)
    requires req.cores >= 1
    ensures RoomiestOfScattered(req, m, nodes, b) ==> Wins(req, m, nodes, b)
    ensures Wins(req, m, nodes, b) && Offer(req, m, b).scattered ==> RoomiestOfScattered(req, m, nodes, b)
  {
    hide NodeCores, UsedGb, Choose, HasRun, FreePrimaries;
    forall node | node in nodes && Eligible(req, m, node)
      ensures Offer(req, m, node).scattered <==> forall s: nat :: !HasRun(FreePrimaries(m, node), s, req.cores)
    {
      OfferThreads(req, m, node);
    }
    if Wins(req, m, nodes, b) && Offer(req, m, b).scattered {
      forall node | node in nodes && Eligible(req, m, node)
        ensures Offer(req, m, node).scattered && Roomier(req, m, b, node)
      {
        assert Before(Offer(req, m, b), Offer(req, m, node));
      }
    }
  }

  /** Preferring primaries is a matter of each node by itself.  A placement is oversubscribed exactly when no
      eligible node has enough consecutive free primaries and the roomiest eligible node has too few free
      primaries: whether another node has enough of them, scattered, does not matter. */
  lemma OversubscribedExactly(req: Request, m: Machine, nodes: seq<Node>)
    requires req.cores >= 1 && DistinctNodes(nodes) && Allocation(req, m, nodes).Some?
    ensures Allocation(req, m, nodes).value.oversubscribed <==>
            exists b :: RoomiestOfScattered(req, m, nodes, b) && |FreePrimaries(m, b)| < req.cores
  {
    hide Allocation, Offer, Eligible, RoomiestOfScattered, FreePrimaries;
    AllocationOptimal(req, m, nodes);
    var w :| Wins(req, m, nodes, w) && Allocation(req, m, nodes).value == PlacementOf(req, Offer(req, m, w));
    OfferThreads(req, m, w);
    RoomiestWins(req, m, nodes, w);
    forall b | RoomiestOfScattered(req, m, nodes, b) ensures b == w {
      RoomiestWins(req, m, nodes, b);
      OneWinner(req, m, nodes, b, w);
    }
  }

  /** The roomiest eligible node is the one chosen if no eligible node has a long-enough run; and an
      oversubscribed placement is always on such a node. */
  lemma RoomiestIsChosen(req: Request, m: Machine, nodes: seq<Node>, node: Node)
    requires req.cores >= 1 && DistinctNodes(nodes) && Allocation(req, m, nodes).Some?
    requires node in nodes && node.id == Allocation(req, m, nodes).value.node
    ensures forall b | RoomiestOfScattered(req, m, nodes, b) :: b == node
    ensures |FreePrimaries(m, node)| < req.cores ==> RoomiestOfScattered(req, m, nodes, node)
    ensures Allocation(req, m, nodes).value.oversubscribed <==> |FreePrimaries(m, node)| < req.cores
  {
    hide Allocation, Offer, Eligible, RoomiestOfScattered, FreePrimaries;
    AllocationOptimal(req, m, nodes);
    var w :| Wins(req, m, nodes, w) && Allocation(req, m, nodes).value == PlacementOf(req, Offer(req, m, w));
    OfferThreads(req, m, w);
    assert w == node;
    RoomiestWins(req, m, nodes, node);
    forall b | RoomiestOfScattered(req, m, nodes, b) ensures b == node {
      RoomiestWins(req, m, nodes, b);
      OneWinner(req, m, nodes, b, node);
    }
  }

  /** The documentation says the flag is set when more cores were requested than the node has physical ones.
      It agrees with that except when no eligible node has enough consecutive free primaries, and the roomiest
      eligible node has enough physical cores for the request but too few free ones. */
  lemma OversubscribedFlagExactly(req: Request, m: Machine, nodes: seq<Node>, node: Node)
    requires req.cores >= 1 && DistinctNodes(nodes) && Allocation(req, m, nodes).Some?
    requires node in nodes && node.id == Allocation(req, m, nodes).value.node
    ensures (Allocation(req, m, nodes).value.oversubscribed <==> |NodeCores(node) - m.secondary| < req.cores) <==>
            !exists b :: RoomiestOfScattered(req, m, nodes, b)
                         && |FreePrimaries(m, b)| < req.cores <= |NodeCores(b) - m.secondary|
  {
    hide Allocation, RoomiestOfScattered, FreePrimaries, NodeCores;
    ChosenFlagMeaning(req, m, nodes, node);
    RoomiestIsChosen(req, m, nodes, node);
  }

  /** The node's free primaries are too few, and with the least free siblings they make up an interval. */
  ghost predicate FillsAnInterval(req: Request, m: Machine, b: Node) {
    var primaries, siblings := FreePrimaries(m, b), (NodeCores(b) - m.occupied) * m.secondary;
    && |primaries| < req.cores <= |primaries| + |siblings|
    && Interval(primaries + LeastN(siblings, req.cores - |primaries|))
  }

  lemma OversubscribedCores(req: Request, m: Machine, node: Node)
    requires req.cores >= 1 && Eligible(req, m, node) && |FreePrimaries(m, node)| < req.cores
    ensures FillsAnInterval(req, m, node) <==> Interval(Offer(req, m, node).cores)
  {
    hide Interval, LeastN, NodeCores, RamOk, UsedGb, FirstRun;
    SplitSize(NodeCores(node) - m.occupied, m.secondary);
  }

  /** The documentation says the `contiguous` flag is set when the chosen cores form a single run.  It agrees
      with that except when no eligible node has enough consecutive free primaries, and the roomiest eligible
      node has too few free primaries, which its least free siblings happen to complete to an interval. */
  lemma ContiguousFlagExactly(req: Request, m: Machine, nodes: seq<Node>)
    requires req.cores >= 1 && DistinctNodes(nodes) && Allocation(req, m, nodes).Some?
    ensures var p := Allocation(req, m, nodes).value;
            && Parse(p.cpuList).Ok?
            && ((p.contiguous <==> Interval(Parse(p.cpuList).value)) <==>
                !exists b :: RoomiestOfScattered(req, m, nodes, b) && FillsAnInterval(req, m, b))
  {
    hide Allocation, RoomiestOfScattered, FreePrimaries, NodeCores, Interval, Offer, Eligible, Parse, Format;
    AllocationOptimal(req, m, nodes);
    var w :| Wins(req, m, nodes, w) && Allocation(req, m, nodes).value == PlacementOf(req, Offer(req, m, w));
    OfferThreads(req, m, w);
    ChosenNode(req, m, nodes, w);
    ContiguousFlagMeaning(req, m, nodes);
    RoomiestIsChosen(req, m, nodes, w);
    if |FreePrimaries(m, w)| < req.cores { OversubscribedCores(req, m, w); }
  }

  // ---- which cores, which node -------------------------------------------------

  lemma OfferTakesLowest(req: Request, m: Machine, node: Node)
    requires req.cores >= 1 && Eligible(req, m, node)
    ensures var o, free := Offer(req, m, node), NodeCores(node) - m.occupied;
            var primaries, siblings := free - m.secondary, free * m.secondary;
            && (o.scattered && !o.oversub ==>
                  o.cores <= primaries && forall x, y | x in o.cores && y in primaries - o.cores :: x < y)
            && (o.oversub ==>
                  && primaries <= o.cores
                  && forall x, y | x in o.cores * m.secondary && y in siblings - o.cores :: x < y)
  {
    hide HasRun, NodeCores, UsedGb, RamOk, LeastN;
    var free := NodeCores(node) - m.occupied;
    var primaries, siblings := free - m.secondary, free * m.secondary;
    SplitSize(free, m.secondary);
    var o := Offer(req, m, node);
    if o.oversub {
      var fill := LeastN(siblings, req.cores - |primaries|);
      LeastNFacts(siblings, req.cores - |primaries|);
      assert o.cores == primaries + fill;
      assert o.cores * m.secondary == fill && siblings - o.cores == siblings - fill;
    } else if o.scattered {
      LeastNFacts(primaries, req.cores);
    }
  }

  /** Which cores of the chosen node are taken.  Without siblings: the first long-enough run of free primaries,
      or if there is none the lowest free primaries.  With siblings: all free primaries and the lowest free siblings. */
  lemma PlacementTakesLowest(req: Request, m: Machine, nodes: seq<Node>, node: Node)
    requires req.cores >= 1 && DistinctNodes(nodes) && Allocation(req, m, nodes).Some?
    requires node in nodes && node.id == Allocation(req, m, nodes).value.node
    ensures var p := Allocation(req, m, nodes).value;
            && Parse(p.cpuList).Ok?
            && var chosen, primaries := Parse(p.cpuList).value, FreePrimaries(m, node);
               var siblings := (NodeCores(node) - m.occupied) * m.secondary;
               if p.oversubscribed then
                 && primaries <= chosen
                 && forall x, y | x in chosen * m.secondary && y in siblings - chosen :: x < y
               else if exists s: nat :: HasRun(primaries, s, req.cores) then
                 exists start: nat :: && chosen == Span(start, start + req.cores - 1) && HasRun(primaries, start, req.cores)
                                      && forall s: nat | s < start :: !HasRun(primaries, s, req.cores)
               else
                 chosen <= primaries && forall x, y | x in chosen && y in primaries - chosen :: x < y
  {
    hide Allocation, Offer, Eligible, HasRun, FirstRun, NodeCores, Parse, Format, Span;
    ChosenNode(req, m, nodes, node);
    OfferThreads(req, m, node);
    OfferTakesLowest(req, m, node);
    FirstRunMeaning(FreePrimaries(m, node), req.cores);
    if !Offer(req, m, node).scattered {
      ContiguousOffer(req, m, node);
      var start := FirstRun(FreePrimaries(m, node), req.cores).value;
      assert HasRun(FreePrimaries(m, node), start, req.cores);
    }
  }

  /** A node can take the request: enough cores are free, and unless the job's memory will be interleaved, or
      no cap is set, or its memory cannot be read, it stays below the safe cap with the job on it. */
  ghost predicate CanTake(req: Request, m: Machine, node: Node) {
    && |NodeCores(node) - m.occupied| >= req.cores
    && var interleaved := req.interleaveThreshold > 0.0 && req.ramGb >= req.interleaveThreshold;
       interleaved || req.nodeRamCap <= 0.0 || m.anon(node.id).None?
       || m.anon(node.id).value + req.ramGb + req.nodeRamSafety <= req.nodeRamCap
  }

  /** The memory a node holds, where that decides between nodes: only under a cap, and not for an interleaved job. */
  ghost function Holds(req: Request, m: Machine, id: int): real {
    if req.nodeRamCap <= 0.0 || (req.interleaveThreshold > 0.0 && req.ramGb >= req.interleaveThreshold) then 0.0
    else match m.anon(id)
      case None => 0.0
      case Some(gb) => gb
  }

  lemma EligibleCanTake(req: Request, m: Machine, node: Node)
    ensures Eligible(req, m, node) <==> CanTake(req, m, node)
    ensures UsedGb(req, m, node.id) == Holds(req, m, node.id)
  {
    hide NodeCores;
  }

  /** `a` comes before `b`: more free cores, then less memory held, then the smaller id. */
  ghost predicate Precedes(req: Request, m: Machine, a: Node, b: Node) {
    var fa, fb := |NodeCores(a) - m.occupied|, |NodeCores(b) - m.occupied|;
    || fa > fb
    || (fa == fb && Holds(req, m, a.id) < Holds(req, m, b.id))
    || (fa == fb && Holds(req, m, a.id) == Holds(req, m, b.id) && a.id <= b.id)
  }

  ghost predicate HasRoomyRun(req: Request, m: Machine, node: Node) {
    exists s: nat :: HasRun(FreePrimaries(m, node), s, req.cores)
  }

  /** The choice of a node, on the inputs: none exactly if no node can take the request; else a node with enough
      consecutive free primaries if there is one, and among those, or among all that can take it, the first.
      Memory is interleaved exactly if the request reaches the threshold. */
  lemma ChosenNodeExactly(req: Request, m: Machine, nodes: seq<Node>)
    requires req.cores >= 1
    ensures Allocation(req, m, nodes).None? <==> forall node | node in nodes :: !CanTake(req, m, node)
    ensures Allocation(req, m, nodes).Some? ==>
              var p := Allocation(req, m, nodes).value;
              && (p.interleave <==> req.interleaveThreshold > 0.0 && req.ramGb >= req.interleaveThreshold)
              && exists best :: IsFirst(req, m, nodes, best) && best.id == p.node
  {
    hide Allocation, Offer, Eligible, HasRun, FreePrimaries, CanTake, Holds, UsedGb, NodeCores;
    AllocationOptimal(req, m, nodes);
    forall node | node in nodes ensures Eligible(req, m, node) <==> CanTake(req, m, node) {
      EligibleCanTake(req, m, node);
    }
    if Allocation(req, m, nodes).Some? {
      var w :| Wins(req, m, nodes, w) && Allocation(req, m, nodes).value == PlacementOf(req, Offer(req, m, w));
      OfferThreads(req, m, w);
      WinnerIsFirst(req, m, nodes, w);
    }
  }

  ghost predicate IsFirst(req: Request, m: Machine, nodes: seq<Node>, best: Node) {
    && best in nodes && CanTake(req, m, best)
    && forall node | node in nodes && CanTake(req, m, node) ::
         if HasRoomyRun(req, m, best) == HasRoomyRun(req, m, node) then Precedes(req, m, best, node) else HasRoomyRun(req, m, best)
  }

  lemma WinnerIsFirst(req: Request, m: Machine, nodes: seq<Node>, best: Node)
    requires req.cores >= 1 && Wins(req, m, nodes, best)
    ensures IsFirst(req, m, nodes, best)
  {
    hide Offer, Eligible, Holds, UsedGb, HasRun, FreePrimaries, CanTake;
    EligibleCanTake(req, m, best);
    OfferKeys(req, m, best);
    forall node | node in nodes && CanTake(req, m, node)
      ensures if HasRoomyRun(req, m, best) == HasRoomyRun(req, m, node) then Precedes(req, m, best, node) else HasRoomyRun(req, m, best)
    {
      EligibleCanTake(req, m, node);
      OfferKeys(req, m, node);
      assert Before(Offer(req, m, best), Offer(req, m, node));
    }
  }

  lemma OfferKeys(req: Request, m: Machine, node: Node)
    requires req.cores >= 1 && Eligible(req, m, node)
    ensures var o := Offer(req, m, node);
            && o.node == node.id && o.free == |NodeCores(node) - m.occupied| && o.used == UsedGb(req, m, node.id)
            && (!o.scattered <==> HasRoomyRun(req, m, node))
  {
    hide NodeCores, UsedGb, RamOk, HasRun;
    OfferThreads(req, m, node);
  }

  /** A request for no cores gets no cores, on the first node. */
  lemma NoCoresAsked(req: Request, m: Machine, nodes: seq<Node>)
    requires req.cores <= 0
    ensures Allocation(req, m, nodes).Some?
    ensures var p := Allocation(req, m, nodes).value;
            && Parse(p.cpuList) == Ok({}) && !p.interleave && p.contiguous && !p.oversubscribed
            && (if nodes == [] then p.node == 0 else p.node == nodes[0].id)
  {
    BlankParses("");
  }

  const SIBLINGS_11_12 := Machine({}, {11, 12}, Unread)

  function TwoNodes(): seq<Node> {
    [Node(0, Format({0, 2})), Node(1, Format({10, 11, 12}))]
  }

  /** A concrete case: two cores are asked for, node 0 has two free primaries, and yet node 1 is chosen with
      one primary and a sibling, because it has more free threads. */
  lemma OversubscribedDespitePrimaries()
    ensures |FreePrimaries(SIBLINGS_11_12, TwoNodes()[0])| == PAIR.cores
    ensures var r := Allocation(PAIR, SIBLINGS_11_12, TwoNodes()); r.Some? && r.value.node == 1 && r.value.oversubscribed
  {
    hide Allocation, Offer, Eligible, FreePrimaries, NodeCores, Format;
    var nodes := TwoNodes();
    TwoNodesCores();
    ScatteredExample(PAIR, SIBLINGS_11_12, nodes[0], nodes[1]);
    AllocationOptimal(PAIR, SIBLINGS_11_12, nodes);
    assert nodes[0] in nodes && nodes[1] in nodes;
    var w :| Wins(PAIR, SIBLINGS_11_12, nodes, w)
             && Allocation(PAIR, SIBLINGS_11_12, nodes).value == PlacementOf(PAIR, Offer(PAIR, SIBLINGS_11_12, w));
    assert Before(Offer(PAIR, SIBLINGS_11_12, w), Offer(PAIR, SIBLINGS_11_12, nodes[1]));
    OfferThreads(PAIR, SIBLINGS_11_12, nodes[1]);
  }

  lemma TwoNodesCores()
    ensures NodeCores(TwoNodes()[0]) == {0, 2} && NodeCores(TwoNodes()[1]) == {10, 11, 12}
  {
    RoundTrip({0, 2});
    RoundTrip({10, 11, 12});
  }

  lemma ScatteredExample(req: Request, m: Machine, a: Node, b: Node)
    requires req == Request(2, 0.0, 0.0, 0.0, 0.0) && m.occupied == {} && m.secondary == {11, 12}
    requires NodeCores(a) == {0, 2} && NodeCores(b) == {10, 11, 12}
    ensures Eligible(req, m, a) && Offer(req, m, a).scattered && Offer(req, m, a).free == 2
    ensures Eligible(req, m, b) && Offer(req, m, b).scattered && Offer(req, m, b).free == 3 && Offer(req, m, b).oversub
    ensures FreePrimaries(m, a) == {0, 2}
  {
    hide NodeCores, LeastN, FirstRun;
    var pa, pb := NodeCores(a) - m.occupied - m.secondary, NodeCores(b) - m.occupied - m.secondary;
    assert NodeCores(a) - m.occupied == {0, 2} && NodeCores(b) - m.occupied == {10, 11, 12};
    assert pa == {0, 2} && pb == {10};
    FirstRunMeaning(pa, 2);
    forall s: nat ensures !HasRun(pa, s, 2) {
      if s in pa { assert s + 1 !in pa; }
    }
  }

  // ---- the loops of allocate ------------------------------------------------

  function Without(s: seq<nat>, drop: set<nat>): seq<nat> {
    if s == [] then []
    else Without(s[..|s| - 1], drop) + if s[|s| - 1] in drop then [] else [s[|s| - 1]]
  }

  lemma {:induction false} WithoutFacts(s: seq<nat>, drop: set<nat>)
    requires Ascending(s)
    ensures forall x :: x in Without(s, drop) <==> x in s && x !in drop
    ensures Ascending(Without(s, drop))
  {
    if s != [] {
      var init := s[..|s| - 1];
      WithoutFacts(init, drop);
      assert s == init + [s[|s| - 1]];
      var r := Without(init, drop);
      forall k | 0 <= k < |r| ensures r[k] < s[|s| - 1] {
        assert r[k] in init;
      }
    }
  }

  lemma WithoutSorted(s: set<nat>, drop: set<nat>)
    ensures Without(Sorted(s), drop) == Sorted(s - drop)
  {
    SortedFacts(s);
    WithoutFacts(Sorted(s), drop);
    SortedUnique(Without(Sorted(s), drop), s - drop);
  }

  lemma SortedToSet(s: set<nat>)
    ensures ToSet(Sorted(s)) == s && |Sorted(s)| == |s|
  {
    SortedFacts(s);
  }

  ghost predicate WellFormed(nodes: seq<Node>) {
    forall node | node in nodes :: Parse(node.spec).Ok?
  }

  /** One turn of the node loop: the node's offer, or nothing if it is not eligible. */
  method ConsiderNode(req: Request, m: Machine, node: Node, nodeSet: set<nat>) returns (c: Option<Candidate>)
    requires req.cores >= 1 && nodeSet == NodeCores(node)
    ensures c == if Eligible(req, m, node) then Some(Offer(req, m, node)) else None
  {
    var nodeCores := Sorted(nodeSet);
    var free := Without(nodeCores, m.occupied);
    WithoutSorted(nodeSet, m.occupied);
    if |free| < req.cores {
      return None;
    }
    var usedGb := 0.0;
    if req.Gates() {
      var anon := m.anon(node.id);
      if anon.Some? {
        usedGb := anon.value;
        if usedGb + req.ramGb > req.nodeRamCap - req.nodeRamSafety {
          return None;
        }
      }
    }
    SortedToSet(nodeSet - m.occupied);
    var choice := ChooseCores(req.cores, nodeSet - m.occupied, free, m.secondary);
    c := Some(Candidate(!choice.contiguous, |free|, usedGb, node.id, choice.cores, choice.oversub));
  }

  lemma Siblings(freeSet: set<nat>, secondary: set<nat>)
    ensures Without(Sorted(freeSet), freeSet - secondary) == Sorted(freeSet * secondary)
  {
    WithoutSorted(freeSet, freeSet - secondary);
    assert freeSet - (freeSet - secondary) == freeSet * secondary;
  }

  method ChooseCores(n: nat, ghost freeSet: set<nat>, free: seq<nat>, secondary: set<nat>) returns (choice: Choice)
    requires 1 <= n <= |freeSet| && free == Sorted(freeSet)
    ensures choice == Choose(n, freeSet, secondary)
  {
    WithoutSorted(freeSet, secondary);
    Siblings(freeSet, secondary);
    SplitSize(freeSet, secondary);
    var primaries := Without(free, secondary);
    SortedToSet(freeSet - secondary);
    var siblings := Without(free, ToSet(primaries));
    choice := ChooseThreads(n, freeSet - secondary, primaries, freeSet * secondary, siblings);
  }

  method ChooseThreads(n: nat, ghost p: set<nat>, primaries: seq<nat>, ghost s: set<nat>, siblings: seq<nat>) returns (choice: Choice)
    requires primaries == Sorted(p) && siblings == Sorted(s) && 1 <= n <= |p| + |s|
    ensures choice == ChooseFrom(n, p, s)
  {
    SortedToSet(p);
    SortedFacts(p);
    if |primaries| < n {
      return Choice(ToSet(primaries) + ToSet(siblings[..n - |primaries|]), false, true);
    }
    var start := LargestContiguousRun(primaries, n);
    if start.Some? {
      choice := Choice(Span(start.value, start.value + n - 1), true, false);
    } else {
      choice := Choice(ToSet(primaries[..n]), false, false);
    }
  }

  lemma OffersStep(req: Request, m: Machine, nodes: seq<Node>, i: nat)
    requires req.cores >= 1 && i < |nodes|
    ensures nodes[..i + 1] == nodes[..i] + [nodes[i]]
    ensures Offers(req, m, nodes[..i + 1]) ==
            Offers(req, m, nodes[..i]) + if Eligible(req, m, nodes[i]) then [Offer(req, m, nodes[i])] else []
  {
    assert nodes[..i + 1][..i] == nodes[..i];
  }

  /** `allocate`.  `Err` is the `ValueError` of a malformed node description, which is only looked at when
      cores are requested. */
  method Allocate(req: Request, m: Machine, nodes: seq<Node>) returns (r: Result<Option<Placement>>)
    ensures r.Err? <==> req.cores >= 1 && !WellFormed(nodes)
    ensures r.Ok? ==> r.value == Allocation(req, m, nodes)
  {
    if req.cores <= 0 {
      var first := if nodes == [] then 0 else nodes[0].id;
      return Ok(Some(Placement("", first, false, true, false)));
    }
    hide Eligible, Offer;
    var candidates: seq<Candidate> := [];
    for i := 0 to |nodes|
      invariant candidates == Offers(req, m, nodes[..i])
      invariant WellFormed(nodes[..i])
    {
      OffersStep(req, m, nodes, i);
      var parsed := ParseCpuList(nodes[i].spec);
      if parsed.Err? {
        assert nodes[i] in nodes;
        return Err(parsed.error);
      }
      var c := ConsiderNode(req, m, nodes[i], parsed.value);
      if c.Some? {
        candidates := candidates + [c.value];
      }
    }
    assert nodes[..|nodes|] == nodes;
    if candidates == [] {
      return Ok(None);
    }
    var best := Best(candidates);
    var text := FormatCpuList(best.cores);
    r := Ok(Some(Placement(text, best.node, req.Interleaves(), !best.scattered, best.oversub)));
  }

  // ---- SMT siblings ---------------------------------------------------------

  /** What one `thread_siblings_list` says; `None` stands for a file that cannot be read or parsed. */
  function Group(text: Option<string>): set<nat> {
    if text.Some? && Parse(Strip(text.value)).Ok? then Parse(Strip(text.value)).value else {}
  }

  ghost predicate Grouped(files: seq<Option<string>>, group: set<nat>) {
    group != {} && exists f :: f in files && Group(f) == group
  }

  /** Sibling groups never overlap without being the same group. */
  ghost predicate Consistent(files: seq<Option<string>>) {
    forall f, g | f in files && g in files && !(Group(f) !! Group(g)) :: Group(f) == Group(g)
  }

  /** Thread `x` belongs to a sibling group and is not its least member. */
  ghost predicate Secondary(files: seq<Option<string>>, x: nat) {
    exists g :: Grouped(files, g) && x in g && x != Least(g)
  }

  ghost predicate InGroup(files: seq<Option<string>>, x: nat) {
    exists g :: Grouped(files, g) && x in g
  }

  /** `detect_smt_secondary` over the files of the CPU directories, in whatever order the directory lists
      them.  Every reported thread is a secondary one; all of them are reported when groups do not overlap. */
  method DetectSmtSecondary(files: seq<Option<string>>) returns (secondary: set<nat>)
    ensures forall x | x in secondary :: Secondary(files, x)
    ensures Consistent(files) ==> forall x :: x in secondary <==> Secondary(files, x)
  {
    secondary := {};
    var seen: set<nat> := {};
    for i := 0 to |files|
      invariant forall x | x in secondary :: Secondary(files[..i], x)
      invariant Consistent(files) ==> forall x :: x in seen <==> InGroup(files[..i], x)
      invariant Consistent(files) ==> forall x :: x in secondary <==> Secondary(files[..i], x)
    {
      var group: set<nat> := {};
      if files[i].Some? {
        var parsed := ParseCpuList(Strip(files[i].value));
        if parsed.Ok? { group := parsed.value; }
      }
      GroupedSnoc(files, i, group);
      if group != {} {
        var primary := Least(group);
        if primary !in seen {
          seen := seen + group;
          secondary := secondary + (group - {primary});
        } else if Consistent(files) {
          SeenGroup(files, i, group);
        }
      }
    }
    assert files[..|files|] == files;
  }

  lemma GroupedSnoc(files: seq<Option<string>>, i: nat, group: set<nat>)
    requires i < |files| && group == Group(files[i])
    ensures forall x :: InGroup(files[..i + 1], x) <==> InGroup(files[..i], x) || x in group
    ensures forall x :: Secondary(files[..i + 1], x) <==>
                        Secondary(files[..i], x) || (group != {} && x in group && x != Least(group))
  {
    var before, after := files[..i], files[..i + 1];
    assert after == before + [files[i]];
    forall g ensures Grouped(after, g) <==> Grouped(before, g) || (g != {} && g == group) {
      if g != {} && g == group { assert files[i] in after; }
      if Grouped(before, g) {
        var f :| f in before && Group(f) == g;
        assert f in after;
      }
    }
    forall x | x in group ensures InGroup(after, x) { assert Grouped(after, group); }
    if group != {} { assert Grouped(after, group); }
  }

  lemma SeenGroup(files: seq<Option<string>>, i: nat, group: set<nat>)
    requires Consistent(files) && i < |files| && group == Group(files[i]) && group != {}
    requires InGroup(files[..i], Least(group))
    ensures forall x | x in group :: InGroup(files[..i], x)
    ensures forall x | x in group && x != Least(group) :: Secondary(files[..i], x)
  {
    var g :| Grouped(files[..i], g) && Least(group) in g;
    var f :| f in files[..i] && Group(f) == g;
    assert f in files && files[i] in files;
    assert g == group;
  }
}
