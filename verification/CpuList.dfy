/** CPU-list strings (`"0-3,8"`): `parse_cpu_list` and `format_cpu_list` of nodepilot/numa.py,
    character by character.  Jobs remember their cores only in this form, so the scheduler's
    core exclusivity rests on the round trip proved here. */
module CpuList {
  import opened Wrappers
  import opened Text

  // ---- ascending lists of naturals -------------------------------------

  ghost predicate Ascending(s: seq<nat>) {
    forall i, j | 0 <= i < j < |s| :: s[i] < s[j]
  }

  ghost function Elements(s: seq<nat>): (r: set<nat>)
    ensures |r| <= |s|
  {
    if s == [] then {} else Elements(s[..|s| - 1]) + {s[|s| - 1]}
  }

  lemma SnocMembers(s: seq<nat>, init: seq<nat>, last: nat)
    requires s != [] && init == s[..|s| - 1] && last == s[|s| - 1]
    ensures forall x :: x in s <==> x in init || x == last
  {
    assert s == init + [last];
  }

  lemma LastIsNew(s: seq<nat>)
    requires s != [] && Ascending(s)
    ensures s[|s| - 1] !in s[..|s| - 1] && Ascending(s[..|s| - 1])
  {
  }

  lemma {:induction false} ElementsIn(s: seq<nat>)
    ensures forall x :: x in Elements(s) <==> x in s
    ensures Ascending(s) ==> |Elements(s)| == |s|
  {
    if s != [] {
      var init, last := s[..|s| - 1], s[|s| - 1];
      ElementsIn(init);
      SnocMembers(s, init, last);
      if Ascending(s) { LastIsNew(s); }
      hide Ascending;
      assert Elements(s) == Elements(init) + {last};
    }
  }

  lemma {:induction false} FindLeast(s: set<nat>) returns (m: nat)
    requires s != {}
    ensures m in s && forall x | x in s :: m <= x
  {
    m :| m in s;
    var rest := s - {m};
    assert forall x | x in s :: x == m || x in rest;
    if rest != {} {
      var m' := FindLeast(rest);
      m := if m < m' then m else m';
    }
  }

  lemma HasLeast(s: set<nat>)
    requires s != {}
    ensures exists m :: m in s && forall x | x in s :: m <= x
  {
    var m := FindLeast(s);
  }

  function Least(s: set<nat>): (m: nat)
    requires s != {}
    ensures m in s && forall x | x in s :: m <= x
  {
    HasLeast(s);
    var m :| m in s && forall x | x in s :: m <= x;
    m
  }

  /** Python's `sorted(s)`. */
  function Sorted(s: set<nat>): (r: seq<nat>)
    ensures |r| == |s|
    decreases |s|
  {
    if s == {} then [] else [Least(s)] + Sorted(s - {Least(s)})
  }

  lemma ConsAscending(m: nat, rest: seq<nat>)
    requires Ascending(rest) && forall x | x in rest :: m < x
    ensures Ascending([m] + rest) && forall x :: x in [m] + rest <==> x == m || x in rest
  {
    assert forall k | 0 <= k < |rest| :: rest[k] in rest;
  }

  lemma {:induction false} SortedFacts(s: set<nat>)
    ensures Ascending(Sorted(s))
    ensures forall x :: x in Sorted(s) <==> x in s
    decreases |s|
  {
    if s != {} {
      var m := Least(s);
      var rest := Sorted(s - {m});
      SortedFacts(s - {m});
      ConsAscending(m, rest);
      assert Sorted(s) == [m] + rest;
    }
  }

  lemma HasHead(s: seq<nat>)
    ensures s != [] ==> s[0] in s
  {
  }

  /** An ascending list is determined by its elements. */
  lemma {:induction false} AscendingUnique(a: seq<nat>, b: seq<nat>)
    requires Ascending(a) && Ascending(b)
    requires forall x :: x in a <==> x in b
    ensures a == b
    decreases |a|
  {
    HasHead(a);
    HasHead(b);
    if a != [] && b != [] {
      var a', b' := a[1..], b[1..];
      assert a == [a[0]] + a' && b == [b[0]] + b';
      forall x ensures x in a' <==> x in b' {
        assert x in a' ==> x in a && x != a[0];
        assert x in b' ==> x in b && x != b[0];
      }
      AscendingUnique(a', b');
    }
  }

  lemma SortedUnique(a: seq<nat>, s: set<nat>)
    requires Ascending(a) && forall x :: x in a <==> x in s
    ensures a == Sorted(s)
  {
    SortedFacts(s);
    AscendingUnique(a, Sorted(s));
  }

  // ---- parsing ----------------------------------------------------------

  function IndexOf(s: string, c: char): (k: nat)
    requires c in s
    ensures k < |s| && s[k] == c && c !in s[..k]
  {
    if s[0] == c then 0 else IndexOf(s[1..], c) + 1
  }

  /** The inclusive range `lo-hi`. */
  function Span(lo: nat, hi: int): (r: set<nat>)
    ensures forall x: nat :: x in r <==> lo <= x <= hi
    decreases hi - lo
  {
    if hi < lo then {} else Span(lo, hi - 1) + {hi}
  }

  /** The cores named by one comma-separated part. */
  function PartCores(raw: string): Result<set<nat>> {
    var part := Strip(raw);
    if part == "" then
      Ok({})
    else if '-' in part then
      var k := IndexOf(part, '-');
      var lo, hi := PyInt(part[..k]), PyInt(part[k + 1..]);
      UnsignedIsNat(part[..k]);
      if lo.None? || hi.None? then Err("invalid literal for int()")
      else if hi.value < lo.value then Err("inverted CPU range")
      else Ok(Span(lo.value, hi.value))
    else
      var n := PyInt(part);
      UnsignedIsNat(part);
      if n.None? then Err("invalid literal for int()") else Ok(Span(n.value, n.value))
  }

  /** The parts must all be well formed, and their cores are pooled. */
  function Pool(parts: seq<string>): Result<set<nat>> {
    if parts == [] then
      Ok({})
    else
      var before := Pool(parts[..|parts| - 1]);
      if before.Err? then
        before
      else
        var last := PartCores(parts[|parts| - 1]);
        if last.Err? then last else Ok(before.value + last.value)
  }

  function Parse(spec: string): Result<set<nat>> {
    Pool(Split(spec, ','))
  }

  lemma {:induction false} PoolMeaning(parts: seq<string>)
    ensures Pool(parts).Ok? <==> forall p | p in parts :: PartCores(p).Ok?
    ensures Pool(parts).Ok? ==>
              forall x :: x in Pool(parts).value <==>
                          exists p :: p in parts && PartCores(p).Ok? && x in PartCores(p).value
  {
    if parts != [] {
      var init, last := parts[..|parts| - 1], parts[|parts| - 1];
      PoolMeaning(init);
      assert parts == init + [last];
      assert forall p :: p in parts <==> p in init || p == last;
    }
  }

  /** What a CPU list means, independently of the loop that reads it: it is accepted exactly when every
      part is, and then it names exactly the cores some part names. */
  lemma ParseMeaning(spec: string)
    ensures Parse(spec).Ok? <==> forall p | p in Split(spec, ',') :: PartCores(p).Ok?
    ensures Parse(spec).Ok? ==>
              forall x :: x in Parse(spec).value <==>
                          exists p :: p in Split(spec, ',') && PartCores(p).Ok? && x in PartCores(p).value
  {
    PoolMeaning(Split(spec, ','));
  }

  lemma PoolOne(part: string)
    ensures Pool([part]) == PartCores(part)
  {
    var none: seq<string> := [part][..0];
    assert none == [];
    assert Pool(none) == Ok({});
    if PartCores(part).Ok? { assert {} + PartCores(part).value == PartCores(part).value; }
  }

  lemma {:induction false} BlankParses(s: string)
    requires Strip(s) == ""
    ensures Split(s, ',') == [s] && Parse(s) == Ok({})
  {
    if ',' in s {
      StripKeepsSolid(s, ',');
      assert false;
    }
    SplitFirst(s, "", ',');
    PoolOne(s);
  }

  lemma {:induction false} StripKeepsSolid(s: string, c: char)
    requires c in s && !IsSpace(c)
    ensures c in Strip(s)
  {
    StripLeftKeepsSolid(s, c);
    StripRightKeepsSolid(StripLeft(s), c);
  }

  lemma {:induction false} StripLeftKeepsSolid(s: string, c: char)
    requires c in s && !IsSpace(c)
    ensures c in StripLeft(s)
  {
    if IsSpace(s[0]) { StripLeftKeepsSolid(s[1..], c); }
  }

  lemma {:induction false} StripRightKeepsSolid(s: string, c: char)
    requires c in s && !IsSpace(c)
    ensures c in StripRight(s)
  {
    if IsSpace(s[|s| - 1]) { StripRightKeepsSolid(s[..|s| - 1], c); }
  }

  /** `parse_cpu_list`; `Err` is its `ValueError`. */
  method ParseCpuList(spec: string) returns (r: Result<set<nat>>)
    ensures r == Parse(spec)
  {
    var out: set<nat> := {};
    if spec == "" || Strip(spec) == "" {
      BlankParses(spec);
      return Ok(out);
    }
    var parts := Split(spec, ',');
    for i := 0 to |parts|
      invariant Pool(parts[..i]) == Ok(out)
    {
      assert parts[..i + 1][..i] == parts[..i];
      var part := PartCores(parts[i]);
      if part.Err? {
        PoolMeaning(parts);
        PoolMeaning(parts[..i + 1]);
        PoolError(parts, i);
        return part;
      }
      out := out + part.value;
    }
    assert parts[..|parts|] == parts;
    r := Ok(out);
  }

  /** The first malformed part decides the error. */
  lemma {:induction false} PoolError(parts: seq<string>, i: nat)
    requires i < |parts| && Pool(parts[..i]).Ok? && PartCores(parts[i]).Err?
    ensures Pool(parts) == PartCores(parts[i])
  {
    if i == |parts| - 1 {
    } else {
      var init := parts[..|parts| - 1];
      assert init[..i] == parts[..i];
      PoolError(init, i);
    }
  }

  // ---- formatting -------------------------------------------------------

  datatype Run = Run(lo: nat, hi: nat)

  function Extend(runs: seq<Run>, c: nat): seq<Run> {
    if runs != [] && c == runs[|runs| - 1].hi + 1 then
      runs[..|runs| - 1] + [Run(runs[|runs| - 1].lo, c)]
    else
      runs + [Run(c, c)]
  }

  function RunsOf(ordered: seq<nat>): seq<Run> {
    if ordered == [] then [] else Extend(RunsOf(ordered[..|ordered| - 1]), ordered[|ordered| - 1])
  }

  /** `_run` */
  function RunText(r: Run): string {
    if r.lo == r.hi then NatText(r.lo) else NatText(r.lo) + "-" + NatText(r.hi)
  }

  function Texts(runs: seq<Run>): (r: seq<string>)
    ensures |r| == |runs| && forall k | 0 <= k < |r| :: r[k] == RunText(runs[k])
  {
    seq(|runs|, k requires 0 <= k < |runs| => RunText(runs[k]))
  }

  function Format(cores: set<nat>): string {
    if cores == {} then "" else Join(Texts(RunsOf(Sorted(cores))), ',')
  }

  /** Maximal runs in ascending order: no run touches the next. */
  ghost predicate Maximal(runs: seq<Run>) {
    && (forall k | 0 <= k < |runs| :: runs[k].lo <= runs[k].hi)
    && (forall k | 0 < k < |runs| :: runs[k - 1].hi + 1 < runs[k].lo)
  }

  ghost function Cover(runs: seq<Run>): set<nat> {
    if runs == [] then {} else Cover(runs[..|runs| - 1]) + Span(runs[|runs| - 1].lo, runs[|runs| - 1].hi)
  }

  lemma CoverSnoc(runs: seq<Run>, r: Run)
    ensures Cover(runs + [r]) == Cover(runs) + Span(r.lo, r.hi)
  {
    assert (runs + [r])[..|runs|] == runs;
  }

  lemma SpanSnoc(lo: nat, hi: int)
    requires lo <= hi + 1
    ensures Span(lo, hi + 1) == Span(lo, hi) + {hi + 1} && (hi < lo ==> Span(lo, hi) == {})
  {
  }

  lemma Regrouped(a: set<nat>, b: set<nat>, c: set<nat>)
    ensures a + (b + c) == (a + b) + c && a + ({} + c) == a + c
  {
  }

  lemma LongerRun(runs: seq<Run>, c: nat)
    requires runs != [] && runs[|runs| - 1].lo <= runs[|runs| - 1].hi && c == runs[|runs| - 1].hi + 1
    ensures Cover(runs[..|runs| - 1] + [Run(runs[|runs| - 1].lo, c)]) == Cover(runs) + {c}
  {
    var front, last := runs[..|runs| - 1], runs[|runs| - 1];
    SpanSnoc(last.lo, last.hi);
    CoverSnoc(front, Run(last.lo, c));
    Regrouped(Cover(front), Span(last.lo, last.hi), {c});
  }

  lemma NewRun(runs: seq<Run>, c: nat)
    ensures Cover(runs + [Run(c, c)]) == Cover(runs) + {c}
  {
    hide Cover, Span;
    CoverSnoc(runs, Run(c, c));
    SpanSnoc(c, c - 1);
    Regrouped(Cover(runs), {}, {c});
  }

  lemma ExtendCovers(runs: seq<Run>, c: nat)
    requires runs != [] ==> runs[|runs| - 1].lo <= runs[|runs| - 1].hi
    ensures Cover(Extend(runs, c)) == Cover(runs) + {c}
  {
    hide Cover;
    if runs != [] && c == runs[|runs| - 1].hi + 1 {
      LongerRun(runs, c);
    } else {
      NewRun(runs, c);
    }
  }

  lemma ExtendFacts(runs: seq<Run>, c: nat)
    requires Maximal(runs) && (runs != [] ==> runs[|runs| - 1].hi < c)
    ensures var r := Extend(runs, c); Maximal(r) && r != [] && r[|r| - 1].hi == c
    ensures Cover(Extend(runs, c)) == Cover(runs) + {c}
  {
    hide Cover, Span;
    ExtendCovers(runs, c);
  }

  lemma {:induction false} RunsOfFacts(ordered: seq<nat>)
    requires Ascending(ordered)
    ensures Maximal(RunsOf(ordered))
    ensures RunsOf(ordered) == [] <==> ordered == []
    ensures ordered != [] ==> RunsOf(ordered)[|RunsOf(ordered)| - 1].hi == ordered[|ordered| - 1]
    ensures Cover(RunsOf(ordered)) == Elements(ordered)
  {
    if ordered != [] {
      var init := ordered[..|ordered| - 1];
      RunsOfFacts(init);
      ExtendFacts(RunsOf(init), ordered[|ordered| - 1]);
    }
  }

  lemma RunsStep(ordered: seq<nat>, i: nat, runs: seq<Run>, last: Run)
    requires i < |ordered| && RunsOf(ordered[..i]) == runs + [last]
    ensures RunsOf(ordered[..i + 1]) ==
            if ordered[i] == last.hi + 1 then runs + [Run(last.lo, ordered[i])] else runs + [last] + [Run(ordered[i], ordered[i])]
  {
    assert ordered[..i + 1][..i] == ordered[..i];
    assert (runs + [last])[..|runs|] == runs;
  }

  lemma HeadRun(ordered: seq<nat>)
    requires ordered != []
    ensures RunsOf(ordered[..1]) == [Run(ordered[0], ordered[0])]
  {
    assert ordered[..1][..0] == [];
    assert RunsOf([]) == [];
  }

  lemma TextsSnoc(runs: seq<Run>, r: Run)
    ensures Texts(runs + [r]) == Texts(runs) + [RunText(r)]
  {
  }

  /** `format_cpu_list` */
  method FormatCpuList(cores: set<nat>) returns (text: string)
    ensures text == Format(cores)
  {
    var ordered := Sorted(cores);
    if ordered == [] {
      return "";
    }
    text := FormatOrdered(ordered);
  }

  method FormatOrdered(ordered: seq<nat>) returns (text: string)
    requires ordered != []
    ensures RunsOf(ordered) != [] && text == Join(Texts(RunsOf(ordered)), ',')
  {
    var parts: seq<string> := [];
    ghost var runs: seq<Run> := [];
    var runStart, prev := ordered[0], ordered[0];
    HeadRun(ordered);
    for i := 1 to |ordered|
      invariant RunsOf(ordered[..i]) == runs + [Run(runStart, prev)]
      invariant parts == Texts(runs)
    {
      var c := ordered[i];
      RunsStep(ordered, i, runs, Run(runStart, prev));
      if c == prev + 1 {
        prev := c;
      } else {
        TextsSnoc(runs, Run(runStart, prev));
        parts := parts + [RunText(Run(runStart, prev))];
        runs := runs + [Run(runStart, prev)];
        runStart, prev := c, c;
      }
    }
    assert ordered[..|ordered|] == ordered;
    TextsSnoc(runs, Run(runStart, prev));
    parts := parts + [RunText(Run(runStart, prev))];
    text := Join(parts, ',');
  }

  // ---- the round trip ---------------------------------------------------

  lemma {:induction false} FirstIndex(t: string, c: char, k: nat)
    requires k < |t| && t[k] == c && c !in t[..k]
    ensures IndexOf(t, c) == k
  {
    assert k > 0 ==> t[..k][0] == t[0];
    if t[0] != c {
      assert t[..k] == [t[0]] + t[1..][..k - 1];
      FirstIndex(t[1..], c, k - 1);
    }
  }

  lemma Solid(s: string)
    requires s != [] && IsDigit(s[0]) && IsDigit(s[|s| - 1])
    ensures Strip(s) == s
  {
    StripKeeps(s);
  }

  lemma DigitEnds(n: nat)
    ensures var s := NatText(n); IsDigit(s[0]) && IsDigit(s[|s| - 1]) && '-' !in s && ',' !in s
  {
    var s := NatText(n);
    assert s[0] in s && s[|s| - 1] in s;
  }

  lemma RunTextParses(r: Run)
    requires r.lo <= r.hi
    ensures PartCores(RunText(r)) == Ok(Span(r.lo, r.hi))
    ensures ',' !in RunText(r)
  {
    DigitEnds(r.lo);
    DigitEnds(r.hi);
    IntOfNatText(r.lo);
    IntOfNatText(r.hi);
    if r.lo == r.hi {
      Solid(RunText(r));
    } else {
      PairParses(NatText(r.lo), NatText(r.hi), r);
    }
  }

  lemma PairParses(lo: string, hi: string, r: Run)
    requires lo != [] && hi != [] && IsDigit(lo[0]) && IsDigit(hi[|hi| - 1]) && '-' !in lo
    requires PyInt(lo) == Some(r.lo) && PyInt(hi) == Some(r.hi)
    ensures PartCores(lo + "-" + hi) == if r.lo <= r.hi then Ok(Span(r.lo, r.hi)) else Err("inverted CPU range")
  {
    var t := lo + "-" + hi;
    Solid(t);
    assert t[|lo|] == '-' && t[..|lo|] == lo;
    FirstIndex(t, '-', |lo|);
    assert t[..|lo|] == lo && t[|lo| + 1..] == hi;
  }

  lemma {:induction false} SpacesIgnored(before: string, part: string, after: string)
    requires (forall c | c in before :: IsSpace(c)) && (forall c | c in after :: IsSpace(c))
    requires part != [] && !IsSpace(part[0]) && !IsSpace(part[|part| - 1])
    ensures PartCores(before + part + after) == PartCores(part)
  {
    StripKeeps(part);
    StripSpaces(before, part, after);
  }

  /** A part spelled with any spaces around it names its range, or is an error if the range is inverted. */
  lemma RangeReads(before: string, lo: nat, hi: nat, after: string)
    requires (forall c | c in before :: IsSpace(c)) && (forall c | c in after :: IsSpace(c))
    ensures PartCores(before + (NatText(lo) + "-" + NatText(hi)) + after) ==
            if lo <= hi then Ok(Span(lo, hi)) else Err("inverted CPU range")
  {
    DigitEnds(lo);
    DigitEnds(hi);
    IntOfNatText(lo);
    IntOfNatText(hi);
    SpacesIgnored(before, NatText(lo) + "-" + NatText(hi), after);
    PairParses(NatText(lo), NatText(hi), Run(lo, hi));
  }

  lemma {:induction false} TextsPool(runs: seq<Run>)
    requires forall r | r in runs :: r.lo <= r.hi
    ensures Pool(Texts(runs)) == Ok(Cover(runs))
  {
    if runs != [] {
      var init := runs[..|runs| - 1];
      TextsPool(init);
      assert Texts(runs)[..|runs| - 1] == Texts(init);
      RunTextParses(runs[|runs| - 1]);
    }
  }

  lemma TextsHaveNoComma(runs: seq<Run>)
    requires forall r | r in runs :: r.lo <= r.hi
    ensures forall p | p in Texts(runs) :: ',' !in p
  {
    forall k | 0 <= k < |runs| ensures ',' !in Texts(runs)[k] {
      RunTextParses(runs[k]);
    }
  }

  lemma SortedRuns(cores: set<nat>)
    ensures Maximal(RunsOf(Sorted(cores))) && Cover(RunsOf(Sorted(cores))) == cores
    ensures RunsOf(Sorted(cores)) == [] <==> cores == {}
  {
    hide Sorted, RunsOf, Cover, Maximal, Elements;
    var ordered := Sorted(cores);
    SortedFacts(cores);
    RunsOfFacts(ordered);
    ElementsIn(ordered);
    assert Elements(ordered) == cores;
  }

  /** Printing a set of cores and reading it back gives the same set. */
  lemma RoundTrip(cores: set<nat>)
    ensures Parse(Format(cores)) == Ok(cores)
  {
    if cores == {} {
      BlankParses("");
    } else {
      SortedRuns(cores);
      var runs := RunsOf(Sorted(cores));
      RunsParse(runs);
      assert Format(cores) == Join(Texts(runs), ',');
    }
  }

  lemma RunsParse(runs: seq<Run>)
    requires runs != [] && Maximal(runs)
    ensures Parse(Join(Texts(runs), ',')) == Ok(Cover(runs))
  {
    TextsHaveNoComma(runs);
    SplitUndoesJoin(Texts(runs), ',');
    TextsPool(runs);
  }

  lemma FormatInjective(a: set<nat>, b: set<nat>)
    requires Format(a) == Format(b)
    ensures a == b
  {
    RoundTrip(a);
    RoundTrip(b);
  }

  /** Reformatting gives a normal form: two accepted texts get the same one exactly when they name the
      same cores, and a normal form is left alone. */
  lemma NormalForm(s: string, t: string)
    requires Parse(s).Ok? && Parse(t).Ok?
    ensures Format(Parse(s).value) == Format(Parse(t).value) <==> Parse(s).value == Parse(t).value
    ensures Parse(Format(Parse(s).value)).Ok? && Format(Parse(Format(Parse(s).value)).value) == Format(Parse(s).value)
  {
    RoundTrip(Parse(s).value);
    RoundTrip(Parse(t).value);
  }

  // ---- fewest parts -----------------------------------------------------

  /** The first core of each run: present, with its predecessor absent. */
  ghost function Starts(cores: set<nat>): set<nat> {
    set x | x in cores && !After(cores, x)
  }

  /** The predecessor of `x` is one of the cores. */
  ghost predicate After(cores: set<nat>, x: nat) {
    x > 0 && x - 1 in cores
  }

  lemma {:induction false} CoverBelow(runs: seq<Run>)
    requires Maximal(runs)
    ensures forall x | x in Cover(runs) :: runs != [] && x <= runs[|runs| - 1].hi
  {
    if runs != [] {
      CoverBelow(runs[..|runs| - 1]);
    }
  }

  lemma StartsSnoc(below: set<nat>, last: Run)
    requires last.lo <= last.hi && forall x | x in below :: x + 1 < last.lo
    ensures Starts(below + Span(last.lo, last.hi)) == Starts(below) + {last.lo}
    ensures last.lo !in Starts(below)
  {
    var all := below + Span(last.lo, last.hi);
    assert !After(all, last.lo);
    forall x: nat ensures x in Starts(all) <==> x in Starts(below) || x == last.lo {
      if x in below { assert After(below, x) <==> After(all, x); }
      if last.lo < x <= last.hi { assert After(all, x); }
    }
  }

  lemma {:induction false} MaximalRunsAreStarts(runs: seq<Run>)
    requires Maximal(runs)
    ensures |Starts(Cover(runs))| == |runs|
  {
    if runs == [] {
      assert Starts(Cover(runs)) == {};
    } else {
      var init, last := runs[..|runs| - 1], runs[|runs| - 1];
      MaximalRunsAreStarts(init);
      CoverBelow(init);
      assert runs[|runs| - 1] == last && Cover(runs) == Cover(init) + Span(last.lo, last.hi);
      StartsSnoc(Cover(init), last);
    }
  }

  lemma {:induction false} EveryCoverHasTheStarts(runs: seq<Run>, cores: set<nat>)
    requires Cover(runs) <= cores
    ensures |Starts(cores) * Cover(runs)| <= |runs|
  {
    if runs == [] {
      assert Starts(cores) * Cover(runs) == {};
    } else {
      var init, last := runs[..|runs| - 1], runs[|runs| - 1];
      EveryCoverHasTheStarts(init, cores);
      var before := Starts(cores) * Cover(init);
      forall x | x in Starts(cores) * Cover(runs) ensures x in before + {last.lo} {
        assert x in Span(last.lo, last.hi) && x != last.lo ==> After(cores, x);
      }
      assert Starts(cores) * Cover(runs) <= before + {last.lo};
      SubsetSize(Starts(cores) * Cover(runs), before + {last.lo});
    }
  }

  lemma {:induction false} SubsetSize<T>(a: set<T>, b: set<T>)
    requires a <= b
    ensures |a| <= |b|
    ensures |a| == |b| ==> a == b
  {
    assert b == a + (b - a);
  }

  /** The formatter lists ascending runs separated by gaps that cover exactly the given cores, and no list
      of ranges that covers the same cores is shorter. */
  lemma FewestParts(cores: set<nat>, other: seq<Run>)
    requires Cover(other) == cores
    ensures Maximal(RunsOf(Sorted(cores))) && Cover(RunsOf(Sorted(cores))) == cores
    ensures |RunsOf(Sorted(cores))| <= |other|
  {
    SortedRuns(cores);
    Shortest(RunsOf(Sorted(cores)), other);
  }

  lemma Shortest(runs: seq<Run>, other: seq<Run>)
    requires Maximal(runs) && Cover(other) == Cover(runs)
    ensures |runs| <= |other|
  {
    MaximalRunsAreStarts(runs);
    EveryCoverHasTheStarts(other, Cover(runs));
    assert Starts(Cover(runs)) * Cover(runs) == Starts(Cover(runs));
  }

  /** A part names an unbroken range of cores, or none. */
  lemma PartIsRange(raw: string)
    requires PartCores(raw).Ok?
    ensures PartCores(raw).value == {} || exists lo: nat, hi: nat :: PartCores(raw).value == Span(lo, hi)
  {
    var part := Strip(raw);
    if part != "" {
      var k := if '-' in part then IndexOf(part, '-') else |part|;
      UnsignedIsNat(part[..k]);
      assert '-' !in part ==> part[..k] == part;
      var lo: nat := PyInt(part[..k]).value;
      var hi: nat := if '-' in part then PyInt(part[k + 1..]).value else lo;
      assert PartCores(raw).value == Span(lo, hi);
    }
  }

  lemma OneStartEach(cores: set<nat>, range: set<nat>)
    requires range <= cores && (range == {} || exists lo: nat, hi: nat :: range == Span(lo, hi))
    ensures |Starts(cores) * range| <= 1
  {
    if range == {} {
      assert Starts(cores) * range == {};
    } else {
      var lo: nat, hi: nat :| range == Span(lo, hi);
      assert forall x | x in range && x != lo :: After(cores, x);
      assert Starts(cores) * range <= {lo};
      SubsetSize(Starts(cores) * range, {lo});
    }
  }

  lemma {:induction false} EveryTextHasTheStarts(parts: seq<string>, cores: set<nat>)
    requires Pool(parts).Ok? && Pool(parts).value <= cores
    ensures |Starts(cores) * Pool(parts).value| <= |parts|
  {
    hide PartCores, Starts;
    if parts == [] {
      assert Starts(cores) * Pool(parts).value == {};
    } else {
      var init, last := parts[..|parts| - 1], parts[|parts| - 1];
      EveryTextHasTheStarts(init, cores);
      PartIsRange(last);
      OneStartEach(cores, PartCores(last).value);
      PooledSize(Starts(cores), Pool(init).value, PartCores(last).value);
    }
  }

  lemma PooledSize(starts: set<nat>, a: set<nat>, b: set<nat>)
    ensures |starts * (a + b)| <= |starts * a| + |starts * b|
  {
    assert starts * (a + b) == starts * a + (starts * b - starts * a);
    SubsetSize(starts * b - starts * a, starts * b);
  }

  /** No accepted text that names the same cores has fewer comma-separated parts than the printed one. */
  lemma FewestTextParts(spec: string)
    requires Parse(spec).Ok?
    ensures |Split(Format(Parse(spec).value), ',')| <= |Split(spec, ',')|
  {
    hide Starts, Pool, Maximal, RunsOf, Sorted, Cover;
    var cores := Parse(spec).value;
    if cores == {} {
      BlankParses("");
    } else {
      var runs := RunsOf(Sorted(cores));
      SortedRuns(cores);
      MaximalRunsAreStarts(runs);
      EveryTextHasTheStarts(Split(spec, ','), cores);
      StartsAreCores(cores);
      PrintedParts(runs);
    }
  }

  lemma StartsAreCores(cores: set<nat>)
    ensures Starts(cores) * cores == Starts(cores)
  {
  }

  lemma PrintedParts(runs: seq<Run>)
    requires runs != [] && Maximal(runs)
    ensures |Split(Join(Texts(runs), ','), ',')| == |runs|
  {
    TextsHaveNoComma(runs);
    SplitUndoesJoin(Texts(runs), ',');
  }

  // ---- the printed form -------------------------------------------------

  /** The printed text, part by part: maximal runs in ascending order, a lone core as its number, a longer run as
      its first and last core with a dash between them. */
  lemma PrintedForm(cores: set<nat>)
    requires cores != {}
    ensures exists runs :: PrintedAs(Format(cores), runs) && Maximal(runs) && Cover(runs) == cores
  {
    hide RunsOf, Sorted;
    SortedRuns(cores);
    var runs := RunsOf(Sorted(cores));
    TextsHaveNoComma(runs);
    SplitUndoesJoin(Texts(runs), ',');
    assert PrintedAs(Format(cores), runs);
  }

  ghost predicate PrintedAs(text: string, runs: seq<Run>) {
    var parts := Split(text, ',');
    && |parts| == |runs|
    && forall k | 0 <= k < |runs| ::
         parts[k] == if runs[k].lo < runs[k].hi then NatText(runs[k].lo) + "-" + NatText(runs[k].hi) else NatText(runs[k].lo)
  }

  /** A lone core may have spaces around it too. */
  lemma LoneReads(before: string, n: nat, after: string)
    requires (forall c | c in before :: IsSpace(c)) && (forall c | c in after :: IsSpace(c))
    ensures PartCores(before + NatText(n) + after) == Ok(Span(n, n))
  {
    DigitEnds(n);
    IntOfNatText(n);
    SpacesIgnored(before, NatText(n), after);
    RunTextParses(Run(n, n));
  }

  lemma Figures()
    ensures NatText(0) == "0" && NatText(3) == "3" && NatText(8) == "8" && NatText(108) == "108"
  {
    assert NatText(1) == "1" && NatText(10) == "10";
  }

  /** Numbers are decimal, and blanks around a part are accepted. */
  lemma BlanksAreAccepted()
    ensures Parse("0-3, 8") == Ok({0, 1, 2, 3, 8}) && NatText(108) == "108"
    ensures forall c | c in " \t\n\r" :: IsSpace(c)
  {
    hide NatText, PartCores, Split, Span, Pool;
    var first, second := "0-3", " 8";
    Figures();
    RangeReads("", 0, 3, "");
    LoneReads(" ", 8, "");
    assert "" + ("0" + "-" + "3") + "" == first && " " + "8" + "" == second;
    assert "0-3, 8" == first + [','] + second;
    SplitFirst(first, second, ',');
    NoSplit(second, ',');
    PoolTwo(first, second);
    Spans();
  }

  lemma {:induction false} DigitsOnly(s: string)
    requires DigitsValue(s).Some?
    ensures forall c | c in s :: IsDigit(c) || c == '_'
  {
    if |s| > 1 {
      var last := s[|s| - 1];
      var head := if s[|s| - 2] == '_' then s[..|s| - 2] else s[..|s| - 1];
      DigitsOnly(head);
      assert s == if s[|s| - 2] == '_' then head + ['_', last] else head + [last];
    }
  }

  /** The characters of a CPU list: digits, dashes, commas and blanks, and the signs and underscores that the
      reading of a number lets pass. */
  predicate ListChar(c: char) {
    '0' <= c <= '9' || c in "-,+_ " || '\t' <= c <= '\r' || 28 <= c as int <= 31
  }

  lemma IntChars(s: string)
    requires PyInt(s).Some?
    ensures forall c | c in s :: ListChar(c)
  {
    var t := Strip(s);
    if t[0] == '+' || t[0] == '-' {
      DigitsOnly(t[1..]);
      assert t == [t[0]] + t[1..];
    } else {
      DigitsOnly(t);
    }
    OutsideIsSpace(s);
  }

  lemma OutsideIsSpace(s: string)
    ensures forall c | c in s :: c in Strip(s) || IsSpace(c)
  {
    forall c | c in s && !IsSpace(c) ensures c in Strip(s) { StripKeepsSolid(s, c); }
  }

  lemma PartChars(raw: string)
    requires PartCores(raw).Ok?
    ensures forall c | c in raw :: ListChar(c)
  {
    var part := Strip(raw);
    OutsideIsSpace(raw);
    if part != "" {
      if '-' in part {
        var k := IndexOf(part, '-');
        IntChars(part[..k]);
        IntChars(part[k + 1..]);
        assert part == part[..k] + ['-'] + part[k + 1..];
      } else {
        IntChars(part);
      }
    }
  }

  /** A blank part between two commas names no cores. */
  lemma BlankPart(raw: string)
    requires forall c | c in raw :: IsSpace(c)
    ensures PartCores(raw) == Ok({})
  {
    if Strip(raw) != "" {
      assert Strip(raw)[0] in Strip(raw);
      StripInside(raw, Strip(raw)[0]);
      StripEnds(raw);
    }
  }

  lemma StripInside(s: string, c: char)
    requires c in Strip(s)
    ensures c in s
  {
    if c !in s { StripSubset(s, c); }
  }

  lemma StripEnds(s: string)
    ensures Strip(s) != "" ==> !IsSpace(Strip(s)[0])
  {
    StripLeftEnds(s);
    StripRightHead(StripLeft(s));
  }

  lemma {:induction false} StripLeftEnds(s: string)
    ensures StripLeft(s) != "" ==> !IsSpace(StripLeft(s)[0])
  {
    if s != [] && IsSpace(s[0]) { StripLeftEnds(s[1..]); }
  }

  lemma {:induction false} StripRightHead(s: string)
    ensures StripRight(s) != "" ==> s != "" && StripRight(s)[0] == s[0]
  {
    if s != [] && IsSpace(s[|s| - 1]) { StripRightHead(s[..|s| - 1]); }
  }

  /** Text with any other character in it is refused. */
  lemma OtherTextIsRefused(spec: string, c: char)
    requires c in spec && !ListChar(c)
    ensures Parse(spec).Err?
  {
    var parts := Split(spec, ',');
    JoinUndoesSplit(spec, ',');
    PoolMeaning(parts);
    if forall p | p in parts :: PartCores(p).Ok? {
      forall p | p in parts ensures c !in p { PartChars(p); }
      JoinAvoids(parts, ',', c);
    }
  }

  lemma {:induction false} JoinAvoids(parts: seq<string>, sep: char, c: char)
    requires parts != [] && c != sep && forall p | p in parts :: c !in p
    ensures c !in Join(parts, sep)
  {
    if |parts| > 1 { JoinAvoids(parts[1..], sep, c); }
  }

  lemma Spans()
    ensures Span(0, 3) + Span(8, 8) == {0, 1, 2, 3, 8}
  {
  }

  lemma PoolTwo(a: string, b: string)
    requires PartCores(a).Ok? && PartCores(b).Ok?
    ensures Pool([a] + [b]) == Ok(PartCores(a).value + PartCores(b).value)
  {
    PoolOne(a);
    assert ([a] + [b])[..1] == [a];
  }

  lemma NoSplit(s: string, sep: char)
    requires sep !in s
    ensures Split(s, sep) == [s]
  {
    SplitUndoesJoin([s], sep);
  }
}
