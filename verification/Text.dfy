/** The parts of Python's `str` and `int` that CPU-list strings are read and written with:
    `strip`, `split`, `join`, `int(text)` and `str(n)`, over ASCII text. */
module Text {
  import opened Wrappers

  predicate IsSpace(c: char) {
    9 <= c as int <= 13 || 28 <= c as int <= 32
  }

  predicate IsDigit(c: char) {
    '0' <= c <= '9'
  }

  function StripLeft(s: string): string {
    if s != [] && IsSpace(s[0]) then StripLeft(s[1..]) else s
  }

  function StripRight(s: string): string {
    if s != [] && IsSpace(s[|s| - 1]) then StripRight(s[..|s| - 1]) else s
  }

  function Strip(s: string): string {
    StripRight(StripLeft(s))
  }

  // ---- split and join -------------------------------------------------

  function Split(s: string, sep: char): (parts: seq<string>)
    ensures |parts| >= 1
  {
    if s == [] then
      [""]
    else
      var rest := Split(s[1..], sep);
      if s[0] == sep then [""] + rest else [[s[0]] + rest[0]] + rest[1..]
  }

  function Join(parts: seq<string>, sep: char): string
    requires |parts| >= 1
  {
    if |parts| == 1 then parts[0] else parts[0] + [sep] + Join(parts[1..], sep)
  }

  lemma {:induction false} SplitFirst(p: string, rest: string, sep: char)
    requires sep !in p
    ensures Split(p + [sep] + rest, sep) == [p] + Split(rest, sep)
    ensures Split(p, sep) == [p]
  {
    if p == [] {
      assert p + [sep] + rest == [sep] + rest;
    } else {
      SplitFirst(p[1..], rest, sep);
      assert (p + [sep] + rest)[1..] == p[1..] + [sep] + rest;
      assert p == [p[0]] + p[1..];
    }
  }

  /** Splitting undoes joining, provided no part contains the separator ... */
  lemma {:induction false} SplitUndoesJoin(parts: seq<string>, sep: char)
    requires |parts| >= 1 && forall p | p in parts :: sep !in p
    ensures Split(Join(parts, sep), sep) == parts
  {
    if |parts| == 1 {
      SplitFirst(parts[0], "", sep);
    } else {
      SplitUndoesJoin(parts[1..], sep);
      SplitFirst(parts[0], Join(parts[1..], sep), sep);
    }
  }

  /** ... and joining always undoes splitting. */
  lemma {:induction false} JoinUndoesSplit(s: string, sep: char)
    ensures Join(Split(s, sep), sep) == s
  {
    if s != [] {
      JoinUndoesSplit(s[1..], sep);
      var rest := Split(s[1..], sep);
      if s[0] == sep {
        assert ([""] + rest)[1..] == rest;
      } else {
        var parts := [[s[0]] + rest[0]] + rest[1..];
        assert parts[1..] == rest[1..];
        assert s == [s[0]] + s[1..];
      }
    }
  }

  // ---- decimal numbers ------------------------------------------------

  /** The value of a run of digits in which single underscores may stand between digits. */
  function DigitsValue(s: string): Option<nat> {
    if s == [] || !IsDigit(s[|s| - 1]) then
      None
    else
      var d := (s[|s| - 1] as int) - ('0' as int);
      if |s| == 1 then
        Some(d)
      else
        var head := if s[|s| - 2] == '_' then s[..|s| - 2] else s[..|s| - 1];
        match DigitsValue(head)
        case None => None
        case Some(n) => Some(10 * n + d)
  }

  /** `int(s)`; `None` is Python's `ValueError`. */
  function PyInt(s: string): Option<int> {
    var t := Strip(s);
    if t != [] && (t[0] == '+' || t[0] == '-') then
      match DigitsValue(t[1..])
      case None => None
      case Some(n) => Some(if t[0] == '-' then -(n as int) else n as int)
    else
      match DigitsValue(t)
      case None => None
      case Some(n) => Some(n as int)
  }

  /** `str(n)`. */
  function NatText(n: nat): (s: string)
    ensures s != [] && forall c | c in s :: IsDigit(c)
  {
    if n < 10 then [('0' as int + n) as char] else NatText(n / 10) + [('0' as int + n % 10) as char]
  }

  lemma {:induction false} DigitsOfNatText(n: nat)
    ensures DigitsValue(NatText(n)) == Some(n)
  {
    if n >= 10 {
      var s, head := NatText(n), NatText(n / 10);
      DigitsOfNatText(n / 10);
      assert s[..|s| - 1] == head;
      assert s[|s| - 2] == head[|head| - 1] && head[|head| - 1] in head;
    }
  }

  lemma StripKeeps(s: string)
    requires s != [] ==> !IsSpace(s[0]) && !IsSpace(s[|s| - 1])
    ensures Strip(s) == s
  {
  }

  lemma {:induction false} StripSpaces(before: string, part: string, after: string)
    requires (forall c | c in before :: IsSpace(c)) && (forall c | c in after :: IsSpace(c))
    requires part != [] && !IsSpace(part[0]) && !IsSpace(part[|part| - 1])
    ensures Strip(before + part + after) == part
    decreases |before| + |after|
  {
    if before != [] {
      assert (before + part + after)[1..] == before[1..] + part + after;
      StripSpaces(before[1..], part, after);
    } else {
      assert before + part + after == part + after;
      StripAfter(part, after);
    }
  }

  lemma {:induction false} StripAfter(part: string, after: string)
    requires forall c | c in after :: IsSpace(c)
    requires part != [] && !IsSpace(part[|part| - 1])
    ensures StripRight(part + after) == part
  {
    if after != [] {
      var s, init := part + after, after[..|after| - 1];
      assert s[..|s| - 1] == part + init;
      assert s[|s| - 1] == after[|after| - 1];
      StripAfter(part, init);
    } else {
      assert part + after == part;
    }
  }

  /** Decimal text reads back as the number it was printed from. */
  lemma IntOfNatText(n: nat)
    ensures PyInt(NatText(n)) == Some(n)
  {
    var s := NatText(n);
    assert s[0] in s && s[|s| - 1] in s;
    StripKeeps(s);
    DigitsOfNatText(n);
  }

  lemma {:induction false} StripSubset(s: string, c: char)
    requires c !in s
    ensures c !in Strip(s)
  {
    StripLeftSubset(s, c);
    StripRightSubset(StripLeft(s), c);
  }

  lemma {:induction false} StripLeftSubset(s: string, c: char)
    requires c !in s
    ensures c !in StripLeft(s)
  {
    if s != [] && IsSpace(s[0]) { StripLeftSubset(s[1..], c); }
  }

  lemma {:induction false} StripRightSubset(s: string, c: char)
    requires c !in s
    ensures c !in StripRight(s)
  {
    if s != [] && IsSpace(s[|s| - 1]) { StripRightSubset(s[..|s| - 1], c); }
  }

  /** Text without a minus sign never reads as a negative number. */
  lemma UnsignedIsNat(s: string)
    requires '-' !in s
    ensures PyInt(s).Some? ==> PyInt(s).value >= 0
  {
    StripSubset(s, '-');
    var t := Strip(s);
    if t != [] { assert t[0] in t; }
  }
}
