/** String operations of Python's `str` that the load tester relies on, over `seq<char>`. */
module Text {
  import opened Wrappers

  predicate StartsWith(s: string, prefix: string) {
    |prefix| <= |s| && s[..|prefix|] == prefix
  }

  predicate EndsWith(s: string, suffix: string) {
    |suffix| <= |s| && s[|s| - |suffix|..] == suffix
  }

  /** `s.rstrip(chars)`: drop every trailing character that belongs to `cs`. */
  function RStrip(s: string, cs: set<char>): (r: string)
    ensures |r| <= |s| && r == s[..|r|]
    ensures r == [] || r[|r| - 1] !in cs
    ensures forall i :: |r| <= i < |s| ==> s[i] in cs
  {
    if s == [] || s[|s| - 1] !in cs then s else RStrip(s[..|s| - 1], cs)
  }

  /** `s.lstrip(chars)`: drop every leading character that belongs to `cs`. */
  function LStrip(s: string, cs: set<char>): (r: string)
    ensures |r| <= |s| && r == s[|s| - |r|..]
    ensures r == [] || r[0] !in cs
    ensures forall i :: 0 <= i < |s| - |r| ==> s[i] in cs
  {
    if s == [] || s[0] !in cs then s else LStrip(s[1..], cs)
  }

  /** The characters Python's `str.strip()` removes (the ASCII part of them). */
  const Whitespace: set<char> := {' ', '\t', '\n', '\r', '\U{B}', '\U{C}', '\U{1C}', '\U{1D}', '\U{1E}', '\U{1F}'}

  function Strip(s: string): string {
    LStrip(RStrip(s, Whitespace), Whitespace)
  }

  lemma {:induction false} RStripNoop(s: string, cs: set<char>)
    requires s == [] || s[|s| - 1] !in cs
    ensures RStrip(s, cs) == s
  {
  }

  /** `sep` occurs in `s` at index `i`. */
  predicate OccursAt(s: string, sep: string, i: int) {
    0 <= i && i + |sep| <= |s| && s[i..i + |sep|] == sep
  }

  /** `sub in s` for strings. */
  predicate Contains(s: string, sub: string) {
    exists i | 0 <= i <= |s| :: OccursAt(s, sub, i)
  }

  /** Index of the first occurrence of `sep` in `s` at or after `from` (`str.find`). */
  function FindFrom(s: string, sep: string, from: nat): (r: Option<nat>)
    requires |sep| > 0
    ensures r.Some? ==> from <= r.value && OccursAt(s, sep, r.value)
    ensures r.Some? ==> forall j :: from <= j < r.value ==> !OccursAt(s, sep, j)
    ensures r.None? ==> forall j :: from <= j ==> !OccursAt(s, sep, j)
    decreases |s| - from
  {
    if from + |sep| > |s| then None
    else if s[from..from + |sep|] == sep then Some(from)
    else FindFrom(s, sep, from + 1)
  }

  function Find(s: string, sep: string): (r: Option<nat>)
    requires |sep| > 0
    ensures r.Some? ==> OccursAt(s, sep, r.value) && forall j :: 0 <= j < r.value ==> !OccursAt(s, sep, j)
    ensures r.None? <==> !Contains(s, sep)
  {
    FindFrom(s, sep, 0)
  }

  /** `s.split(sep)`: the pieces between the non-overlapping occurrences of `sep`, left to right. */
  function Split(s: string, sep: string): (parts: seq<string>)
    requires |sep| > 0
    ensures |parts| >= 1
    decreases |s|, 1
  {
    SplitFound(s, sep, Find(s, sep))
  }

  /** The split of `s`, given where the first occurrence of `sep` is, if any. */
  function SplitFound(s: string, sep: string, found: Option<nat>): (parts: seq<string>)
    requires |sep| > 0
    requires found.Some? ==> found.value + |sep| <= |s|
    ensures |parts| >= 1
    decreases |s|, 0
  {
    match found
    case None => [s]
    case Some(i) => [s[..i]] + Split(s[i + |sep|..], sep)
  }

  /** `sep.join(parts)`. */
  function Join(parts: seq<string>, sep: string): string {
    if parts == [] then ""
    else if |parts| == 1 then parts[0]
    else parts[0] + sep + Join(parts[1..], sep)
  }

  /** Joining the pieces of a split gives back the string. */
  lemma {:induction false} JoinSplit(s: string, sep: string)
    requires |sep| > 0
    ensures Join(Split(s, sep), sep) == s
    decreases |s|
  {
    var found := Find(s, sep);
    if found.Some? {
      var i := found.value;
      var rest := s[i + |sep|..];
      SplitAtFirst(s, sep, i);
      JoinSplit(rest, sep);
      JoinCons(s[..i], Split(rest, sep), sep);
      Decompose(s, sep, i);
    }
  }

  lemma SplitAtFirst(s: string, sep: string, i: nat)
    requires |sep| > 0
    requires Find(s, sep) == Some(i)
    ensures i + |sep| <= |s|
    ensures Split(s, sep) == [s[..i]] + Split(s[i + |sep|..], sep)
  {
    FoundFits(s, sep, i);
    SplitFoundSome(s, sep, i);
  }

  lemma FoundFits(s: string, sep: string, i: nat)
    requires |sep| > 0
    requires Find(s, sep) == Some(i)
    ensures i + |sep| <= |s|
  {
  }

  lemma SplitFoundSome(s: string, sep: string, i: nat)
    requires |sep| > 0 && i + |sep| <= |s|
    ensures SplitFound(s, sep, Some(i)) == [s[..i]] + Split(s[i + |sep|..], sep)
  {
  }

  lemma Decompose(s: string, sep: string, i: nat)
    requires OccursAt(s, sep, i)
    ensures s == s[..i] + sep + s[i + |sep|..]
  {
    assert s[i..i + |sep|] == sep;
  }

  lemma JoinCons(head: string, tail: seq<string>, sep: string)
    requires |tail| > 0
    ensures Join([head] + tail, sep) == head + sep + Join(tail, sep)
  {
    assert ([head] + tail)[1..] == tail;
  }

  /** Splitting at a one-character separator undoes the join of pieces that do not contain it. */
  lemma {:induction false} SplitJoin(parts: seq<string>, c: char)
    requires |parts| > 0
    requires forall k :: 0 <= k < |parts| ==> c !in parts[k]
    ensures Split(Join(parts, [c]), [c]) == parts
  {
    var s := Join(parts, [c]);
    if |parts| == 1 {
      NoSepNotFound(parts[0], c);
    } else {
      var rest := Join(parts[1..], [c]);
      assert s == parts[0] + [c] + rest;
      var i := |parts[0]|;
      assert OccursAt(s, [c], i) by {
        assert s[i..i + 1] == [c];
      }
      forall j | 0 <= j < i ensures !OccursAt(s, [c], j) {
        assert s[j] == parts[0][j];
      }
      assert Find(s, [c]) == Some(i);
      SplitAtFirst(s, [c], i);
      assert s[..i] == parts[0];
      assert s[i + 1..] == rest;
      SplitJoin(parts[1..], c);
    }
  }

  lemma NoSepNotFound(p: string, c: char)
    requires c !in p
    ensures Split(p, [c]) == [p]
  {
    forall i | 0 <= i <= |p| ensures !OccursAt(p, [c], i) {
      if i < |p| {
        assert p[i..i + 1][0] == p[i];
      }
    }
  }

  // ---------------------------------------------------------------------------
  // Decimal integers: `str(i)` and `int(s)`
  // ---------------------------------------------------------------------------

  predicate IsDigit(c: char) {
    '0' <= c <= '9'
  }

  function DigitChar(d: nat): (c: char)
    requires d < 10
    ensures IsDigit(c)
  {
    "0123456789"[d]
  }

  function DigitValue(c: char): (d: nat)
    requires IsDigit(c)
    ensures d < 10
  {
    (c as int - '0' as int) as nat
  }

  lemma DigitRoundTrip(d: nat)
    requires d < 10
    ensures DigitValue(DigitChar(d)) == d
  {
  }

  /** The decimal digits of a natural number, most significant first, no leading zeros. */
  function NatDigits(n: nat): (r: string)
    ensures |r| > 0 && forall k :: 0 <= k < |r| ==> IsDigit(r[k])
  {
    if n < 10 then [DigitChar(n)] else NatDigits(n / 10) + [DigitChar(n % 10)]
  }

  /** `str(i)` for an `int`. */
  function DecimalString(i: int): (r: string)
    ensures |r| > 0
    ensures '.' !in r && ',' !in r
  {
    if i < 0 then "-" + NatDigits(-i) else NatDigits(i)
  }

  /**
   * The value of a run of decimal digits in which single underscores may separate two
   * digits (the literal form Python's `int()` accepts); None for anything else.
   */
  function DigitRun(t: string): Option<nat>
    decreases |t|
  {
    if |t| == 0 || !IsDigit(t[|t| - 1]) then None
    else if |t| == 1 then Some(DigitValue(t[0]))
    else
      var init := if t[|t| - 2] == '_' then t[..|t| - 2] else t[..|t| - 1];
      match DigitRun(init)
      case None => None
      case Some(v) => Some(10 * v + DigitValue(t[|t| - 1]))
  }

  /** `int(s)` in base 10: surrounding whitespace, an optional sign, a digit run; None where Python raises ValueError. */
  function ParseInt(s: string): Option<int> {
    var t := Strip(s);
    if |t| > 0 && (t[0] == '-' || t[0] == '+') then
      match DigitRun(t[1..])
      case None => None
      case Some(v) => var n: int := if t[0] == '-' then -(v as int) else v; Some(n)
    else
      match DigitRun(t)
      case None => None
      case Some(v) => Some(v)
  }

  lemma {:induction false} DigitRunOfNatDigits(n: nat)
    ensures DigitRun(NatDigits(n)) == Some(n)
  {
    var t := NatDigits(n);
    if n < 10 {
      DigitRoundTrip(n);
    } else {
      DigitRunOfNatDigits(n / 10);
      var init := NatDigits(n / 10);
      assert t == init + [DigitChar(n % 10)];
      assert t[..|t| - 1] == init;
      assert t[|t| - 2] == init[|init| - 1];
      DigitRoundTrip(n % 10);
    }
  }

  /** `int(str(i)) == i`. */
  lemma ParseDecimalString(i: int)
    ensures ParseInt(DecimalString(i)) == Some(i)
  {
    var r := DecimalString(i);
    var digits := NatDigits(if i < 0 then -i else i);
    DecimalStringStripped(i);
    DigitRunOfNatDigits(if i < 0 then -i else i);
    if i < 0 {
      assert r[1..] == digits;
    } else {
      assert !(r[0] == '-' || r[0] == '+') by { assert IsDigit(r[0]); }
    }
  }

  /** `str(i)` has no surrounding whitespace. */
  lemma DecimalStringStripped(i: int)
    ensures Strip(DecimalString(i)) == DecimalString(i)
  {
    var r := DecimalString(i);
    var digits := NatDigits(if i < 0 then -i else i);
    assert r[0] !in Whitespace && r[|r| - 1] !in Whitespace by {
      assert i < 0 ==> r[0] == '-';
      assert i >= 0 ==> IsDigit(r[0]);
      assert IsDigit(r[|r| - 1]) by {
        assert r[|r| - 1] == digits[|digits| - 1];
      }
    }
  }
}
