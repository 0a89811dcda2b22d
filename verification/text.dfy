/**
 * String building blocks used by the prompt and key builders: decimal
 * rendering of naturals (`f"{i}"`), `sep.join(parts)` and `str.strip()`.
 */
module Text {

  // ---------- decimal rendering ----------

  predicate IsDigit(c: char) {
    '0' <= c <= '9'
  }

  predicate AllDigits(s: string) {
    forall i :: 0 <= i < |s| ==> IsDigit(s[i])
  }

  function DigitChar(d: nat): (c: char)
    requires d < 10
    ensures IsDigit(c) && c as int - '0' as int == d
  {
    "0123456789"[d]
  }

  /** The decimal rendering of `n`, as Python's `str(n)` gives it. */
  function Decimal(n: nat): (s: string)
    ensures 1 <= |s| && AllDigits(s)
    ensures n < 10 <==> |s| == 1
  {
    if n < 10 then [DigitChar(n)] else Decimal(n / 10) + [DigitChar(n % 10)]
  }

  /** Reads a string of digits back as a natural number. */
  function ParseDecimal(s: string): nat
    requires AllDigits(s)
  {
    if s == [] then 0
    else 10 * ParseDecimal(s[..|s| - 1]) + (s[|s| - 1] as int - '0' as int)
  }

  lemma {:induction false} ParseDecimalOfDecimal(n: nat)
    ensures ParseDecimal(Decimal(n)) == n
  {
    if n >= 10 {
      var s := Decimal(n);
      assert s[..|s| - 1] == Decimal(n / 10);
      ParseDecimalOfDecimal(n / 10);
    }
  }

  /** Different numbers render differently. */
  lemma DecimalInjective(m: nat, n: nat)
    ensures Decimal(m) == Decimal(n) ==> m == n
  {
    ParseDecimalOfDecimal(m);
    ParseDecimalOfDecimal(n);
  }

  /** The rendering of an integer, as Python's `f"{i}"` gives it. */
  function IntText(i: int): (s: string)
    ensures 1 <= |s|
    ensures forall k :: 0 <= k < |s| ==> IsDigit(s[k]) || s[k] == '-'
  {
    if i < 0 then "-" + Decimal(-i) else Decimal(i)
  }

  /** A rendering starts with a minus sign exactly when the integer is negative. */
  lemma IntTextSign(i: int)
    ensures i < 0 <==> IntText(i)[0] == '-'
  {
    if i >= 0 {
      assert IsDigit(Decimal(i)[0]);
    }
  }

  /** Different integers render differently. */
  lemma IntTextInjective(i: int, j: int)
    ensures IntText(i) == IntText(j) ==> i == j
  {
    IntTextSign(i);
    IntTextSign(j);
    if IntText(i) == IntText(j) {
      if i < 0 {
        assert IntText(i)[1..] == Decimal(-i) && IntText(j)[1..] == Decimal(-j);
        DecimalInjective(-i, -j);
      } else {
        DecimalInjective(i, j);
      }
    }
  }

  lemma MarkAt(s: string, m: char, r: string)
    ensures (s + [m] + r)[|s|] == m
    ensures forall i :: 0 <= i < |s| ==> (s + [m] + r)[i] == s[i]
  {
  }

  /** Cutting two strings at the first occurrence of a mark they both contain. */
  lemma SplitAtMark(s1: string, r1: string, s2: string, r2: string, m: char)
    requires m !in s1 && m !in s2
    requires s1 + [m] + r1 == s2 + [m] + r2
    ensures s1 == s2 && r1 == r2
  {
    var a, b := s1 + [m] + r1, s2 + [m] + r2;
    MarkAt(s1, m, r1);
    MarkAt(s2, m, r2);
    assert |s1| == |s2|;
    assert s1 == a[..|s1|] && s2 == b[..|s2|];
    assert r1 == a[|s1| + 1..] && r2 == b[|s2| + 1..];
  }

  // ---------- join ----------

  /** Python's `sep.join(parts)`. */
  function Join(parts: seq<string>, sep: string): string
  {
    if |parts| == 0 then []
    else if |parts| == 1 then parts[0]
    else parts[0] + sep + Join(parts[1..], sep)
  }

  function TotalLength(parts: seq<string>): nat
  {
    if parts == [] then 0 else |parts[0]| + TotalLength(parts[1..])
  }

  /** Joining n > 0 parts inserts exactly n - 1 separators and nothing else. */
  lemma {:induction false} JoinLength(parts: seq<string>, sep: string)
    requires |parts| > 0
    ensures |Join(parts, sep)| == TotalLength(parts) + (|parts| - 1) * |sep|
  {
    if |parts| > 1 {
      JoinLength(parts[1..], sep);
    }
  }

  /** Joining starts with the first part and ends with the last one. */
  lemma {:induction false} JoinEnds(parts: seq<string>, sep: string)
    requires |parts| > 0
    ensures parts[0] <= Join(parts, sep)
    ensures var j := Join(parts, sep); var l := parts[|parts| - 1];
            |l| <= |j| && j[|j| - |l|..] == l
  {
    if |parts| > 1 {
      JoinEnds(parts[1..], sep);
      var rest := Join(parts[1..], sep);
      assert Join(parts, sep) == parts[0] + sep + rest;
    }
  }

  // ---------- strip ----------

  /** The characters Python's `str.isspace` accepts (and `str.strip` removes). */
  predicate IsSpace(c: char) {
    c == ' ' || c == '\t' || c == '\n' || c == '\r' || c == '\U{0B}' || c == '\U{0C}'
    || ('\U{1C}' <= c <= '\U{1F}') || c == '\U{85}' || c == '\U{A0}' || c == '\U{1680}'
    || ('\U{2000}' <= c <= '\U{200A}') || c == '\U{2028}' || c == '\U{2029}'
    || c == '\U{202F}' || c == '\U{205F}' || c == '\U{3000}'
  }

  predicate AllSpace(s: string) {
    forall i :: 0 <= i < |s| ==> IsSpace(s[i])
  }

  function StripLeft(s: string): string {
    if |s| > 0 && IsSpace(s[0]) then StripLeft(s[1..]) else s
  }

  function StripRight(s: string): string {
    if |s| > 0 && IsSpace(s[|s| - 1]) then StripRight(s[..|s| - 1]) else s
  }

  /** Python's `str.strip()`: drops leading and trailing whitespace. */
  function Strip(s: string): string {
    StripRight(StripLeft(s))
  }

  /** Left stripping removes a whitespace prefix, and exactly as much as leaves a non-space first character. */
  lemma {:induction false} StripLeftSpec(s: string)
    ensures var r := StripLeft(s);
      && |r| <= |s| && r == s[|s| - |r|..]
      && AllSpace(s[..|s| - |r|])
      && (r == [] || !IsSpace(r[0]))
  {
    if |s| > 0 && IsSpace(s[0]) {
      StripLeftSpec(s[1..]);
      var r := StripLeft(s);
      assert s[..|s| - |r|] == [s[0]] + s[1..][..|s| - 1 - |r|];
    }
  }

  /** Right stripping removes a whitespace suffix, and exactly as much as leaves a non-space last character. */
  lemma {:induction false} StripRightSpec(s: string)
    ensures var r := StripRight(s);
      && |r| <= |s| && r == s[..|r|]
      && AllSpace(s[|r|..])
      && (r == [] || !IsSpace(r[|r| - 1]))
  {
    if |s| > 0 && IsSpace(s[|s| - 1]) {
      StripRightSpec(s[..|s| - 1]);
      var r := StripRight(s);
      assert s[|r|..] == s[..|s| - 1][|r|..] + [s[|s| - 1]];
    }
  }

  /** A stripped text is a slice of the original and neither starts nor ends with whitespace. */
  lemma StripSpec(s: string)
    ensures var r := Strip(s);
      && (exists i, j :: 0 <= i <= j <= |s| && r == s[i..j])
      && (r == [] || (!IsSpace(r[0]) && !IsSpace(r[|r| - 1])))
  {
    var l := StripLeft(s);
    StripLeftSpec(s);
    StripRightSpec(l);
    var r := StripRight(l);
    var i := |s| - |l|;
    assert r == s[i..i + |r|];
    if r != [] {
      assert r[0] == l[0];
    }
  }

  lemma {:induction false} StripLeftAt(a: string, core: string)
    requires AllSpace(a)
    requires |core| > 0 && !IsSpace(core[0])
    ensures StripLeft(a + core) == core
  {
    if |a| > 0 {
      assert (a + core)[1..] == a[1..] + core;
      StripLeftAt(a[1..], core);
    }
  }

  lemma {:induction false} StripRightAt(core: string, b: string)
    requires AllSpace(b)
    requires |core| > 0 && !IsSpace(core[|core| - 1])
    ensures StripRight(core + b) == core
  {
    if |b| > 0 {
      assert (core + b)[..|core + b| - 1] == core + b[..|b| - 1];
      StripRightAt(core, b[..|b| - 1]);
    }
  }

  /** Stripping a text framed by whitespace gives back exactly the framed text. */
  lemma StripFramed(a: string, core: string, b: string)
    requires AllSpace(a) && AllSpace(b)
    requires |core| > 0 && !IsSpace(core[0]) && !IsSpace(core[|core| - 1])
    ensures Strip(a + core + b) == core
  {
    assert a + core + b == a + (core + b);
    StripLeftAt(a, core + b);
    StripRightAt(core, b);
  }

  /** Stripping a template that opens and closes with a newline around a text with non-blank ends. */
  lemma StripNewlines(head: string, body: string, tail: string)
    requires |head| > 0 && !IsSpace(head[0]) && |tail| > 0 && !IsSpace(tail[|tail| - 1])
    ensures Strip("\n" + head + body + tail + "\n") == head + body + tail
  {
    var core := head + body + tail;
    assert core[0] == head[0];
    assert core[|core| - 1] == tail[|tail| - 1];
    assert "\n" + head + body + tail + "\n" == "\n" + core + "\n";
    StripFramed("\n", core, "\n");
  }
}
