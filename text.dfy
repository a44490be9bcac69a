/**
  String operations the mailer relies on: Python's `int()` on a string, `str.lower()`
  as far as a comparison with "true" needs it, `", ".join`, `os.path.basename` and
  `str.split(sep, 1)` unpacked into two names.
 */
module Text {
  import opened Wrappers

  // ---------------------------------------------------------------------------
  // int(s) for s a str
  // ---------------------------------------------------------------------------

  /** The ASCII whitespace `int()` strips from both ends of its argument. */
  predicate IsSpace(c: char) {
    c == ' ' || c == '\t' || c == '\n' || c == '\r' || c == '\U{B}' || c == '\U{C}'
  }

  function TrimLeft(s: string): string {
    if s != [] && IsSpace(s[0]) then TrimLeft(s[1..]) else s
  }

  function TrimRight(s: string): string {
    if s != [] && IsSpace(s[|s| - 1]) then TrimRight(s[..|s| - 1]) else s
  }

  function Strip(s: string): string {
    TrimRight(TrimLeft(s))
  }

  predicate IsDigit(c: char) {
    '0' <= c <= '9'
  }

  predicate AllDigits(s: string) {
    forall i :: 0 <= i < |s| ==> IsDigit(s[i])
  }

  function DigitValue(c: char): nat
    requires IsDigit(c)
  {
    c as int - '0' as int
  }

  /** The value of a run of decimal digits, most significant first. */
  function DigitsValue(s: string): nat
    requires AllDigits(s)
  {
    if s == [] then 0 else DigitsValue(s[..|s| - 1]) * 10 + DigitValue(s[|s| - 1])
  }

  /** The default of `sys.get_int_max_str_digits()`: the most digits `int()` and `str()` convert. */
  const MaxStrDigits: nat := 4300

  /**
    Python's `int(s)`: optional surrounding whitespace, an optional sign and at least
    one decimal digit, but no more than `MaxStrDigits` of them. `None` stands for the
    `ValueError` that `int()` raises otherwise.
   */
  function ParseInt(s: string): Option<int> {
    var t := Strip(s);
    if |t| > 0 && (t[0] == '+' || t[0] == '-') then
      if |t| > 1 && AllDigits(t[1..]) && |t| - 1 <= MaxStrDigits then
        var magnitude: int := DigitsValue(t[1..]);
        Some(if t[0] == '-' then -magnitude else magnitude)
      else None
    else if |t| > 0 && AllDigits(t) && |t| <= MaxStrDigits then Some(DigitsValue(t))
    else None
  }

  function DigitChar(d: nat): (c: char)
    requires d < 10
    ensures IsDigit(c) && DigitValue(c) == d
  {
    ('0' as int + d) as char
  }

  /** The decimal rendering of a natural number, without leading zeros. */
  function Decimal(n: nat): (s: string)
    ensures |s| > 0 && AllDigits(s)
  {
    if n < 10 then [DigitChar(n)] else Decimal(n / 10) + [DigitChar(n % 10)]
  }

  /** Python's `str(i)` for an int. */
  function IntToString(i: int): string {
    if i < 0 then "-" + Decimal(-i) else Decimal(i)
  }

  lemma {:induction false} DecimalValue(n: nat)
    ensures DigitsValue(Decimal(n)) == n
  {
    if n >= 10 {
      var s := Decimal(n);
      assert s[..|s| - 1] == Decimal(n / 10);
      DecimalValue(n / 10);
    }
  }

  /**
    The decimal rendering of an integer is read back unchanged when it has at most
    `MaxStrDigits` digits, and is refused when it has more.
   */
  lemma ParseIntOfIntToString(i: int)
    ensures |Decimal(if i < 0 then -i else i)| <= MaxStrDigits ==> ParseInt(IntToString(i)) == Some(i)
    ensures |Decimal(if i < 0 then -i else i)| > MaxStrDigits ==> ParseInt(IntToString(i)) == None
  {
    var s := IntToString(i);
    var d := if i < 0 then -i else i;
    DecimalValue(d);
    assert !IsSpace(s[0]) && !IsSpace(s[|s| - 1]);
    assert Strip(s) == s;
    if i < 0 {
      assert s[1..] == Decimal(d);
    }
  }

  // ---------------------------------------------------------------------------
  // s.lower() == "true"
  // ---------------------------------------------------------------------------

  /** Lower-casing of one character; only ASCII letters are mapped. */
  function LowerChar(c: char): char {
    if 'A' <= c <= 'Z' then (c as int + 32) as char else c
  }

  function ToLower(s: string): string {
    seq(|s|, i requires 0 <= i < |s| => LowerChar(s[i]))
  }

  /** The values whose lower-case form is "true" are exactly the sixteen case variants of "true". */
  lemma LowerIsTrueIffCaseVariant(s: string)
    ensures ToLower(s) == "true" <==>
      |s| == 4 && (s[0] == 't' || s[0] == 'T') && (s[1] == 'r' || s[1] == 'R')
               && (s[2] == 'u' || s[2] == 'U') && (s[3] == 'e' || s[3] == 'E')
  {
    var lower := ToLower(s);
    if lower == "true" {
      assert |s| == |lower| == 4;
      assert lower[0] == LowerChar(s[0]) == 't' && lower[1] == LowerChar(s[1]) == 'r';
      assert lower[2] == LowerChar(s[2]) == 'u' && lower[3] == LowerChar(s[3]) == 'e';
    }
  }

  // ---------------------------------------------------------------------------
  // s.encode('ascii')
  // ---------------------------------------------------------------------------

  /** `s.encode('ascii')` succeeds: every code point is below 128. */
  predicate IsAscii(s: string) {
    forall i :: 0 <= i < |s| ==> s[i] as int < 128
  }

  // ---------------------------------------------------------------------------
  // ", ".join(xs) and its inverse
  // ---------------------------------------------------------------------------

  /** Python's `sep.join(xs)`. */
  function Join(sep: string, xs: seq<string>): string {
    if |xs| == 0 then "" else if |xs| == 1 then xs[0] else xs[0] + sep + Join(sep, xs[1..])
  }

  /** The separator the `To` header puts between addresses. */
  const ListSeparator: string := ", "

  /** `s` holds no ", ". */
  predicate NoSeparator(s: string) {
    forall i :: 0 <= i < |s| - 1 ==> !(s[i] == ',' && s[i + 1] == ' ')
  }

  /** Python's `s.split(", ")`. */
  function SplitOnSeparator(s: string): (r: seq<string>)
    ensures |r| > 0
  {
    if |s| < 2 then [s]
    else if s[0] == ',' && s[1] == ' ' then [""] + SplitOnSeparator(s[2..])
    else
      var rest := SplitOnSeparator(s[1..]);
      [[s[0]] + rest[0]] + rest[1..]
  }

  lemma {:induction false} SplitWithoutSeparator(x: string)
    requires NoSeparator(x)
    ensures SplitOnSeparator(x) == [x]
  {
    if |x| >= 2 {
      assert NoSeparator(x[1..]) by {
        forall i | 0 <= i < |x[1..]| - 1 ensures !(x[1..][i] == ',' && x[1..][i + 1] == ' ') {
          assert x[1..][i] == x[i + 1] && x[1..][i + 1] == x[i + 2];
        }
      }
      SplitWithoutSeparator(x[1..]);
      assert [x[0]] + x[1..] == x;
    }
  }

  lemma {:induction false} SplitAfterItem(x: string, r: string)
    requires NoSeparator(x)
    ensures SplitOnSeparator(x + ListSeparator + r) == [x] + SplitOnSeparator(r)
  {
    var s := x + ListSeparator + r;
    if x == [] {
      assert s[2..] == r;
    } else {
      assert |s| >= 2;
      assert !(s[0] == ',' && s[1] == ' ') by {
        if |x| >= 2 { assert s[0] == x[0] && s[1] == x[1]; } else { assert s[1] == ','; }
      }
      assert NoSeparator(x[1..]) by {
        forall i | 0 <= i < |x[1..]| - 1 ensures !(x[1..][i] == ',' && x[1..][i + 1] == ' ') {
          assert x[1..][i] == x[i + 1] && x[1..][i + 1] == x[i + 2];
        }
      }
      assert s[1..] == x[1..] + ListSeparator + r;
      SplitAfterItem(x[1..], r);
      assert [x[0]] + x[1..] == x;
    }
  }

  /**
    Splitting the joined list at ", " gives the list back, as long as no item itself
    contains ", ".
   */
  lemma {:induction false} SplitJoin(xs: seq<string>)
    requires |xs| > 0
    requires forall i :: 0 <= i < |xs| ==> NoSeparator(xs[i])
    ensures SplitOnSeparator(Join(ListSeparator, xs)) == xs
  {
    if |xs| == 1 {
      SplitWithoutSeparator(xs[0]);
    } else {
      SplitJoin(xs[1..]);
      SplitAfterItem(xs[0], Join(ListSeparator, xs[1..]));
      assert [xs[0]] + xs[1..] == xs;
    }
  }

  // ---------------------------------------------------------------------------
  // os.path.basename and str.split(c, 1)
  // ---------------------------------------------------------------------------

  /** POSIX `os.path.basename(p)`: what follows the last '/'. */
  function Basename(p: string): string {
    if p == [] || p[|p| - 1] == '/' then []
    else Basename(p[..|p| - 1]) + [p[|p| - 1]]
  }

  /** The basename is the longest suffix of the path that holds no '/'. */
  lemma {:induction false} BasenameIsLastComponent(p: string)
    ensures var r := Basename(p);
      && '/' !in r
      && |r| <= |p| && r == p[|p| - |r|..]
      && (|r| < |p| ==> p[|p| - |r| - 1] == '/')
  {
    if p != [] && p[|p| - 1] != '/' {
      var q := p[..|p| - 1];
      BasenameIsLastComponent(q);
      var r := Basename(q);
      assert Basename(p) == r + [p[|p| - 1]];
      assert q[|q| - |r|..] + [p[|p| - 1]] == p[|p| - |r| - 1..];
      if |r| < |q| {
        assert q[|q| - |r| - 1] == p[|p| - |r| - 2];
      }
    }
  }

  /**
    `head, tail = s.split(c, 1)`: the parts before and after the first `c`;
    `None` stands for the `ValueError` the unpacking raises when `c` does not occur.
   */
  function SplitAtFirst(s: string, c: char): Option<(string, string)> {
    if s == [] then None
    else if s[0] == c then Some(([], s[1..]))
    else match SplitAtFirst(s[1..], c)
      case None => None
      case Some((head, tail)) => Some(([s[0]] + head, tail))
  }

  /** The split succeeds exactly when `c` occurs, and then cuts at its first occurrence. */
  lemma {:induction false} SplitAtFirstCharacterized(s: string, c: char)
    ensures SplitAtFirst(s, c).Some? <==> c in s
    ensures SplitAtFirst(s, c).Some? ==>
      var (head, tail) := SplitAtFirst(s, c).value;
      c !in head && s == head + [c] + tail
  {
    if s != [] && s[0] != c {
      SplitAtFirstCharacterized(s[1..], c);
      assert c in s <==> c in s[1..] by {
        assert s == [s[0]] + s[1..];
      }
      if SplitAtFirst(s[1..], c).Some? {
        var (head, tail) := SplitAtFirst(s[1..], c).value;
        assert s == [s[0]] + head + [c] + tail;
      }
    }
  }

  /** Splitting `a + [c] + b` at the first `c` gives back `a` and `b` when `a` holds no `c`. */
  lemma {:induction false} SplitAtFirstOfJoined(a: string, c: char, b: string)
    requires c !in a
    ensures SplitAtFirst(a + [c] + b, c) == Some((a, b))
  {
    if a == [] {
      assert a + [c] + b == [c] + b;
    } else {
      assert (a + [c] + b)[1..] == a[1..] + [c] + b;
      SplitAtFirstOfJoined(a[1..], c, b);
      assert [a[0]] + a[1..] == a;
    }
  }
}
