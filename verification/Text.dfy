/** The string operations the program's identifiers depend on: decimal rendering,
    zero padding, splitting and joining on a separator, and `rsplit("-r", 1)`. */
module Text {
  import opened Wrappers

  // ---------------------------------------------------------------- decimals

  function Digit(d: nat): (c: char)
    requires d < 10
    ensures '0' <= c <= '9'
  {
    ('0' as int + d) as char
  }

  /** `str(n)` for a non-negative integer. */
  function Decimal(n: nat): (s: string)
    ensures |s| > 0
    ensures forall i | 0 <= i < |s| :: '0' <= s[i] <= '9'
  {
    if n < 10 then [Digit(n)] else Decimal(n / 10) + [Digit(n % 10)]
  }

  /** The number a digit string denotes: the inverse of `Decimal` and of padding. */
  function ValueOf(s: string): int {
    if s == [] then 0 else 10 * ValueOf(s[..|s| - 1]) + (s[|s| - 1] as int - '0' as int)
  }

  lemma {:induction false} ValueOfDecimal(n: nat)
    ensures ValueOf(Decimal(n)) == n
  {
    if n >= 10 {
      ValueOfDecimal(n / 10);
      assert Decimal(n)[..|Decimal(n)| - 1] == Decimal(n / 10);
    }
  }

  lemma {:induction false} DecimalInjective(a: nat, b: nat)
    requires Decimal(a) == Decimal(b)
    ensures a == b
  {
    ValueOfDecimal(a);
    ValueOfDecimal(b);
  }

  function Zeros(n: nat): string {
    seq(n, _ => '0')
  }

  /** `"{:0<width>d}".format(n)`: never truncated, so wide numbers overflow the width. */
  function Padded(width: nat, n: nat): string {
    var digits := Decimal(n);
    if |digits| < width then Zeros(width - |digits|) + digits else digits
  }

  lemma {:induction false} ValueOfPrefixedZeros(k: nat, s: string)
    ensures ValueOf(Zeros(k) + s) == ValueOf(s)
  {
    var t := Zeros(k) + s;
    if s == [] {
      if k > 0 {
        assert t[..|t| - 1] == Zeros(k - 1) + s;
        ValueOfPrefixedZeros(k - 1, s);
      }
    } else {
      assert t[..|t| - 1] == Zeros(k) + s[..|s| - 1];
      ValueOfPrefixedZeros(k, s[..|s| - 1]);
    }
  }

  /** Reading a padded number back gives the number, whatever the width. */
  lemma {:induction false} PaddedRoundTrip(width: nat, n: nat)
    ensures ValueOf(Padded(width, n)) == n
  {
    hide Decimal, ValueOf, Zeros;
    ValueOfDecimal(n);
    var digits := Decimal(n);
    if |digits| < width {
      ValueOfPrefixedZeros(width - |digits|, digits);
    }
  }

  // ------------------------------------------------------------- split / join

  /** `s.split(c)`. */
  function Split(s: string, c: char): (parts: seq<string>)
    ensures |parts| > 0
  {
    if s == [] then [[]]
    else
      var rest := Split(s[1..], c);
      if s[0] == c then [[]] + rest else [[s[0]] + rest[0]] + rest[1..]
  }

  /** `c.join(parts)`. */
  function Join(parts: seq<string>, c: char): string
    requires |parts| > 0
  {
    if |parts| == 1 then parts[0] else parts[0] + [c] + Join(parts[1..], c)
  }

  lemma {:induction false} SplitSegments(s: string, c: char)
    ensures forall i | 0 <= i < |Split(s, c)| :: c !in Split(s, c)[i]
  {
    if s != [] {
      SplitSegments(s[1..], c);
    }
  }

  lemma {:induction false} JoinSplit(s: string, c: char)
    ensures Join(Split(s, c), c) == s
  {
    if s != [] {
      JoinSplit(s[1..], c);
      var rest := Split(s[1..], c);
      if s[0] == c {
        assert ([[]] + rest)[1..] == rest;
      } else {
        assert ([[s[0]] + rest[0]] + rest[1..])[1..] == rest[1..];
      }
    }
  }

  lemma {:induction false} SplitPlain(s: string, c: char)
    requires c !in s
    ensures Split(s, c) == [s]
  {
    if s != [] {
      SplitPlain(s[1..], c);
      assert [s[0]] + s[1..] == s;
    }
  }

  lemma {:induction false} SplitAtSeparator(a: string, b: string, c: char)
    requires c !in a
    ensures Split(a + [c] + b, c) == [a] + Split(b, c)
  {
    var s := a + [c] + b;
    if a == [] {
      assert s[1..] == b;
    } else {
      assert s[1..] == a[1..] + [c] + b;
      SplitAtSeparator(a[1..], b, c);
      assert [a[0]] + a[1..] == a;
    }
  }

  lemma {:induction false} SplitJoin(parts: seq<string>, c: char)
    requires |parts| > 0
    requires forall i | 0 <= i < |parts| :: c !in parts[i]
    ensures Split(Join(parts, c), c) == parts
  {
    if |parts| == 1 {
      SplitPlain(parts[0], c);
    } else {
      SplitAtSeparator(parts[0], Join(parts[1..], c), c);
      SplitJoin(parts[1..], c);
    }
  }

  // ------------------------------------------------------------------- rsplit

  /** `s[..end].rsplit("-r", 1)[0]`: everything before the last marker, or all of it. */
  function BeforeLastMarker(s: string, end: nat): string
    requires end <= |s|
  {
    if end < 2 then s
    else if s[end - 2] == '-' && s[end - 1] == 'r' then s[..end - 2]
    else BeforeLastMarker(s, end - 1)
  }

  /** `s.rsplit("-r", 1)[0]`. */
  function RSplitHead(s: string): string {
    BeforeLastMarker(s, |s|)
  }

  lemma {:induction false} MarkerIsLast(a: string, digits: string, end: nat)
    requires forall i | 0 <= i < |digits| :: '0' <= digits[i] <= '9'
    requires |a| + 2 <= end <= |a| + 2 + |digits|
    ensures BeforeLastMarker(a + "-r" + digits, end) == a
    decreases end
  {
    var s := a + "-r" + digits;
    if end == |a| + 2 {
      assert s[end - 2] == '-' && s[end - 1] == 'r';
      assert s[..|a|] == a;
    } else {
      assert s[end - 1] == digits[end - |a| - 3];
      MarkerIsLast(a, digits, end - 1);
    }
  }
}
