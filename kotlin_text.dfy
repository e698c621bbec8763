/** The parts of Kotlin's `Int` and `String` library that the app relies on:
    `Int.toString()`, `String.toIntOrNull()`, `padStart`, `isWhitespace`,
    `trim`, `isBlank`, `lowercase`, `contains`, `compareTo` and
    `joinToString`. */
module KotlinText {
  import opened Wrappers

  /** Kotlin's `Int`: a 32-bit two's-complement integer. */
  type Int32 = x: int | -0x8000_0000 <= x < 0x8000_0000

  /** `Int` arithmetic wraps around modulo 2^32. */
  function Wrap32(x: int): (r: Int32)
    ensures -0x8000_0000 <= x < 0x8000_0000 ==> r == x
    ensures (r - x) % 0x1_0000_0000 == 0
  {
    var m := x % 0x1_0000_0000;
    if m < 0x8000_0000 then m else m - 0x1_0000_0000
  }

  // ---------------------------------------------------------------------
  // Decimal digits: Int.toString() and String.toIntOrNull()
  // ---------------------------------------------------------------------

  predicate IsDigit(c: char) { '0' <= c <= '9' }

  predicate AllDigits(s: string) { forall i :: 0 <= i < |s| ==> IsDigit(s[i]) }

  function DigitChar(d: nat): (c: char)
    requires d < 10
    ensures IsDigit(c) && DigitValue(c) == d
  {
    ('0' as int + d) as char
  }

  /** The decimal digits of `n`, without leading zeros. */
  function NatToString(n: nat): (s: string)
    ensures |s| >= 1 && AllDigits(s)
  {
    if n < 10 then [DigitChar(n)] else NatToString(n / 10) + [DigitChar(n % 10)]
  }

  /** `Int.toString()`: a minus sign for negative values, then the digits. */
  function IntToString(v: int): string {
    if v < 0 then "-" + NatToString(-v) else NatToString(v)
  }

  function DigitValue(c: char): nat
    requires IsDigit(c)
  {
    c as int - '0' as int
  }

  /** The value of a string of decimal digits (leading zeros allowed). */
  function DigitsValue(s: string): nat
    requires AllDigits(s)
  {
    if s == [] then 0 else DigitsValue(s[..|s| - 1]) * 10 + DigitValue(s[|s| - 1])
  }

  /** What `toIntOrNull` reads before its range check: an optional `+` or
      `-`, then one or more decimal digits. */
  function SignedValue(s: string): Option<int> {
    if |s| == 0 then None
    else if s[0] == '-' || s[0] == '+' then
      if |s| == 1 || !AllDigits(s[1..]) then None
      else if s[0] == '-' then Some(-(DigitsValue(s[1..]) as int))
      else Some(DigitsValue(s[1..]))
    else if AllDigits(s) then Some(DigitsValue(s))
    else None
  }

  /** `String.toIntOrNull()`: null unless the text is a signed decimal whose
      value fits in an `Int`. */
  function ToIntOrNull(s: string): (r: Option<Int32>)
    ensures r.Some? <==> SignedValue(s).Some? && -0x8000_0000 <= SignedValue(s).value < 0x8000_0000
    ensures r.Some? ==> r.value == SignedValue(s).value
    ensures r.Some? ==> |s| >= 1
  {
    match SignedValue(s)
    case Some(v) => if -0x8000_0000 <= v < 0x8000_0000 then Some(v) else None
    case None => None
  }

  function Pow10(k: nat): (p: nat)
    ensures p >= 1
  {
    if k == 0 then 1 else 10 * Pow10(k - 1)
  }

  lemma {:induction false} NatToStringValue(n: nat)
    ensures DigitsValue(NatToString(n)) == n
  {
    if n >= 10 {
      var s := NatToString(n);
      assert s[..|s| - 1] == NatToString(n / 10);
      NatToStringValue(n / 10);
    }
  }

  /** `toString` followed by the digit reader gives the value back, for any
      integer. */
  lemma SignedValueOfIntToString(v: int)
    ensures SignedValue(IntToString(v)) == Some(v)
  {
    var s := IntToString(v);
    if v < 0 {
      assert s[1..] == NatToString(-v);
      NatToStringValue(-v);
    } else {
      NatToStringValue(v);
    }
  }

  /** `v.toString().toIntOrNull() == v` for every `Int`. */
  lemma IntToStringRoundTrip(v: Int32)
    ensures ToIntOrNull(IntToString(v)) == Some(v)
  {
    SignedValueOfIntToString(v);
  }

  lemma IntToStringInjective(a: int, b: int)
    requires IntToString(a) == IntToString(b)
    ensures a == b
  {
    SignedValueOfIntToString(a);
    SignedValueOfIntToString(b);
  }

  lemma {:induction false} NatToStringLeadingDigit(n: nat)
    requires n >= 1
    ensures NatToString(n)[0] != '0'
  {
    if n >= 10 {
      NatToStringLeadingDigit(n / 10);
    }
  }

  lemma {:induction false} DigitsValueBound(s: string)
    requires AllDigits(s)
    ensures DigitsValue(s) < Pow10(|s|)
  {
    if s != [] {
      var p := s[..|s| - 1];
      DigitsValueBound(p);
      assert DigitsValue(p) + 1 <= Pow10(|p|);
      assert (DigitsValue(p) + 1) * 10 <= Pow10(|p|) * 10;
    }
  }

  lemma {:induction false} NatToStringLength(n: nat, k: nat)
    requires 1 <= k && n < Pow10(k)
    ensures |NatToString(n)| <= k
  {
    if n >= 10 {
      assert Pow10(1) == 10;
      assert k >= 2;
      assert n / 10 < Pow10(k - 1);
      NatToStringLength(n / 10, k - 1);
    }
  }

  lemma {:induction false} NatToStringMonotone(a: nat, b: nat)
    requires a <= b
    ensures |NatToString(a)| <= |NatToString(b)|
  {
    if a >= 10 {
      NatToStringMonotone(a / 10, b / 10);
    }
  }

  /** A text that parses has at least as many characters as the canonical
      `toString` of its value: parsing drops a `+`, leading zeros and the
      sign of `-0`, and adds nothing. */
  lemma ParsedTextIsNoShorter(s: string)
    requires SignedValue(s).Some?
    ensures |IntToString(SignedValue(s).value)| <= |s|
  {
    if s[0] == '-' || s[0] == '+' {
      var body := s[1..];
      DigitsValueBound(body);
      NatToStringLength(DigitsValue(body), |body|);
    } else {
      DigitsValueBound(s);
      NatToStringLength(DigitsValue(s), |s|);
    }
  }

  // ---------------------------------------------------------------------
  // Padding
  // ---------------------------------------------------------------------

  function Repeat(c: char, n: nat): (s: string)
    ensures |s| == n && forall i :: 0 <= i < n ==> s[i] == c
  {
    if n == 0 then [] else [c] + Repeat(c, n - 1)
  }

  /** `padStart(length, padChar)`: the text itself when it is already long
      enough, otherwise the text preceded by enough `padChar`s. */
  function PadStart(s: string, length: nat, padChar: char): (r: string)
    ensures |r| == if length <= |s| then |s| else length
    ensures r[|r| - |s|..] == s
    ensures forall i :: 0 <= i < |r| - |s| ==> r[i] == padChar
  {
    if length <= |s| then s else Repeat(padChar, length - |s|) + s
  }

  lemma {:induction false} ZerosValue(k: nat)
    ensures AllDigits(Repeat('0', k)) && DigitsValue(Repeat('0', k)) == 0
  {
    if k > 0 {
      var z := Repeat('0', k);
      assert z[..k - 1] == Repeat('0', k - 1);
      ZerosValue(k - 1);
    }
  }

  /** Leading zeros do not change the value of a digit string. */
  lemma {:induction false} LeadingZerosValue(k: nat, s: string)
    requires AllDigits(s)
    ensures AllDigits(Repeat('0', k) + s)
    ensures DigitsValue(Repeat('0', k) + s) == DigitsValue(s)
    decreases |s|
  {
    var z := Repeat('0', k);
    if s == [] {
      assert z + s == z;
      ZerosValue(k);
    } else {
      var t := z + s;
      assert t[..|t| - 1] == z + s[..|s| - 1];
      LeadingZerosValue(k, s[..|s| - 1]);
    }
  }

  // ---------------------------------------------------------------------
  // Whitespace, trim, isBlank, lowercase, contains
  // ---------------------------------------------------------------------

  /** Kotlin's `Char.isWhitespace()` on the JVM: the characters Java calls
      whitespace or space characters. */
  predicate IsWhitespace(c: char) {
    c == ' ' || '\t' <= c <= '\r' || '\U{1C}' <= c <= '\U{1F}' || c == '\U{A0}'
    || c == '\U{1680}' || '\U{2000}' <= c <= '\U{200A}' || c == '\U{2028}'
    || c == '\U{2029}' || c == '\U{202F}' || c == '\U{205F}' || c == '\U{3000}'
  }

  /** `isBlank()`: empty, or whitespace only. */
  predicate IsBlank(s: string) { forall i :: 0 <= i < |s| ==> IsWhitespace(s[i]) }

  function TrimStart(s: string): (r: string)
    ensures |r| <= |s| && r == s[|s| - |r|..]
    ensures r != [] ==> !IsWhitespace(r[0])
    ensures forall i :: 0 <= i < |s| - |r| ==> IsWhitespace(s[i])
  {
    if s != [] && IsWhitespace(s[0]) then TrimStart(s[1..]) else s
  }

  function TrimEnd(s: string): (r: string)
    ensures |r| <= |s| && r == s[..|r|]
    ensures r != [] ==> !IsWhitespace(r[|r| - 1])
    ensures forall i :: |r| <= i < |s| ==> IsWhitespace(s[i])
  {
    if s != [] && IsWhitespace(s[|s| - 1]) then TrimEnd(s[..|s| - 1]) else s
  }

  /** `trim()`: drops whitespace at both ends. */
  function Trim(s: string): string {
    TrimEnd(TrimStart(s))
  }

  /** `trim()` leaves a slice of its input ... */
  lemma TrimIsSlice(s: string)
    ensures var lo, r := |s| - |TrimStart(s)|, Trim(s);
      lo + |r| <= |s| && r == s[lo..lo + |r|]
  {
    var a := TrimStart(s);
    var r := TrimEnd(a);
    var lo := |s| - |a|;
    assert a == s[lo..] && r == a[..|r|];
    SliceOfSuffix(s, lo, |r|);
  }

  lemma SliceOfSuffix(s: string, lo: nat, n: nat)
    requires lo + n <= |s|
    ensures s[lo..][..n] == s[lo..lo + n]
  {
  }

  /** ... after removing only whitespace at either end ... */
  lemma TrimRemovesWhitespace(s: string)
    ensures var lo, r := |s| - |TrimStart(s)|, Trim(s);
      lo + |r| <= |s| && IsBlank(s[..lo]) && IsBlank(s[lo + |r|..])
  {
    var a := TrimStart(s);
    var r := TrimEnd(a);
    var lo := |s| - |a|;
    assert a == s[lo..];
    var tail := s[lo + |r|..];
    forall i | 0 <= i < |tail| ensures IsWhitespace(tail[i]) {
      assert tail[i] == a[|r| + i];
    }
  }

  /** ... and neither starts nor ends with whitespace. */
  lemma TrimmedEnds(s: string)
    ensures var r := Trim(s); r != [] ==> !IsWhitespace(r[0]) && !IsWhitespace(r[|r| - 1])
  {
    var a := TrimStart(s);
    var r := TrimEnd(a);
    if r != [] {
      assert r[0] == a[0];
    }
  }

  /** `isBlank()` exactly when `trim()` leaves nothing. */
  lemma BlankIffTrimmedEmpty(s: string)
    ensures IsBlank(s) <==> Trim(s) == []
  {
    if Trim(s) == [] {
      assert TrimStart(s) == [];
    }
  }

  /** `lowercase()` restricted to ASCII and Latin-1 letters. */
  function LowerChar(c: char): char {
    if 'A' <= c <= 'Z' || ('\U{C0}' <= c <= '\U{DE}' && c != '\U{D7}') then (c as int + 32) as char else c
  }

  function Lowercase(s: string): (r: string)
    ensures |r| == |s| && forall i :: 0 <= i < |s| ==> r[i] == LowerChar(s[i])
  {
    seq(|s|, i requires 0 <= i < |s| => LowerChar(s[i]))
  }

  /** Lower-casing never makes or unmakes whitespace ... */
  lemma LowerCharWhitespace(c: char)
    ensures IsWhitespace(LowerChar(c)) <==> IsWhitespace(c)
  {
  }

  lemma {:induction false} TrimStartLowercase(s: string)
    ensures TrimStart(Lowercase(s)) == Lowercase(TrimStart(s))
  {
    if s != [] {
      LowerCharWhitespace(s[0]);
      if IsWhitespace(s[0]) {
        assert Lowercase(s)[1..] == Lowercase(s[1..]);
        TrimStartLowercase(s[1..]);
      }
    }
  }

  lemma {:induction false} TrimEndLowercase(s: string)
    ensures TrimEnd(Lowercase(s)) == Lowercase(TrimEnd(s))
  {
    if s != [] {
      LowerCharWhitespace(s[|s| - 1]);
      if IsWhitespace(s[|s| - 1]) {
        assert Lowercase(s)[..|s| - 1] == Lowercase(s[..|s| - 1]);
        TrimEndLowercase(s[..|s| - 1]);
      }
    }
  }

  /** ... so `lowercase().trim()` and `trim().lowercase()` agree. */
  lemma TrimLowercaseCommute(s: string)
    ensures Trim(Lowercase(s)) == Lowercase(Trim(s))
  {
    TrimStartLowercase(s);
    TrimEndLowercase(TrimStart(s));
  }

  predicate StartsWith(s: string, prefix: string) {
    |prefix| <= |s| && s[..|prefix|] == prefix
  }

  /** `contains(other)`: `other` occurs somewhere in `s`. */
  predicate Contains(s: string, other: string)
    decreases |s|
  {
    StartsWith(s, other) || (s != [] && Contains(s[1..], other))
  }

  /** `contains(other, ignoreCase = true)`. */
  predicate ContainsIgnoreCase(s: string, other: string) {
    Contains(Lowercase(s), Lowercase(other))
  }

  /** `other` occurs in `s` at index `lo`. */
  predicate OccursAt(s: string, other: string, lo: int) {
    0 <= lo && lo + |other| <= |s| && s[lo..lo + |other|] == other
  }

  /** `contains` is the substring relation. */
  lemma {:induction false} ContainsIffOccurs(s: string, other: string)
    ensures Contains(s, other) <==> exists lo :: OccursAt(s, other, lo)
    decreases |s|
  {
    if StartsWith(s, other) {
      assert OccursAt(s, other, 0);
    }
    if s != [] {
      ContainsIffOccurs(s[1..], other);
      if exists lo :: OccursAt(s, other, lo) {
        var lo :| OccursAt(s, other, lo);
        if lo > 0 {
          assert OccursAt(s[1..], other, lo - 1);
        }
      }
      if Contains(s[1..], other) {
        var lo :| OccursAt(s[1..], other, lo);
        assert OccursAt(s, other, lo + 1);
      }
    } else {
      if exists lo :: OccursAt(s, other, lo) {
        assert other == [];
      }
    }
  }

  // ---------------------------------------------------------------------
  // String.compareTo and joinToString
  // ---------------------------------------------------------------------

  /** `a.compareTo(b) <= 0`: lexicographic order, a proper prefix first. */
  predicate NotAfter(a: string, b: string)
    decreases |a|
  {
    a == [] || (b != [] && (a[0] < b[0] || (a[0] == b[0] && NotAfter(a[1..], b[1..]))))
  }

  lemma {:induction false} NotAfterTotal(a: string, b: string)
    ensures NotAfter(a, b) || NotAfter(b, a)
    decreases |a|
  {
    if a != [] && b != [] && a[0] == b[0] {
      NotAfterTotal(a[1..], b[1..]);
    }
  }

  lemma {:induction false} NotAfterTransitive(a: string, b: string, c: string)
    requires NotAfter(a, b) && NotAfter(b, c)
    ensures NotAfter(a, c)
    decreases |a|
  {
    if a != [] && a[0] == b[0] && b[0] == c[0] {
      NotAfterTransitive(a[1..], b[1..], c[1..]);
    }
  }

  lemma {:induction false} NotAfterAntisymmetric(a: string, b: string)
    requires NotAfter(a, b) && NotAfter(b, a)
    ensures a == b
    decreases |a|
  {
    if a != [] {
      NotAfterAntisymmetric(a[1..], b[1..]);
      assert a == [a[0]] + a[1..];
      assert b == [b[0]] + b[1..];
    }
  }

  /** `joinToString(separator)`. */
  function JoinToString(parts: seq<string>, separator: string): string {
    if parts == [] then ""
    else if |parts| == 1 then parts[0]
    else parts[0] + separator + JoinToString(parts[1..], separator)
  }

  /** Appending a part adds the separator and that part at the end: the
      parts are joined in list order. */
  lemma {:induction false} JoinToStringSnoc(parts: seq<string>, separator: string, p: string)
    requires parts != []
    ensures JoinToString(parts + [p], separator) == JoinToString(parts, separator) + separator + p
  {
    var q := parts + [p];
    if |parts| > 1 {
      assert q[1..] == parts[1..] + [p];
      JoinToStringSnoc(parts[1..], separator, p);
    }
  }

  function TotalLength(parts: seq<string>): nat {
    if parts == [] then 0 else |parts[0]| + TotalLength(parts[1..])
  }

  /** The joined text holds every part once and one separator between each
      two neighbours. */
  lemma {:induction false} JoinToStringLength(parts: seq<string>, separator: string)
    requires parts != []
    ensures |JoinToString(parts, separator)| == TotalLength(parts) + |separator| * (|parts| - 1)
    ensures StartsWith(JoinToString(parts, separator), parts[0])
  {
    var r := JoinToString(parts, separator);
    if |parts| > 1 {
      JoinToStringLength(parts[1..], separator);
      assert r[..|parts[0]|] == parts[0];
    }
  }

  /** Every part occurs in the joined text. */
  lemma {:induction false} JoinToStringContains(parts: seq<string>, separator: string, i: nat)
    requires i < |parts|
    ensures Contains(JoinToString(parts, separator), parts[i])
  {
    var r := JoinToString(parts, separator);
    if i == 0 {
      JoinToStringLength(parts, separator);
    } else {
      var rest := JoinToString(parts[1..], separator);
      JoinToStringContains(parts[1..], separator, i - 1);
      ContainsIffOccurs(rest, parts[i]);
      var lo :| OccursAt(rest, parts[i], lo);
      var head := parts[0] + separator;
      assert r == head + rest;
      assert r[|head| + lo..|head| + lo + |parts[i]|] == rest[lo..lo + |parts[i]|];
      assert OccursAt(r, parts[i], |head| + lo);
      ContainsIffOccurs(r, parts[i]);
    }
  }
}
