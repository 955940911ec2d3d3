/** Text helpers shared by the models: optional values, decimal numerals as the Redis
    client writes them and `fmt.Sscanf("%d")` reads them, and white space. */
module Text {

  datatype Option<+T> = None | Some(value: T)

  function Digit(d: nat): (c: char)
    requires d < 10
    ensures '0' <= c <= '9' && DigitValue(c) == d
  {
    '0' + d as char
  }

  predicate IsDigit(c: char) { '0' <= c <= '9' }

  predicate AllDigits(s: string) { forall i :: 0 <= i < |s| ==> IsDigit(s[i]) }

  function DigitValue(c: char): (d: nat)
    requires IsDigit(c)
    ensures d < 10
  {
    c as int - '0' as int
  }

  /** The value of a run of decimal digits. */
  function Value(s: string): nat
    requires AllDigits(s)
  {
    if s == [] then 0 else 10 * Value(s[..|s| - 1]) + DigitValue(s[|s| - 1])
  }

  function FormatNat(n: nat): (s: string)
    ensures s != [] && AllDigits(s)
    ensures Value(s) == n
  {
    if n < 10 then [Digit(n)]
    else
      var s := FormatNat(n / 10) + [Digit(n % 10)];
      assert s[..|s| - 1] == FormatNat(n / 10);
      s
  }

  function FormatInt(n: int): string {
    if n < 0 then "-" + FormatNat(-n) else FormatNat(n)
  }

  /** The longest leading run of digits. */
  function DigitRun(s: string): (r: string)
    ensures r <= s && AllDigits(r)
    ensures |r| < |s| ==> !IsDigit(s[|r|])
  {
    if s == [] || !IsDigit(s[0]) then [] else [s[0]] + DigitRun(s[1..])
  }

  function SkipBlanks(s: string): string {
    if s != [] && (s[0] == ' ' || s[0] == '\t') then SkipBlanks(s[1..]) else s
  }

  const INT64_MIN := -0x8000_0000_0000_0000
  const INT64_MAX := 0x7fff_ffff_ffff_ffff

  type Int64 = n: int | INT64_MIN <= n <= INT64_MAX

  function InInt64(n: int): Option<Int64> {
    if INT64_MIN <= n <= INT64_MAX then Some(n) else None
  }

  /** `fmt.Sscanf(s, "%d", &n)`: leading blanks, an optional sign, digits; text
      after the digits is ignored; no digits, or a value outside 64 bits, is an
      error and leaves the variable alone. */
  function ScanInt(s: string): Option<Int64> {
    var t := SkipBlanks(s);
    var negative := t != [] && t[0] == '-';
    var body := if t != [] && (t[0] == '-' || t[0] == '+') then t[1..] else t;
    var digits := DigitRun(body);
    if digits == [] then None
    else
      var magnitude: int := Value(digits);
      InInt64(if negative then -magnitude else magnitude)
  }

  lemma {:induction false} DigitRunAll(s: string)
    requires AllDigits(s)
    ensures DigitRun(s) == s
  {
    if s != [] {
      DigitRunAll(s[1..]);
      assert s == [s[0]] + s[1..];
    }
  }

  /** Every 64-bit integer survives being stored as text and scanned back. */
  lemma ScanFormatted(n: Int64)
    ensures ScanInt(FormatInt(n)) == Some(n)
  {
    hide Value;
    var m: int := n;
    var s := FormatInt(m);
    assert SkipBlanks(s) == s;
    if m < 0 {
      assert s[1..] == FormatNat(-m);
      DigitRunAll(s[1..]);
    } else {
      assert IsDigit(s[0]);
      DigitRunAll(s);
    }
  }

  /** unicode.IsSpace. */
  predicate IsSpace(c: char) {
    c == ' ' || '\t' <= c <= '\r' || c == 0x85 as char || c == 0xa0 as char || c == 0x1680 as char
    || 0x2000 as char <= c <= 0x200a as char || c == 0x2028 as char || c == 0x2029 as char
    || c == 0x202f as char || c == 0x205f as char || c == 0x3000 as char
  }

  predicate Blank(s: string) { forall i :: 0 <= i < |s| ==> IsSpace(s[i]) }

  /** `v` occurs in `s` as one contiguous piece. */
  ghost predicate Piece(v: string, s: string) {
    exists a, b :: 0 <= a <= b <= |s| && v == s[a..b]
  }

  function TrimSpace(s: string): (t: string)
    ensures Piece(t, s) && (t == "" <==> Blank(s))
  {
    if s == "" then assert s == s[0..0]; ""
    else if IsSpace(s[0]) then
      var t := TrimSpace(s[1..]);
      PieceOfTail(t, s, 1);
      assert forall i :: 1 <= i < |s| ==> s[i] == s[1..][i - 1];
      t
    else if IsSpace(s[|s| - 1]) then
      var t := TrimSpace(s[..|s| - 1]);
      PieceOfFront(t, s, |s| - 1);
      assert !Blank(s[..|s| - 1]) by { assert !IsSpace(s[..|s| - 1][0]); }
      t
    else assert s == s[0..|s|]; s
  }

  /** White space up to `a` and from `b` on, and none next to those cuts in between. */
  predicate Tight(s: string, a: nat, b: nat) {
    && a <= b <= |s| && (a < b ==> !IsSpace(s[a]) && !IsSpace(s[b - 1]))
    && (forall i :: 0 <= i < |s| && !(a <= i < b) ==> IsSpace(s[i]))
  }

  /** `t` is `s` without the white space at its two ends. */
  ghost predicate Trims(t: string, s: string) {
    exists a: nat, b: nat :: Tight(s, a, b) && t == s[a..b]
  }

  lemma {:induction false} TrimmedAt(s: string) returns (a: nat, b: nat)
    ensures Tight(s, a, b) && TrimSpace(s) == s[a..b]
  {
    hide IsSpace, Piece, Blank;
    if s == "" || (!IsSpace(s[0]) && !IsSpace(s[|s| - 1])) {
      a, b := 0, |s|;
    } else if IsSpace(s[0]) {
      a, b := TrimmedAt(s[1..]);
      a, b := a + 1, b + 1;
      assert s[a..b] == s[1..][a - 1..b - 1];
      assert forall i :: 1 <= i < |s| ==> s[i] == s[1..][i - 1];
    } else {
      a, b := TrimmedAt(s[..|s| - 1]);
      assert s[a..b] == s[..|s| - 1][a..b];
    }
  }

  lemma Trimmed(s: string)
    ensures Trims(TrimSpace(s), s)
  {
    hide TrimSpace, Tight;
    var a, b := TrimmedAt(s);
  }

  lemma PieceOfTail(v: string, s: string, n: nat)
    requires n <= |s| && Piece(v, s[n..])
    ensures Piece(v, s)
  {
    var a, b :| 0 <= a <= b <= |s[n..]| && v == s[n..][a..b];
    assert v == s[n + a..n + b];
  }

  lemma PieceOfFront(v: string, s: string, n: nat)
    requires n <= |s| && Piece(v, s[..n])
    ensures Piece(v, s)
  {
    var a, b :| 0 <= a <= b <= |s[..n]| && v == s[..n][a..b];
    assert v == s[a..b];
  }

  lemma PieceOfSlice(v: string, s: string, m: nat, n: nat)
    requires m <= n <= |s| && Piece(v, s[m..n])
    ensures Piece(v, s)
  {
    assert s[m..n] == s[m..][..n - m];
    PieceOfFront(v, s[m..], n - m);
    PieceOfTail(v, s, m);
  }
}
