/** String helpers shared by the model: ASCII case mapping (the behaviour of
    `boost::to_upper`, `boost::to_lower` and `beast::iequals` in the "C"
    locale), searching, and decimal rendering as `operator<<` and
    `boost::format` produce it for integers. */
module Text {
  import opened Wrappers

  // ---------------------------------------------------------------------------
  // ASCII case

  predicate IsUpperAscii(c: char) {
    'A' <= c <= 'Z'
  }

  predicate IsLowerAscii(c: char) {
    'a' <= c <= 'z'
  }

  function LowerChar(c: char): char {
    if IsUpperAscii(c) then (c as int + 32) as char else c
  }

  function UpperChar(c: char): char {
    if IsLowerAscii(c) then (c as int - 32) as char else c
  }

  function ToLower(s: string): (r: string)
    ensures |r| == |s|
    ensures forall i :: 0 <= i < |s| ==> r[i] == LowerChar(s[i])
  {
    seq(|s|, i requires 0 <= i < |s| => LowerChar(s[i]))
  }

  function ToUpper(s: string): (r: string)
    ensures |r| == |s|
    ensures forall i :: 0 <= i < |s| ==> r[i] == UpperChar(s[i])
  {
    seq(|s|, i requires 0 <= i < |s| => UpperChar(s[i]))
  }

  /** Case-insensitive equality of two strings, ASCII letters only. */
  predicate IEquals(a: string, b: string) {
    ToLower(a) == ToLower(b)
  }

  /** No lower-case ASCII letter occurs in `s`. */
  predicate NoLowerAscii(s: string) {
    forall i :: 0 <= i < |s| ==> !IsLowerAscii(s[i])
  }

  /** No upper-case ASCII letter occurs in `s`. */
  predicate NoUpperAscii(s: string) {
    forall i :: 0 <= i < |s| ==> !IsUpperAscii(s[i])
  }

  /** Lowering a string without upper-case letters leaves it as it is. */
  lemma ToLowerOfNoUpper(s: string)
    requires NoUpperAscii(s)
    ensures ToLower(s) == s
  {
  }

  // ---------------------------------------------------------------------------
  // Searching

  /** The index of the last occurrence of `c` in `s`, as `rfind` returns it. */
  function LastIndexOf(s: string, c: char): (r: Option<nat>)
    ensures r.None? <==> (forall i :: 0 <= i < |s| ==> s[i] != c)
    ensures r.Some? ==> r.value < |s| && s[r.value] == c
    ensures r.Some? ==> forall i :: r.value < i < |s| ==> s[i] != c
    decreases |s|
  {
    if |s| == 0 then None
    else if s[|s| - 1] == c then Some(|s| - 1)
    else LastIndexOf(s[..|s| - 1], c)
  }

  /** An occurrence of `c` with none after it is the last one. */
  lemma LastIndexOfAt(s: string, c: char, k: nat)
    requires k < |s| && s[k] == c
    requires forall i :: k < i < |s| ==> s[i] != c
    ensures LastIndexOf(s, c) == Some(k)
  {
  }

  /** `s` ends with the character `c`. */
  predicate EndsWith(s: string, c: char) {
    |s| > 0 && s[|s| - 1] == c
  }

  // ---------------------------------------------------------------------------
  // Decimal numbers

  /** The C++ fixed-width unsigned integers the code stores. */
  type Uint32 = x: int | 0 <= x < 0x1_0000_0000
  type Uint64 = x: int | 0 <= x < 0x1_0000_0000_0000_0000

  predicate IsDigit(c: char) {
    '0' <= c <= '9'
  }

  predicate AllDigits(s: string) {
    forall i :: 0 <= i < |s| ==> IsDigit(s[i])
  }

  function DigitChar(d: nat): (c: char)
    requires d < 10
    ensures IsDigit(c)
  {
    ('0' as int + d) as char
  }

  function DigitValue(c: char): nat
    requires IsDigit(c)
  {
    c as int - '0' as int
  }

  /** The decimal rendering of `n`, without leading zeros. */
  function NatToString(n: nat): (s: string)
    ensures |s| > 0 && AllDigits(s)
    ensures |s| > 1 ==> s[0] != '0'
    decreases n
  {
    if n < 10 then [DigitChar(n)]
    else NatToString(n / 10) + [DigitChar(n % 10)]
  }

  /** The decimal rendering of a signed integer, `-` first when negative. */
  function IntToString(i: int): (s: string)
    ensures |s| > 0 && (s[0] == '-' <==> i < 0)
    ensures i < 0 ==> s[1..] == NatToString(-i)
    ensures i >= 0 ==> s == NatToString(i)
  {
    if i < 0 then "-" + NatToString(-i) else NatToString(i)
  }

  /** The value of a string of decimal digits. */
  function DigitsValue(s: string): nat
    requires AllDigits(s)
    decreases |s|
  {
    if |s| == 0 then 0
    else DigitsValue(s[..|s| - 1]) * 10 + DigitValue(s[|s| - 1])
  }

  /** Reads a non-empty string of decimal digits; anything else is refused. */
  function ParseNat(s: string): (r: Option<nat>)
    ensures r.Some? <==> |s| > 0 && AllDigits(s)
  {
    if |s| > 0 && AllDigits(s) then Some(DigitsValue(s)) else None
  }

  /** Reading back a rendered number gives the number. */
  lemma {:induction false} ParseNatToString(n: nat)
    ensures ParseNat(NatToString(n)) == Some(n)
    decreases n
  {
    if n < 10 {
      var s := NatToString(n);
      assert s[..|s| - 1] == [];
    } else {
      var p := NatToString(n / 10);
      var s := p + [DigitChar(n % 10)];
      assert NatToString(n) == s;
      ParseNatToString(n / 10);
      assert s[..|s| - 1] == p;
      assert DigitValue(s[|s| - 1]) == n % 10;
      assert DigitsValue(s) == (n / 10) * 10 + n % 10;
    }
  }

  /** Different numbers render differently. */
  lemma NatToStringInjective(a: nat, b: nat)
    ensures NatToString(a) == NatToString(b) ==> a == b
  {
    ParseNatToString(a);
    ParseNatToString(b);
  }
}
