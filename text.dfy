/**
 * The JavaScript string operations the core relies on: `Number.prototype.toString(radix)`
 * for non-negative integers, `String.prototype.padStart`, and the UTF-16 code units that
 * `length` and `charCodeAt` count.
 */
module Text {

  const Digits: string := "0123456789abcdef"

  /** The digit for `d`, lower-case as `toString(16)` writes it. */
  function DigitChar(d: nat): char
    requires d < 16
  {
    Digits[d]
  }

  /** The value of a digit character, or -1 for a character that is not one. */
  function DigitValue(c: char): (v: int)
    ensures -1 <= v < 16
  {
    if '0' <= c <= '9' then c as int - '0' as int
    else if 'a' <= c <= 'f' then c as int - 'a' as int + 10
    else -1
  }

  /** Each digit character reads back as the digit it was written for. */
  lemma DigitCharValue(d: nat)
    requires d < 16
    ensures DigitValue(DigitChar(d)) == d
  {
  }

  predicate IsDigit(c: char, base: nat) {
    0 <= DigitValue(c) < base
  }

  predicate AllDigits(s: string, base: nat) {
    forall i :: 0 <= i < |s| ==> IsDigit(s[i], base)
  }

  /** `n.toString(base)`: the digits of `n`, most significant first, with no leading zero. */
  function Radix(n: nat, base: nat): (s: string)
    requires 2 <= base <= 16
    ensures |s| >= 1
    decreases n
  {
    if n < base then [DigitChar(n)] else Radix(n / base, base) + [DigitChar(n % base)]
  }

  /** Decimal rendering, as a template literal or `toString()` writes a non-negative integer. */
  function Decimal(n: nat): string {
    Radix(n, 10)
  }

  /** Hexadecimal rendering, `toString(16)`. */
  function Hex(n: nat): string {
    Radix(n, 16)
  }

  /** The number a string of digits denotes in `base`. */
  function ValueIn(s: string, base: nat): nat
    requires 2 <= base <= 16 && AllDigits(s, base)
  {
    if s == [] then 0 else ValueIn(s[..|s| - 1], base) * base + DigitValue(s[|s| - 1])
  }

  /** Reading back what `Radix` writes gives the number again. */
  lemma {:induction false} RadixRoundTrip(n: nat, base: nat)
    requires 2 <= base <= 16
    ensures AllDigits(Radix(n, base), base)
    ensures ValueIn(Radix(n, base), base) == n
    decreases n
  {
    var s := Radix(n, base);
    if n < base {
      DigitCharValue(n);
      assert s[..0] == [];
    } else {
      var q, r := n / base, n % base;
      DivideDigit(n, base);
      var t := Radix(q, base);
      RadixRoundTrip(q, base);
      DigitCharValue(r);
      assert s == t + [DigitChar(r)];
      assert s[..|s| - 1] == t;
      assert AllDigits(s, base) by {
        forall i | 0 <= i < |s| ensures IsDigit(s[i], base) {
          if i < |t| { assert s[i] == t[i]; }
        }
      }
    }
  }

  /** Splitting off the last digit leaves a smaller number. */
  lemma DivideDigit(n: nat, base: nat)
    requires 2 <= base <= n
    ensures n / base < n && n == (n / base) * base + n % base
  {
  }

  /** Two numbers with the same rendering are equal. */
  lemma RadixInjective(m: nat, n: nat, base: nat)
    requires 2 <= base <= 16
    requires Radix(m, base) == Radix(n, base)
    ensures m == n
  {
    RadixRoundTrip(m, base);
    RadixRoundTrip(n, base);
  }

  function Pow(b: nat, k: nat): nat {
    if k == 0 then 1 else b * Pow(b, k - 1)
  }

  /** A number below `base^k` needs at most `k` digits. */
  lemma {:induction false} RadixLength(n: nat, base: nat, k: nat)
    requires 2 <= base <= 16 && 1 <= k && n < Pow(base, k)
    ensures |Radix(n, base)| <= k
    decreases k
  {
    if n >= base {
      assert Pow(base, 1) == base;
      assert n / base < Pow(base, k - 1);
      RadixLength(n / base, base, k - 1);
    }
  }

  function Repeat(c: char, n: nat): (r: string)
    ensures |r| == n && forall i :: 0 <= i < n ==> r[i] == c
  {
    if n == 0 then [] else [c] + Repeat(c, n - 1)
  }

  /** `s.padStart(width, fill)` with a one-character fill, for strings of characters below U+10000. */
  function PadStart(s: string, width: nat, fill: char): (r: string)
    ensures |r| == if |s| >= width then |s| else width
    ensures r[|r| - |s|..] == s
    ensures forall i :: 0 <= i < |r| - |s| ==> r[i] == fill
  {
    if |s| >= width then s else Repeat(fill, width - |s|) + s
  }

  predicate IsCodeUnits(u: seq<int>) {
    forall k :: 0 <= k < |u| ==> 0 <= u[k] < 0x1_0000
  }

  /** The UTF-16 code units of one character: one below U+10000, a surrogate pair above. */
  function CodeUnits(c: char): (u: seq<int>)
    ensures IsCodeUnits(u)
    ensures |u| == (if (c as int) < 0x1_0000 then 1 else 2)
    ensures |u| == 1 ==> u[0] == c as int
    ensures |u| == 2 ==> 0xD800 <= u[0] < 0xDC00 <= u[1] < 0xE000
    ensures |u| == 2 ==> (u[0] - 0xD800) * 0x400 + (u[1] - 0xDC00) + 0x1_0000 == c as int
  {
    if (c as int) < 0x1_0000 then [c as int]
    else
      var v := c as int - 0x1_0000;
      [0xD800 + v / 0x400, 0xDC00 + v % 0x400]
  }

  /** The code units of a string, which `length` counts and `charCodeAt` returns. */
  function Utf16(s: string): (u: seq<int>)
    ensures IsCodeUnits(u)
    ensures |s| <= |u| <= 2 * |s|
    ensures u == [] <==> s == []
  {
    if s == [] then [] else CodeUnits(s[0]) + Utf16(s[1..])
  }

  /** `s.length` in JavaScript. */
  function JsLength(s: string): nat {
    |Utf16(s)|
  }
}
