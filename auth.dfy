/**
 * The account record and the password digest of the authentication helpers. The digest
 * is not MD5: it is a 32-bit polynomial string hash rendered as zero-padded hexadecimal,
 * with the real MD5 of "admin" hard-coded for that one input.
 */
module Auth {
  import Text

  datatype User = User(id: string, username: string, avatar: string, createdAt: string)

  const AdminDigest: string := "21232f297a57a5a743894a0e4a801fc3"
  const EmptyDigest: string := "00000000000000000000000000000000"

  const TwoTo31: int := 0x8000_0000
  const TwoTo32: int := 0x1_0000_0000

  predicate IsInt32(x: int) {
    -TwoTo31 <= x < TwoTo31
  }

  /** ECMAScript ToInt32: the integer in [-2^31, 2^31) congruent to `x` modulo 2^32. */
  function ToInt32(x: int): (r: int)
    ensures IsInt32(r)
    ensures IsInt32(x) ==> r == x
  {
    var m := x % TwoTo32;
    if m >= TwoTo31 then m - TwoTo32 else m
  }

  /** ToInt32 only sees its argument modulo 2^32. */
  lemma ToInt32Periodic(x: int, k: int)
    ensures ToInt32(x + k * TwoTo32) == ToInt32(x)
  {
    assert (x + k * TwoTo32) % TwoTo32 == x % TwoTo32;
  }

  /** The hash of a sequence of UTF-16 code units: start at 0, then h := ToInt32(31 h + c) per unit. */
  function StringHash(units: seq<int>): (h: int)
    ensures IsInt32(h)
  {
    if units == [] then 0 else ToInt32(31 * StringHash(units[..|units| - 1]) + units[|units| - 1])
  }

  function Abs(x: int): nat {
    if x < 0 then -x else x
  }

  /** The digest `md5` returns. */
  function Digest(password: string): string {
    if password == "admin" then AdminDigest
    else if password == "" then EmptyDigest
    else Text.PadStart(Text.Hex(Abs(StringHash(Text.Utf16(password)))), 32, '0')
  }

  /** One step of the source's loop, `((hash << 5) - hash) + c` then `hash & hash`, is the step of `StringHash`. */
  lemma ShiftStep(hash: int, code: int)
    ensures ToInt32(ToInt32(hash * 32) - hash + code) == ToInt32(31 * hash + code)
  {
    var m := (hash * 32) % TwoTo32;
    var k := if m >= TwoTo31 then (hash * 32) / TwoTo32 + 1 else (hash * 32) / TwoTo32;
    assert ToInt32(hash * 32) == hash * 32 - k * TwoTo32;
    assert ToInt32(hash * 32) - hash + code == (31 * hash + code) + (-k) * TwoTo32;
    ToInt32Periodic(31 * hash + code, -k);
  }

  /** `md5`: the hard-coded case, the empty case, then the hash loop over the code units. */
  method Md5(password: string) returns (digest: string)
    ensures digest == Digest(password)
  {
    if password == "admin" {
      return AdminDigest;
    }
    var hash := 0;
    if password == "" {
      return EmptyDigest;
    }
    var units := Text.Utf16(password);
    var i := 0;
    while i < |units|
      invariant 0 <= i <= |units|
      invariant hash == StringHash(units[..i])
    {
      var code := units[i];
      var shifted := ToInt32(hash * 32);
      // every intermediate value is an integer well inside the exact range of a double
      assert -0x20_0000_0000_0000 < shifted - hash + code < 0x20_0000_0000_0000;
      ShiftStep(hash, code);
      assert units[..i + 1][..i] == units[..i];
      hash := ToInt32(shifted - hash + code);
      i := i + 1;
    }
    assert units[..i] == units;
    digest := Text.PadStart(Text.Hex(Abs(hash)), 32, '0');
  }

  /** The two fixed answers: the self-test's expectation for "admin", and 32 zeros for the empty password. */
  lemma FixedDigests()
    ensures Digest("admin") == AdminDigest
    ensures |Digest("")| == 32 && forall i :: 0 <= i < 32 ==> Digest("")[i] == '0'
  {
  }

  /** The absolute value of a 32-bit hash needs at most eight hexadecimal digits. */
  lemma HexOfHashFits(h: int)
    requires IsInt32(h)
    ensures |Text.Hex(Abs(h))| <= 8
  {
    assert Text.Pow(16, 8) == TwoTo32 by {
      assert Text.Pow(16, 4) == 0x1_0000;
    }
    Text.RadixLength(Abs(h), 16, 8);
  }

  /** Every digest is 32 lower-case hexadecimal digits. */
  lemma DigestShape(password: string)
    ensures |Digest(password)| == 32
    ensures Text.AllDigits(Digest(password), 16)
  {
    if password == "admin" {
      assert forall i :: 0 <= i < 32 ==> Text.IsDigit(AdminDigest[i], 16);
    } else {
      DigestReadsBack(password);
      if password != "" {
        HexOfHashFits(StringHash(Text.Utf16(password)));
      }
    }
  }

  /** Apart from "admin", the digest starts with 24 zeros: the hash never fills more than 8 digits. */
  lemma DigestLeadingZeros(password: string)
    requires password != "admin"
    ensures forall i :: 0 <= i < 24 ==> Digest(password)[i] == '0'
  {
    if password != "" {
      HexOfHashFits(StringHash(Text.Utf16(password)));
    }
  }

  /** No password other than "admin" gets the digest of "admin". */
  lemma AdminDigestUnique(password: string)
    ensures Digest(password) == AdminDigest <==> password == "admin"
  {
    if password != "admin" {
      DigestLeadingZeros(password);
      assert Digest(password)[0] != AdminDigest[0];
    }
  }

  /** Zero digits in front do not change the value a string of digits denotes. */
  lemma {:induction false} LeadingZerosValue(zeros: string, digits: string)
    requires forall i :: 0 <= i < |zeros| ==> zeros[i] == '0'
    requires Text.AllDigits(digits, 16)
    ensures Text.AllDigits(zeros + digits, 16)
    ensures Text.ValueIn(zeros + digits, 16) == Text.ValueIn(digits, 16)
    decreases |zeros| + |digits|
  {
    var s := zeros + digits;
    if digits == [] {
      assert s == zeros;
      if zeros != [] {
        LeadingZerosValue(zeros[..|zeros| - 1], []);
        assert zeros[..|zeros| - 1] + [] == zeros[..|zeros| - 1];
      }
    } else {
      LeadingZerosValue(zeros, digits[..|digits| - 1]);
      assert s[..|s| - 1] == zeros + digits[..|digits| - 1];
    }
  }

  /** Apart from "admin", reading the digest as a hexadecimal number gives back the absolute hash. */
  lemma DigestReadsBack(password: string)
    requires password != "admin"
    ensures Text.AllDigits(Digest(password), 16)
    ensures Text.ValueIn(Digest(password), 16) == Abs(StringHash(Text.Utf16(password)))
  {
    if password == "" {
      LeadingZerosValue(EmptyDigest, []);
      assert EmptyDigest + [] == EmptyDigest;
    } else {
      var h := Abs(StringHash(Text.Utf16(password)));
      var hex := Text.Hex(h);
      HexOfHashFits(StringHash(Text.Utf16(password)));
      Text.RadixRoundTrip(h, 16);
      var zeros := Text.Repeat('0', 32 - |hex|);
      assert Digest(password) == zeros + hex;
      LeadingZerosValue(zeros, hex);
    }
  }
}
