/** Octets, big-endian integers of fixed width and two's-complement
    reinterpretation, the conversions behind htons/htonl/be64toh and the
    signed/unsigned casts the wire codec performs. */
module Bytes {

  type byte = b: int | 0 <= b < 0x100

  type u16 = v: int | 0 <= v < 0x1_0000
  type u32 = v: int | 0 <= v < 0x1_0000_0000
  type s16 = v: int | -0x8000 <= v < 0x8000
  type s32 = v: int | -0x8000_0000 <= v < 0x8000_0000
  type s64 = v: int | -0x8000_0000_0000_0000 <= v < 0x8000_0000_0000_0000

  function Pow256(n: nat): (r: nat)
    ensures r > 0
  {
    if n == 0 then 1 else 256 * Pow256(n - 1)
  }

  /** The n-byte big-endian (network order) encoding of v. */
  function BigEndian(v: nat, n: nat): (bs: seq<byte>)
    requires v < Pow256(n)
    ensures |bs| == n
    decreases n
  {
    if n == 0 then [] else BigEndian(v / 256, n - 1) + [v % 256]
  }

  /** The unsigned number a big-endian byte sequence denotes. */
  function Value(bs: seq<byte>): (v: nat)
    ensures v < Pow256(|bs|)
  {
    if bs == [] then 0 else 256 * Value(bs[..|bs| - 1]) + bs[|bs| - 1]
  }

  lemma {:induction false} ValueOfBigEndian(v: nat, n: nat)
    requires v < Pow256(n)
    ensures Value(BigEndian(v, n)) == v
    decreases n
  {
    if n > 0 {
      var bs := BigEndian(v, n);
      assert bs[..n - 1] == BigEndian(v / 256, n - 1);
      ValueOfBigEndian(v / 256, n - 1);
    }
  }

  lemma {:induction false} BigEndianOfValue(bs: seq<byte>)
    ensures BigEndian(Value(bs), |bs|) == bs
  {
    if bs != [] {
      var init := bs[..|bs| - 1];
      BigEndianOfValue(init);
      var v := Value(bs);
      assert v / 256 == Value(init);
      assert v % 256 == bs[|bs| - 1];
      assert bs == init + [bs[|bs| - 1]];
    }
  }

  /** Half the range of an n-byte pattern: the first bit pattern read as negative. */
  function Half(n: nat): (h: nat)
    requires 0 < n
    ensures 2 * h == Pow256(n)
  {
    128 * Pow256(n - 1)
  }

  predicate InSigned(v: int, n: nat)
  {
    0 < n && -(Half(n) as int) <= v < Half(n)
  }

  /** Two's-complement bit pattern of an n-byte signed value (the C cast to an unsigned type). */
  function Unsigned(v: int, n: nat): (u: nat)
    requires InSigned(v, n)
    ensures u < Pow256(n)
    ensures (u < Half(n)) == (v >= 0)
  {
    if v < 0 then v + Pow256(n) else v
  }

  /** The signed value of an n-byte bit pattern (the C cast to a signed type). */
  function Signed(u: nat, n: nat): (v: int)
    requires 0 < n && u < Pow256(n)
    ensures InSigned(v, n)
  {
    if u >= Half(n) then u - Pow256(n) else u
  }

  lemma SignedOfUnsigned(v: int, n: nat)
    requires InSigned(v, n)
    ensures Signed(Unsigned(v, n), n) == v
  {
  }

  lemma UnsignedOfSigned(u: nat, n: nat)
    requires 0 < n && u < Pow256(n)
    ensures Unsigned(Signed(u, n), n) == u
  {
  }

  /** The 8-bit chars a C++ std::string holds. */
  predicate IsLatin(s: string)
  {
    forall i | 0 <= i < |s| :: s[i] as int < 0x100
  }

  /** The bytes of a std::string (each char is one byte). */
  function Octets(s: string): (bs: seq<byte>)
    ensures |bs| == |s|
    ensures forall i | 0 <= i < |s| :: bs[i] == s[i] as int % 0x100
  {
    if s == [] then [] else Octets(s[..|s| - 1]) + [s[|s| - 1] as int % 0x100]
  }

  /** The std::string holding the given bytes. */
  function Chars(bs: seq<byte>): (s: string)
    ensures |s| == |bs|
    ensures forall i | 0 <= i < |bs| :: s[i] as int == bs[i]
    ensures IsLatin(s)
  {
    if bs == [] then [] else Chars(bs[..|bs| - 1]) + [bs[|bs| - 1] as char]
  }

  lemma OctetsOfChars(bs: seq<byte>)
    ensures Octets(Chars(bs)) == bs
  {
  }

  lemma SmallMod(x: int)
    requires 0 <= x < 0x100
    ensures x % 0x100 == x
  {
  }

  lemma SameCode(x: char, y: char)
    requires x as int == y as int
    ensures x == y
  {
  }

  lemma CharsOfOctets(s: string)
    requires IsLatin(s)
    ensures Chars(Octets(s)) == s
  {
    var t := Chars(Octets(s));
    var bs := Octets(s);
    forall i | 0 <= i < |s|
      ensures t[i] == s[i]
    {
      assert t[i] as int == bs[i] == s[i] as int % 0x100;
      assert s[i] as int < 0x100;
      SmallMod(s[i] as int);
      SameCode(t[i], s[i]);
    }
  }

  lemma OctetsAppend(a: string, b: string)
    ensures Octets(a + b) == Octets(a) + Octets(b)
  {
  }
}
