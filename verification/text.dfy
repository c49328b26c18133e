/** The C library text helpers the driver leans on: decimal rendering through
    a stringstream (itoa), atoi, strncasecmp on a fixed prefix, strcspn, and
    C-string truncation at the first NUL. */
module Text {

  predicate IsDigit(c: char)
  {
    '0' <= c <= '9'
  }

  function DigitChar(d: nat): (c: char)
    requires d < 10
    ensures IsDigit(c)
  {
    ('0' as int + d) as char
  }

  /** Decimal digits of a natural number, most significant first, no leading zeros. */
  function NatText(n: nat): (s: string)
    ensures |s| > 0
    ensures forall i | 0 <= i < |s| :: IsDigit(s[i])
    decreases n
  {
    if n < 10 then [DigitChar(n)] else NatText(n / 10) + [DigitChar(n % 10)]
  }

  function Pow10(k: nat): nat
  {
    if k == 0 then 1 else 10 * Pow10(k - 1)
  }

  /** A number below 10^k takes at most k digits. */
  lemma {:induction false} NatTextLength(n: nat, k: nat)
    requires 0 < k && n < Pow10(k)
    ensures |NatText(n)| <= k
    decreases k
  {
    if n >= 10 {
      NatTextLength(n / 10, k - 1);
    }
  }

  /** `ss << v` for an integer v. */
  function Itoa(v: int): string
  {
    if v < 0 then "-" + NatText(-v) else NatText(v)
  }

  /** The rendering holds only digits and a leading minus. */
  lemma ItoaChars(v: int)
    ensures forall i | 0 <= i < |Itoa(v)| :: Itoa(v)[i] == '-' || IsDigit(Itoa(v)[i])
  {
    if v < 0 {
      var d := NatText(-v);
      assert forall i | 0 < i < |Itoa(v)| :: Itoa(v)[i] == d[i - 1];
    }
  }

  /** The char value as a signed C `char`, as itoa(content[pos]) prints it. */
  function SignedChar(c: char): int
  {
    var b := c as int % 0x100;
    if b >= 0x80 then b - 0x100 else b
  }

  function DigitsValue(ds: string): nat
  {
    if ds == [] then 0
    else
      var c := ds[|ds| - 1];
      10 * DigitsValue(ds[..|ds| - 1]) + (if IsDigit(c) then c as int - '0' as int else 0)
  }

  /** The longest prefix of s made of decimal digits. */
  function LeadingDigits(s: string): (ds: string)
    ensures ds <= s
    ensures forall i | 0 <= i < |ds| :: IsDigit(ds[i])
    ensures |ds| < |s| ==> !IsDigit(s[|ds|])
  {
    if s != [] && IsDigit(s[0]) then [s[0]] + LeadingDigits(s[1..]) else []
  }

  predicate IsSpace(c: char)
  {
    c == ' ' || c == '\t' || c == '\n' || c == '\r' || c == '\U{B}' || c == '\U{C}'
  }

  function SkipSpace(s: string): (t: string)
    ensures t == [] || !IsSpace(t[0])
    ensures |t| <= |s| && t == s[|s| - |t|..]
  {
    if s != [] && IsSpace(s[0]) then SkipSpace(s[1..]) else s
  }

  /** C atoi: optional white space, an optional sign, then decimal digits. Overflow,
      undefined behaviour in C, is left unbounded. */
  function Atoi(s: string): int
  {
    var t := SkipSpace(s);
    if t != [] && t[0] == '-' then -(DigitsValue(LeadingDigits(t[1..])) as int)
    else if t != [] && t[0] == '+' then DigitsValue(LeadingDigits(t[1..]))
    else DigitsValue(LeadingDigits(t))
  }

  lemma {:induction false} DigitsValueOfNatText(n: nat)
    ensures DigitsValue(NatText(n)) == n
    decreases n
  {
    if n >= 10 {
      var s := NatText(n);
      assert s[..|s| - 1] == NatText(n / 10);
      DigitsValueOfNatText(n / 10);
    }
  }

  lemma LeadingDigitsOfDigits(s: string)
    requires forall i | 0 <= i < |s| :: IsDigit(s[i])
    ensures LeadingDigits(s) == s
  {
    if s != [] {
      LeadingDigitsOfDigits(s[1..]);
    }
  }

  /** atoi undoes the decimal rendering of any integer. */
  lemma AtoiOfItoa(v: int)
    ensures Atoi(Itoa(v)) == v
  {
    var n: nat := if v < 0 then -v else v;
    var digits := NatText(n);
    LeadingDigitsOfDigits(digits);
    DigitsValueOfNatText(n);
    var s := Itoa(v);
    assert !IsSpace(s[0]);
    assert SkipSpace(s) == s;
    if v < 0 {
      assert s[0] == '-' && s[1..] == digits;
    } else {
      assert s == digits && IsDigit(s[0]);
    }
  }

  /** Rendering is injective: distinct integers print differently. */
  lemma ItoaInjective(a: int, b: int)
    requires Itoa(a) == Itoa(b)
    ensures a == b
  {
    AtoiOfItoa(a);
    AtoiOfItoa(b);
  }

  function Lower(c: char): char
  {
    if 'A' <= c <= 'Z' then (c as int + 32) as char else c
  }

  /** `strncasecmp(prefix, s, |prefix|) == 0` for a prefix without NUL characters:
      s is at least as long as prefix and agrees with it ignoring ASCII case. */
  predicate StartsWithNoCase(s: string, prefix: string)
  {
    |s| >= |prefix| && forall i | 0 <= i < |prefix| :: Lower(s[i]) == Lower(prefix[i])
  }

  /** `strcspn(s.c_str(), ":")`: the index of the first ':' or NUL, or |s|. */
  function SpanToColon(s: string): (k: nat)
    ensures k <= |s|
    ensures forall i | 0 <= i < k :: s[i] != ':' && s[i] != '\0'
    ensures k < |s| ==> s[k] == ':' || s[k] == '\0'
  {
    if s == [] || s[0] == ':' || s[0] == '\0' then 0 else 1 + SpanToColon(s[1..])
  }

  /** The std::string built from a C string: everything before the first NUL. */
  function CStr(s: string): (t: string)
    ensures t <= s
    ensures forall i | 0 <= i < |t| :: t[i] != '\0'
    ensures |t| < |s| ==> s[|t|] == '\0'
  {
    if s == [] || s[0] == '\0' then [] else [s[0]] + CStr(s[1..])
  }

  /** A string without a NUL is its own C string. */
  lemma {:induction false} CStrOfPlain(s: string)
    requires forall i | 0 <= i < |s| :: s[i] != '\0'
    ensures CStr(s) == s
    decreases s
  {
    if s != [] {
      assert s[0] != '\0';
      assert forall i | 0 <= i < |s[1..]| :: s[1..][i] == s[i + 1];
      CStrOfPlain(s[1..]);
      assert [s[0]] + s[1..] == s;
    }
  }

  /** The C string of a text stops right before its first NUL. */
  lemma CStrCut(p: string, q: string)
    requires forall i | 0 <= i < |p| :: p[i] != '\0'
    ensures CStr(p + ['\0'] + q) == p
  {
    var s := p + ['\0'] + q;
    assert s[|p|] == '\0' && s[..|p|] == p;
  }
}
