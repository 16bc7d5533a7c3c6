/** The five-character device identifier (shortID in device.go). */
module ShortIds {

  type Sum = n: nat | n < 0x1_0000_0000_0000_0000

  // ---- Base 32 -------------------------------------------------------------

  /** The digits of strconv: 0-9 then a-v. */
  function Digit(d: nat): (c: char)
    requires d < 32
    ensures '0' <= c <= '9' || 'a' <= c <= 'v'
  {
    if d < 10 then ('0' as int + d) as char else ('a' as int + d - 10) as char
  }

  /** strconv.AppendUint in base 32: no leading zero, but one digit for zero. */
  function Base32(n: nat): (s: string)
    ensures |s| >= 1
    ensures forall i :: 0 <= i < |s| ==> '0' <= s[i] <= '9' || 'a' <= s[i] <= 'v'
  {
    if n < 32 then [Digit(n)] else Base32(n / 32) + [Digit(n % 32)]
  }

  /** The value of an upper-case base-32 digit. */
  function Value(c: char): nat {
    if '0' <= c <= '9' then c as int - '0' as int
    else if 'A' <= c <= 'V' then c as int - 'A' as int + 10
    else 0
  }

  function Decode(s: string): nat {
    if s == [] then 0 else 32 * Decode(s[..|s| - 1]) + Value(s[|s| - 1])
  }

  /** '0'-'9' stay; 'a'-'v' lose the 0x20 bit. */
  function Upper(c: char): char
    requires c < 128 as char
  {
    if c >= 'a' then (c as int - 32) as char else c
  }

  function Pow32(n: nat): (p: nat)
    ensures p >= 1
  {
    if n == 0 then 1 else 32 * Pow32(n - 1)
  }

  lemma {:induction false} DigitCount(n: nat, k: nat)
    requires k >= 1 && n < Pow32(k)
    ensures |Base32(n)| <= k
    decreases k
  {
    if n >= 32 {
      DigitCount(n / 32, k - 1);
    }
  }

  /** The text of a 64-bit sum fits the buffer's 13 bytes. */
  lemma SumFitsBuffer(sum: Sum)
    ensures |Base32(sum)| <= 13
  {
    assert Pow32(13) == 32 * 32 * 32 * 32 * 32 * 32 * 32 * 32 * 32 * Pow32(4);
    assert Pow32(4) == 32 * 32 * 32 * 32;
    DigitCount(sum, 13);
  }

  // ---- Five digits ---------------------------------------------------------

  const FIVE_DIGITS := 0x200_0000  // 32^5

  /** The five leading base-32 digits of a number, or all of them. */
  function Leading(n: nat): (l: nat)
    ensures l < FIVE_DIGITS
  {
    if n < FIVE_DIGITS then n else Leading(n / 32)
  }

  /** `k` upper-case digits of `n`. */
  function Fixed(n: nat, k: nat): (s: string)
    ensures |s| == k
  {
    if k == 0 then [] else Fixed(n / 32, k - 1) + [Upper(Digit(n % 32))]
  }

  /** What shortID is to return: nothing for no key, else five digits of the hash of
      profile and key together. */
  function ShortId(hash: string -> Sum, profile: string, key: string): string {
    if key == "" then "" else Fixed(Leading(hash(profile + key)), 5)
  }

  predicate IdChar(c: char) {
    '0' <= c <= '9' || 'A' <= c <= 'V'
  }

  lemma {:induction false} FixedDecodes(n: nat, k: nat)
    requires n < Pow32(k)
    ensures Decode(Fixed(n, k)) == n
    ensures forall i :: 0 <= i < k ==> IdChar(Fixed(n, k)[i])
    decreases k
  {
    if k > 0 {
      FixedDecodes(n / 32, k - 1);
      assert Fixed(n, k)[..k - 1] == Fixed(n / 32, k - 1);
      assert Value(Upper(Digit(n % 32))) == n % 32;
    }
  }

  /** Five characters of 0-9 and A-V that decode to the sum itself when it has at most
      five base-32 digits, and to its five leading digits otherwise. */
  lemma ShortIdDecodes(hash: string -> Sum, profile: string, key: string)
    requires key != ""
    ensures var id := ShortId(hash, profile, key);
            && |id| == 5 && (forall i :: 0 <= i < 5 ==> IdChar(id[i]))
            && Decode(id) == Leading(hash(profile + key))
            && (hash(profile + key) < FIVE_DIGITS ==> Decode(id) == hash(profile + key))
  {
    assert Pow32(5) == 32 * 32 * 32 * 32 * 32;
    FixedDecodes(Leading(hash(profile + key)), 5);
  }

  /** No key, no ID. */
  lemma NoKeyNoId(hash: string -> Sum, profile: string, key: string)
    ensures ShortId(hash, profile, key) == "" <==> key == ""
  {
    assert |Fixed(Leading(hash(profile + key)), 5)| == 5;
  }

  /** The leading digits are the number divided by a power of 32, and of a longer
      number they are five digits in full. */
  lemma {:induction false} LeadingDivides(n: nat)
    ensures exists k: nat :: Leading(n) == n / Pow32(k)
    ensures n >= FIVE_DIGITS ==> Leading(n) >= FIVE_DIGITS / 32
    decreases n
  {
    if n < FIVE_DIGITS {
      assert n / Pow32(0) == n;
    } else {
      LeadingDivides(n / 32);
      var k: nat :| Leading(n / 32) == (n / 32) / Pow32(k);
      DivDiv(n, Pow32(k));
      assert Leading(n) == n / Pow32(k + 1);
    }
  }

  lemma DivDiv(n: nat, p: nat)
    requires p > 0
    ensures n / 32 / p == n / (32 * p)
  {
    var q, r := n / 32 / p, n / 32 % p;
    assert n / 32 == q * p + r;
    assert n == 32 * (q * p + r) + n % 32 == q * (32 * p) + (32 * r + n % 32);
    assert 0 <= 32 * r + n % 32 < 32 * p;
    Quotient(n, 32 * p, q, 32 * r + n % 32);
  }

  lemma Quotient(n: int, d: int, q: int, r: int)
    requires d > 0 && n == q * d + r && 0 <= r < d
    ensures n / d == q
  {
    SmallMultiple(n / d - q, d, r - n % d);
  }

  lemma SmallMultiple(x: int, d: int, y: int)
    requires d > 0 && x * d == y && -d < y < d
    ensures x == 0
  {
    assert x >= 1 ==> x * d >= d;
    assert x <= -1 ==> x * d <= -d;
  }

  // ---- The buffer algorithm ------------------------------------------------

  function UpperAll(s: string): (u: string)
    requires forall i :: 0 <= i < |s| ==> s[i] < 128 as char
    ensures |u| == |s|
  {
    seq(|s|, i requires 0 <= i < |s| => Upper(s[i]))
  }

  lemma {:induction false} UpperIsFixed(n: nat)
    ensures UpperAll(Base32(n)) == Fixed(n, |Base32(n)|)
    decreases n
  {
    if n < 32 {
      assert Fixed(n, 1) == Fixed(0, 0) + [Upper(Digit(n))];
    } else {
      UpperIsFixed(n / 32);
      assert UpperAll(Base32(n)) == UpperAll(Base32(n / 32)) + [Upper(Digit(n % 32))];
    }
  }

  function Zeros(k: nat): (s: string)
    ensures |s| == k && forall i :: 0 <= i < k ==> s[i] == '0'
  {
    seq(k, _ => '0')
  }

  lemma {:induction false} FixedOfZero(k: nat)
    ensures Fixed(0, k) == Zeros(k)
    decreases k
  {
    if k > 0 {
      FixedOfZero(k - 1);
    }
  }

  /** Padding on the left is what more digits look like. */
  lemma {:induction false} PaddedIsFixed(n: nat, k: nat)
    requires |Base32(n)| <= k
    ensures Zeros(k - |Base32(n)|) + Fixed(n, |Base32(n)|) == Fixed(n, k)
    decreases n
  {
    var len := |Base32(n)|;
    if n < 32 {
      FixedOfZero(k - 1);
      assert Fixed(n, 1) == Fixed(0, 0) + [Upper(Digit(n))];
    } else {
      PaddedIsFixed(n / 32, k - 1);
      assert Zeros(k - len) + (Fixed(n / 32, len - 1) + [Upper(Digit(n % 32))]) ==
             (Zeros(k - len) + Fixed(n / 32, len - 1)) + [Upper(Digit(n % 32))];
    }
  }

  lemma {:induction false} LengthAndSize(n: nat, k: nat)
    requires k >= 1
    ensures |Base32(n)| <= k <==> n < Pow32(k)
    decreases k
  {
    if n >= 32 && k > 1 {
      LengthAndSize(n / 32, k - 1);
    }
  }

  /** Cutting after five digits leaves the leading ones. */
  lemma {:induction false} CutIsLeading(n: nat)
    requires |Base32(n)| >= 5
    ensures Fixed(n, |Base32(n)|)[..5] == Fixed(Leading(n), 5)
    decreases n
  {
    assert Pow32(5) == 32 * 32 * 32 * 32 * 32;
    LengthAndSize(n, 5);
    if |Base32(n)| > 5 {
      CutIsLeading(n / 32);
      assert Fixed(n, |Base32(n)|)[..5] == Fixed(n / 32, |Base32(n)| - 1)[..5];
    }
  }

  function FiveDigits(text: string): (s: string)
    ensures |s| == 5
  {
    if |text| < 5 then Zeros(5 - |text|) + text else text[..5]
  }

  lemma BufferHoldsId(sum: Sum)
    ensures forall j :: 0 <= j < 5 ==> FiveDigits(Base32(sum))[j] < 128 as char
    ensures UpperAll(FiveDigits(Base32(sum))) == Fixed(Leading(sum), 5)
  {
    if |Base32(sum)| < 5 {
      PaddedHoldsId(sum);
    } else {
      UpperIsFixed(sum);
      CutIsLeading(sum);
      assert UpperAll(Base32(sum)[..5]) == UpperAll(Base32(sum))[..5];
    }
  }

  lemma PaddedHoldsId(sum: Sum)
    requires |Base32(sum)| < 5
    ensures UpperAll(FiveDigits(Base32(sum))) == Fixed(Leading(sum), 5)
  {
    var text := Base32(sum);
    assert Pow32(5) == 32 * 32 * 32 * 32 * 32;
    LengthAndSize(sum, 5);
    UpperIsFixed(sum);
    PaddedIsFixed(sum, 5);
    assert UpperAll(Zeros(5 - |text|) + text) == Zeros(5 - |text|) + UpperAll(text);
  }

  /** The upper-case loop, in place. */
  method UpperInPlace(buf: array<char>)
    requires forall j :: 0 <= j < buf.Length ==> buf[j] < 128 as char
    modifies buf
    ensures buf[..] == UpperAll(old(buf[..]))
  {
    ghost var plain := buf[..];
    for i := 0 to buf.Length
      invariant forall j :: 0 <= j < i ==> buf[j] == Upper(plain[j])
      invariant forall j :: i <= j < buf.Length ==> buf[j] == plain[j]
    {
      if buf[i] >= 'a' {
        buf[i] := (buf[i] as int - 32) as char;
      }
    }
  }

  /** The digits, padded with '0' on the left or cut to the first five. */
  method PadOrCut(text: string) returns (buf: array<char>)
    ensures fresh(buf) && buf[..] == FiveDigits(text)
  {
    buf := new char[5](_ => '0');
    var from := if |text| < 5 then 5 - |text| else 0;
    for i := from to 5
      invariant forall j :: 0 <= j < from ==> buf[j] == '0'
      invariant forall j :: from <= j < i ==> buf[j] == text[j - from]
    {
      buf[i] := text[i - from];
    }
  }

  /** shortID as written: the digits into a buffer, padded or cut to five, then made
      upper case in place. */
  method MakeShortId(hash: string -> Sum, profile: string, key: string) returns (id: string)
    ensures id == ShortId(hash, profile, key)
  {
    if |key| == 0 {
      return "";
    }
    var sum := hash(profile + key);
    var buf := PadOrCut(Base32(sum));
    BufferHoldsId(sum);
    assert forall j :: 0 <= j < 5 ==> buf[j] == buf[..][j];
    UpperInPlace(buf);
    return buf[..];
  }
}
