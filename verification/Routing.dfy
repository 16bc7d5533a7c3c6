/** Which NextDNS profile a query belongs to (nextdns.go), and the Corefile work that
    prepares it (setup.go). */
module Routing {
  import opened Base

  // ---- Profiles and prefixes -----------------------------------------------

  /** The profile shape: 4 to 64 letters and digits. */
  predicate ValidProfile(p: string) {
    4 <= |p| <= 64 && forall i :: 0 <= i < |p| ==> Alnum(p[i])
  }

  predicate ValidRoute(p: string) {
    p == PASSTHROUGH || ValidProfile(p)
  }

  /** What the cache key relies on. */
  lemma ValidRoutesHaveNoZero(p: string)
    requires ValidRoute(p)
    ensures '\0' !in p && p != ""
  {
  }

  function Width(a: Addr): nat {
    if a.V4? then V4_LEN else V6_LEN
  }

  predicate ValidAddr(a: Addr) {
    |a.bits| == Width(a)
  }

  /** A subnet: netip.Prefix. `bits` is -1 for the invalid prefix, which contains nothing. */
  datatype Prefix = Prefix(addr: Addr, bits: int)

  predicate SameFamily(a: Addr, b: Addr) {
    a.V4? == b.V4?
  }

  predicate Contains(p: Prefix, a: Addr) {
    && p.bits >= 0 && SameFamily(p.addr, a)
    && p.bits <= |p.addr.bits| && p.bits <= |a.bits|
    && p.addr.bits[..p.bits] == a.bits[..p.bits]
  }

  function Invalid(): Prefix {
    Prefix(V4([]), -1)
  }

  function WithBits(a: Addr, bits: seq<bool>): Addr {
    if a.V4? then V4(bits) else V6(bits)
  }

  /** netip.PrefixFrom followed by Masked: a length past the address is no prefix at
      all; otherwise the host bits are cleared. */
  function Masked(a: Addr, bits: nat): Prefix {
    if bits > |a.bits| then Invalid()
    else Prefix(WithBits(a, a.bits[..bits] + seq(|a.bits| - bits, _ => false)), bits)
  }

  /** An IPv4-mapped IPv6 address: 80 zero bits, 16 one bits, then the IPv4 address. */
  predicate Is4In6(a: Addr) {
    a.V6? && |a.bits| == V6_LEN
    && (forall i :: 0 <= i < 80 ==> !a.bits[i]) && (forall i :: 80 <= i < 96 ==> a.bits[i])
  }

  function Unmap(a: Addr): Addr {
    if Is4In6(a) then V4(a.bits[96..]) else a
  }

  /** What a client_profile argument parses to: an address with a length, a bare
      address, or neither. */
  datatype Subnet = Cidr(addr: Addr, bits: nat) | Host(addr: Addr) | Neither

  function ParsePrefix(s: Subnet): Option<Prefix> {
    match s
    case Cidr(addr, bits) => Some(Masked(Unmap(addr), bits))
    case Host(addr) => Some(Prefix(Unmap(addr), |Unmap(addr).bits|))
    case Neither => None
  }

  /** A prefix contains exactly the addresses of its family that agree with the
      address it was written with on its first `bits` bits. */
  lemma MaskedContains(a: Addr, bits: nat, b: Addr)
    requires ValidAddr(a) && ValidAddr(b) && bits <= |a.bits|
    ensures Contains(Masked(a, bits), b) <==> SameFamily(a, b) && a.bits[..bits] == b.bits[..bits]
  {
    var cleared := a.bits[..bits] + seq(|a.bits| - bits, _ => false);
    assert cleared[..bits] == a.bits[..bits];
  }

  /** A bare address is a subnet of that one address, unwrapped. */
  lemma HostContainsItself(written: Addr, a: Addr)
    requires ValidAddr(written) && ValidAddr(a)
    ensures Contains(ParsePrefix(Host(written)).value, a) <==> a == Unmap(written)
  {
    var w := Unmap(written);
    assert w.bits[..|w.bits|] == w.bits;
    assert a.bits[..|a.bits|] == a.bits;
  }

  /** ::ffff:a.b.c.d for a.b.c.d. */
  function MappedForm(bits: seq<bool>): Addr {
    V6(seq(80, _ => false) + seq(16, _ => true) + bits)
  }

  /** Unwrapping takes the IPv4-mapped form of an address to the address, and leaves every
      other address alone. */
  lemma UnmapIff(a: Addr, bits: seq<bool>)
    requires ValidAddr(a) && |bits| == V4_LEN
    ensures Unmap(MappedForm(bits)) == V4(bits)
    ensures Unmap(a) != a <==> a.V6? && a == MappedForm(a.bits[96..])
  {
    var m := MappedForm(bits);
    assert m.bits[96..] == bits;
    if a.V6? {
      var f := MappedForm(a.bits[96..]);
      assert forall i :: 0 <= i < 96 ==> f.bits[i] == (i >= 80);
      if Is4In6(a) {
        assert a.bits == f.bits;
      }
    }
  }

  /** A written CIDR is dead, containing no address at all, if and only if it is
      IPv4-mapped and its length is more than an IPv4 address has: the length is
      taken over from the longer form as it is. */
  lemma DeadPrefixIff(addr: Addr, bits: nat)
    requires ValidAddr(addr) && bits <= |addr.bits|
    ensures (forall b :: ValidAddr(b) ==> !Contains(ParsePrefix(Cidr(addr, bits)).value, b)) <==>
            Is4In6(addr) && bits > V4_LEN
  {
    var p := ParsePrefix(Cidr(addr, bits)).value;
    if !(Is4In6(addr) && bits > V4_LEN) {
      MaskedContains(Unmap(addr), bits, Unmap(addr));
      assert ValidAddr(Unmap(addr)) && Contains(p, Unmap(addr));
    }
  }

  // ---- Client addresses ----------------------------------------------------

  /** An address as it is parsed: with its interface zone, "" for none. */
  datatype Zoned = Zoned(addr: Addr, zone: string)

  /** netip.Prefix.Contains: no prefix contains an address that carries a zone. */
  predicate PrefixContains(p: Prefix, c: Zoned) {
    c.zone == "" && Contains(p, c.addr)
  }

  /** `clientAddr`: IPv4-mapped addresses unwrapped, the zone dropped, or nothing when the
      text did not parse. */
  function ClientAddr(parsed: Option<Zoned>): Option<Zoned> {
    if parsed.Some? then Some(Zoned(Unmap(parsed.value.addr), "")) else None
  }

  /** What is matched is never an IPv4-mapped address. */
  lemma ClientAddrIsUnmapped(parsed: Option<Zoned>)
    requires parsed.Some? ==> ValidAddr(parsed.value.addr)
    ensures ClientAddr(parsed).Some? <==> parsed.Some?
    ensures parsed.Some? ==>
              var c := ClientAddr(parsed).value; c.zone == "" && ValidAddr(c.addr) && !Is4In6(c.addr)
  {
  }

  /** Whatever zone a client came with and whichever form either address was written in,
      a subnet contains the normalised client exactly when the unwrapped addresses agree on
      its length; a zone left in place would match nothing. */
  lemma ClientAddrMatches(written: Addr, bits: nat, c: Zoned)
    requires ValidAddr(written) && ValidAddr(c.addr) && bits <= Width(Unmap(written))
    ensures var p, a := ParsePrefix(Cidr(written, bits)).value, Unmap(c.addr);
            && (PrefixContains(p, ClientAddr(Some(c)).value) <==>
                SameFamily(Unmap(written), a) && Unmap(written).bits[..bits] == a.bits[..bits])
            && (c.zone != "" ==> !PrefixContains(p, c))
  {
    assert |Unmap(written).bits| == Width(Unmap(written)) && |Unmap(c.addr).bits| == Width(Unmap(c.addr));
    MaskedContains(Unmap(written), bits, Unmap(c.addr));
  }

  // ---- Stable sort ---------------------------------------------------------

  datatype Rule = Rule(prefix: Prefix, profile: string)

  function OfBits(rules: seq<Rule>, bits: int): seq<Rule> {
    if rules == [] then []
    else (if rules[0].prefix.bits == bits then [rules[0]] else []) + OfBits(rules[1..], bits)
  }

  ghost predicate LongestFirst(rules: seq<Rule>) {
    forall i, j :: 0 <= i < j < |rules| ==> rules[i].prefix.bits >= rules[j].prefix.bits
  }

  /** `sorted` is a stable sort of `rules`, longest prefix first: it is in order, and
      the rules of each length are the same ones in the same order. */
  ghost predicate StableSortOf(sorted: seq<Rule>, rules: seq<Rule>) {
    LongestFirst(sorted) && forall bits :: OfBits(sorted, bits) == OfBits(rules, bits)
  }

  function Insert(rule: Rule, sorted: seq<Rule>): seq<Rule> {
    if sorted == [] || rule.prefix.bits >= sorted[0].prefix.bits then [rule] + sorted
    else [sorted[0]] + Insert(rule, sorted[1..])
  }

  function StableSort(rules: seq<Rule>): seq<Rule> {
    if rules == [] then [] else Insert(rules[0], StableSort(rules[1..]))
  }

  lemma OfBitsInFront(r: Rule, rest: seq<Rule>, bits: int)
    ensures OfBits([r] + rest, bits) == (if r.prefix.bits == bits then [r] else []) + OfBits(rest, bits)
  {
    assert ([r] + rest)[1..] == rest;
  }

  lemma Swapped(a: seq<Rule>, b: seq<Rule>, rest: seq<Rule>)
    requires a == [] || b == []
    ensures a + (b + rest) == b + (a + rest)
  {
  }

  lemma {:induction false} InsertOfBits(rule: Rule, sorted: seq<Rule>, bits: int)
    ensures OfBits(Insert(rule, sorted), bits) ==
            (if rule.prefix.bits == bits then [rule] else []) + OfBits(sorted, bits)
    decreases |sorted|
  {
    if sorted == [] || rule.prefix.bits >= sorted[0].prefix.bits {
      OfBitsInFront(rule, sorted, bits);
    } else {
      InsertOfBits(rule, sorted[1..], bits);
      OfBitsInFront(sorted[0], Insert(rule, sorted[1..]), bits);
      Swapped(if sorted[0].prefix.bits == bits then [sorted[0]] else [],
              if rule.prefix.bits == bits then [rule] else [], OfBits(sorted[1..], bits));
    }
  }

  lemma {:induction false} InsertKeepsOrder(rule: Rule, sorted: seq<Rule>)
    requires LongestFirst(sorted)
    ensures LongestFirst(Insert(rule, sorted))
    ensures forall r :: r in Insert(rule, sorted) ==> r == rule || r in sorted
    decreases |sorted|
  {
    if sorted != [] && rule.prefix.bits < sorted[0].prefix.bits {
      var rest := Insert(rule, sorted[1..]);
      InsertKeepsOrder(rule, sorted[1..]);
      forall j | 0 <= j < |rest| ensures rest[j].prefix.bits <= sorted[0].prefix.bits {
        assert rest[j] in rest;
      }
    }
  }

  /** sort.SliceStable exists as specified. */
  lemma {:induction false} StableSortSorts(rules: seq<Rule>)
    ensures StableSortOf(StableSort(rules), rules)
    decreases |rules|
  {
    if rules != [] {
      StableSortSorts(rules[1..]);
      InsertKeepsOrder(rules[0], StableSort(rules[1..]));
      forall bits ensures OfBits(StableSort(rules), bits) == OfBits(rules, bits) {
        InsertOfBits(rules[0], StableSort(rules[1..]), bits);
      }
    }
  }

  // ---- Longest prefix match ------------------------------------------------

  /** The scan of `profileFor`. */
  function FirstHit(rules: seq<Rule>, a: Addr): Option<Rule> {
    if rules == [] then None
    else if Contains(rules[0].prefix, a) then Some(rules[0])
    else FirstHit(rules[1..], a)
  }

  /** Rule `i`, in Corefile order, is the longest match: it contains the address, and
      any other that does is shorter, or as long and later. */
  ghost predicate LongestMatch(rules: seq<Rule>, a: Addr, i: nat) {
    && i < |rules| && Contains(rules[i].prefix, a)
    && forall j :: 0 <= j < |rules| && Contains(rules[j].prefix, a) ==>
         rules[j].prefix.bits < rules[i].prefix.bits || (rules[j].prefix.bits == rules[i].prefix.bits && i <= j)
  }

  lemma {:induction false} MemberOfBits(rules: seq<Rule>, bits: int, r: Rule)
    ensures r in OfBits(rules, bits) <==> r in rules && r.prefix.bits == bits
    decreases |rules|
  {
    if rules != [] {
      MemberOfBits(rules[1..], bits, r);
      assert rules == [rules[0]] + rules[1..];
    }
  }

  /** Among the rules of one length, the first hit is the first of them to contain
      the address. */
  lemma {:induction false} FirstHitOfBits(rules: seq<Rule>, bits: int, a: Addr, i: nat)
    requires i < |rules| && rules[i].prefix.bits == bits && Contains(rules[i].prefix, a)
    requires forall j :: 0 <= j < i && rules[j].prefix.bits == bits ==> !Contains(rules[j].prefix, a)
    ensures FirstHit(OfBits(rules, bits), a) == Some(rules[i])
    decreases |rules|
  {
    var rest := OfBits(rules[1..], bits);
    if i > 0 {
      FirstHitOfBits(rules[1..], bits, a, i - 1);
      if rules[0].prefix.bits == bits {
        assert OfBits(rules, bits)[1..] == rest;
      } else {
        assert OfBits(rules, bits) == rest;
      }
    }
  }

  lemma {:induction false} FirstHitAt(rules: seq<Rule>, a: Addr) returns (h: nat)
    requires FirstHit(rules, a).Some?
    ensures h < |rules| && FirstHit(rules, a) == Some(rules[h]) && Contains(rules[h].prefix, a)
    ensures forall j :: 0 <= j < h ==> !Contains(rules[j].prefix, a)
    decreases |rules|
  {
    if Contains(rules[0].prefix, a) {
      h := 0;
    } else {
      var k := FirstHitAt(rules[1..], a);
      h := k + 1;
    }
  }

  lemma {:induction false} NoHit(rules: seq<Rule>, a: Addr)
    ensures FirstHit(rules, a).None? <==> forall j :: 0 <= j < |rules| ==> !Contains(rules[j].prefix, a)
    decreases |rules|
  {
    if rules != [] {
      NoHit(rules[1..], a);
      assert forall j :: 1 <= j < |rules| ==> rules[j] == rules[1..][j - 1];
    }
  }

  /** Stable sort and first hit compute the longest match: of the Corefile's rules
      that contain the address, the longest, and of equally long ones the earliest. */
  lemma FirstHitIsLongestMatch(sorted: seq<Rule>, rules: seq<Rule>, a: Addr, i: nat)
    requires StableSortOf(sorted, rules) && LongestMatch(rules, a, i)
    ensures FirstHit(sorted, a) == Some(rules[i])
  {
    var bits := rules[i].prefix.bits;
    MemberOfBits(rules, bits, rules[i]);
    MemberOfBits(sorted, bits, rules[i]);
    NoHit(sorted, a);
    var h := FirstHitAt(sorted, a);
    MemberOfBits(sorted, sorted[h].prefix.bits, sorted[h]);
    MemberOfBits(rules, sorted[h].prefix.bits, sorted[h]);
    FirstHitOfBits(rules, bits, a, i);
    FirstHitOfBits(sorted, bits, a, h);
  }

  /** With no rule containing the address there is no hit; with one, there is a
      longest match. */
  lemma HitOrNoRule(sorted: seq<Rule>, rules: seq<Rule>, a: Addr)
    requires StableSortOf(sorted, rules)
    ensures FirstHit(sorted, a).None? <==> forall j :: 0 <= j < |rules| ==> !Contains(rules[j].prefix, a)
    ensures FirstHit(sorted, a).Some? ==> exists i: nat :: LongestMatch(rules, a, i) && FirstHit(sorted, a) == Some(rules[i])
  {
    NoHit(sorted, a);
    forall r ensures r in sorted <==> r in rules {
      MemberOfBits(sorted, r.prefix.bits, r);
      MemberOfBits(rules, r.prefix.bits, r);
    }
    if FirstHit(sorted, a).Some? {
      var h := FirstHitAt(sorted, a);
      assert sorted[h] in rules;
      var j: nat :| j < |rules| && rules[j] == sorted[h];
      var i := SomeLongestMatch(rules, a, |rules|, j);
      FirstHitIsLongestMatch(sorted, rules, a, i);
    } else {
      forall j | 0 <= j < |rules| ensures !Contains(rules[j].prefix, a) {
        assert rules[j] in sorted;
      }
    }
  }

  /** The longest match among the first `n` rules. */
  lemma {:induction false} SomeLongestMatch(rules: seq<Rule>, a: Addr, n: nat, j: nat) returns (i: nat)
    requires j < n <= |rules| && Contains(rules[j].prefix, a)
    ensures i < n && LongestMatch(rules[..n], a, i) && (n == |rules| ==> LongestMatch(rules, a, i))
    decreases n
  {
    var last := n - 1;
    if exists k: nat :: k < last && Contains(rules[k].prefix, a) {
      var k: nat :| k < last && Contains(rules[k].prefix, a);
      i := SomeLongestMatch(rules, a, last, k);
      assert LongestMatch(rules[..last], a, i);
      assert forall m :: 0 <= m < last ==> rules[..last][m] == rules[m];
      if Contains(rules[last].prefix, a) && rules[last].prefix.bits > rules[i].prefix.bits {
        i := last;
      }
    } else {
      i := last;
    }
    assert forall m :: 0 <= m < n ==> rules[..n][m] == rules[m];
    assert n == |rules| ==> rules[..n] == rules;
  }

  /** A prefix as parsing produces it: no host bits. */
  ghost predicate IsMasked(p: Prefix) {
    p.bits >= 0 ==> p.bits <= |p.addr.bits| == Width(p.addr) && forall i :: p.bits <= i < |p.addr.bits| ==> !p.addr.bits[i]
  }

  lemma ParsedIsMasked(s: Subnet)
    requires s.Cidr? || s.Host? ==> ValidAddr(s.addr)
    requires ParsePrefix(s).Some?
    ensures IsMasked(ParsePrefix(s).value)
  {
  }

  /** Two equally long prefixes that contain one address are the same prefix, so a
      tie is always between lines for one subnet. */
  lemma TiesAreOneSubnet(p: Prefix, q: Prefix, a: Addr)
    requires IsMasked(p) && IsMasked(q) && p.bits == q.bits && Contains(p, a) && Contains(q, a)
    ensures p == q
  {
    forall i | 0 <= i < |p.addr.bits| ensures p.addr.bits[i] == q.addr.bits[i] {
      if i < p.bits {
        assert p.addr.bits[i] == p.addr.bits[..p.bits][i] == a.bits[..p.bits][i] == q.addr.bits[..p.bits][i];
      }
    }
    assert p.addr.bits == q.addr.bits;
  }
}
