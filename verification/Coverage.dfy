/** Which client_profile lines can be taken at all: when the lines ahead of one leave it
    no address. */
module Coverage {
  import opened Base
  import opened Routing

  predicate ValidPrefix(p: Prefix) {
    ValidAddr(p.addr) && 0 <= p.bits <= |p.addr.bits|
  }

  /** Every address of `p` is in `q`. */
  predicate Holds(q: Prefix, p: Prefix) {
    q.bits <= p.bits && Contains(q, p.addr)
  }

  /** `q` is a proper part of `p`. */
  predicate Inside(q: Prefix, p: Prefix) {
    q.bits > p.bits && Contains(p, q.addr)
  }

  /** One half of a prefix, by its next bit. */
  function Half(p: Prefix, bit: bool): (h: Prefix)
    requires ValidPrefix(p) && p.bits < |p.addr.bits|
    ensures ValidPrefix(h) && h.bits == p.bits + 1
  {
    Prefix(WithBits(p.addr, p.addr.bits[p.bits := bit]), p.bits + 1)
  }

  /** The rules ahead leave nothing of `p`: one of them holds it, or some are parts of it
      and they leave nothing of either half. */
  predicate Covered(ahead: seq<Rule>, p: Prefix)
    requires ValidPrefix(p)
    decreases |p.addr.bits| - p.bits
  {
    || (exists k :: 0 <= k < |ahead| && Holds(ahead[k].prefix, p))
    || (p.bits < |p.addr.bits|
        && (exists k :: 0 <= k < |ahead| && Inside(ahead[k].prefix, p))
        && Covered(ahead, Half(p, false)) && Covered(ahead, Half(p, true)))
  }

  ghost predicate Caught(ahead: seq<Rule>, a: Addr) {
    exists k :: 0 <= k < |ahead| && Contains(ahead[k].prefix, a)
  }

  lemma HeldIsContained(q: Prefix, p: Prefix, a: Addr)
    requires ValidPrefix(p) && ValidAddr(a) && Holds(q, p) && Contains(p, a)
    ensures Contains(q, a)
  {
    assert p.addr.bits[..p.bits][..q.bits] == p.addr.bits[..q.bits];
    assert a.bits[..p.bits][..q.bits] == a.bits[..q.bits];
  }

  /** An address of a prefix is in the half its next bit says, and only addresses of the
      prefix are in a half. */
  lemma HalvesSplit(p: Prefix, a: Addr, bit: bool)
    requires ValidPrefix(p) && p.bits < |p.addr.bits| && ValidAddr(a)
    ensures Contains(Half(p, bit), a) <==> Contains(p, a) && a.bits[p.bits] == bit
  {
    var h := Half(p, bit);
    if SameFamily(p.addr, a) {
      assert h.addr.bits[..h.bits] == p.addr.bits[..p.bits] + [bit];
      assert a.bits[..h.bits] == a.bits[..p.bits] + [a.bits[p.bits]];
    }
  }

  lemma {:induction false} CoveredIsCaught(ahead: seq<Rule>, p: Prefix, a: Addr)
    requires ValidPrefix(p) && ValidAddr(a) && Covered(ahead, p) && Contains(p, a)
    ensures Caught(ahead, a)
    decreases |p.addr.bits| - p.bits
  {
    if k :| 0 <= k < |ahead| && Holds(ahead[k].prefix, p) {
      HeldIsContained(ahead[k].prefix, p, a);
    } else {
      HalvesSplit(p, a, a.bits[p.bits]);
      CoveredIsCaught(ahead, Half(p, a.bits[p.bits]), a);
    }
  }

  /** A prefix that holds the first address of `p` holds `p` or is a part of it. */
  lemma HoldsOrInside(q: Prefix, p: Prefix)
    requires ValidPrefix(p)
    ensures Contains(q, p.addr) ==> Holds(q, p) || Inside(q, p)
  {
    if Contains(q, p.addr) && q.bits > p.bits {
      assert q.addr.bits[..q.bits][..p.bits] == q.addr.bits[..p.bits];
      assert p.addr.bits[..q.bits][..p.bits] == p.addr.bits[..p.bits];
    }
  }

  lemma {:induction false} SomethingLeft(ahead: seq<Rule>, p: Prefix) returns (a: Addr)
    requires ValidPrefix(p) && !Covered(ahead, p)
    ensures ValidAddr(a) && Contains(p, a) && !Caught(ahead, a)
    decreases |p.addr.bits| - p.bits
  {
    if p.bits < |p.addr.bits| && exists k :: 0 <= k < |ahead| && Inside(ahead[k].prefix, p) {
      var bit := Covered(ahead, Half(p, false));
      a := SomethingLeft(ahead, Half(p, bit));
      HalvesSplit(p, a, bit);
    } else {
      a := p.addr;
      forall k | 0 <= k < |ahead|
        ensures !Contains(ahead[k].prefix, a)
      {
        HoldsOrInside(ahead[k].prefix, p);
      }
    }
  }

  /** A prefix is covered exactly when every address in it is in a rule ahead. */
  lemma CoveredIff(ahead: seq<Rule>, p: Prefix)
    requires ValidPrefix(p)
    ensures Covered(ahead, p) <==> forall a :: ValidAddr(a) && Contains(p, a) ==> Caught(ahead, a)
  {
    if Covered(ahead, p) {
      forall a | ValidAddr(a) && Contains(p, a)
        ensures Caught(ahead, a)
      {
        CoveredIsCaught(ahead, p, a);
      }
    } else {
      var a := SomethingLeft(ahead, p);
    }
  }

  /** Two lines for the halves of a subnet cover it, although neither does alone. */
  lemma HalvesCover(p: Prefix, low: string, high: string)
    requires ValidPrefix(p) && p.bits < |p.addr.bits|
    ensures var l, h := Rule(Half(p, false), low), Rule(Half(p, true), high);
            Covered([l, h], p) && !Covered([l], p) && !Covered([h], p)
  {
    var l, h := Rule(Half(p, false), low), Rule(Half(p, true), high);
    CoveredIff([l, h], p);
    forall a | ValidAddr(a) && Contains(p, a)
      ensures Caught([l, h], a)
    {
      HalvesSplit(p, a, a.bits[p.bits]);
      assert Contains([l, h][if a.bits[p.bits] then 1 else 0].prefix, a);
    }
    HalfLeavesOther(p, l, false);
    HalfLeavesOther(p, h, true);
  }

  lemma HalfLeavesOther(p: Prefix, r: Rule, bit: bool)
    requires ValidPrefix(p) && p.bits < |p.addr.bits| && r.prefix == Half(p, bit)
    ensures !Covered([r], p)
  {
    var a := Half(p, !bit).addr;
    HalvesSplit(p, a, !bit);
    HalvesSplit(p, a, bit);
    CoveredIff([r], p);
    assert !Caught([r], a);
  }

  /** ::ffff:0:0/96, the IPv4-mapped addresses. Clients with one are unwrapped before they
      are matched, so this block is ahead of every line. */
  function MappedBlock(): (p: Prefix)
    ensures ValidPrefix(p)
  {
    Prefix(V6(seq(80, _ => false) + seq(16, _ => true) + seq(32, _ => false)), 96)
  }

  lemma MappedBlockIff(a: Addr)
    requires ValidAddr(a)
    ensures Contains(MappedBlock(), a) <==> Is4In6(a)
  {
    var m := MappedBlock().addr.bits;
    assert forall i :: 0 <= i < 96 ==> m[i] == (i >= 80);
    if Is4In6(a) {
      assert m[..96] == a.bits[..96];
    } else if Contains(MappedBlock(), a) {
      assert forall i :: 0 <= i < 96 ==> a.bits[i] == a.bits[..96][i] == m[..96][i];
    }
  }

  /** What is ahead of line `i`. */
  function Ahead(rules: seq<Rule>, i: nat): seq<Rule>
    requires i <= |rules|
  {
    [Rule(MappedBlock(), "")] + rules[..i]
  }

  lemma AheadCatches(rules: seq<Rule>, i: nat, a: Addr)
    requires i <= |rules| && ValidAddr(a)
    ensures Caught(Ahead(rules, i), a) <==> Is4In6(a) || Caught(rules[..i], a)
  {
    MappedBlockIff(a);
    var ahead := Ahead(rules, i);
    assert ahead[0].prefix == MappedBlock();
    assert forall k :: 0 <= k < i ==> ahead[k + 1] == rules[..i][k];
    if Caught(rules[..i], a) {
      var k :| 0 <= k < i && Contains(rules[..i][k].prefix, a);
      assert Contains(ahead[k + 1].prefix, a);
    }
    if Caught(ahead, a) && !Is4In6(a) {
      var k :| 0 <= k < |ahead| && Contains(ahead[k].prefix, a);
      assert Contains(rules[..i][k - 1].prefix, a);
    }
  }

  /** A line that can be taken: of a prefix that is one, not covered by what is ahead. */
  predicate LiveLine(rules: seq<Rule>, i: nat) {
    i < |rules| && ValidPrefix(rules[i].prefix) && !Covered(Ahead(rules, i), rules[i].prefix)
  }

  /** An address a client can have once it is normalised. */
  predicate ClientLike(a: Addr) {
    ValidAddr(a) && !Is4In6(a)
  }

  ghost predicate HitBy(rules: seq<Rule>, i: nat, a: Addr) {
    i < |rules| && ClientLike(a) && Contains(rules[i].prefix, a) && !Caught(rules[..i], a)
  }

  lemma {:induction false} HitByIsFirst(rules: seq<Rule>, i: nat, a: Addr)
    requires HitBy(rules, i, a)
    ensures FirstHit(rules, a) == Some(rules[i])
    decreases i
  {
    if i > 0 {
      assert rules[..i][0] == rules[0];
      assert !Contains(rules[0].prefix, a);
      var rest := rules[1..][..i - 1];
      forall k | 0 <= k < |rest|
        ensures !Contains(rest[k].prefix, a)
      {
        assert rules[..i][k + 1] == rest[k];
      }
      HitByIsFirst(rules[1..], i - 1, a);
    }
  }

  /** What is ahead leaves something of a prefix exactly when some client in it is caught
      by no line ahead. */
  lemma LeftIff(rules: seq<Rule>, i: nat, p: Prefix)
    requires i <= |rules| && ValidPrefix(p)
    ensures !Covered(Ahead(rules, i), p) <==> exists a :: ClientLike(a) && Contains(p, a) && !Caught(rules[..i], a)
  {
    if Covered(Ahead(rules, i), p) {
      forall a | ClientLike(a) && Contains(p, a)
        ensures Caught(rules[..i], a)
      {
        CoveredIsCaught(Ahead(rules, i), p, a);
        AheadCatches(rules, i, a);
      }
    } else {
      var a := SomethingLeft(Ahead(rules, i), p);
      AheadCatches(rules, i, a);
    }
  }

  /** A line is live exactly when it is the first hit of some client. */
  lemma LiveIffHit(rules: seq<Rule>, i: nat)
    requires i < |rules| && IsMasked(rules[i].prefix)
    ensures LiveLine(rules, i) <==> exists a :: HitBy(rules, i, a)
  {
    if ValidPrefix(rules[i].prefix) {
      LeftIff(rules, i, rules[i].prefix);
      if LiveLine(rules, i) {
        var a :| ClientLike(a) && Contains(rules[i].prefix, a) && !Caught(rules[..i], a);
        assert HitBy(rules, i, a);
      }
    }
  }

  /** Two lines, ::fffe:0:0/96 and the /95 that is it and the mapped block: the first line
      and the mapped block leave nothing of the second, although the first alone does. */
  lemma MappedHalfCovers(first: string, second: string)
    ensures var high := MappedBlock();
            var low := Half(Prefix(high.addr, 95), false);
            var whole := Prefix(low.addr, 95);
            var rules := [Rule(low, first), Rule(whole, second)];
            && ValidPrefix(whole) && Half(whole, true) == high && Half(whole, false) == low
            && IsMasked(low) && IsMasked(whole)
            && !LiveLine(rules, 1) && !Covered([rules[0]], whole)
  {
    var high := MappedBlock();
    assert high.addr.bits[95];
    var low := Half(Prefix(high.addr, 95), false);
    var whole := Prefix(low.addr, 95);
    assert Half(whole, true).addr.bits == high.addr.bits;
    assert Half(whole, false).addr.bits == low.addr.bits;
    var rules := [Rule(low, first), Rule(whole, second)];
    assert rules[..1] == [Rule(low, first)];
    HalfLeavesOther(whole, Rule(low, first), false);
    forall a | ClientLike(a) && Contains(whole, a)
      ensures Caught(rules[..1], a)
    {
      HalvesSplit(whole, a, a.bits[95]);
      MappedBlockIff(a);
      assert Contains(rules[..1][0].prefix, a);
    }
    LeftIff(rules, 1, whole);
  }
}
