/** Questions, replies and the pure parts of the cache (cache.go): what identifies an
    entry, the bytes that are hashed, and the TTL arithmetic. */
module Answers {
  import opened Base

  type U16 = n: nat | n < 0x1_0000
  type U32 = n: nat | n < 0x1_0000_0000

  datatype Question = Question(name: string, qtype: U16, qclass: U16)

  const TYPE_PTR: U16 := 12
  const TYPE_OPT: U16 := 41
  const RCODE_SUCCESS := 0
  const RCODE_NXDOMAIN := 3

  function LowerChar(c: char): char {
    if 'A' <= c <= 'Z' then (c as int + 32) as char else c
  }

  function Lower(s: string): string {
    seq(|s|, i requires 0 <= i < |s| => LowerChar(s[i]))
  }

  /** A request as request.Request presents it: the root name and zero types stand in
      for a missing question. */
  datatype Request = Request(questions: seq<Question>, do: bool, cd: bool) {
    function Name(): string { if questions == [] then "." else Lower(questions[0].name) }
    function QType(): U16 { if questions == [] then 0 else questions[0].qtype }
    function QClass(): U16 { if questions == [] then 0 else questions[0].qclass }
  }

  /** A resource record; for OPT (section 6.1.3 of RFC 6891) the TTL field is not a lifetime. */
  datatype RR = RR(rrtype: U16, ttl: U32, data: string)

  datatype Reply = Reply(
    rcode: nat,
    truncated: bool,
    questions: seq<Question>,
    answer: seq<RR>,
    ns: seq<RR>,
    extra: seq<RR>)

  // ---- Identity ------------------------------------------------------------

  /** The full identity of a cached answer. */
  datatype Ident = Ident(profile: string, qname: string, qtype: U16, qclass: U16, do: bool, cd: bool)

  function IdentOf(profile: string, req: Request): Ident {
    Ident(profile, req.Name(), req.QType(), req.QClass(), req.do, req.cd)
  }

  function BigEndian(n: U16): string {
    [(n / 256) as char, (n % 256) as char]
  }

  function Flags(do: bool, cd: bool): char {
    ((if do then 1 else 0) + (if cd then 2 else 0)) as char
  }

  /** The byte buffer `cacheKey` hashes, bytes written as characters. */
  function KeyBytes(id: Ident): string {
    id.profile + ['\0'] + id.qname + BigEndian(id.qtype) + BigEndian(id.qclass) + [Flags(id.do, id.cd)]
  }

  lemma BigEndianInjective(m: U16, n: U16)
    requires BigEndian(m) == BigEndian(n)
    ensures m == n
  {
    assert (m / 256) as char == BigEndian(m)[0] && (m % 256) as char == BigEndian(m)[1];
    assert (n / 256) as char == BigEndian(n)[0] && (n % 256) as char == BigEndian(n)[1];
    assert m == 256 * (m / 256) + m % 256;
    assert n == 256 * (n / 256) + n % 256;
  }

  lemma KeyBytesShape(id: Ident)
    ensures var b := KeyBytes(id);
            var tail := |id.profile| + 1 + |id.qname|;
            && |b| == tail + 5
            && b[..|id.profile|] == id.profile
            && b[|id.profile|] == '\0'
            && b[|id.profile| + 1..tail] == id.qname
            && b[tail..tail + 2] == BigEndian(id.qtype)
            && b[tail + 2..tail + 4] == BigEndian(id.qclass)
            && b[tail + 4] == Flags(id.do, id.cd)
  {
  }

  predicate FirstZeroAt(b: string, n: nat) {
    n < |b| && b[n] == '\0' && forall i :: 0 <= i < n ==> b[i] != '\0'
  }

  lemma ProfileEndsAtFirstZero(id: Ident)
    requires '\0' !in id.profile
    ensures FirstZeroAt(KeyBytes(id), |id.profile|)
  {
    var b := KeyBytes(id);
    assert forall i :: 0 <= i < |id.profile| ==> b[i] == id.profile[i];
  }

  /** The hashed bytes determine the identity: the profile ends at the first zero
      byte, and the last five bytes have fixed meanings. */
  lemma KeyBytesInjective(x: Ident, y: Ident)
    requires '\0' !in x.profile && '\0' !in y.profile
    requires KeyBytes(x) == KeyBytes(y)
    ensures x == y
  {
    ProfileEndsAtFirstZero(x);
    ProfileEndsAtFirstZero(y);
    KeyBytesShape(x);
    KeyBytesShape(y);
    BigEndianInjective(x.qtype, y.qtype);
    BigEndianInjective(x.qclass, y.qclass);
  }

  // ---- One identity --------------------------------------------------------

  predicate SameLetter(a: char, b: char) {
    || a == b
    || ('A' <= a <= 'Z' && b as int == a as int + 32)
    || ('A' <= b <= 'Z' && a as int == b as int + 32)
  }

  /** Equal up to the case of ASCII letters. */
  ghost predicate SameName(s: string, t: string) {
    |s| == |t| && forall i :: 0 <= i < |s| ==> SameLetter(s[i], t[i])
  }

  lemma LowerIff(s: string, t: string)
    ensures Lower(s) == Lower(t) <==> SameName(s, t)
  {
    if Lower(s) == Lower(t) {
      forall i | 0 <= i < |s|
        ensures SameLetter(s[i], t[i])
      {
        assert LowerChar(s[i]) == Lower(s)[i] == Lower(t)[i] == LowerChar(t[i]);
      }
    }
  }

  /** Two questions share an entry exactly when the profile, the type, the class and both
      flags are the same and the names differ at most in case. */
  lemma SameIdentIff(p: string, x: Request, q: string, y: Request)
    requires x.questions != [] && y.questions != []
    ensures IdentOf(p, x) == IdentOf(q, y) <==>
            && p == q && SameName(x.questions[0].name, y.questions[0].name)
            && x.questions[0].qtype == y.questions[0].qtype && x.questions[0].qclass == y.questions[0].qclass
            && x.do == y.do && x.cd == y.cd
  {
    LowerIff(x.questions[0].name, y.questions[0].name);
  }

  // ---- Lifetimes -----------------------------------------------------------

  const SECOND: Time := 1_000_000_000

  /** The clamping of `put`, in the order the source applies it. */
  function Clamp(raw: Time, min: Time, max: Time): Time {
    var ttl := if raw < min then min else raw;
    if ttl > max then max else ttl
  }

  function Distance(a: Time, b: Time): Time {
    if a < b then b - a else a - b
  }

  /** The lifetime is the value within the bounds nearest to the message's TTL. */
  lemma ClampInRange(raw: Time, min: Time, max: Time)
    requires min <= max
    ensures min <= Clamp(raw, min, max) <= max
    ensures min <= raw <= max ==> Clamp(raw, min, max) == raw
    ensures raw < min ==> Clamp(raw, min, max) == min
    ensures raw > max ==> Clamp(raw, min, max) == max
    ensures forall v :: min <= v <= max ==> Distance(raw, Clamp(raw, min, max)) <= Distance(raw, v)
  {
  }

  /** Go's int64 arithmetic: two's complement wrap-around, division towards zero. */
  function Int64(n: int): int {
    var m := n % 0x1_0000_0000_0000_0000;
    if m >= 0x8000_0000_0000_0000 then m - 0x1_0000_0000_0000_0000 else m
  }

  function DivTrunc(a: int, b: int): int
    requires b > 0
  {
    if a >= 0 then a / b else -((-a) / b)
  }

  /** The TTL `get` writes: `uint32((remaining + time.Second - 1) / time.Second)`. */
  function TtlFor(remaining: Time): U32 {
    DivTrunc(Int64(remaining + SECOND - 1), SECOND) % 0x1_0000_0000
  }

  const MAX_TTL: Time := 0xFFFF_FFFF * SECOND

  /** Up to 2^32 - 1 seconds the TTL is the remaining lifetime rounded up: at least 1,
      never short, and less than a second past the expiry. */
  lemma TtlRoundsUp(remaining: Time)
    requires 0 < remaining <= MAX_TTL
    ensures TtlFor(remaining) >= 1
    ensures remaining <= TtlFor(remaining) * SECOND < remaining + SECOND
  {
  }

  /** The TTL handed out for one entry never increases. */
  lemma TtlNeverIncreases(early: Time, late: Time)
    requires 0 < late <= early <= MAX_TTL
    ensures TtlFor(late) <= TtlFor(early)
  {
  }

  predicate Covers(ttl: U32, remaining: Time) {
    remaining <= ttl * SECOND
  }

  /** An entry of that lifetime, at every age at which it is still served, is handed out
      with a TTL that covers what remains of it. */
  ghost predicate TtlsHonest(ttl: Time) {
    forall remaining: Time :: 0 < remaining <= ttl ==> Covers(TtlFor(remaining), remaining)
  }

  lemma WrapsPastMax()
    ensures TtlFor(MAX_TTL + 1) == 0 && !Covers(TtlFor(MAX_TTL + 1), MAX_TTL + 1)
  {
  }

  /** setup.go accepts any 0 <= minimum <= maximum. The TTL of a message is at most
      2^32 - 1 seconds, its fields being 32 bits wide; so, whatever the message, the TTLs
      its entry goes out with are honest exactly when the minimum it is raised to is no
      more than that either. With a larger minimum the conversion to uint32 wraps, and
      every entry goes out with TTL 0 when it has 2^32 seconds left. */
  lemma TtlsHonestIffMinFits(raw: Time, min: Time, max: Time)
    requires 0 <= raw <= MAX_TTL && 0 <= min <= max
    ensures TtlsHonest(Clamp(raw, min, max)) <==> min <= MAX_TTL
  {
    if min <= MAX_TTL {
      forall remaining: Time | 0 < remaining <= Clamp(raw, min, max)
        ensures Covers(TtlFor(remaining), remaining)
      {
        TtlRoundsUp(remaining);
      }
    } else {
      WrapsPastMax();
      assert MAX_TTL + 1 <= Clamp(raw, min, max);
    }
  }

  // ---- Entries -------------------------------------------------------------

  datatype Entry = Entry(stored: Time, ttl: Time, reply: Reply, id: Ident)

  /** What `put` accepts. */
  predicate Cacheable(req: Request, m: Reply) {
    req.QType() != TYPE_PTR && !m.truncated && (m.rcode == RCODE_SUCCESS || m.rcode == RCODE_NXDOMAIN)
  }

  function MakeEntry(profile: string, req: Request, m: Reply, raw: Time, now: Time, min: Time, max: Time): Entry {
    Entry(now, Clamp(raw, min, max), m, IdentOf(profile, req))
  }

  /** `get` once it has its entry: not older than the last configuration change, and
      with some lifetime left. */
  predicate Usable(e: Entry, changed: Time, now: Time) {
    e.stored >= changed && e.ttl - (now - e.stored) > 0
  }

  function WithTtl(rrs: seq<RR>, ttl: U32): seq<RR> {
    seq(|rrs|, i requires 0 <= i < |rrs| => if rrs[i].rrtype == TYPE_OPT then rrs[i] else rrs[i].(ttl := ttl))
  }

  /** The reply as handed out: every TTL but OPT's rewritten, and the question echoed
      as it was asked. */
  function Rewritten(m: Reply, ttl: U32, req: Request): Reply {
    m.(answer := WithTtl(m.answer, ttl), ns := WithTtl(m.ns, ttl), extra := WithTtl(m.extra, ttl),
       questions := if req.questions == [] then m.questions else [req.questions[0]])
  }

  function Served(e: Entry, req: Request, now: Time): Reply {
    Rewritten(e.reply, TtlFor(e.ttl - (now - e.stored)), req)
  }

  /** What a reply says apart from TTLs and the spelling of the question. */
  function Substance(m: Reply): Reply {
    m.(answer := WithTtl(m.answer, 0), ns := WithTtl(m.ns, 0), extra := WithTtl(m.extra, 0), questions := [])
  }

  /** The same records in the same order, TTLs apart; OPT records as they are. */
  ghost predicate SameRecords(a: seq<RR>, b: seq<RR>) {
    && |a| == |b|
    && (forall i :: 0 <= i < |a| ==> a[i].rrtype == b[i].rrtype && a[i].data == b[i].data)
    && (forall i :: 0 <= i < |a| && a[i].rrtype == TYPE_OPT ==> a[i] == b[i])
  }

  /** Handing a reply out changes nothing else, and leaves OPT records alone. */
  lemma RewritingKeepsSubstance(m: Reply, ttl: U32, req: Request)
    ensures Substance(Rewritten(m, ttl, req)) == Substance(m)
    ensures forall i :: 0 <= i < |m.extra| && m.extra[i].rrtype == TYPE_OPT ==>
              Rewritten(m, ttl, req).extra[i] == m.extra[i]
    ensures var r := Rewritten(m, ttl, req);
            && r.rcode == m.rcode && r.truncated == m.truncated
            && SameRecords(r.answer, m.answer) && SameRecords(r.ns, m.ns) && SameRecords(r.extra, m.extra)
  {
    var r := Rewritten(m, ttl, req);
    assert WithTtl(r.answer, 0) == WithTtl(m.answer, 0);
    assert WithTtl(r.ns, 0) == WithTtl(m.ns, 0);
    assert WithTtl(r.extra, 0) == WithTtl(m.extra, 0);
  }

  /** Where the minimum does not fit, every reply goes out at some age with all its TTLs 0,
      whoever asks for it. */
  lemma OverlongMinimumServesZero(profile: string, put: Request, m: Reply, raw: Time, now: Time, min: Time, max: Time, ask: Request)
    requires 0 <= raw <= MAX_TTL < min <= max
    ensures var e := MakeEntry(profile, put, m, raw, now, min, max);
            exists at :: now <= at && Usable(e, now, at) && Served(e, ask, at) == Rewritten(m, 0, ask)
  {
    var e := MakeEntry(profile, put, m, raw, now, min, max);
    var at := now + (e.ttl - (MAX_TTL + 1));
    WrapsPastMax();
    assert Usable(e, now, at) && Served(e, ask, at) == Rewritten(m, 0, ask);
  }
}
