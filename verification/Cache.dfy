/** The cache over mutable messages (cache.go): `put` and `get` both copy, so what
    callers do to a message they passed in or got back never reaches an entry. */
module Cache {
  import opened Base
  import opened Answers
  import Store

  type Key = Store.Key

  const DEFAULT_CAPACITY := 10000

  /** A message object. The records of a section sit in one array and their TTLs are
      rewritten in place. */
  class Msg {
    var rcode: nat
    var truncated: bool
    var questions: seq<Question>
    const answer: array<RR>
    const ns: array<RR>
    const extra: array<RR>

    constructor (rcode: nat, truncated: bool, questions: seq<Question>, answer: array<RR>, ns: array<RR>, extra: array<RR>)
      ensures this.rcode == rcode && this.truncated == truncated && this.questions == questions
      ensures this.answer == answer && this.ns == ns && this.extra == extra
    {
      this.rcode, this.truncated, this.questions := rcode, truncated, questions;
      this.answer, this.ns, this.extra := answer, ns, extra;
    }

    /** Every object a holder of this message can write to. */
    ghost function Reach(): set<object> {
      {this, answer, ns, extra}
    }

    ghost predicate Within(s: set<object>) {
      this in s && answer in s && ns in s && extra in s
    }

    ghost function Value(): Reply
      reads this, answer, ns, extra
    {
      Reply(rcode, truncated, questions, answer[..], ns[..], extra[..])
    }

    method Copy() returns (m: Msg)
      ensures fresh(m.Reach()) && m.Value() == Value()
    {
      var a := CopySection(answer);
      var n := CopySection(ns);
      var e := CopySection(extra);
      m := new Msg(rcode, truncated, questions, a, n, e);
    }

    /** `setTTL`: every section, in place. */
    method SetTtl(ttl: U32)
      modifies answer, ns, extra
      ensures Value() == Retimed(old(Value()), ttl)
    {
      SetSectionTtl(answer, ttl);
      assert answer[..] == WithTtl(old(answer[..]), ttl);
      SetSectionTtl(ns, ttl);
      SetSectionTtl(extra, ttl);
    }
  }

  method CopySection(rrs: array<RR>) returns (copy: array<RR>)
    ensures fresh(copy) && copy[..] == rrs[..]
  {
    copy := new RR[rrs.Length](i requires 0 <= i < rrs.Length reads rrs => rrs[i]);
  }

  /** One section of `setTTL`: every record but OPT. */
  method SetSectionTtl(rrs: array<RR>, ttl: U32)
    modifies rrs
    ensures rrs[..] == WithTtl(old(rrs[..]), ttl)
  {
    for i := 0 to rrs.Length
      invariant forall j :: 0 <= j < i ==> rrs[j] == WithTtl(old(rrs[..]), ttl)[j]
      invariant forall j :: i <= j < rrs.Length ==> rrs[j] == old(rrs[j])
    {
      if rrs[i].rrtype != TYPE_OPT {
        rrs[i] := rrs[i].(ttl := ttl);
      }
    }
  }

  /** A message with every TTL but OPT's set. */
  function Retimed(m: Reply, ttl: U32): Reply {
    m.(answer := WithTtl(m.answer, ttl), ns := WithTtl(m.ns, ttl), extra := WithTtl(m.extra, ttl))
  }

  /** The part of the DoH client the cache asks: when a profile last changed. */
  class Client {
    var lastMod: map<string, Time>

    constructor ()
      ensures lastMod == map[]
    {
      lastMod := map[];
    }

    function ConfChangedAt(profile: string): Time
      reads this
    {
      if profile in lastMod then lastMod[profile] else 0
    }

    /** A reported change is taken in when it is news, and never moves a time back. */
    method UpdateLastMod(profile: string, t: Time)
      modifies this
      ensures ConfChangedAt(profile) == if t > old(ConfChangedAt(profile)) then t else old(ConfChangedAt(profile))
      ensures forall p :: p != profile ==> ConfChangedAt(p) == old(ConfChangedAt(p))
    {
      var cur := ConfChangedAt(profile);
      if t <= cur {
        return;
      }
      if t > ConfChangedAt(profile) {
        lastMod := lastMod[profile := t];
      }
    }
  }

  /** A cache entry holds a message object. */
  datatype Item = Item(stored: Time, ttl: Time, id: Ident, msg: Msg)

  ghost function EntryOf(it: Item): Entry
    reads it.msg, it.msg.answer, it.msg.ns, it.msg.extra
  {
    Entry(it.stored, it.ttl, it.msg.Value(), it.id)
  }

  /** What `get` is to answer, given the entries as values. */
  ghost function Answer(contents: map<Key, Entry>, key: Key, profile: string, req: Request, changed: Time, now: Time)
    : Option<Reply>
  {
    if req.QType() == TYPE_PTR then None
    else
      match Store.Lookup(contents, key)
      case None => None
      case Some(e) =>
        if e.id == IdentOf(profile, req) && Usable(e, changed, now) then Some(Served(e, req, now)) else None
  }

  /** Put, then get: right after a reply has been stored, a question of the same identity is
      answered by it exactly while its lifetime within the bounds lasts and no later change
      has been reported, with the same records and the question as it was asked. */
  lemma PutThenAnswerIff(contents: map<Key, Entry>, drop: set<Key>, key: Key, profile: string, put: Request, m: Reply,
      raw: Time, now: Time, min: Time, max: Time, ask: Request, changed: Time, later: Time)
    requires min <= max && now <= later && ask.QType() != TYPE_PTR && IdentOf(profile, ask) == IdentOf(profile, put)
    ensures var r := Answer(Store.Put(contents, key, MakeEntry(profile, put, m, raw, now, min, max), drop),
                            key, profile, ask, changed, later);
            var life := if raw < min then min else if raw > max then max else raw;
            && (r.Some? <==> later - now < life && changed <= now)
            && (r.Some? ==>
                  && r.value.rcode == m.rcode && SameRecords(r.value.answer, m.answer)
                  && SameRecords(r.value.ns, m.ns) && SameRecords(r.value.extra, m.extra)
                  && r.value.questions == if ask.questions == [] then m.questions else [ask.questions[0]])
  {
    ClampInRange(raw, min, max);
    RewritingKeepsSubstance(m, TtlFor(Clamp(raw, min, max) - (later - now)), ask);
  }

  /** The cache. Its store appears as the plain map that the shards are proved to refine
      (`Store.PutInFlattens`, `Store.SameDrops`), each with room for `size` entries. */
  class MsgCache {
    const client: Client
    const minTtl: Time
    const maxTtl: Time
    const size: nat
    const hash: string -> Key
    var items: map<Key, Item>
    ghost var Msgs: set<object>  // everything reachable from the cached messages
    ghost var Contents: map<Key, Entry>  // the entries, as values

    ghost predicate Valid()
      reads this, Msgs
    {
      && this !in Msgs && client !in Msgs
      && items.Keys == Contents.Keys
      && (forall k :: k in items ==> items[k].msg.Within(Msgs))
      && (forall k :: k in items ==> Contents[k] == EntryOf(items[k]))
    }

    constructor (client: Client, capacity: int, minTtl: Time, maxTtl: Time, hash: string -> Key)
      ensures Valid() && Msgs == {} && Contents == map[]
      ensures this.client == client && this.minTtl == minTtl && this.maxTtl == maxTtl && this.hash == hash
      ensures size == Store.ShardSize(if capacity <= 0 then DEFAULT_CAPACITY else capacity)
    {
      this.client, this.minTtl, this.maxTtl, this.hash := client, minTtl, maxTtl, hash;
      size := Store.ShardSize(if capacity <= 0 then DEFAULT_CAPACITY else capacity);
      items, Msgs, Contents := map[], {}, map[];
    }

    /** The copy `get` hands out for an entry. */
    method Render(e: Item, req: Request, now: Time) returns (m: Msg)
      ensures fresh(m.Reach()) && m.Value() == Served(EntryOf(e), req, now)
    {
      m := e.msg.Copy();
      m.SetTtl(TtlFor(e.ttl - (now - e.stored)));
      if req.questions != [] {
        m.questions := [req.questions[0]];
      }
    }

    /** A usable reply for this question, as a message nobody else holds. */
    method Get(profile: string, req: Request, now: Time) returns (m: Option<Msg>)
      requires Valid()
      ensures m.Some? ==> fresh(m.value.Reach())
      ensures Answer(Contents, hash(KeyBytes(IdentOf(profile, req))), profile, req, client.ConfChangedAt(profile), now) ==
              if m.Some? then Some(m.value.Value()) else None
    {
      if req.QType() == TYPE_PTR {
        return None;
      }
      var key := hash(KeyBytes(IdentOf(profile, req)));
      if key !in items || items[key].id != IdentOf(profile, req) {
        return None;
      }
      var e := items[key];
      if e.stored < client.ConfChangedAt(profile) || e.ttl - (now - e.stored) <= 0 {
        return None;
      }
      var copy := Render(e, req, now);
      return Some(copy);
    }

    method Drop(key: Key)
      requires Valid() && key in items
      modifies this`items, this`Contents
      ensures Valid() && Contents == old(Contents) - {key}
    {
      items := items - {key};
      Contents := Contents - {key};
    }

    /** Make room: an arbitrary entry of a full shard goes when the key is new to it. */
    method Evict(key: Key) returns (ghost drop: set<Key>)
      requires Valid()
      modifies this`items, this`Contents
      ensures Valid() && Contents == old(Contents) - drop
      ensures Store.MayDropFlat(old(Contents), size, key, drop)
    {
      drop := {};
      var shard := Store.InShard(items, Store.ShardOf(key));
      assert shard == Store.InShard(Contents, Store.ShardOf(key));
      if key !in items && |shard| >= size && shard != {} {
        var k :| k in shard;
        drop := {k};
        Drop(k);
      }
    }

    method Insert(key: Key, it: Item)
      requires Valid() && this !in it.msg.Reach() && client !in it.msg.Reach()
      modifies this`items, this`Msgs, this`Contents
      ensures Valid() && Msgs == old(Msgs) + it.msg.Reach()
      ensures Contents == old(Contents)[key := old(EntryOf(it))]
    {
      Contents := Contents[key := EntryOf(it)];
      items := items[key := it];
      Msgs := Msgs + it.msg.Reach();
    }

    /** The store's Add. */
    method Add(key: Key, it: Item) returns (ghost drop: set<Key>)
      requires Valid() && this !in it.msg.Reach() && client !in it.msg.Reach()
      modifies this`items, this`Msgs, this`Contents
      ensures Valid() && Msgs == old(Msgs) + it.msg.Reach()
      ensures Contents == Store.Put(old(Contents), key, old(EntryOf(it)), drop)
      ensures Store.MayDropFlat(old(Contents), size, key, drop)
    {
      drop := Evict(key);
      Insert(key, it);
    }

    /** A copy of the message goes in. */
    method AddCopy(key: Key, id: Ident, m: Msg, ttl: Time, now: Time) returns (ghost drop: set<Key>)
      requires Valid()
      modifies this`items, this`Msgs, this`Contents
      ensures Valid() && fresh(Msgs - old(Msgs))
      ensures Contents == Store.Put(old(Contents), key, Entry(now, ttl, m.Value(), id), drop)
      ensures Store.MayDropFlat(old(Contents), size, key, drop)
    {
      var copy := m.Copy();
      drop := Add(key, Item(now, ttl, id, copy));
    }

    /** Store a copy of an acceptable reply; anything else is ignored. */
    method Put(profile: string, req: Request, m: Msg, raw: Time, now: Time) returns (ghost drop: set<Key>)
      requires Valid()
      modifies this`items, this`Msgs, this`Contents
      ensures Valid() && fresh(Msgs - old(Msgs))
      ensures !Cacheable(req, m.Value()) ==> Contents == old(Contents)
      ensures Cacheable(req, m.Value()) ==>
        Contents == Store.Put(old(Contents), hash(KeyBytes(IdentOf(profile, req))),
                              MakeEntry(profile, req, m.Value(), raw, now, minTtl, maxTtl), drop)
      ensures Cacheable(req, m.Value()) ==>
        Store.MayDropFlat(old(Contents), size, hash(KeyBytes(IdentOf(profile, req))), drop)
    {
      drop := {};
      if req.QType() == TYPE_PTR || m.truncated {
        return;
      }
      if m.rcode != RCODE_SUCCESS && m.rcode != RCODE_NXDOMAIN {
        return;
      }
      var ttl := raw;
      if ttl < minTtl {
        ttl := minTtl;
      }
      if ttl > maxTtl {
        ttl := maxTtl;
      }
      drop := AddCopy(hash(KeyBytes(IdentOf(profile, req))), IdentOf(profile, req), m, ttl, now);
    }
  }

  /** A caller that keeps the message it put and then does anything at all to it
      leaves the cache as the put left it. */
  method PutThenScribble(mc: MsgCache, profile: string, req: Request, m: Msg, raw: Time, now: Time) returns (ghost drop: set<Key>)
    requires mc.Valid() && m.Reach() !! mc.Msgs
    modifies mc`items, mc`Msgs, mc`Contents, m, m.answer, m.ns, m.extra
    ensures mc.Valid() && m.Reach() !! mc.Msgs
    ensures Cacheable(req, old(m.Value())) ==>
      mc.Contents == Store.Put(old(mc.Contents), mc.hash(KeyBytes(IdentOf(profile, req))),
                               MakeEntry(profile, req, old(m.Value()), raw, now, mc.minTtl, mc.maxTtl), drop)
    ensures !Cacheable(req, old(m.Value())) ==> mc.Contents == old(mc.Contents)
  {
    drop := mc.Put(profile, req, m, raw, now);
    modify m, m.answer, m.ns, m.extra;
  }

  /** A caller that does anything at all to the message of a hit does not change what
      the same question is answered the next time. */
  method ScribbleThenGet(mc: MsgCache, profile: string, req: Request, now: Time) returns (hit: bool, m: Option<Msg>)
    requires mc.Valid()
    ensures hit == m.Some?
    ensures Answer(mc.Contents, mc.hash(KeyBytes(IdentOf(profile, req))), profile, req, mc.client.ConfChangedAt(profile), now) ==
            if m.Some? then Some(m.value.Value()) else None
  {
    var first := mc.Get(profile, req, now);
    hit := first.Some?;
    if hit {
      modify first.value, first.value.answer, first.value.ns, first.value.extra;
    }
    m := mc.Get(profile, req, now);
  }
}
