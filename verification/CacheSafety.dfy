/** What holds of every cache hit in every interleaving: it is the right answer, the
    latest one, not older than a configuration change reported before, and its TTLs
    are honest; and the store's counter is never more than its content. */
module CacheSafety {
  import opened Base
  import opened Store
  import opened Answers
  import opened CacheRuns

  // ---- Right and latest ----------------------------------------------------

  /** Step `j` is lookup `g` reading its shard while `e` is the last accepted reply
      for the identity of `e`. */
  ghost predicate ReadsLatest(cfg: Config, acts: seq<Action>, j: nat, g: nat, e: Entry)
    requires Run(cfg, INIT, acts)
  {
    && j < |acts| && acts[j] == ReadShard(g)
    && Run(cfg, INIT, acts[..j])
    && e.id in Exec(cfg, INIT, acts[..j]).latest
    && Exec(cfg, INIT, acts[..j]).latest[e.id] == e
  }

  predicate Holds(s: State, g: nat, e: Entry) {
    g in s.gets && (s.gets[g].pc.Found? || s.gets[g].pc.Timed? || s.gets[g].pc.Hit?) && s.gets[g].pc.e == e
  }

  lemma HoldsOnlyWhatItRead(cfg: Config, s: State, act: Action, g: nat, e: Entry)
    requires Inv(cfg, s) && Enabled(cfg, s, act) && Holds(Step(cfg, s, act), g, e)
    ensures Holds(s, g, e) || (act == ReadShard(g) && e.id in s.latest && s.latest[e.id] == e)
  {
    if act.ReadShard? && act.g == g {
      LookedIsLatest(cfg, s, s.gets[g].profile, s.gets[g].req);
    }
  }

  lemma {:induction false} HeldEntryWasLatest(cfg: Config, acts: seq<Action>, g: nat, e: Entry)
    requires ValidConfig(cfg) && Run(cfg, INIT, acts) && Holds(Exec(cfg, INIT, acts), g, e)
    ensures exists j: nat :: ReadsLatest(cfg, acts, j, g, e)
    decreases |acts|
  {
    var k := |acts| - 1;
    var before := acts[..k];
    RunKeepsInv(cfg, before);
    HoldsOnlyWhatItRead(cfg, Exec(cfg, INIT, before), acts[k], g, e);
    if Holds(Exec(cfg, INIT, before), g, e) {
      HeldEntryWasLatest(cfg, before, g, e);
      var j: nat :| ReadsLatest(cfg, before, j, g, e);
      assert before[..j] == acts[..j];
      assert ReadsLatest(cfg, acts, j, g, e);
    } else {
      assert ReadsLatest(cfg, acts, k, g, e);
    }
  }

  /** For every hash, eviction choice and interleaving: a hit is the reply last
      accepted, when the shard was read, for exactly the profile, lower-cased name,
      type, class and flags asked about, changed in nothing but TTLs and the echoed
      question. Collisions and evictions can only make it a miss. */
  lemma HitIsLatestAnswer(cfg: Config, acts: seq<Action>, g: nat)
    requires ValidConfig(cfg) && Run(cfg, INIT, acts)
    requires g in Exec(cfg, INIT, acts).gets && Exec(cfg, INIT, acts).gets[g].pc.Hit?
    ensures var get := Exec(cfg, INIT, acts).gets[g];
            && get.pc.e.id == IdentOf(get.profile, get.req)
            && (exists j: nat :: ReadsLatest(cfg, acts, j, g, get.pc.e))
            && Substance(get.pc.reply) == Substance(get.pc.e.reply)
            && (get.req.questions != [] ==> get.pc.reply.questions == [get.req.questions[0]])
  {
    RunKeepsInv(cfg, acts);
    var get := Exec(cfg, INIT, acts).gets[g];
    HeldEntryWasLatest(cfg, acts, g, get.pc.e);
    RewritingKeepsSubstance(get.pc.e.reply, TtlFor(get.pc.e.ttl - (get.pc.at - get.pc.e.stored)), get.req);
  }

  // ---- Honest TTLs ---------------------------------------------------------

  ghost predicate HasTtl(rrs: seq<RR>, ttl: U32) {
    forall i :: 0 <= i < |rrs| && rrs[i].rrtype != TYPE_OPT ==> rrs[i].ttl == ttl
  }

  /** Every record TTL of a reply, OPT aside, is `ttl`. */
  ghost predicate AllTtls(m: Reply, ttl: U32) {
    HasTtl(m.answer, ttl) && HasTtl(m.ns, ttl) && HasTtl(m.extra, ttl)
  }

  /** One TTL, at least 1, that lasts for the rest of the entry's life and promises
      less than a second more. */
  ghost predicate HonestTtl(pc: GetPc, ttl: U32)
    requires pc.Hit?
  {
    && AllTtls(pc.reply, ttl) && ttl >= 1
    && pc.e.stored + pc.e.ttl <= pc.at + ttl * SECOND < pc.e.stored + pc.e.ttl + SECOND
  }

  predicate HitAt(s: State, g: nat) {
    g in s.gets && s.gets[g].pc.Hit?
  }

  /** What was left of the entry's life at the clock reading. */
  function Left(pc: GetPc): Time
    requires pc.Hit?
  {
    pc.e.ttl - (pc.at - pc.e.stored)
  }

  lemma ServedIsHonest(pc: GetPc, req: Request)
    requires pc.Hit? && 0 < Left(pc) <= MAX_TTL && pc.reply == Served(pc.e, req, pc.at)
    ensures HonestTtl(pc, TtlFor(Left(pc)))
  {
    TtlRoundsUp(Left(pc));
  }

  /** With a minimum of at most 2^32 - 1 seconds, every hit carries an honest TTL. */
  lemma HitTtlIsHonest(cfg: Config, acts: seq<Action>, g: nat)
    requires ValidConfig(cfg) && cfg.minTtl <= MAX_TTL && Run(cfg, INIT, acts) && HitAt(Exec(cfg, INIT, acts), g)
    ensures exists ttl: U32 :: HonestTtl(Exec(cfg, INIT, acts).gets[g].pc, ttl)
  {
    RunKeepsInv(cfg, acts);
    ServedIsHonest(Exec(cfg, INIT, acts).gets[g].pc, Exec(cfg, INIT, acts).gets[g].req);
  }

  /** Of two hits on one entry, the one timed later carries no larger TTL. */
  lemma HitTtlsCountDown(cfg: Config, acts: seq<Action>, g: nat, h: nat, early: U32, late: U32)
    requires ValidConfig(cfg) && cfg.minTtl <= MAX_TTL && Run(cfg, INIT, acts)
    requires HitAt(Exec(cfg, INIT, acts), g) && HitAt(Exec(cfg, INIT, acts), h)
    requires Exec(cfg, INIT, acts).gets[g].pc.e == Exec(cfg, INIT, acts).gets[h].pc.e
    requires Exec(cfg, INIT, acts).gets[g].pc.at <= Exec(cfg, INIT, acts).gets[h].pc.at
    requires HonestTtl(Exec(cfg, INIT, acts).gets[g].pc, early)
    requires HonestTtl(Exec(cfg, INIT, acts).gets[h].pc, late)
    ensures late <= early
  {
    RunKeepsInv(cfg, acts);
  }

  // ---- Where TTLs are not honest -------------------------------------------

  /** Every hit of every run carries an honest TTL. */
  ghost predicate EveryHitHonest(cfg: Config) {
    forall acts, g :: Run(cfg, INIT, acts) && HitAt(Exec(cfg, INIT, acts), g) ==>
      exists ttl: U32 :: HonestTtl(Exec(cfg, INIT, acts).gets[g].pc, ttl)
  }

  lemma Extend(cfg: Config, acts: seq<Action>, act: Action)
    requires Run(cfg, INIT, acts) && Enabled(cfg, Exec(cfg, INIT, acts), act)
    ensures Run(cfg, INIT, acts + [act]) && Exec(cfg, INIT, acts + [act]) == Step(cfg, Exec(cfg, INIT, acts), act)
  {
    assert (acts + [act])[..|acts|] == acts;
  }

  lemma Advance(cfg: Config, before: seq<Action>, was: State, act: Action) returns (acts: seq<Action>, s: State)
    requires Run(cfg, INIT, before) && was == Exec(cfg, INIT, before) && Enabled(cfg, was, act)
    ensures Run(cfg, INIT, acts) && s == Exec(cfg, INIT, acts) && s == Step(cfg, was, act)
  {
    Extend(cfg, before, act);
    acts, s := before + [act], Step(cfg, was, act);
  }

  lemma AddsFirst(cfg: Config, s: State, e: Entry)
    requires cfg.size >= 1 && s.shards == NoEntries() && 0 in s.puts && s.puts[0] == Putter(e, Built)
    ensures Enabled(cfg, s, Add(0, {}))
    ensures var s' := Step(cfg, s, Add(0, {}));
            && Stored(s'.shards, KeyOf(cfg, e.id), e)
            && s'.now == s.now && s'.gets == s.gets && s'.lastMod == s.lastMod
  {
  }

  /** Some reply is put into the empty cache. */
  lemma FirstPut(cfg: Config, profile: string, req: Request, m: Reply) returns (acts: seq<Action>, s: State, e: Entry)
    requires ValidConfig(cfg) && Cacheable(req, m)
    ensures Run(cfg, INIT, acts) && s == Exec(cfg, INIT, acts)
    ensures e == MakeEntry(profile, req, m, 0, 0, cfg.minTtl, cfg.maxTtl)
    ensures Stored(s.shards, KeyOf(cfg, e.id), e) && s.now == 0 && s.gets == map[] && s.lastMod == map[]
  {
    assert Run(cfg, INIT, []) && Exec(cfg, INIT, []) == INIT;
    acts, s := Advance(cfg, [], INIT, Build(0, profile, req, m, 0));
    e := s.puts[0].entry;
    AddsFirst(cfg, s, e);
    acts, s := Advance(cfg, acts, s, Add(0, {}));
  }

  /** It is found again at once. */
  lemma FoundAgain(cfg: Config, e: Entry, req: Request, before: seq<Action>, was: State)
    returns (acts: seq<Action>, s: State)
    requires Run(cfg, INIT, before) && was == Exec(cfg, INIT, before)
    requires Stored(was.shards, KeyOf(cfg, e.id), e) && was.now == 0 && was.gets == map[] && was.lastMod == map[]
    requires IdentOf(e.id.profile, req) == e.id && req.QType() != TYPE_PTR
    ensures Run(cfg, INIT, acts) && s == Exec(cfg, INIT, acts)
    ensures |s.shards| == SHARDS && s.lastMod == map[]
    ensures 0 in s.gets && s.gets[0] == Getter(e.id.profile, req, Timed(e, 0))
  {
    acts, s := Advance(cfg, before, was, Begin(0, e.id.profile, req));
    assert Looked(cfg, s, e.id.profile, req) == Found(e);
    acts, s := Advance(cfg, acts, s, ReadShard(0));
    acts, s := Advance(cfg, acts, s, ReadClock(0));
  }

  /** Some record is handed out with a TTL that ends before its entry does. */
  ghost predicate ShortRecord(pc: GetPc)
    requires pc.Hit?
  {
    exists i :: 0 <= i < |pc.reply.answer| && pc.reply.answer[i].rrtype != TYPE_OPT
             && !Covers(pc.reply.answer[i].ttl, Left(pc))
  }

  ghost predicate SomeRecordShort(cfg: Config) {
    exists acts, g :: Run(cfg, INIT, acts) && HitAt(Exec(cfg, INIT, acts), g) && ShortRecord(Exec(cfg, INIT, acts).gets[g].pc)
  }

  lemma DecidedAgainst(cfg: Config, acts: seq<Action>, s: State, e: Entry, req: Request)
    requires Run(cfg, INIT, acts) && s == Exec(cfg, INIT, acts) && |s.shards| == SHARDS && s.lastMod == map[]
    requires 0 in s.gets && s.gets[0] == Getter(e.id.profile, req, Timed(e, 0))
    requires e.stored == 0 && e.ttl > MAX_TTL
    requires |e.reply.answer| > 0 && e.reply.answer[0].rrtype != TYPE_OPT
    ensures !EveryHitHonest(cfg) && SomeRecordShort(cfg)
  {
    var acts', s' := Advance(cfg, acts, s, ReadMod(0));
    var pc := s'.gets[0].pc;
    assert pc == Hit(e, 0, Served(e, req, 0)) && HitAt(s', 0);
    forall ttl: U32
      ensures !HonestTtl(pc, ttl) && !Covers(ttl, Left(pc))
    {
      assert ttl * SECOND <= MAX_TTL;
    }
    assert !Covers(pc.reply.answer[0].ttl, Left(pc));
    assert ShortRecord(pc);
  }

  lemma NoneShort(cfg: Config)
    requires EveryHitHonest(cfg)
    ensures !SomeRecordShort(cfg)
  {
    forall acts, g | Run(cfg, INIT, acts) && HitAt(Exec(cfg, INIT, acts), g)
      ensures !ShortRecord(Exec(cfg, INIT, acts).gets[g].pc)
    {
      var pc := Exec(cfg, INIT, acts).gets[g].pc;
      var ttl: U32 :| HonestTtl(pc, ttl);
      assert HasTtl(pc.reply.answer, ttl);
    }
  }

  /** Every hit of every run carries an honest TTL if and only if the configured minimum
      is at most 2^32 - 1 seconds; with a larger one some record goes out with a TTL that
      is too short for its entry. */
  lemma HitTtlsHonestIffMinFits(cfg: Config)
    requires ValidConfig(cfg)
    ensures EveryHitHonest(cfg) <==> cfg.minTtl <= MAX_TTL
    ensures SomeRecordShort(cfg) <==> cfg.minTtl > MAX_TTL
  {
    if cfg.minTtl <= MAX_TTL {
      forall acts, g | Run(cfg, INIT, acts) && HitAt(Exec(cfg, INIT, acts), g)
        ensures exists ttl: U32 :: HonestTtl(Exec(cfg, INIT, acts).gets[g].pc, ttl)
      {
        HitTtlIsHonest(cfg, acts, g);
      }
      NoneShort(cfg);
    } else {
      var req := Request([Question("example.", 1, 1)], false, false);
      var m := Reply(RCODE_SUCCESS, false, [], [RR(1, 0, "192.0.2.1")], [], []);
      var acts, s, e := FirstPut(cfg, "abc123", req, m);
      acts, s := FoundAgain(cfg, e, req, acts, s);
      DecidedAgainst(cfg, acts, s, e, req);
    }
  }

  // ---- Configuration changes -----------------------------------------------

  predicate Answered(s: State, g: nat) {
    g in s.gets && (s.gets[g].pc.Hit? || s.gets[g].pc.Miss?)
  }

  /** Lookups of `profile` decided since, `settled` apart, were not stored before `t`. */
  ghost predicate NoneOlder(s: State, profile: string, t: Time, settled: set<nat>) {
    && ChangedAt(s.lastMod, profile) >= t
    && forall g :: g in s.gets && g !in settled && s.gets[g].profile == profile && s.gets[g].pc.Hit? ==>
         s.gets[g].pc.e.stored >= t
  }

  lemma NoneOlderStep(cfg: Config, s: State, act: Action, profile: string, t: Time, settled: set<nat>)
    requires ModsSound(s) && Enabled(cfg, s, act) && NoneOlder(s, profile, t, settled)
    ensures NoneOlder(Step(cfg, s, act), profile, t, settled)
  {
    ModsSoundKept(cfg, s, act);
  }

  lemma {:induction false} StaysNoneOlder(cfg: Config, s: State, acts: seq<Action>, profile: string, t: Time, settled: set<nat>)
    requires ValidConfig(cfg) && Inv(cfg, s) && Run(cfg, s, acts) && NoneOlder(s, profile, t, settled)
    ensures NoneOlder(Exec(cfg, s, acts), profile, t, settled) && Inv(cfg, Exec(cfg, s, acts))
    decreases |acts|
  {
    if acts != [] {
      var before := acts[..|acts| - 1];
      StaysNoneOlder(cfg, s, before, profile, t, settled);
      NoneOlderStep(cfg, Exec(cfg, s, before), acts[|acts| - 1], profile, t, settled);
      StepKeepsInv(cfg, Exec(cfg, s, before), acts[|acts| - 1]);
    }
  }

  /** Once a report of a change at `t` has been taken in, whichever reports race with
      it, no lookup of that profile still to be decided serves an entry stored before `t`. */
  lemma NothingOlderThanTheChange(cfg: Config, s: State, u: nat, acts: seq<Action>, g: nat)
    requires ValidConfig(cfg) && Inv(cfg, s) && Run(cfg, s, acts)
    requires u in s.reports && s.reports[u].pc == Recorded && !Answered(s, g)
    requires g in Exec(cfg, s, acts).gets && Exec(cfg, s, acts).gets[g].profile == s.reports[u].profile
    requires Exec(cfg, s, acts).gets[g].pc.Hit?
    ensures Exec(cfg, s, acts).gets[g].pc.e.stored >= s.reports[u].t
  {
    var settled := set h | h in s.gets && Answered(s, h);
    StaysNoneOlder(cfg, s, acts, s.reports[u].profile, s.reports[u].t, settled);
  }

  /** `lastMod` only ever moves forward, and holds nothing that was not reported. */
  lemma {:induction false} LastModOnlyAdvances(cfg: Config, s: State, acts: seq<Action>, profile: string)
    requires ValidConfig(cfg) && Inv(cfg, s) && Run(cfg, s, acts)
    ensures ChangedAt(Exec(cfg, s, acts).lastMod, profile) >= ChangedAt(s.lastMod, profile)
    ensures profile in Exec(cfg, s, acts).lastMod ==>
              (profile, Exec(cfg, s, acts).lastMod[profile]) in Exec(cfg, s, acts).heard
    decreases |acts|
  {
    StaysNoneOlder(cfg, s, acts, profile, ChangedAt(s.lastMod, profile), s.gets.Keys);
  }

  // ---- No hit is missed ----------------------------------------------------

  predicate Stored(shards: seq<map<Key, Entry>>, key: Key, e: Entry) {
    |shards| == SHARDS && Find(shards, key) == Some(e)
  }

  /** An Add that replaces or evicts what is under `key`. */
  predicate Displaces(cfg: Config, s: State, act: Action, key: Key) {
    act.Add? && act.w in s.puts && (KeyOf(cfg, s.puts[act.w].entry.id) == key || key in act.drop)
  }

  ghost predicate Undisturbed(cfg: Config, s: State, acts: seq<Action>, key: Key)
    requires Run(cfg, s, acts)
    decreases |acts|
  {
    acts == [] ||
    var before := acts[..|acts| - 1];
    Undisturbed(cfg, s, before, key) && !Displaces(cfg, Exec(cfg, s, before), acts[|acts| - 1], key)
  }

  /** If lookup `g` has begun and asks for what `e` answers, it is on its way to a hit
      on `e`. */
  predicate OnItsWay(s: State, g: nat, e: Entry) {
    g in s.gets && IdentOf(s.gets[g].profile, s.gets[g].req) == e.id ==>
      match s.gets[g].pc
      case Begun => true
      case Found(f) => f == e
      case Timed(f, at) => f == e && at <= s.now
      case Hit(f, _, _) => f == e
      case Miss => false
  }

  /** Alive, and not older than a change taken in. */
  predicate Current(s: State, e: Entry) {
    s.now < e.stored + e.ttl && ChangedAt(s.lastMod, e.id.profile) <= e.stored
  }

  lemma StoredStep(cfg: Config, s: State, act: Action, key: Key, e: Entry)
    requires Sharded(s.shards, cfg.size) && Enabled(cfg, s, act) && !Displaces(cfg, s, act, key)
    requires Stored(s.shards, key, e)
    ensures Stored(Step(cfg, s, act).shards, key, e)
  {
  }

  lemma OnItsWayStep(cfg: Config, s: State, act: Action, g: nat, e: Entry)
    requires Enabled(cfg, s, act) && Stored(s.shards, KeyOf(cfg, e.id), e) && e.id.qtype != TYPE_PTR
    requires Current(s, e) && OnItsWay(s, g, e)
    ensures OnItsWay(Step(cfg, s, act), g, e)
  {
    match act
    case ReadShard(h) =>
      if h == g && IdentOf(s.gets[g].profile, s.gets[g].req) == e.id {
        assert Looked(cfg, s, s.gets[g].profile, s.gets[g].req) == Found(e);
      }
    case _ =>
  }

  lemma CurrentBefore(cfg: Config, s: State, act: Action, e: Entry)
    requires ModsSound(s) && Enabled(cfg, s, act) && Current(Step(cfg, s, act), e)
    ensures Current(s, e)
  {
    ModsSoundKept(cfg, s, act);
  }

  lemma {:induction false} StaysOnItsWay(cfg: Config, s: State, acts: seq<Action>, g: nat, e: Entry)
    requires ValidConfig(cfg) && Inv(cfg, s) && Run(cfg, s, acts) && g !in s.gets
    requires Stored(s.shards, KeyOf(cfg, e.id), e) && e.id.qtype != TYPE_PTR
    requires Undisturbed(cfg, s, acts, KeyOf(cfg, e.id)) && Current(Exec(cfg, s, acts), e)
    ensures Stored(Exec(cfg, s, acts).shards, KeyOf(cfg, e.id), e) && OnItsWay(Exec(cfg, s, acts), g, e)
    ensures Inv(cfg, Exec(cfg, s, acts))
    decreases |acts|
  {
    if acts != [] {
      var before := acts[..|acts| - 1];
      var was, act := Exec(cfg, s, before), acts[|acts| - 1];
      StaysInv(cfg, s, before);
      CurrentBefore(cfg, was, act, e);
      StaysOnItsWay(cfg, s, before, g, e);
      StoredStep(cfg, was, act, KeyOf(cfg, e.id), e);
      OnItsWayStep(cfg, was, act, g, e);
      StepKeepsInv(cfg, was, act);
    }
  }

  lemma {:induction false} StaysInv(cfg: Config, s: State, acts: seq<Action>)
    requires ValidConfig(cfg) && Inv(cfg, s) && Run(cfg, s, acts)
    ensures Inv(cfg, Exec(cfg, s, acts))
    decreases |acts|
  {
    if acts != [] {
      StaysInv(cfg, s, acts[..|acts| - 1]);
      StepKeepsInv(cfg, Exec(cfg, s, acts[..|acts| - 1]), acts[|acts| - 1]);
    }
  }

  /** The cache does its work: while an entry is neither replaced nor evicted, has not
      expired and is no older than the last change, every lookup begun since for what it
      answers is a hit on it. With the lemmas above, these are the only ways to miss. */
  lemma CurrentEntryIsHit(cfg: Config, s: State, acts: seq<Action>, g: nat, e: Entry)
    requires ValidConfig(cfg) && Inv(cfg, s) && Run(cfg, s, acts) && g !in s.gets
    requires Stored(s.shards, KeyOf(cfg, e.id), e) && e.id.qtype != TYPE_PTR
    requires Undisturbed(cfg, s, acts, KeyOf(cfg, e.id)) && Current(Exec(cfg, s, acts), e)
    requires Answered(Exec(cfg, s, acts), g)
    requires IdentOf(Exec(cfg, s, acts).gets[g].profile, Exec(cfg, s, acts).gets[g].req) == e.id
    ensures Exec(cfg, s, acts).gets[g].pc.Hit? && Exec(cfg, s, acts).gets[g].pc.e == e
  {
    StaysOnItsWay(cfg, s, acts, g, e);
  }

  /** An accepted reply is such an entry as soon as it is added. */
  lemma AddedIsStored(cfg: Config, s: State, w: nat, drop: set<Key>)
    requires Inv(cfg, s) && Enabled(cfg, s, Add(w, drop))
    ensures var e := s.puts[w].entry; Stored(Step(cfg, s, Add(w, drop)).shards, KeyOf(cfg, e.id), e)
  {
  }

  // ---- Lifetimes, to the end -----------------------------------------------

  /** The value of [min, max] nearest to `raw`. */
  function Nearest(raw: Time, min: Time, max: Time): Time {
    if raw < min then min else if raw > max then max else raw
  }

  /** Step `i` builds the entry of put `w`: the reply as it came, dated at that moment, for
      the identity asked, to live for the nearest time within the bounds. */
  ghost predicate BuiltAt(cfg: Config, acts: seq<Action>, i: nat, w: nat, e: Entry)
    requires Run(cfg, INIT, acts)
  {
    && i < |acts| && acts[i].Build? && acts[i].w == w && Run(cfg, INIT, acts[..i])
    && e.stored == Exec(cfg, INIT, acts[..i]).now
    && e.ttl == Nearest(acts[i].raw, cfg.minTtl, cfg.maxTtl)
    && e.reply == acts[i].reply && e.id == IdentOf(acts[i].profile, acts[i].req)
  }

  lemma PutsOnlyFromBuild(cfg: Config, s: State, act: Action, w: nat)
    requires ValidConfig(cfg) && Enabled(cfg, s, act) && w in Step(cfg, s, act).puts
    ensures (w in s.puts && s.puts[w].entry == Step(cfg, s, act).puts[w].entry)
         || (act.Build? && act.w == w
             && Step(cfg, s, act).puts[w].entry ==
                Entry(s.now, Nearest(act.raw, cfg.minTtl, cfg.maxTtl), act.reply, IdentOf(act.profile, act.req)))
  {
    if act.Build? {
      ClampInRange(act.raw, cfg.minTtl, cfg.maxTtl);
    }
  }

  lemma {:induction false} EntryWasBuilt(cfg: Config, acts: seq<Action>, w: nat)
    requires ValidConfig(cfg) && Run(cfg, INIT, acts) && w in Exec(cfg, INIT, acts).puts
    ensures exists i: nat :: BuiltAt(cfg, acts, i, w, Exec(cfg, INIT, acts).puts[w].entry)
    decreases |acts|
  {
    var k := |acts| - 1;
    var before := acts[..k];
    var was, e := Exec(cfg, INIT, before), Exec(cfg, INIT, acts).puts[w].entry;
    PutsOnlyFromBuild(cfg, was, acts[k], w);
    if w in was.puts && was.puts[w].entry == e {
      EntryWasBuilt(cfg, before, w);
      var i: nat :| BuiltAt(cfg, before, i, w, e);
      assert before[..i] == acts[..i];
      assert BuiltAt(cfg, acts, i, w, e);
    } else {
      assert BuiltAt(cfg, acts, k, w, e);
    }
  }

  /** A reply is stored exactly when it answers something other than PTR, is not truncated,
      and has rcode NOERROR or NXDOMAIN. */
  lemma StoredIff(cfg: Config, s: State, w: nat, profile: string, req: Request, reply: Reply, raw: nat)
    requires Enabled(cfg, s, Build(w, profile, req, reply, raw))
    ensures var pc := Step(cfg, s, Build(w, profile, req, reply, raw)).puts[w].pc;
            && (pc == Built <==> req.QType() != 12 && !reply.truncated && reply.rcode in {0, 3})
            && (pc != Built ==> pc == Refused)
  {
  }

  /** If lookup `g` has begun and asks for what `e` answers, it has not read the clock
      before `since`, and is not a hit. */
  predicate TooLate(s: State, g: nat, e: Entry, since: Time) {
    g in s.gets && IdentOf(s.gets[g].profile, s.gets[g].req) == e.id ==>
      match s.gets[g].pc
      case Begun => true
      case Found(f) => f == e
      case Timed(f, at) => f == e && at >= since
      case Hit(_, _, _) => false
      case Miss => true
  }

  lemma TooLateStep(cfg: Config, s: State, act: Action, g: nat, e: Entry, since: Time)
    requires Enabled(cfg, s, act) && Stored(s.shards, KeyOf(cfg, e.id), e)
    requires e.stored + e.ttl <= since <= s.now && TooLate(s, g, e, since)
    ensures TooLate(Step(cfg, s, act), g, e, since) && since <= Step(cfg, s, act).now
  {
    match act
    case ReadShard(_) =>
    case ReadMod(_) =>
    case _ =>
  }

  lemma {:induction false} StaysTooLate(cfg: Config, s: State, acts: seq<Action>, g: nat, e: Entry)
    requires ValidConfig(cfg) && Inv(cfg, s) && Run(cfg, s, acts) && g !in s.gets
    requires Stored(s.shards, KeyOf(cfg, e.id), e) && e.stored + e.ttl <= s.now
    requires Undisturbed(cfg, s, acts, KeyOf(cfg, e.id))
    ensures var s' := Exec(cfg, s, acts);
            Stored(s'.shards, KeyOf(cfg, e.id), e) && TooLate(s', g, e, s.now) && s.now <= s'.now && Inv(cfg, s')
    decreases |acts|
  {
    if acts != [] {
      var before := acts[..|acts| - 1];
      var was, act := Exec(cfg, s, before), acts[|acts| - 1];
      StaysTooLate(cfg, s, before, g, e);
      StoredStep(cfg, was, act, KeyOf(cfg, e.id), e);
      TooLateStep(cfg, was, act, g, e, s.now);
      StepKeepsInv(cfg, was, act);
    }
  }

  /** A lookup begun when the entry's lifetime is over is a miss. */
  lemma ExpiredEntryIsMissed(cfg: Config, s: State, acts: seq<Action>, g: nat, e: Entry)
    requires ValidConfig(cfg) && Inv(cfg, s) && Run(cfg, s, acts) && g !in s.gets
    requires Stored(s.shards, KeyOf(cfg, e.id), e) && e.stored + e.ttl <= s.now
    requires Undisturbed(cfg, s, acts, KeyOf(cfg, e.id)) && Answered(Exec(cfg, s, acts), g)
    requires IdentOf(Exec(cfg, s, acts).gets[g].profile, Exec(cfg, s, acts).gets[g].req) == e.id
    ensures Exec(cfg, s, acts).gets[g].pc.Miss?
  {
    StaysTooLate(cfg, s, acts, g, e);
  }

  /** How long a stored reply serves. After any run that stored it at time `t` with a TTL of
      `raw`, and as long as it is neither replaced, evicted nor outdated by a change: every
      lookup that is over before `t` plus the nearest lifetime within the bounds is a hit on
      it, and every lookup begun from then on is a miss. */
  lemma ServesExactlyItsLifetime(cfg: Config, stored: seq<Action>, i: nat, w: nat, acts: seq<Action>, g: nat)
    requires ValidConfig(cfg) && Run(cfg, INIT, stored) && w in Exec(cfg, INIT, stored).puts
    requires var s := Exec(cfg, INIT, stored);
             && Run(cfg, s, acts) && BuiltAt(cfg, stored, i, w, s.puts[w].entry)
             && Stored(s.shards, KeyOf(cfg, s.puts[w].entry.id), s.puts[w].entry) && g !in s.gets
             && Undisturbed(cfg, s, acts, KeyOf(cfg, s.puts[w].entry.id))
    requires var s', e := Exec(cfg, Exec(cfg, INIT, stored), acts), Exec(cfg, INIT, stored).puts[w].entry;
             && Answered(s', g) && IdentOf(s'.gets[g].profile, s'.gets[g].req) == e.id && e.id.qtype != TYPE_PTR
             && ChangedAt(s'.lastMod, e.id.profile) <= e.stored
    ensures var s, s' := Exec(cfg, INIT, stored), Exec(cfg, Exec(cfg, INIT, stored), acts);
            var t, life := Exec(cfg, INIT, stored[..i]).now, Nearest(stored[i].raw, cfg.minTtl, cfg.maxTtl);
            && (s'.now < t + life ==> s'.gets[g].pc.Hit? && s'.gets[g].pc.e == s.puts[w].entry)
            && (t + life <= s.now ==> s'.gets[g].pc.Miss?)
  {
    RunKeepsInv(cfg, stored);
    var s := Exec(cfg, INIT, stored);
    var e := s.puts[w].entry;
    if Exec(cfg, s, acts).now < e.stored + e.ttl {
      CurrentEntryIsHit(cfg, s, acts, g, e);
    }
    if e.stored + e.ttl <= s.now {
      ExpiredEntryIsMissed(cfg, s, acts, g, e);
    }
  }

  /** Questions of type PTR are never answered from the cache. */
  ghost predicate NoPtr(s: State) {
    forall g :: g in s.gets && (s.gets[g].pc.Found? || s.gets[g].pc.Timed? || s.gets[g].pc.Hit?) ==>
      s.gets[g].req.QType() != 12
  }

  lemma NoPtrStep(cfg: Config, s: State, act: Action)
    requires NoPtr(s) && Enabled(cfg, s, act)
    ensures NoPtr(Step(cfg, s, act))
  {
  }

  lemma {:induction false} NoPtrHits(cfg: Config, acts: seq<Action>)
    requires Run(cfg, INIT, acts)
    ensures NoPtr(Exec(cfg, INIT, acts))
    decreases |acts|
  {
    if acts != [] {
      NoPtrHits(cfg, acts[..|acts| - 1]);
      NoPtrStep(cfg, Exec(cfg, INIT, acts[..|acts| - 1]), acts[|acts| - 1]);
    }
  }

  // ---- The store -----------------------------------------------------------

  /** Nothing is lost or counted twice however Adds interleave: the entries are those
      counted plus those about to be, so `Len` stays within the capacity. */
  lemma StoreIsConserved(cfg: Config, acts: seq<Action>)
    requires ValidConfig(cfg) && Run(cfg, INIT, acts)
    ensures var s := Exec(cfg, INIT, acts);
            && Sharded(s.shards, cfg.size)
            && Total(s.shards) == s.n + |Uncounted(s.puts)|
            && 0 <= s.n <= cfg.size * SHARDS
  {
    RunKeepsInv(cfg, acts);
    TotalBound(Exec(cfg, INIT, acts).shards, cfg.size);
  }
}
