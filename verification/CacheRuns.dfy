/** Every interleaving of cache lookups, cache stores and configuration reports
    (cache.go, store.go, and updateLastMod in doh.go), for an arbitrary hash.

    A step is one shard lock region, one lock region of `lastMod`, one read of the
    clock, or the increment of the store's counter, which is outside the shard lock. */
module CacheRuns {
  import opened Base
  import opened Store
  import opened Answers

  datatype Config = Config(hash: string -> Key, size: nat, minTtl: Time, maxTtl: Time)

  datatype PutPc = Built | Counting | Stored | Refused
  datatype Putter = Putter(entry: Entry, pc: PutPc)

  /** A cache lookup. `Found` holds the entry read, `Timed` the clock reading too. */
  datatype GetPc =
    | Begun
    | Found(e: Entry)
    | Timed(e: Entry, at: Time)
    | Hit(e: Entry, at: Time, reply: Reply)
    | Miss
  datatype Getter = Getter(profile: string, req: Request, pc: GetPc)

  /** A report of a configuration change: before its read lock, before its write lock, done. */
  datatype ReportPc = Reported | Newer | Recorded
  datatype Reporter = Reporter(profile: string, t: Time, pc: ReportPc)

  /** `latest` is the plain map the store stands for: the last accepted reply of each
      identity. `heard` records the change times reported for each profile. */
  datatype State = State(
    now: Time,
    shards: seq<map<Key, Entry>>,
    n: int,
    lastMod: map<string, Time>,
    puts: map<nat, Putter>,
    gets: map<nat, Getter>,
    reports: map<nat, Reporter>,
    latest: map<Ident, Entry>,
    heard: set<(string, Time)>)

  datatype Action =
    | Tick(d: nat)
    | Report(u: nat, profile: string, t: Time)
    | CheckMod(u: nat)
    | WriteMod(u: nat)
    | Build(w: nat, profile: string, req: Request, reply: Reply, raw: nat)
    | Add(w: nat, drop: set<Key>)
    | Count(w: nat)
    | Begin(g: nat, profile: string, req: Request)
    | ReadShard(g: nat)
    | ReadClock(g: nat)
    | ReadMod(g: nat)

  function NoEntries(): seq<map<Key, Entry>> {
    seq(SHARDS, _ => map[])
  }

  const INIT := State(0, NoEntries(), 0, map[], map[], map[], map[], map[], {})

  /** The zero time a profile without a report has. */
  function ChangedAt(lastMod: map<string, Time>, profile: string): Time {
    if profile in lastMod then lastMod[profile] else 0
  }

  function KeyOf(cfg: Config, id: Ident): Key {
    cfg.hash(KeyBytes(id))
  }

  function ShardFor(cfg: Config, s: State, id: Ident): map<Key, Entry>
    requires |s.shards| == SHARDS
  {
    s.shards[ShardOf(KeyOf(cfg, id))]
  }

  predicate Enabled(cfg: Config, s: State, act: Action) {
    && |s.shards| == SHARDS
    && match act
       case Tick(_) => true
       case Report(u, _, _) => u !in s.reports
       case CheckMod(u) => u in s.reports && s.reports[u].pc == Reported
       case WriteMod(u) => u in s.reports && s.reports[u].pc == Newer
       case Build(w, _, _, _, raw) => w !in s.puts && raw <= MAX_TTL
       case Add(w, drop) =>
         w in s.puts && s.puts[w].pc == Built &&
         MayDrop(ShardFor(cfg, s, s.puts[w].entry.id), cfg.size, KeyOf(cfg, s.puts[w].entry.id), drop)
       case Count(w) => w in s.puts && s.puts[w].pc == Counting
       case Begin(g, _, _) => g !in s.gets
       case ReadShard(g) => g in s.gets && s.gets[g].pc == Begun
       case ReadClock(g) => g in s.gets && s.gets[g].pc.Found?
       case ReadMod(g) => g in s.gets && s.gets[g].pc.Timed?
  }

  function AfterAdd(cfg: Config, s: State, w: nat, drop: set<Key>): State
    requires |s.shards| == SHARDS && w in s.puts
  {
    var e := s.puts[w].entry;
    var key := KeyOf(cfg, e.id);
    var pc := if Counts(ShardFor(cfg, s, e.id), key, drop) then Counting else Stored;
    s.(shards := PutIn(s.shards, key, e, drop),
       puts := s.puts[w := s.puts[w].(pc := pc)],
       latest := s.latest[e.id := e])
  }

  /** `get` up to its shard read: a PTR question, an absent key or an entry of another
      identity is a miss. */
  function Looked(cfg: Config, s: State, profile: string, req: Request): GetPc
    requires |s.shards| == SHARDS
  {
    if req.QType() == TYPE_PTR then Miss
    else
      match Find(s.shards, KeyOf(cfg, IdentOf(profile, req)))
      case None => Miss
      case Some(e) => if e.id == IdentOf(profile, req) then Found(e) else Miss
  }

  function Decided(s: State, g: Getter): GetPc
    requires g.pc.Timed?
  {
    var Timed(e, at) := g.pc;
    if Usable(e, ChangedAt(s.lastMod, g.profile), at) then Hit(e, at, Served(e, g.req, at)) else Miss
  }

  function Step(cfg: Config, s: State, act: Action): State
    requires Enabled(cfg, s, act)
  {
    match act
    case Tick(d) => s.(now := s.now + d)
    case Report(u, profile, t) =>
      s.(reports := s.reports[u := Reporter(profile, t, Reported)], heard := s.heard + {(profile, t)})
    case CheckMod(u) =>
      var r := s.reports[u];
      s.(reports := s.reports[u := r.(pc := if r.t > ChangedAt(s.lastMod, r.profile) then Newer else Recorded)])
    case WriteMod(u) =>
      var r := s.reports[u];
      s.(reports := s.reports[u := r.(pc := Recorded)],
         lastMod := if r.t > ChangedAt(s.lastMod, r.profile) then s.lastMod[r.profile := r.t] else s.lastMod)
    case Build(w, profile, req, reply, raw) =>
      var e := MakeEntry(profile, req, reply, raw, s.now, cfg.minTtl, cfg.maxTtl);
      s.(puts := s.puts[w := Putter(e, if Cacheable(req, reply) then Built else Refused)])
    case Add(w, drop) => AfterAdd(cfg, s, w, drop)
    case Count(w) => s.(n := s.n + 1, puts := s.puts[w := s.puts[w].(pc := Stored)])
    case Begin(g, profile, req) => s.(gets := s.gets[g := Getter(profile, req, Begun)])
    case ReadShard(g) =>
      s.(gets := s.gets[g := s.gets[g].(pc := Looked(cfg, s, s.gets[g].profile, s.gets[g].req))])
    case ReadClock(g) => s.(gets := s.gets[g := s.gets[g].(pc := Timed(s.gets[g].pc.e, s.now))])
    case ReadMod(g) => s.(gets := s.gets[g := s.gets[g].(pc := Decided(s, s.gets[g]))])
  }

  ghost predicate Run(cfg: Config, s: State, acts: seq<Action>)
    decreases |acts|, 0
  {
    acts == [] ||
    var before := acts[..|acts| - 1];
    Run(cfg, s, before) && Enabled(cfg, Exec(cfg, s, before), acts[|acts| - 1])
  }

  ghost function Exec(cfg: Config, s: State, acts: seq<Action>): State
    requires Run(cfg, s, acts)
    decreases |acts|, 1
  {
    if acts == [] then s
    else
      var before := acts[..|acts| - 1];
      Step(cfg, Exec(cfg, s, before), acts[|acts| - 1])
  }

  // ---- The invariant -------------------------------------------------------

  function Uncounted(puts: map<nat, Putter>): set<nat> {
    set w | w in puts && puts[w].pc == Counting
  }

  /** Whatever the hash does, an entry found under a key is the last accepted one of
      its own identity, and the key is that identity's. */
  ghost predicate Faithful(cfg: Config, shards: seq<map<Key, Entry>>, latest: map<Ident, Entry>) {
    forall i, k :: 0 <= i < |shards| && k in shards[i] ==>
      var id := shards[i][k].id;
      KeyOf(cfg, id) == k && id in latest && latest[id] == shards[i][k]
  }

  /** A lifetime within bounds, no longer than a message can ask for unless the minimum
      is, and a store time that has come. */
  predicate Sound(cfg: Config, e: Entry, now: Time) {
    && cfg.minTtl <= e.ttl <= cfg.maxTtl && e.stored <= now
    && (cfg.minTtl <= MAX_TTL ==> e.ttl <= MAX_TTL)
  }

  ghost predicate PutsSound(cfg: Config, s: State) {
    && (forall w :: w in s.puts ==> Sound(cfg, s.puts[w].entry, s.now))
    && (forall id :: id in s.latest ==> Sound(cfg, s.latest[id], s.now) && s.latest[id].id == id)
  }

  /** What a lookup holds is of the identity it asked for, and what it serves is that
      entry with TTLs and question rewritten, still alive at its clock reading. */
  ghost predicate GetsSound(cfg: Config, s: State) {
    forall g :: g in s.gets && (s.gets[g].pc.Found? || s.gets[g].pc.Timed? || s.gets[g].pc.Hit?) ==>
      var get := s.gets[g];
      && get.pc.e.id == IdentOf(get.profile, get.req)
      && Sound(cfg, get.pc.e, s.now)
      && (get.pc.Timed? || get.pc.Hit? ==> get.pc.e.stored <= get.pc.at <= s.now)
      && (get.pc.Hit? ==>
            && get.pc.e.ttl - (get.pc.at - get.pc.e.stored) > 0
            && get.pc.reply == Served(get.pc.e, get.req, get.pc.at))
  }

  ghost predicate ModsSound(s: State) {
    && (forall p :: p in s.lastMod ==> (p, s.lastMod[p]) in s.heard)
    && (forall u :: u in s.reports ==>
          && (s.reports[u].profile, s.reports[u].t) in s.heard
          && (s.reports[u].pc == Recorded ==> ChangedAt(s.lastMod, s.reports[u].profile) >= s.reports[u].t))
  }

  ghost predicate Inv(cfg: Config, s: State) {
    && Sharded(s.shards, cfg.size)
    && Total(s.shards) == s.n + |Uncounted(s.puts)|
    && s.n >= 0
    && Faithful(cfg, s.shards, s.latest)
    && PutsSound(cfg, s)
    && GetsSound(cfg, s)
    && ModsSound(s)
  }

  predicate ValidConfig(cfg: Config) {
    cfg.size >= 1 && 0 <= cfg.minTtl <= cfg.maxTtl
  }

  lemma ShardedKept(cfg: Config, s: State, act: Action)
    requires ValidConfig(cfg) && Sharded(s.shards, cfg.size) && Enabled(cfg, s, act)
    ensures Sharded(Step(cfg, s, act).shards, cfg.size)
  {
    match act
    case Add(w, drop) =>
      PutInKeepsSharded(s.shards, cfg.size, KeyOf(cfg, s.puts[w].entry.id), s.puts[w].entry, drop);
    case _ =>
  }

  lemma UncountedAfter(puts: map<nat, Putter>, w: nat, p: Putter)
    ensures |Uncounted(puts[w := p])| ==
            |Uncounted(puts)| - (if w in puts && puts[w].pc == Counting then 1 else 0) + (if p.pc == Counting then 1 else 0)
  {
    var rest := Uncounted(puts) - {w};
    assert Uncounted(puts) == if w in puts && puts[w].pc == Counting then rest + {w} else rest;
    assert Uncounted(puts[w := p]) == if p.pc == Counting then rest + {w} else rest;
  }

  lemma TotalKept(cfg: Config, s: State, act: Action)
    requires ValidConfig(cfg) && Sharded(s.shards, cfg.size) && Enabled(cfg, s, act)
    requires Total(s.shards) == s.n + |Uncounted(s.puts)|
    ensures Total(Step(cfg, s, act).shards) == Step(cfg, s, act).n + |Uncounted(Step(cfg, s, act).puts)|
  {
    var s' := Step(cfg, s, act);
    match act
    case Add(w, drop) =>
      PutInKeepsSharded(s.shards, cfg.size, KeyOf(cfg, s.puts[w].entry.id), s.puts[w].entry, drop);
      UncountedAfter(s.puts, w, s'.puts[w]);
    case Build(w, _, _, _, _) => UncountedAfter(s.puts, w, s'.puts[w]);
    case Count(w) => UncountedAfter(s.puts, w, s'.puts[w]);
    case _ =>
  }

  lemma FaithfulAfterAdd(cfg: Config, shards: seq<map<Key, Entry>>, latest: map<Ident, Entry>, e: Entry, drop: set<Key>)
    requires Sharded(shards, cfg.size) && Faithful(cfg, shards, latest)
    ensures Faithful(cfg, PutIn(shards, KeyOf(cfg, e.id), e, drop), latest[e.id := e])
  {
    var key := KeyOf(cfg, e.id);
    var after: seq<map<Key, Entry>> := PutIn(shards, key, e, drop);
    forall i: nat, k: Key | i < |after| && k in after[i]
      ensures KeyOf(cfg, after[i][k].id) == k
      ensures latest[e.id := e][after[i][k].id] == after[i][k]
    {
      assert k != key ==> k in shards[i] && after[i][k] == shards[i][k];
      assert i == ShardOf(key) || after[i] == shards[i];
    }
  }

  lemma FaithfulKept(cfg: Config, s: State, act: Action)
    requires Sharded(s.shards, cfg.size) && Faithful(cfg, s.shards, s.latest) && Enabled(cfg, s, act)
    ensures Faithful(cfg, Step(cfg, s, act).shards, Step(cfg, s, act).latest)
  {
    match act
    case Add(w, drop) => FaithfulAfterAdd(cfg, s.shards, s.latest, s.puts[w].entry, drop);
    case _ =>
  }

  lemma PutsSoundKept(cfg: Config, s: State, act: Action)
    requires ValidConfig(cfg) && PutsSound(cfg, s) && Enabled(cfg, s, act)
    ensures PutsSound(cfg, Step(cfg, s, act))
  {
  }

  lemma LookedIsLatest(cfg: Config, s: State, profile: string, req: Request)
    requires |s.shards| == SHARDS && Faithful(cfg, s.shards, s.latest) && Looked(cfg, s, profile, req).Found?
    ensures var e := Looked(cfg, s, profile, req).e;
            && e.id == IdentOf(profile, req)
            && e.id in s.latest && s.latest[e.id] == e
  {
  }

  lemma FoundIsSound(cfg: Config, s: State, g: nat)
    requires GetsSound(cfg, s) && PutsSound(cfg, s) && Faithful(cfg, s.shards, s.latest) && Enabled(cfg, s, ReadShard(g))
    ensures GetsSound(cfg, Step(cfg, s, ReadShard(g)))
  {
    if Looked(cfg, s, s.gets[g].profile, s.gets[g].req).Found? {
      LookedIsLatest(cfg, s, s.gets[g].profile, s.gets[g].req);
    }
  }

  lemma GetsSoundKept(cfg: Config, s: State, act: Action)
    requires GetsSound(cfg, s) && PutsSound(cfg, s) && Faithful(cfg, s.shards, s.latest) && Enabled(cfg, s, act)
    ensures GetsSound(cfg, Step(cfg, s, act))
  {
    match act
    case ReadShard(g) => FoundIsSound(cfg, s, g);
    case Tick(_) =>
    case _ =>
  }

  lemma ModsSoundKept(cfg: Config, s: State, act: Action)
    requires ModsSound(s) && Enabled(cfg, s, act)
    ensures ModsSound(Step(cfg, s, act))
    ensures forall p :: ChangedAt(Step(cfg, s, act).lastMod, p) >= ChangedAt(s.lastMod, p)
  {
  }

  lemma StepKeepsInv(cfg: Config, s: State, act: Action)
    requires ValidConfig(cfg) && Inv(cfg, s) && Enabled(cfg, s, act)
    ensures Inv(cfg, Step(cfg, s, act))
  {
    ShardedKept(cfg, s, act);
    TotalKept(cfg, s, act);
    FaithfulKept(cfg, s, act);
    PutsSoundKept(cfg, s, act);
    GetsSoundKept(cfg, s, act);
    ModsSoundKept(cfg, s, act);
  }

  lemma {:induction false} RunKeepsInv(cfg: Config, acts: seq<Action>)
    requires ValidConfig(cfg) && Run(cfg, INIT, acts)
    ensures Inv(cfg, Exec(cfg, INIT, acts))
    decreases |acts|
  {
    if acts == [] {
      TotalOfEmpty(INIT.shards);
      assert Uncounted(INIT.puts) == {};
    } else {
      var before := acts[..|acts| - 1];
      RunKeepsInv(cfg, before);
      StepKeepsInv(cfg, Exec(cfg, INIT, before), acts[|acts| - 1]);
    }
  }
}
