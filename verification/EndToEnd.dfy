/** The request path, the cache and the discoverer as one system, in every interleaving:
    a query consults the cache by a cache lookup of its own, identifies its device through
    the discoverer, and stores what it fetched. A query and the parts it plays in the cache
    and in the discoverer go by one number. */
module EndToEnd {
  import opened Base
  import R = Requests
  import A = Answers
  import C = CacheRuns
  import S = CacheSafety
  import D = DiscoveryRuns
  import P = DiscoverySafety
  import G = DiscoveryCaching

  datatype Config = Config(r: R.Config, c: C.Config, d: D.Config)

  datatype State = State(r: R.State, c: C.State, d: D.State)

  datatype Action = Request(r: R.Action) | Cache(c: C.Action) | Discovery(d: D.Action)

  const INIT := State(R.INIT, C.INIT, D.INIT)

  /** The query is inside `name`, so its ServeDNS waits. */
  predicate Busy(d: D.State, q: nat) {
    q in d.queries && !d.queries[q].pc.Returned?
  }

  /** A hit or a miss is what the query's own cache lookup, for the profile it was routed
      to, came to. */
  predicate Consults(s: State, q: nat, hit: bool)
    requires R.Enabled(s.r, R.Consult(q, hit))
  {
    && q in s.c.gets && s.c.gets[q].profile == s.r.queries[q].pc.profile
    && if hit then s.c.gets[q].pc.Hit? else s.c.gets[q].pc.Miss?
  }

  predicate RequestEnabled(s: State, a: R.Action) {
    && R.Enabled(s.r, a) && !Busy(s.d, a.q)
    && (a.Consult? ==> Consults(s, a.q, a.hit))
  }

  /** Only a query that is to consult the cache looks something up, and only one that has
      fetched a reply stores it, both under the profile it was routed to. */
  predicate CacheEnabled(cfg: Config, s: State, a: C.Action) {
    && C.Enabled(cfg.c, s.c, a)
    && (a.Begin? ==> a.g in s.r.queries && s.r.queries[a.g].pc == R.Routed(a.profile))
    && (a.Build? ==> R.PutCache(a.w, a.profile, R.Matched) in s.r.log)
  }

  /** Only a device lookup asks for a name, and hands on whether it may be held. */
  predicate DiscoveryEnabled(cfg: Config, s: State, a: D.Action) {
    && D.Enabled(cfg.d, s.d, a)
    && (a.Enter? ==> R.LookupDevice(a.q, a.mayHold) in s.r.log)
  }

  predicate Enabled(cfg: Config, s: State, act: Action) {
    match act
    case Request(a) => RequestEnabled(s, a)
    case Cache(a) => CacheEnabled(cfg, s, a)
    case Discovery(a) => DiscoveryEnabled(cfg, s, a)
  }

  function Step(cfg: Config, s: State, act: Action): State
    requires Enabled(cfg, s, act)
  {
    match act
    case Request(a) => s.(r := R.Step(cfg.r, s.r, a))
    case Cache(a) => s.(c := C.Step(cfg.c, s.c, a))
    case Discovery(a) => s.(d := D.Step(cfg.d, s.d, a))
  }

  ghost predicate Run(cfg: Config, acts: seq<Action>)
    decreases |acts|, 0
  {
    acts == [] ||
    var before := acts[..|acts| - 1];
    Run(cfg, before) && Enabled(cfg, Exec(cfg, before), acts[|acts| - 1])
  }

  ghost function Exec(cfg: Config, acts: seq<Action>): State
    requires Run(cfg, acts)
    decreases |acts|, 1
  {
    if acts == [] then INIT
    else
      var before := acts[..|acts| - 1];
      Step(cfg, Exec(cfg, before), acts[|acts| - 1])
  }

  // ---- Each part takes a run of its own ------------------------------------

  function RequestActs(acts: seq<Action>): seq<R.Action> {
    if acts == [] then []
    else
      var last := acts[|acts| - 1];
      RequestActs(acts[..|acts| - 1]) + if last.Request? then [last.r] else []
  }

  function CacheActs(acts: seq<Action>): seq<C.Action> {
    if acts == [] then []
    else
      var last := acts[|acts| - 1];
      CacheActs(acts[..|acts| - 1]) + if last.Cache? then [last.c] else []
  }

  function DiscoveryActs(acts: seq<Action>): seq<D.Action> {
    if acts == [] then []
    else
      var last := acts[|acts| - 1];
      DiscoveryActs(acts[..|acts| - 1]) + if last.Discovery? then [last.d] else []
  }

  lemma {:induction false} RequestsRun(cfg: Config, acts: seq<Action>)
    requires Run(cfg, acts)
    ensures R.Run(cfg.r, R.INIT, RequestActs(acts)) && R.Exec(cfg.r, R.INIT, RequestActs(acts)) == Exec(cfg, acts).r
    decreases |acts|
  {
    if acts != [] {
      var before, last := acts[..|acts| - 1], acts[|acts| - 1];
      RequestsRun(cfg, before);
      if last.Request? {
        R.Extend(cfg.r, R.INIT, RequestActs(before), last.r);
      } else {
        assert RequestActs(acts) == RequestActs(before);
      }
    }
  }

  lemma {:induction false} CacheRun(cfg: Config, acts: seq<Action>)
    requires Run(cfg, acts)
    ensures C.Run(cfg.c, C.INIT, CacheActs(acts)) && C.Exec(cfg.c, C.INIT, CacheActs(acts)) == Exec(cfg, acts).c
    decreases |acts|
  {
    if acts != [] {
      var before, last := acts[..|acts| - 1], acts[|acts| - 1];
      CacheRun(cfg, before);
      if last.Cache? {
        S.Extend(cfg.c, CacheActs(before), last.c);
      } else {
        assert CacheActs(acts) == CacheActs(before);
      }
    }
  }

  lemma {:induction false} DiscoveryRun(cfg: Config, acts: seq<Action>)
    requires Run(cfg, acts)
    ensures D.Run(cfg.d, D.INIT, DiscoveryActs(acts)) && D.Exec(cfg.d, D.INIT, DiscoveryActs(acts)) == Exec(cfg, acts).d
    decreases |acts|
  {
    if acts != [] {
      var before, last := acts[..|acts| - 1], acts[|acts| - 1];
      DiscoveryRun(cfg, before);
      if last.Discovery? {
        G.Extend(cfg.d, D.INIT, DiscoveryActs(before), last.d);
      } else {
        assert DiscoveryActs(acts) == DiscoveryActs(before);
      }
    }
  }

  // ---- What a query asks of the discoverer ---------------------------------

  /** Every query in the discoverer is there through its logged device lookup. */
  ghost predicate EnteredLogged(log: seq<R.Effect>, queries: map<nat, D.Query>) {
    forall q :: q in queries ==> R.LookupDevice(q, queries[q].mayHold) in log
  }

  lemma QueriesStay(cfg: D.Config, s: D.State, a: D.Action, q: nat)
    requires D.Enabled(cfg, s, a) && q in D.Step(cfg, s, a).queries
    ensures (q in s.queries && s.queries[q].mayHold == D.Step(cfg, s, a).queries[q].mayHold)
         || (a.Enter? && a.q == q && a.mayHold == D.Step(cfg, s, a).queries[q].mayHold)
  {
    match a
    case Consult(_, _) =>
    case _ =>
  }

  lemma LogGrows(cfg: R.Config, s: R.State, a: R.Action)
    requires R.Enabled(s, a)
    ensures forall e :: e in s.log ==> e in R.Step(cfg, s, a).log
  {
    var more := R.StepLogs(cfg, s, a, a.q);
  }

  lemma {:induction false} EnteredThroughALookup(cfg: Config, acts: seq<Action>)
    requires Run(cfg, acts)
    ensures EnteredLogged(Exec(cfg, acts).r.log, Exec(cfg, acts).d.queries)
    decreases |acts|
  {
    if acts != [] {
      var s, act := Exec(cfg, acts[..|acts| - 1]), acts[|acts| - 1];
      EnteredThroughALookup(cfg, acts[..|acts| - 1]);
      match act
      case Request(a) => LogGrows(cfg.r, s.r, a);
      case Cache(_) =>
      case Discovery(a) =>
        forall q | q in D.Step(cfg.d, s.d, a).queries
          ensures R.LookupDevice(q, D.Step(cfg.d, s.d, a).queries[q].mayHold) in s.r.log
        {
          QueriesStay(cfg.d, s.d, a, q);
        }
    }
  }

  lemma LoggedIsPermitted(cfg: Config, acts: seq<Action>, e: R.Effect)
    requires Run(cfg, acts) && e in Exec(cfg, acts).r.log
    ensures R.Permitted(cfg.r, Exec(cfg, acts).r.queries, e)
  {
    RequestsRun(cfg, acts);
    R.OnlyPermittedEffects(cfg.r, RequestActs(acts));
    var log := Exec(cfg, acts).r.log;
    var i :| 0 <= i < |log| && log[i] == e;
  }

  /** Each client query starts at most one reverse lookup, and one of the plugin's own
      reverse lookups starts none: it never gets into the discoverer. */
  lemma AtMostOneReverseLookup(cfg: Config, acts: seq<Action>, q: nat)
    requires Run(cfg, acts)
    ensures D.Run(cfg.d, D.INIT, DiscoveryActs(acts)) && G.Opened(cfg.d, DiscoveryActs(acts), q) <= 1
    ensures q in Exec(cfg, acts).r.queries && Exec(cfg, acts).r.queries[q].marked ==> q !in Exec(cfg, acts).d.queries
  {
    DiscoveryRun(cfg, acts);
    G.AtMostOneLookupEach(cfg.d, DiscoveryActs(acts), q);
    EnteredThroughALookup(cfg, acts);
    var s := Exec(cfg, acts);
    if q in s.d.queries {
      LoggedIsPermitted(cfg, acts, R.LookupDevice(q, s.d.queries[q].mayHold));
    }
  }

  /** A held query is on its way upstream past a cache miss: no query that the cache has
      answered, that is passed on, or that is the plugin's own is ever held for a name. */
  lemma OnlyMissesAreHeld(cfg: Config, acts: seq<Action>, q: nat)
    requires Run(cfg, acts) && q in Exec(cfg, acts).d.queries
    requires var pc := Exec(cfg, acts).d.queries[q].pc; pc.Holding? || pc.Reading?
    ensures var s := Exec(cfg, acts);
            q in s.r.queries && !s.r.queries[q].marked && R.PastMiss(s.r.queries[q].pc)
  {
    DiscoveryRun(cfg, acts);
    G.HeldOnlyWhenAllowed(cfg.d, DiscoveryActs(acts));
    EnteredThroughALookup(cfg, acts);
    LoggedIsPermitted(cfg, acts, R.LookupDevice(q, true));
  }

  // ---- Where a cached answer comes from ------------------------------------

  /** Query `w` stored `e`, and was told to by a matching reply for the entry's profile. */
  predicate StoredBy(log: seq<R.Effect>, puts: map<nat, C.Putter>, w: nat, e: A.Entry) {
    w in puts && puts[w].entry == e && R.PutCache(w, e.id.profile, R.Matched) in log
  }

  ghost predicate Sourced(log: seq<R.Effect>, puts: map<nat, C.Putter>, e: A.Entry) {
    exists w :: StoredBy(log, puts, w, e)
  }

  ghost predicate AllSourced(log: seq<R.Effect>, c: C.State) {
    && (forall w :: w in c.puts ==> R.PutCache(w, c.puts[w].entry.id.profile, R.Matched) in log)
    && (forall id :: id in c.latest ==> Sourced(log, c.puts, c.latest[id]))
    && (forall g, e :: S.Holds(c, g, e) ==> Sourced(log, c.puts, e))
  }

  lemma SourcedStays(log: seq<R.Effect>, more: seq<R.Effect>, puts: map<nat, C.Putter>, after: map<nat, C.Putter>, e: A.Entry)
    requires Sourced(log, puts, e) && (forall x :: x in log ==> x in more)
    requires forall w :: w in puts ==> w in after && after[w].entry == puts[w].entry
    ensures Sourced(more, after, e)
  {
    var w :| StoredBy(log, puts, w, e);
    assert StoredBy(more, after, w, e);
  }

  lemma PutsStay(cfg: C.Config, c: C.State, a: C.Action)
    requires C.Enabled(cfg, c, a)
    ensures forall w :: w in c.puts ==> w in C.Step(cfg, c, a).puts && C.Step(cfg, c, a).puts[w].entry == c.puts[w].entry
    ensures forall w :: w in C.Step(cfg, c, a).puts ==>
              w in c.puts || (a.Build? && a.w == w && C.Step(cfg, c, a).puts[w].entry.id.profile == a.profile)
  {
  }

  /** The latest reply of an identity changes by an Add only. */
  lemma LatestStep(cfg: C.Config, c: C.State, a: C.Action, id: A.Ident)
    requires C.Enabled(cfg, c, a) && id in C.Step(cfg, c, a).latest
    ensures (id in c.latest && C.Step(cfg, c, a).latest[id] == c.latest[id])
         || (a.Add? && C.Step(cfg, c, a).latest[id] == c.puts[a.w].entry)
  {
  }

  lemma SourcedStep(log: seq<R.Effect>, cfg: C.Config, c: C.State, a: C.Action)
    requires AllSourced(log, c) && C.Inv(cfg, c) && C.Enabled(cfg, c, a)
    requires a.Build? ==> R.PutCache(a.w, a.profile, R.Matched) in log
    ensures AllSourced(log, C.Step(cfg, c, a))
  {
    var c' := C.Step(cfg, c, a);
    PutsStay(cfg, c, a);
    forall id | id in c'.latest
      ensures Sourced(log, c'.puts, c'.latest[id])
    {
      LatestStep(cfg, c, a, id);
      if a.Add? && c'.latest[id] == c.puts[a.w].entry {
        assert StoredBy(log, c'.puts, a.w, c'.latest[id]);
      } else {
        SourcedStays(log, log, c.puts, c'.puts, c.latest[id]);
      }
    }
    forall g, e | S.Holds(c', g, e)
      ensures Sourced(log, c'.puts, e)
    {
      S.HoldsOnlyWhatItRead(cfg, c, a, g, e);
      SourcedStays(log, log, c.puts, c'.puts, e);
    }
  }

  lemma SourcedMore(log: seq<R.Effect>, more: seq<R.Effect>, c: C.State)
    requires AllSourced(log, c) && (forall x :: x in log ==> x in more)
    ensures AllSourced(more, c)
  {
    forall id | id in c.latest
      ensures Sourced(more, c.puts, c.latest[id])
    {
      SourcedStays(log, more, c.puts, c.puts, c.latest[id]);
    }
    forall g, e | S.Holds(c, g, e)
      ensures Sourced(more, c.puts, e)
    {
      SourcedStays(log, more, c.puts, c.puts, e);
    }
  }

  /** A query answered from the cache had a hit of its own, for the profile under which it
      is logged to have read the cache. */
  ghost predicate HitsLogged(s: State) {
    forall q :: q in s.r.queries && s.r.queries[q].pc == R.Answered(R.FromCache) ==>
      q in s.c.gets && s.c.gets[q].pc.Hit? && R.ReadCache(q, s.c.gets[q].profile) in s.r.log
  }

  lemma HitsLoggedRequest(cfg: Config, s: State, a: R.Action)
    requires HitsLogged(s) && R.Sane(s.r) && RequestEnabled(s, a)
    ensures HitsLogged(s.(r := R.Step(cfg.r, s.r, a)))
  {
    LogGrows(cfg.r, s.r, a);
    if a.Consult? && a.hit {
      var log := R.Step(cfg.r, s.r, a).log;
      assert log[|s.r.log|] == R.ReadCache(a.q, s.r.queries[a.q].pc.profile);
    }
  }

  lemma HitsLoggedCache(cfg: Config, s: State, a: C.Action)
    requires HitsLogged(s) && C.Enabled(cfg.c, s.c, a)
    ensures HitsLogged(s.(c := C.Step(cfg.c, s.c, a)))
  {
  }

  lemma {:induction false} CacheIsSourced(cfg: Config, acts: seq<Action>)
    requires C.ValidConfig(cfg.c) && Run(cfg, acts)
    ensures AllSourced(Exec(cfg, acts).r.log, Exec(cfg, acts).c) && HitsLogged(Exec(cfg, acts))
    decreases |acts|
  {
    if acts != [] {
      var s, act := Exec(cfg, acts[..|acts| - 1]), acts[|acts| - 1];
      CacheIsSourced(cfg, acts[..|acts| - 1]);
      match act
      case Request(a) =>
        LogGrows(cfg.r, s.r, a);
        SourcedMore(s.r.log, R.Step(cfg.r, s.r, a).log, s.c);
        RequestsRun(cfg, acts[..|acts| - 1]);
        R.OnlyPermittedEffects(cfg.r, RequestActs(acts[..|acts| - 1]));
        HitsLoggedRequest(cfg, s, a);
      case Cache(a) =>
        CacheRun(cfg, acts[..|acts| - 1]);
        C.RunKeepsInv(cfg.c, CacheActs(acts[..|acts| - 1]));
        SourcedStep(s.r.log, cfg.c, s.c, a);
        HitsLoggedCache(cfg, s, a);
      case Discovery(_) =>
    }
  }

  /** What a query is answered from the cache was fetched for the very profile the query was
      routed to. Its reply says what the entry of some query `w` says, for the question asked;
      and `w` had that entry from a reply that matched its own question, fetched from
      upstream under the same profile. */
  lemma CachedAnswerWasFetched(cfg: Config, acts: seq<Action>, q: nat)
    requires C.ValidConfig(cfg.c) && Run(cfg, acts)
    requires q in Exec(cfg, acts).r.queries && Exec(cfg, acts).r.queries[q].pc == R.Answered(R.FromCache)
    ensures var s := Exec(cfg, acts);
            && q in s.c.gets && s.c.gets[q].pc.Hit? && R.ReadCache(q, s.c.gets[q].profile) in s.r.log
            && var get := s.c.gets[q];
            && get.pc.e.id == A.IdentOf(get.profile, get.req)
            && A.Substance(get.pc.reply) == A.Substance(get.pc.e.reply)
            && exists w :: StoredBy(s.r.log, s.c.puts, w, get.pc.e) && R.Exchange(w, get.profile) in s.r.log
  {
    var s := Exec(cfg, acts);
    CacheIsSourced(cfg, acts);
    CacheRun(cfg, acts);
    S.HitIsLatestAnswer(cfg.c, CacheActs(acts), q);
    var e := s.c.gets[q].pc.e;
    assert S.Holds(s.c, q, e);
    var w :| StoredBy(s.r.log, s.c.puts, w, e);
    FetchedFirst(cfg, acts, w, e.id.profile);
  }

  lemma FetchedFirst(cfg: Config, acts: seq<Action>, w: nat, profile: string)
    requires Run(cfg, acts) && R.PutCache(w, profile, R.Matched) in Exec(cfg, acts).r.log
    ensures R.Exchange(w, profile) in Exec(cfg, acts).r.log
  {
    RequestsRun(cfg, acts);
    var log := Exec(cfg, acts).r.log;
    var i :| 0 <= i < |log| && log[i] == R.PutCache(w, profile, R.Matched);
    R.CachedWasFetched(cfg.r, RequestActs(acts), i);
  }
}
