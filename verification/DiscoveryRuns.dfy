/** Every interleaving of `name`, `hold`, `lookup` and `drain` (discovery.go).

    A step is one lock region, one atomic operation, or one event of the environment
    (the clock, the resolver, a caller going away). A lookup is known by the channel
    it was given, which is made for it and for nothing else. */
module DiscoveryRuns {
  import opened Base
  import opened DiscoveryTable

  datatype Config = Config(ttl: Time, retry: Time, wait: Time, max: nat)

  /** Where a lookup goroutine is. `Unspawned` is the moment between the slot being
      taken and the `go` statement, when its Add has already happened. */
  datatype LookupPc =
    | Unspawned(opener: nat)
    | Ready
    | Resolving
    | Storing(name: string, keep: Time)
    | Cleaning(panicked: bool)
    | StoringBlank
    | Closing
    | Finishing
    | Finished

  datatype Lookup = Lookup(addr: Addr, pc: LookupPc)

  /** Where a query inside `name` is. */
  datatype QueryPc =
    | Entered(sampled: Time)
    | Spawning(ch: Chan, stale: string)
    | Holding(ch: Chan)
    | Reading(ch: Chan)
    | Returned(name: string)

  datatype Query = Query(addr: Addr, mayHold: bool, pc: QueryPc)

  /** The goroutine of one `drain` call that waits for the lookups. */
  datatype DrainPc = Shutting | Waiting | Joined

  /** `produced` records which names the resolver has given for which address.
      `crashed` is set by what makes the Go runtime panic: closing a closed channel,
      a negative WaitGroup counter, or an Add from zero beside a pending Wait. */
  datatype State = State(
    now: Time,
    table: Table,
    lookups: map<Chan, Lookup>,
    closed: set<Chan>,
    queries: map<nat, Query>,
    drains: map<nat, DrainPc>,
    produced: set<(Addr, string)>,
    crashed: bool)

  /** What a lookup goroutine does next, with what the resolver and the eviction
      loop choose. `NoReverse` is the early return when the address has no reverse name. */
  datatype Move =
    | NoReverse
    | Ask
    | Reply(name: string)
    | Fail
    | Panic
    | StoreReply(victim: Option<Addr>)
    | Cleanup
    | StoreBlank(victim: Option<Addr>)
    | Close
    | Done

  datatype Action =
    | Tick(d: nat)
    | Enter(q: nat, addr: Addr, mayHold: bool)
    | Consult(q: nat, done: Chan)
    | Spawn(q: nat)
    | Wake(q: nat)
    | GiveUp(q: nat)
    | Read(q: nat)
    | Work(ch: Chan, move: Move)
    | Shut(d: nat)
    | Wait(d: nat)
    | Join(d: nat)

  const INIT := State(0, EMPTY, map[], {}, map[], map[], {}, false)

  predicate MoveEnabled(cfg: Config, t: Table, l: Lookup, m: Move) {
    match m
    case NoReverse => l.pc == Ready
    case Ask => l.pc == Ready
    case Reply(_) => l.pc == Resolving
    case Fail => l.pc == Resolving
    case Panic => l.pc == Ready || l.pc == Resolving
    case StoreReply(victim) => l.pc.Storing? && MayEvict(t, l.addr, cfg.max, victim)
    case Cleanup => l.pc.Cleaning?
    case StoreBlank(victim) => l.pc == StoringBlank && MayEvict(t, l.addr, cfg.max, victim)
    case Close => l.pc == Closing
    case Done => l.pc == Finishing
  }

  predicate QueryIn(s: State, q: nat) { q in s.queries }

  predicate Enabled(cfg: Config, s: State, act: Action) {
    match act
    case Tick(_) => true
    case Enter(q, _, _) => !QueryIn(s, q)
    case Consult(q, done) => QueryIn(s, q) && s.queries[q].pc.Entered? && done !in s.lookups
    case Spawn(q) => QueryIn(s, q) && s.queries[q].pc.Spawning? && s.queries[q].pc.ch in s.lookups
    case Wake(q) => QueryIn(s, q) && s.queries[q].pc.Holding? && s.queries[q].pc.ch in s.closed
    case GiveUp(q) => QueryIn(s, q) && s.queries[q].pc.Holding?
    case Read(q) => QueryIn(s, q) && s.queries[q].pc.Reading?
    case Work(ch, m) => ch in s.lookups && MoveEnabled(cfg, s.table, s.lookups[ch], m)
    case Shut(d) => d !in s.drains
    case Wait(d) => d in s.drains && s.drains[d] == Shutting
    case Join(d) => d in s.drains && s.drains[d] == Waiting && s.table.wg == 0
  }

  /** The order of effects of `lookup`. The normal path stores, cleans up, closes and
      counts down; a panic cleans up first and stores a blank entry afterwards. */
  function NextPc(cfg: Config, t: Table, l: Lookup, m: Move): LookupPc
    requires MoveEnabled(cfg, t, l, m)
  {
    match m
    case NoReverse => Cleaning(false)
    case Ask => Resolving
    case Reply(name) => Storing(name, if name == "" then cfg.retry else cfg.ttl)
    case Fail => Storing("", cfg.retry)
    case Panic => Cleaning(true)
    case StoreReply(_) => Cleaning(false)
    case Cleanup => if l.pc.panicked then StoringBlank else Closing
    case StoreBlank(_) => Closing
    case Close => Finishing
    case Done => Finished
  }

  function NextTable(cfg: Config, t: Table, l: Lookup, m: Move, now: Time): Table
    requires MoveEnabled(cfg, t, l, m)
  {
    match m
    case StoreReply(victim) => Stored(t, l.addr, Entry(l.pc.name, now + l.pc.keep), victim)
    case StoreBlank(victim) => Stored(t, l.addr, Entry("", now + cfg.retry), victim)
    case Cleanup => Released(t, l.addr)
    case Done => t.(wg := t.wg - 1)
    case _ => t
  }

  function LookupTo(lookups: map<Chan, Lookup>, ch: Chan, pc: LookupPc): map<Chan, Lookup>
    requires ch in lookups
  {
    lookups[ch := lookups[ch].(pc := pc)]
  }

  function AfterWork(cfg: Config, s: State, ch: Chan, m: Move): State
    requires ch in s.lookups && MoveEnabled(cfg, s.table, s.lookups[ch], m)
  {
    var l := s.lookups[ch];
    s.(table := NextTable(cfg, s.table, l, m, s.now),
       lookups := LookupTo(s.lookups, ch, NextPc(cfg, s.table, l, m)),
       closed := if m.Close? then s.closed + {ch} else s.closed,
       produced := if m.Reply? then s.produced + {(l.addr, m.name)} else s.produced,
       crashed := s.crashed || (m.Close? && ch in s.closed) || (m.Done? && s.table.wg <= 0))
  }

  /** Whether the lock region of this query's `name` takes a slot. */
  predicate Opens(s: State, q: nat)
    requires QueryIn(s, q) && s.queries[q].pc.Entered?
  {
    Decide(s.table, s.queries[q].addr, s.queries[q].pc.sampled).Begin?
  }

  predicate SomeoneWaits(s: State) {
    exists d :: d in s.drains && s.drains[d] == Waiting
  }

  function QueryTo(queries: map<nat, Query>, q: nat, pc: QueryPc): map<nat, Query>
    requires q in queries
  {
    queries[q := queries[q].(pc := pc)]
  }

  /** `name` once its lock region has decided. */
  function AfterConsult(cfg: Config, s: State, q: nat, done: Chan): State
    requires QueryIn(s, q) && s.queries[q].pc.Entered?
  {
    var query := s.queries[q];
    var v := Decide(s.table, query.addr, query.pc.sampled);
    match v
    case Answer(name) => s.(queries := QueryTo(s.queries, q, Returned(name)))
    case Join(ch, stale) =>
      var pc := if Waits(query.mayHold, cfg.wait, stale) then Holding(ch) else Returned(stale);
      s.(queries := QueryTo(s.queries, q, pc))
    case Begin(stale) =>
      s.(table := Consulted(s.table, query.addr, query.pc.sampled, done),
         queries := QueryTo(s.queries, q, Spawning(done, stale)),
         lookups := s.lookups[done := Lookup(query.addr, Unspawned(q))],
         crashed := s.crashed || (s.table.wg == 0 && SomeoneWaits(s)))
  }

  function AfterSpawn(cfg: Config, s: State, q: nat): State
    requires QueryIn(s, q) && s.queries[q].pc.Spawning? && s.queries[q].pc.ch in s.lookups
  {
    var Query(_, mayHold, Spawning(ch, stale)) := s.queries[q];
    var pc := if Waits(mayHold, cfg.wait, stale) then Holding(ch) else Returned(stale);
    s.(queries := QueryTo(s.queries, q, pc), lookups := LookupTo(s.lookups, ch, Ready))
  }

  function Step(cfg: Config, s: State, act: Action): State
    requires Enabled(cfg, s, act)
  {
    match act
    case Tick(d) => s.(now := s.now + d)
    case Enter(q, addr, mayHold) => s.(queries := s.queries[q := Query(addr, mayHold, Entered(s.now))])
    case Consult(q, done) => AfterConsult(cfg, s, q, done)
    case Spawn(q) => AfterSpawn(cfg, s, q)
    case Wake(q) => s.(queries := QueryTo(s.queries, q, Reading(s.queries[q].pc.ch)))
    case GiveUp(q) => s.(queries := QueryTo(s.queries, q, Returned("")))
    case Read(q) => s.(queries := QueryTo(s.queries, q, Returned(NameAt(s.table, s.queries[q].addr))))
    case Work(ch, m) => AfterWork(cfg, s, ch, m)
    case Shut(d) => s.(table := s.table.(closing := true), drains := s.drains[d := Shutting])
    case Wait(d) => s.(drains := s.drains[d := Waiting])
    case Join(d) => s.(drains := s.drains[d := Joined])
  }

  /** `acts` can be carried out in this order from `s`. */
  ghost predicate Run(cfg: Config, s: State, acts: seq<Action>)
    decreases |acts|, 0
  {
    acts == [] ||
    var before := acts[..|acts| - 1];
    Run(cfg, s, before) && Enabled(cfg, Exec(cfg, s, before), acts[|acts| - 1])
  }

  /** The state such a run ends in. */
  ghost function Exec(cfg: Config, s: State, acts: seq<Action>): State
    requires Run(cfg, s, acts)
    decreases |acts|, 1
  {
    if acts == [] then s
    else
      var before := acts[..|acts| - 1];
      Step(cfg, Exec(cfg, s, before), acts[|acts| - 1])
  }

  // ---- The invariant -------------------------------------------------------

  /** Still owning its slot in `inflight`: everything before the cleanup. */
  predicate HoldsSlot(pc: LookupPc) {
    pc.Unspawned? || pc.Ready? || pc.Resolving? || pc.Storing? || pc.Cleaning?
  }

  predicate PastClose(pc: LookupPc) {
    pc.Finishing? || pc.Finished?
  }

  function Live(lookups: map<Chan, Lookup>): set<Chan> {
    set ch | ch in lookups && lookups[ch].pc != Finished
  }

  /** A slot belongs to one lookup for that address that has not cleaned up, and
      every such lookup has its slot. */
  ghost predicate Slots(inflight: map<Addr, Chan>, lookups: map<Chan, Lookup>) {
    && (forall a :: a in inflight ==>
          inflight[a] in lookups && lookups[inflight[a]].addr == a && HoldsSlot(lookups[inflight[a]].pc))
    && (forall ch :: ch in lookups && HoldsSlot(lookups[ch].pc) ==>
          lookups[ch].addr in inflight && inflight[lookups[ch].addr] == ch)
  }

  /** A channel is closed exactly when its lookup is past `close(done)`. */
  ghost predicate Channels(closed: set<Chan>, lookups: map<Chan, Lookup>) {
    && closed <= lookups.Keys
    && forall ch :: ch in lookups ==> (ch in closed <==> PastClose(lookups[ch].pc))
  }

  ghost predicate Drains(t: Table, drains: map<nat, DrainPc>) {
    forall d :: d in drains ==> t.closing && (drains[d] == Joined ==> t.wg == 0)
  }

  predicate Produced(produced: set<(Addr, string)>, a: Addr, name: string) {
    name == "" || (a, name) in produced
  }

  /** No name is on record, in hand or returned for an address other than the one
      it was resolved for. */
  ghost predicate TableAttributed(produced: set<(Addr, string)>, entries: map<Addr, Entry>) {
    forall a :: a in entries ==> Produced(produced, a, entries[a].name)
  }

  ghost predicate LookupsAttributed(produced: set<(Addr, string)>, lookups: map<Chan, Lookup>) {
    forall ch :: ch in lookups && lookups[ch].pc.Storing? ==>
      Produced(produced, lookups[ch].addr, lookups[ch].pc.name)
  }

  ghost predicate QueriesAttributed(produced: set<(Addr, string)>, queries: map<nat, Query>) {
    forall q :: q in queries ==>
      && (queries[q].pc.Spawning? ==> Produced(produced, queries[q].addr, queries[q].pc.stale))
      && (queries[q].pc.Returned? ==> Produced(produced, queries[q].addr, queries[q].pc.name))
  }

  /** A query about to run its `go` statement and the lookup it will start. */
  ghost predicate Spawners(queries: map<nat, Query>, lookups: map<Chan, Lookup>) {
    && (forall q :: q in queries && queries[q].pc.Spawning? ==>
          && queries[q].pc.ch in lookups
          && lookups[queries[q].pc.ch] == Lookup(queries[q].addr, Unspawned(q)))
    && (forall ch :: ch in lookups && lookups[ch].pc.Unspawned? ==>
          && lookups[ch].pc.opener in queries
          && queries[lookups[ch].pc.opener].pc.Spawning?
          && queries[lookups[ch].pc.opener].pc.ch == ch)
  }

  /** Every channel a query waits on was made for a lookup of that query's own address. */
  ghost predicate Holders(queries: map<nat, Query>, lookups: map<Chan, Lookup>) {
    forall q :: q in queries && (queries[q].pc.Holding? || queries[q].pc.Reading?) ==>
      queries[q].pc.ch in lookups && lookups[queries[q].pc.ch].addr == queries[q].addr
  }

  /** No query holds a clock reading from the future. */
  ghost predicate Clocked(s: State) {
    forall q :: q in s.queries && s.queries[q].pc.Entered? ==> s.queries[q].pc.sampled <= s.now
  }

  ghost predicate Inv(cfg: Config, s: State) {
    && Slots(s.table.inflight, s.lookups)
    && |s.table.inflight| <= MAX_INFLIGHT
    && |s.table.entries| <= cfg.max
    && s.table.wg == |Live(s.lookups)|
    && Channels(s.closed, s.lookups)
    && Drains(s.table, s.drains)
    && TableAttributed(s.produced, s.table.entries)
    && LookupsAttributed(s.produced, s.lookups)
    && QueriesAttributed(s.produced, s.queries)
    && Spawners(s.queries, s.lookups)
    && Holders(s.queries, s.lookups)
    && Clocked(s)
    && !s.crashed
  }

  lemma SlotsAfterMove(cfg: Config, s: State, ch: Chan, m: Move)
    requires Slots(s.table.inflight, s.lookups) && ch in s.lookups && MoveEnabled(cfg, s.table, s.lookups[ch], m)
    ensures Slots(AfterWork(cfg, s, ch, m).table.inflight, AfterWork(cfg, s, ch, m).lookups)
  {
    var s' := AfterWork(cfg, s, ch, m);
    var l := s.lookups[ch];
    var pc' := NextPc(cfg, s.table, l, m);
    if m.Cleanup? {
      assert s'.table.inflight == s.table.inflight - {l.addr};
    } else {
      assert s'.table.inflight == s.table.inflight;
      assert HoldsSlot(pc') == HoldsSlot(l.pc);
    }
  }

  lemma SlotsAfterOpening(inflight: map<Addr, Chan>, lookups: map<Chan, Lookup>, a: Addr, done: Chan, q: nat)
    requires Slots(inflight, lookups) && a !in inflight && done !in lookups
    ensures Slots(inflight[a := done], lookups[done := Lookup(a, Unspawned(q))])
  {
  }

  lemma SlotsKept(cfg: Config, s: State, act: Action)
    requires Slots(s.table.inflight, s.lookups) && Spawners(s.queries, s.lookups)
    requires Enabled(cfg, s, act)
    ensures Slots(Step(cfg, s, act).table.inflight, Step(cfg, s, act).lookups)
  {
    match act
    case Work(ch, m) => SlotsAfterMove(cfg, s, ch, m);
    case Consult(q, done) =>
      if Opens(s, q) {
        SlotsAfterOpening(s.table.inflight, s.lookups, s.queries[q].addr, done, q);
      }
    case _ =>
  }

  lemma BoundedAfterMove(cfg: Config, t: Table, l: Lookup, m: Move, now: Time)
    requires cfg.max >= 1 && MoveEnabled(cfg, t, l, m)
    requires |t.inflight| <= MAX_INFLIGHT && |t.entries| <= cfg.max
    ensures |NextTable(cfg, t, l, m, now).inflight| <= MAX_INFLIGHT
    ensures |NextTable(cfg, t, l, m, now).entries| <= cfg.max
  {
    match m
    case StoreReply(victim) => StoredStaysBounded(t, l.addr, Entry(l.pc.name, now + l.pc.keep), cfg.max, victim);
    case StoreBlank(victim) => StoredStaysBounded(t, l.addr, Entry("", now + cfg.retry), cfg.max, victim);
    case Cleanup =>
      assert (t.inflight - {l.addr}).Keys == t.inflight.Keys - {l.addr};
      SubsetSize(t.inflight.Keys - {l.addr}, t.inflight.Keys);
    case _ =>
  }

  lemma BoundedKept(cfg: Config, s: State, act: Action)
    requires cfg.max >= 1 && Enabled(cfg, s, act)
    requires |s.table.inflight| <= MAX_INFLIGHT && |s.table.entries| <= cfg.max
    ensures |Step(cfg, s, act).table.inflight| <= MAX_INFLIGHT
    ensures |Step(cfg, s, act).table.entries| <= cfg.max
  {
    match act
    case Work(ch, m) => BoundedAfterMove(cfg, s.table, s.lookups[ch], m, s.now);
    case Consult(q, done) => ConsultedStaysBounded(s.table, s.queries[q].addr, s.queries[q].pc.sampled, done);
    case _ =>
  }

  lemma SubsetSize<T>(a: set<T>, b: set<T>)
    requires a <= b
    ensures |a| <= |b|
  {
    assert b == a + (b - a);
  }

  lemma LiveSize(lookups: map<Chan, Lookup>, ch: Chan, l: Lookup)
    requires ch in lookups ==> lookups[ch].pc != Finished
    requires ch !in lookups ==> l.pc != Finished
    ensures |Live(lookups[ch := l])| ==
            |Live(lookups)| + (if ch !in lookups then 1 else if l.pc == Finished then -1 else 0)
    ensures ch in lookups ==> |Live(lookups)| > 0
  {
    var live := Live(lookups);
    if l.pc == Finished {
      assert ch in live && Live(lookups[ch := l]) == live - {ch};
    } else {
      assert ch in live <==> ch in lookups;
      assert Live(lookups[ch := l]) == live + {ch};
      assert ch in live ==> live + {ch} == live;
    }
  }

  lemma CountedKept(cfg: Config, s: State, act: Action)
    requires Enabled(cfg, s, act) && s.table.wg == |Live(s.lookups)| && Spawners(s.queries, s.lookups)
    ensures Step(cfg, s, act).table.wg == |Live(Step(cfg, s, act).lookups)|
  {
    match act
    case Work(ch, m) => LiveSize(s.lookups, ch, s.lookups[ch].(pc := NextPc(cfg, s.table, s.lookups[ch], m)));
    case Consult(q, done) => LiveSize(s.lookups, done, Lookup(s.queries[q].addr, Unspawned(q)));
    case Spawn(q) => LiveSize(s.lookups, s.queries[q].pc.ch, s.lookups[s.queries[q].pc.ch].(pc := Ready));
    case _ =>
  }

  lemma ChannelsKept(cfg: Config, s: State, act: Action)
    requires Channels(s.closed, s.lookups) && Spawners(s.queries, s.lookups) && Enabled(cfg, s, act)
    ensures Channels(Step(cfg, s, act).closed, Step(cfg, s, act).lookups)
  {
  }

  lemma DrainsKept(cfg: Config, s: State, act: Action)
    requires Drains(s.table, s.drains) && s.table.wg == |Live(s.lookups)| && Enabled(cfg, s, act)
    ensures Drains(Step(cfg, s, act).table, Step(cfg, s, act).drains)
  {
    if act.Work? && act.move.Done? {
      LiveSize(s.lookups, act.ch, s.lookups[act.ch].(pc := Finished));
    }
  }

  lemma TableAttributedKept(cfg: Config, s: State, act: Action)
    requires TableAttributed(s.produced, s.table.entries) && LookupsAttributed(s.produced, s.lookups)
    requires Enabled(cfg, s, act)
    ensures TableAttributed(Step(cfg, s, act).produced, Step(cfg, s, act).table.entries)
  {
  }

  lemma LookupsAttributedKept(cfg: Config, s: State, act: Action)
    requires LookupsAttributed(s.produced, s.lookups) && Enabled(cfg, s, act)
    ensures LookupsAttributed(Step(cfg, s, act).produced, Step(cfg, s, act).lookups)
  {
  }

  lemma QueriesAttributedKept(cfg: Config, s: State, act: Action)
    requires QueriesAttributed(s.produced, s.queries) && TableAttributed(s.produced, s.table.entries)
    requires Enabled(cfg, s, act)
    ensures QueriesAttributed(Step(cfg, s, act).produced, Step(cfg, s, act).queries)
  {
    match act
    case Consult(q, done) => QueriesAttributedAfterConsult(cfg, s, q, done);
    case Work(ch, m) => QueriesAttributedMore(s.produced, AfterWork(cfg, s, ch, m).produced, s.queries);
    case _ =>
  }

  lemma QueriesAttributedMore(produced: set<(Addr, string)>, more: set<(Addr, string)>, queries: map<nat, Query>)
    requires QueriesAttributed(produced, queries) && produced <= more
    ensures QueriesAttributed(more, queries)
  {
  }

  lemma QueriesAttributedAfterConsult(cfg: Config, s: State, q: nat, done: Chan)
    requires QueriesAttributed(s.produced, s.queries) && TableAttributed(s.produced, s.table.entries)
    requires Enabled(cfg, s, Consult(q, done))
    ensures QueriesAttributed(s.produced, AfterConsult(cfg, s, q, done).queries)
  {
    assert Produced(s.produced, s.queries[q].addr, NameAt(s.table, s.queries[q].addr));
  }

  lemma SpawnersAfterConsult(cfg: Config, s: State, q: nat, done: Chan)
    requires Spawners(s.queries, s.lookups) && Enabled(cfg, s, Consult(q, done))
    ensures Spawners(AfterConsult(cfg, s, q, done).queries, AfterConsult(cfg, s, q, done).lookups)
  {
    var query := s.queries[q];
    if Opens(s, q) {
      SpawnersAfterOpening(s.queries, s.lookups, q, done, NameAt(s.table, query.addr));
    } else {
      SpawnersWithout(s.queries, s.lookups, q, AfterConsult(cfg, s, q, done).queries[q].pc);
    }
  }

  lemma SpawnersAfterOpening(queries: map<nat, Query>, lookups: map<Chan, Lookup>, q: nat, done: Chan, stale: string)
    requires Spawners(queries, lookups) && q in queries && queries[q].pc.Entered? && done !in lookups
    ensures Spawners(QueryTo(queries, q, Spawning(done, stale)), lookups[done := Lookup(queries[q].addr, Unspawned(q))])
  {
  }

  lemma SpawnersWithout(queries: map<nat, Query>, lookups: map<Chan, Lookup>, q: nat, pc: QueryPc)
    requires Spawners(queries, lookups) && q in queries && !queries[q].pc.Spawning? && !pc.Spawning?
    ensures Spawners(QueryTo(queries, q, pc), lookups)
  {
  }

  lemma SpawnersKept(cfg: Config, s: State, act: Action)
    requires Spawners(s.queries, s.lookups) && Enabled(cfg, s, act)
    ensures Spawners(Step(cfg, s, act).queries, Step(cfg, s, act).lookups)
  {
    match act
    case Work(_, _) =>
    case Consult(q, done) => SpawnersAfterConsult(cfg, s, q, done);
    case Spawn(_) =>
    case _ =>
  }

  lemma HoldersKept(cfg: Config, s: State, act: Action)
    requires Holders(s.queries, s.lookups) && Spawners(s.queries, s.lookups)
    requires Slots(s.table.inflight, s.lookups) && Enabled(cfg, s, act)
    ensures Holders(Step(cfg, s, act).queries, Step(cfg, s, act).lookups)
  {
    match act
    case Consult(q, done) => HoldersAfterConsult(cfg, s, q, done);
    case Spawn(q) => HoldersAfterSpawn(cfg, s, q);
    case _ =>
  }

  lemma HoldersAfterConsult(cfg: Config, s: State, q: nat, done: Chan)
    requires Holders(s.queries, s.lookups) && Slots(s.table.inflight, s.lookups)
    requires Enabled(cfg, s, Consult(q, done))
    ensures Holders(AfterConsult(cfg, s, q, done).queries, AfterConsult(cfg, s, q, done).lookups)
  {
  }

  lemma HoldersAfterSpawn(cfg: Config, s: State, q: nat)
    requires Holders(s.queries, s.lookups) && Spawners(s.queries, s.lookups)
    requires Enabled(cfg, s, Spawn(q))
    ensures Holders(AfterSpawn(cfg, s, q).queries, AfterSpawn(cfg, s, q).lookups)
  {
  }

  lemma ClockedKept(cfg: Config, s: State, act: Action)
    requires Clocked(s) && Enabled(cfg, s, act)
    ensures Clocked(Step(cfg, s, act)) && s.now <= Step(cfg, s, act).now
  {
  }

  lemma NoCrash(cfg: Config, s: State, act: Action)
    requires Inv(cfg, s) && Enabled(cfg, s, act)
    ensures !Step(cfg, s, act).crashed
  {
    if act.Work? && act.move.Done? {
      LiveSize(s.lookups, act.ch, s.lookups[act.ch].(pc := Finished));
    }
  }

  lemma StepKeepsInv(cfg: Config, s: State, act: Action)
    requires cfg.max >= 1 && Inv(cfg, s) && Enabled(cfg, s, act)
    ensures Inv(cfg, Step(cfg, s, act))
  {
    SlotsKept(cfg, s, act);
    BoundedKept(cfg, s, act);
    CountedKept(cfg, s, act);
    ChannelsKept(cfg, s, act);
    DrainsKept(cfg, s, act);
    TableAttributedKept(cfg, s, act);
    LookupsAttributedKept(cfg, s, act);
    QueriesAttributedKept(cfg, s, act);
    SpawnersKept(cfg, s, act);
    HoldersKept(cfg, s, act);
    ClockedKept(cfg, s, act);
    NoCrash(cfg, s, act);
  }
}
