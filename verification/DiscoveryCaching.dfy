/** How far an entry of the discoverer's table protects its address from another
    lookup, and the one way a good entry is lost early. */
module DiscoveryCaching {
  import opened Base
  import opened DiscoveryTable
  import opened DiscoveryRuns
  import opened DiscoverySafety

  /** This lookup has yet to put something on record for its address. */
  predicate StillStores(pc: LookupPc) {
    pc.Unspawned? || pc.Ready? || pc.Resolving? || pc.Storing? || pc == Cleaning(true) || pc.StoringBlank?
  }

  ghost predicate StorePending(s: State, a: Addr) {
    exists ch :: ch in s.lookups && s.lookups[ch].addr == a && StillStores(s.lookups[ch].pc)
  }

  predicate EvictsIt(act: Action, a: Addr) {
    act.Work? && (act.move == StoreReply(Some(a)) || act.move == StoreBlank(Some(a)))
  }

  ghost predicate Evicted(acts: seq<Action>, a: Addr) {
    exists i :: 0 <= i < |acts| && EvictsIt(acts[i], a)
  }

  /** `a` has entry `e` on record, nothing is about to replace it, and every lookup
      ever started for it is among `known`. */
  ghost predicate Guarded(s: State, a: Addr, e: Entry, known: set<Chan>) {
    && a in s.table.entries && s.table.entries[a] == e
    && !StorePending(s, a)
    && forall ch :: ch in s.lookups && s.lookups[ch].addr == a ==> ch in known
  }

  lemma GuardedMove(cfg: Config, s: State, ch: Chan, m: Move, a: Addr, e: Entry, known: set<Chan>)
    requires ch in s.lookups && MoveEnabled(cfg, s.table, s.lookups[ch], m) && !EvictsIt(Work(ch, m), a)
    requires Guarded(s, a, e, known)
    ensures Guarded(AfterWork(cfg, s, ch, m), a, e, known)
  {
    var pc := NextPc(cfg, s.table, s.lookups[ch], m);
    assert StillStores(pc) ==> StillStores(s.lookups[ch].pc);
  }

  lemma GuardedStep(cfg: Config, s: State, act: Action, a: Addr, e: Entry, known: set<Chan>)
    requires Spawners(s.queries, s.lookups) && Clocked(s)
    requires Enabled(cfg, s, act) && !EvictsIt(act, a)
    requires Guarded(s, a, e, known) && s.now < e.expires
    ensures Guarded(Step(cfg, s, act), a, e, known)
  {
    match act
    case Consult(q, done) =>
      if s.queries[q].addr == a {
        assert Fresh(s.table, a, s.queries[q].pc.sampled);
      }
    case Work(ch, m) => GuardedMove(cfg, s, ch, m, a, e, known);
    case Spawn(q) => assert StillStores(s.lookups[s.queries[q].pc.ch].pc);
    case _ =>
  }

  lemma {:induction false} StaysGuarded(cfg: Config, s: State, acts: seq<Action>, a: Addr, e: Entry, known: set<Chan>)
    requires cfg.max >= 1 && Inv(cfg, s) && Run(cfg, s, acts)
    requires Guarded(s, a, e, known)
    requires !Evicted(acts, a) && Exec(cfg, s, acts).now < e.expires
    ensures Guarded(Exec(cfg, s, acts), a, e, known)
    decreases |acts|
  {
    if acts != [] {
      var before := acts[..|acts| - 1];
      var act := acts[|acts| - 1];
      RunKeepsInv(cfg, s, before);
      ClockedKept(cfg, Exec(cfg, s, before), act);
      forall i | 0 <= i < |before| ensures !EvictsIt(before[i], a) {
        assert !EvictsIt(acts[i], a);
      }
      StaysGuarded(cfg, s, before, a, e, known);
      GuardedStep(cfg, Exec(cfg, s, before), act, a, e, known);
    }
  }

  /** Negative and positive caching bound the work. Take any moment at which an
      address is on record and no lookup for it is still to store. In every run from
      there that does not evict it, until the entry expires the entry stays as it is
      and no lookup for the address is started. */
  lemma NoLookupBeforeExpiry(cfg: Config, s: State, acts: seq<Action>, a: Addr)
    requires cfg.max >= 1 && Inv(cfg, s) && Run(cfg, s, acts)
    requires a in s.table.entries && !StorePending(s, a)
    requires !Evicted(acts, a) && Exec(cfg, s, acts).now < s.table.entries[a].expires
    ensures var s' := Exec(cfg, s, acts);
            && a in s'.table.entries && s'.table.entries[a] == s.table.entries[a]
            && forall ch :: ch in s'.lookups && s'.lookups[ch].addr == a ==> ch in s.lookups
  {
    StaysGuarded(cfg, s, acts, a, s.table.entries[a], s.lookups.Keys);
  }

  // ---- When a lookup starts ------------------------------------------------

  /** Nothing on record for the address, or nothing that is still good at `at`. */
  predicate NothingFresh(t: Table, a: Addr, at: Time) {
    a !in t.entries || t.entries[a].expires <= at
  }

  /** The name on record, expired or not. */
  function OnRecordName(t: Table, a: Addr): string {
    if a in t.entries then t.entries[a].name else ""
  }

  /** A query starts a lookup, taking its slot and its count, if and only if nothing fresh
      is on record for its address, no lookup of the address holds a slot, `closing` is not
      set, and a slot is free. So an expired entry, a blank one included, is asked again by
      the first query that finds a free slot. Otherwise nothing is touched. */
  lemma LookupStartsIff(cfg: Config, s: State, q: nat, done: Chan)
    requires Enabled(cfg, s, Consult(q, done))
    ensures var s', a := Step(cfg, s, Consult(q, done)), s.queries[q].addr;
            && (done in s'.lookups <==>
                  && NothingFresh(s.table, a, s.queries[q].pc.sampled) && a !in s.table.inflight
                  && !s.table.closing && |s.table.inflight| < 64)
            && (done in s'.lookups ==>
                  && s'.lookups == s.lookups[done := Lookup(a, Unspawned(q))]
                  && s'.table == s.table.(inflight := s.table.inflight[a := done], wg := s.table.wg + 1)
                  && s'.queries[q].pc == Spawning(done, OnRecordName(s.table, a)))
            && (done !in s'.lookups ==> s'.lookups == s.lookups && s'.table == s.table)
  {
  }

  /** A query that starts no lookup waits for the one that holds the slot of its address,
      or is answered with the name on record. It waits if and only if nothing fresh and no
      name is on record, such a lookup there is, its caller allows it and holding is on. */
  lemma JoinsIff(cfg: Config, s: State, q: nat, done: Chan)
    requires Enabled(cfg, s, Consult(q, done)) && done !in Step(cfg, s, Consult(q, done)).lookups
    ensures var pc, query := Step(cfg, s, Consult(q, done)).queries[q].pc, s.queries[q];
            var a, name := query.addr, OnRecordName(s.table, query.addr);
            if NothingFresh(s.table, a, query.pc.sampled) && a in s.table.inflight
               && query.mayHold && cfg.wait > 0 && name == ""
            then pc == Holding(s.table.inflight[a])
            else pc == Returned(name)
  {
  }

  /** A query that started a lookup waits for it under the same conditions. */
  lemma StarterHoldsIff(cfg: Config, s: State, q: nat)
    requires Enabled(cfg, s, Spawn(q))
    ensures var pc, query := Step(cfg, s, Spawn(q)).queries[q].pc, s.queries[q];
            if query.mayHold && cfg.wait > 0 && query.pc.stale == ""
            then pc == Holding(query.pc.ch)
            else pc == Returned(query.pc.stale)
  {
  }

  /** What a released query is given is the name on record when it reads it. */
  lemma ReleasedGetsTheName(cfg: Config, s: State, q: nat)
    requires Enabled(cfg, s, Read(q))
    ensures Step(cfg, s, Read(q)).queries[q].pc == Returned(OnRecordName(s.table, s.queries[q].addr))
  {
  }

  /** A query that stops waiting, by its own time or its caller's, goes without a name. */
  lemma GivenUpGetsNothing(cfg: Config, s: State, q: nat)
    requires Enabled(cfg, s, GiveUp(q))
    ensures Step(cfg, s, GiveUp(q)).queries[q].pc == Returned("")
  {
  }

  /** An address once on record is never out of reach: in every run, when its entry has
      expired and no lookup of it is under way, the next query starts one, unless the
      server is shutting down or all slots are taken. */
  lemma ExpiredIsAskedAgain(cfg: Config, acts: seq<Action>, q: nat, done: Chan)
    requires cfg.max >= 1 && Run(cfg, INIT, acts) && Enabled(cfg, Exec(cfg, INIT, acts), Consult(q, done))
    requires var s := Exec(cfg, INIT, acts);
             && NothingFresh(s.table, s.queries[q].addr, s.queries[q].pc.sampled)
             && (forall ch :: ch in s.lookups && s.lookups[ch].addr == s.queries[q].addr ==> !HoldsSlot(s.lookups[ch].pc))
    ensures var s, s' := Exec(cfg, INIT, acts), Step(cfg, Exec(cfg, INIT, acts), Consult(q, done));
            done in s'.lookups <==> !s.table.closing && |s.table.inflight| < 64
  {
    EveryRunIsSafe(cfg, acts);
    LookupStartsIff(cfg, Exec(cfg, INIT, acts), q, done);
  }

  // ---- Lifetimes -----------------------------------------------------------

  /** Found names are kept for one time, anything else is asked again after another. */
  function Lifetime(cfg: Config, name: string): Time {
    if name == "" then cfg.retry else cfg.ttl
  }

  ghost predicate KeepsRight(cfg: Config, lookups: map<Chan, Lookup>) {
    forall ch :: ch in lookups && lookups[ch].pc.Storing? ==> lookups[ch].pc.keep == Lifetime(cfg, lookups[ch].pc.name)
  }

  lemma KeepsRightStep(cfg: Config, s: State, act: Action)
    requires KeepsRight(cfg, s.lookups) && Enabled(cfg, s, act)
    ensures KeepsRight(cfg, Step(cfg, s, act).lookups)
  {
    match act
    case Consult(_, _) =>
    case Work(_, _) =>
    case _ =>
  }

  /** Step `i` of the run is a lookup of `a` putting `e` on record: the name it was given,
      or none after a failure or a panic, to expire a lifetime from then. */
  ghost predicate PutOnRecord(cfg: Config, acts: seq<Action>, i: nat, a: Addr, e: Entry)
    requires Run(cfg, INIT, acts)
  {
    && i < |acts| && acts[i].Work? && Run(cfg, INIT, acts[..i])
    && var s := Exec(cfg, INIT, acts[..i]);
    && acts[i].ch in s.lookups && s.lookups[acts[i].ch].addr == a
    && e.expires == s.now + Lifetime(cfg, e.name)
    && if acts[i].move.StoreReply? then s.lookups[acts[i].ch].pc == Storing(e.name, Lifetime(cfg, e.name))
       else acts[i].move.StoreBlank? && e.name == ""
  }

  lemma EntryOnlyFromStore(cfg: Config, s: State, act: Action, a: Addr)
    requires Enabled(cfg, s, act) && a in Step(cfg, s, act).table.entries
    ensures (a in s.table.entries && s.table.entries[a] == Step(cfg, s, act).table.entries[a])
         || (act.Work? && (act.move.StoreReply? || act.move.StoreBlank?) && s.lookups[act.ch].addr == a)
  {
    match act
    case Consult(_, _) =>
    case Work(_, _) =>
    case _ =>
  }

  /** Every entry on record was put there by a lookup of its address, and expires the
      configured time after: one for a name, another for the lack of one. */
  lemma {:induction false} EntryLastsAsConfigured(cfg: Config, acts: seq<Action>, a: Addr)
    requires Run(cfg, INIT, acts)
    ensures KeepsRight(cfg, Exec(cfg, INIT, acts).lookups)
    ensures a in Exec(cfg, INIT, acts).table.entries ==>
              exists i: nat :: PutOnRecord(cfg, acts, i, a, Exec(cfg, INIT, acts).table.entries[a])
    decreases |acts|
  {
    if acts != [] {
      var k := |acts| - 1;
      var before := acts[..k];
      var was, s := Exec(cfg, INIT, before), Exec(cfg, INIT, acts);
      EntryLastsAsConfigured(cfg, before, a);
      KeepsRightStep(cfg, was, acts[k]);
      if a in s.table.entries {
        EntryOnlyFromStore(cfg, was, acts[k], a);
        if a in was.table.entries && was.table.entries[a] == s.table.entries[a] {
          var i: nat :| PutOnRecord(cfg, before, i, a, was.table.entries[a]);
          assert before[..i] == acts[..i];
          assert PutOnRecord(cfg, acts, i, a, s.table.entries[a]);
        } else {
          assert PutOnRecord(cfg, acts, k, a, s.table.entries[a]);
        }
      }
    }
  }

  // ---- A good name lost early ----------------------------------------------

  predicate LookupAt(s: State, ch: Chan, l: Lookup) {
    ch in s.lookups && s.lookups[ch] == l
  }

  /** A lookup for `a` has panicked, given up its slot, and not yet stored its blank. */
  ghost predicate BlankPending(s: State, a: Addr) {
    exists ch :: LookupAt(s, ch, Lookup(a, StoringBlank))
  }

  /** The name on record survives whatever happens before it expires, eviction apart. */
  ghost predicate NamePersists(cfg: Config, s: State, a: Addr)
    requires a in s.table.entries
  {
    forall acts :: Run(cfg, s, acts) && !Evicted(acts, a) && Exec(cfg, s, acts).now < s.table.entries[a].expires ==>
      NameAt(Exec(cfg, s, acts).table, a) == s.table.entries[a].name
  }

  lemma OneStepRun(cfg: Config, s: State, act: Action)
    requires Enabled(cfg, s, act)
    ensures Run(cfg, s, [act]) && Exec(cfg, s, [act]) == Step(cfg, s, act)
  {
    assert [act][..0] == [];
    assert Run(cfg, s, [act][..0]);
  }

  /** Beside the lookup that owns the slot, only a panicked one can still store. */
  lemma OnlyBlanksArePending(s: State, ch: Chan)
    requires Slots(s.table.inflight, s.lookups) && ch in s.lookups && HoldsSlot(s.lookups[ch].pc)
    ensures forall d :: d in s.lookups && d != ch && s.lookups[d].addr == s.lookups[ch].addr ==>
                          (StillStores(s.lookups[d].pc) ==> s.lookups[d].pc.StoringBlank?)
  {
  }

  lemma FoundNameIsGuarded(cfg: Config, s: State, ch: Chan, victim: Option<Addr>)
    requires Slots(s.table.inflight, s.lookups) && Enabled(cfg, s, Work(ch, StoreReply(victim)))
    requires !BlankPending(s, s.lookups[ch].addr)
    ensures var s' := Step(cfg, s, Work(ch, StoreReply(victim)));
            var l := s.lookups[ch];
            Guarded(s', l.addr, Entry(l.pc.name, s.now + l.pc.keep), s'.lookups.Keys)
  {
    OnlyBlanksArePending(s, ch);
    var s' := Step(cfg, s, Work(ch, StoreReply(victim)));
    var a := s.lookups[ch].addr;
    forall d | d in s'.lookups && s'.lookups[d].addr == a ensures !StillStores(s'.lookups[d].pc) {
      assert d != ch ==> !LookupAt(s, d, Lookup(a, StoringBlank));
    }
  }

  /** A name just found stays on record until it expires or is evicted if and only if
      no earlier lookup of the address is in the gap between its panic's cleanup and
      its blank store. */
  lemma FoundNamePersists(cfg: Config, s: State, ch: Chan, victim: Option<Addr>)
    requires cfg.max >= 1 && Inv(cfg, s) && Enabled(cfg, s, Work(ch, StoreReply(victim)))
    requires s.lookups[ch].pc.name != "" && s.lookups[ch].pc.keep > 0
    ensures var s' := Step(cfg, s, Work(ch, StoreReply(victim)));
            var a := s.lookups[ch].addr;
            && NameAt(s'.table, a) == s.lookups[ch].pc.name
            && (NamePersists(cfg, s', a) <==> !BlankPending(s, a))
  {
    var act := Work(ch, StoreReply(victim));
    var s' := Step(cfg, s, act);
    var a := s.lookups[ch].addr;
    StepKeepsInv(cfg, s, act);
    if BlankPending(s, a) {
      var d :| LookupAt(s, d, Lookup(a, StoringBlank));
      BlankedAtOnce(cfg, s', d);
    } else {
      FoundNameIsGuarded(cfg, s, ch, victim);
      forall acts | Run(cfg, s', acts) && !Evicted(acts, a) && Exec(cfg, s', acts).now < s'.table.entries[a].expires
        ensures NameAt(Exec(cfg, s', acts).table, a) == s'.table.entries[a].name
      {
        StaysGuarded(cfg, s', acts, a, s'.table.entries[a], s'.lookups.Keys);
      }
    }
  }

  lemma BlankedAtOnce(cfg: Config, s: State, d: Chan)
    requires d in s.lookups && s.lookups[d].pc.StoringBlank?
    requires var a := s.lookups[d].addr;
             a in s.table.entries && s.table.entries[a].name != "" && s.now < s.table.entries[a].expires
    ensures !NamePersists(cfg, s, s.lookups[d].addr)
  {
    var blank := Work(d, StoreBlank(None));
    OneStepRun(cfg, s, blank);
    assert !Evicted([blank], s.lookups[d].addr);
    assert NameAt(Exec(cfg, s, [blank]).table, s.lookups[d].addr) == "";
  }

  lemma Extend(cfg: Config, s: State, acts: seq<Action>, act: Action)
    requires Run(cfg, s, acts) && Enabled(cfg, Exec(cfg, s, acts), act)
    ensures Run(cfg, s, acts + [act]) && Exec(cfg, s, acts + [act]) == Step(cfg, Exec(cfg, s, acts), act)
  {
    assert (acts + [act])[..|acts|] == acts;
  }

  /** The gap is reachable: from the start there is a run after which a name has been
      found and stored, with a blank pending that wipes it out at once. */
  lemma GapIsReachable(cfg: Config, a: Addr, name: string)
    requires cfg.max >= 1 && cfg.ttl > 0 && name != ""
    ensures exists acts :: Run(cfg, INIT, acts) && a in Exec(cfg, INIT, acts).table.entries
              && Exec(cfg, INIT, acts).table.entries[a].name == name
              && !NamePersists(cfg, Exec(cfg, INIT, acts), a)
  {
    var acts, s := LookupStarts(cfg, a, 0, [], INIT);
    acts, s := PanicsInResolver(cfg, a, acts, s);
    acts, s := LookupStarts(cfg, a, 1, acts, s);
    acts, s := NameFound(cfg, a, name, acts, s);
    BlankedAtOnce(cfg, s, 0);
  }

  lemma Advance(cfg: Config, before: seq<Action>, was: State, act: Action) returns (acts: seq<Action>, s: State)
    requires Run(cfg, INIT, before) && was == Exec(cfg, INIT, before) && Enabled(cfg, was, act)
    ensures Run(cfg, INIT, acts) && s == Exec(cfg, INIT, acts) && s == Step(cfg, was, act)
  {
    Extend(cfg, INIT, before, act);
    acts, s := before + [act], Step(cfg, was, act);
  }

  /** Query `n` comes in and starts lookup `n`, with nothing on record and no slot taken. */
  lemma LookupStarts(cfg: Config, a: Addr, n: nat, before: seq<Action>, was: State) returns (acts: seq<Action>, s: State)
    requires Run(cfg, INIT, before) && was == Exec(cfg, INIT, before)
    requires was.now == 0 && !QueryIn(was, n) && n !in was.lookups
    requires was.table == EMPTY.(wg := was.table.wg)
    ensures Run(cfg, INIT, acts) && s == Exec(cfg, INIT, acts)
    ensures s.lookups == was.lookups[n := Lookup(a, Ready)] && s.now == 0
    ensures s.table == Table(map[], map[a := n], false, was.table.wg + 1)
    ensures s.queries.Keys == was.queries.Keys + {n}
  {
    acts, s := SlotTaken(cfg, a, n, before, was);
    Spawns(cfg, s, a, n);
    acts, s := Advance(cfg, acts, s, Spawn(n));
  }

  lemma SlotTaken(cfg: Config, a: Addr, n: nat, before: seq<Action>, was: State) returns (acts: seq<Action>, s: State)
    requires Run(cfg, INIT, before) && was == Exec(cfg, INIT, before)
    requires was.now == 0 && !QueryIn(was, n) && n !in was.lookups
    requires was.table == EMPTY.(wg := was.table.wg)
    ensures Run(cfg, INIT, acts) && s == Exec(cfg, INIT, acts)
    ensures s.lookups == was.lookups[n := Lookup(a, Unspawned(n))] && s.now == 0
    ensures s.table == Table(map[], map[a := n], false, was.table.wg + 1)
    ensures s.queries == was.queries[n := Query(a, false, Spawning(n, ""))]
  {
    acts, s := Advance(cfg, before, was, Enter(n, a, false));
    OpensFirst(cfg, s, a, n);
    acts, s := Advance(cfg, acts, s, Consult(n, n));
  }

  lemma OpensFirst(cfg: Config, s: State, a: Addr, n: nat)
    requires QueryIn(s, n) && s.queries[n] == Query(a, false, Entered(0)) && n !in s.lookups
    requires s.table == EMPTY.(wg := s.table.wg)
    ensures Enabled(cfg, s, Consult(n, n))
    ensures var s' := Step(cfg, s, Consult(n, n));
            && s'.table == Table(map[], map[a := n], false, s.table.wg + 1)
            && s'.lookups == s.lookups[n := Lookup(a, Unspawned(n))]
            && s'.queries == s.queries[n := Query(a, false, Spawning(n, ""))]
            && s'.now == s.now
  {
    assert Decide(s.table, a, 0) == Begin("");
  }

  lemma Spawns(cfg: Config, s: State, a: Addr, n: nat)
    requires QueryIn(s, n) && s.queries[n] == Query(a, false, Spawning(n, ""))
    requires n in s.lookups && s.lookups[n] == Lookup(a, Unspawned(n))
    ensures Enabled(cfg, s, Spawn(n))
    ensures var s' := Step(cfg, s, Spawn(n));
            && s'.table == s.table && s'.now == s.now
            && s'.lookups == s.lookups[n := Lookup(a, Ready)]
            && s'.queries.Keys == s.queries.Keys
  {
  }

  /** Lookup 0 asks the resolver, panics there and gives up its slot. */
  lemma PanicsInResolver(cfg: Config, a: Addr, before: seq<Action>, was: State) returns (acts: seq<Action>, s: State)
    requires Run(cfg, INIT, before) && was == Exec(cfg, INIT, before)
    requires was.now == 0 && was.lookups == map[0 := Lookup(a, Ready)] && was.table == Table(map[], map[a := 0], false, 1)
    ensures Run(cfg, INIT, acts) && s == Exec(cfg, INIT, acts) && s.now == 0 && s.queries == was.queries
    ensures s.lookups == map[0 := Lookup(a, StoringBlank)] && s.table == EMPTY.(wg := 1)
  {
    acts, s := Advance(cfg, before, was, Work(0, Ask));
    assert s.lookups[0].pc == Resolving;
    acts, s := Advance(cfg, acts, s, Work(0, Panic));
    assert s.lookups[0].pc == Cleaning(true);
    acts, s := Advance(cfg, acts, s, Work(0, Cleanup));
  }

  /** Lookup 1 is given the name and puts it on record. */
  lemma NameFound(cfg: Config, a: Addr, name: string, before: seq<Action>, was: State)
    returns (acts: seq<Action>, s: State)
    requires cfg.max >= 1 && name != "" && Run(cfg, INIT, before) && was == Exec(cfg, INIT, before)
    requires was.now == 0 && was.table.entries == map[]
    requires was.lookups == map[0 := Lookup(a, StoringBlank), 1 := Lookup(a, Ready)]
    ensures Run(cfg, INIT, acts) && s == Exec(cfg, INIT, acts)
    ensures 0 in s.lookups && s.lookups[0] == Lookup(a, StoringBlank) && s.now == 0
    ensures s.table.entries == map[a := Entry(name, cfg.ttl)]
  {
    acts, s := Advance(cfg, before, was, Work(1, Ask));
    acts, s := Advance(cfg, acts, s, Work(1, Reply(name)));
    assert s.lookups[1].pc == Storing(name, cfg.ttl);
    acts, s := Advance(cfg, acts, s, Work(1, StoreReply(None)));
  }

  // ---- Names in hand -------------------------------------------------------

  /** The query has its answer, or is about to have it once its lookup is spawned. */
  predicate Answered(s: State, q: nat, name: string) {
    QueryIn(s, q) && (s.queries[q].pc == Returned(name) || (s.queries[q].pc.Spawning? && s.queries[q].pc.stale == name))
  }

  lemma AnsweredStep(cfg: Config, s: State, act: Action, q: nat, name: string)
    requires Enabled(cfg, s, act) && name != "" && Answered(s, q, name)
    ensures Answered(Step(cfg, s, act), q, name)
  {
  }

  lemma {:induction false} StaysAnswered(cfg: Config, s: State, acts: seq<Action>, q: nat, name: string)
    requires Run(cfg, s, acts) && name != "" && Answered(s, q, name)
    ensures Answered(Exec(cfg, s, acts), q, name)
    decreases |acts|
  {
    if acts != [] {
      StaysAnswered(cfg, s, acts[..|acts| - 1], q, name);
      AnsweredStep(cfg, Exec(cfg, s, acts[..|acts| - 1]), acts[|acts| - 1], q, name);
    }
  }

  /** With a name on record, fresh or expired, the query is given that very name and
      is never held, whatever happens after its lock region. */
  lemma NameOnRecordIsNeverHeld(cfg: Config, s: State, q: nat, done: Chan, acts: seq<Action>)
    requires Enabled(cfg, s, Consult(q, done)) && NameAt(s.table, s.queries[q].addr) != ""
    requires Run(cfg, Step(cfg, s, Consult(q, done)), acts)
    ensures Answered(Exec(cfg, Step(cfg, s, Consult(q, done)), acts), q, NameAt(s.table, s.queries[q].addr))
  {
    StaysAnswered(cfg, Step(cfg, s, Consult(q, done)), acts, q, NameAt(s.table, s.queries[q].addr));
  }

  /** How often this query took a slot for a lookup of its own. */
  ghost function Opened(cfg: Config, acts: seq<Action>, q: nat): nat
    requires Run(cfg, INIT, acts)
    decreases |acts|
  {
    if acts == [] then 0
    else
      var s := Exec(cfg, INIT, acts[..|acts| - 1]);
      var act := acts[|acts| - 1];
      Opened(cfg, acts[..|acts| - 1], q) + if act.Consult? && act.q == q && Opens(s, q) then 1 else 0
  }

  predicate NotConsulted(s: State, q: nat) {
    QueryIn(s, q) ==> s.queries[q].pc.Entered?
  }

  lemma ConsultedForGood(cfg: Config, s: State, act: Action, q: nat)
    requires Enabled(cfg, s, act)
    ensures NotConsulted(Step(cfg, s, act), q) ==> NotConsulted(s, q) && !(act.Consult? && act.q == q)
  {
  }

  /** A client query starts at most one lookup. */
  lemma {:induction false} AtMostOneLookupEach(cfg: Config, acts: seq<Action>, q: nat)
    requires Run(cfg, INIT, acts)
    ensures Opened(cfg, acts, q) <= 1
    ensures NotConsulted(Exec(cfg, INIT, acts), q) ==> Opened(cfg, acts, q) == 0
    decreases |acts|
  {
    if acts != [] {
      AtMostOneLookupEach(cfg, acts[..|acts| - 1], q);
      ConsultedForGood(cfg, Exec(cfg, INIT, acts[..|acts| - 1]), acts[|acts| - 1], q);
    }
  }

  /** A query is only ever held if its caller allows it and holding is switched on. */
  ghost predicate HeldAllowed(cfg: Config, s: State) {
    forall q :: q in s.queries && (s.queries[q].pc.Holding? || s.queries[q].pc.Reading?) ==>
      s.queries[q].mayHold && cfg.wait > 0
  }

  lemma HeldAllowedStep(cfg: Config, s: State, act: Action)
    requires HeldAllowed(cfg, s) && Enabled(cfg, s, act)
    ensures HeldAllowed(cfg, Step(cfg, s, act))
  {
    match act
    case Consult(q, done) => HeldAllowedConsult(cfg, s, q, done);
    case Spawn(q) => HeldAllowedSpawn(cfg, s, q);
    case _ =>
  }

  lemma HeldAllowedConsult(cfg: Config, s: State, q: nat, done: Chan)
    requires HeldAllowed(cfg, s) && Enabled(cfg, s, Consult(q, done))
    ensures HeldAllowed(cfg, Step(cfg, s, Consult(q, done)))
  {
  }

  lemma HeldAllowedSpawn(cfg: Config, s: State, q: nat)
    requires HeldAllowed(cfg, s) && Enabled(cfg, s, Spawn(q))
    ensures HeldAllowed(cfg, Step(cfg, s, Spawn(q)))
  {
  }

  /** A query the cache has answered is never held, nor is any with holding switched off. */
  lemma {:induction false} HeldOnlyWhenAllowed(cfg: Config, acts: seq<Action>)
    requires Run(cfg, INIT, acts)
    ensures HeldAllowed(cfg, Exec(cfg, INIT, acts))
    decreases |acts|
  {
    if acts != [] {
      HeldOnlyWhenAllowed(cfg, acts[..|acts| - 1]);
      HeldAllowedStep(cfg, Exec(cfg, INIT, acts[..|acts| - 1]), acts[|acts| - 1]);
    }
  }
}
