/** What the discoverer is sure to do: release every query it holds and let
    shutdown finish, whatever the interleaving, as lookups take their steps. */
module DiscoveryProgress {
  import opened Base
  import opened DiscoveryTable
  import opened DiscoveryRuns
  import opened DiscoverySafety

  /** How many steps a lookup can still take. */
  function Left(pc: LookupPc): nat {
    match pc
    case Unspawned(_) => 8
    case Ready => 7
    case Resolving => 6
    case Storing(_, _) => 5
    case Cleaning(_) => 4
    case StoringBlank => 3
    case Closing => 2
    case Finishing => 1
    case Finished => 0
  }

  /** The step moves this lookup on: its own step, or the `go` statement that starts it. */
  predicate Advances(s: State, act: Action, ch: Chan) {
    match act
    case Work(c, _) => c == ch
    case Spawn(q) => QueryIn(s, q) && s.queries[q].pc.Spawning? && s.queries[q].pc.ch == ch
    case _ => false
  }

  lemma MovingCountsDown(cfg: Config, s: State, c: Chan, m: Move, ch: Chan)
    requires c in s.lookups && MoveEnabled(cfg, s.table, s.lookups[c], m) && ch in s.lookups
    ensures var after := AfterWork(cfg, s, c, m).lookups;
            && ch in after && after[ch].addr == s.lookups[ch].addr
            && if c == ch then Left(after[ch].pc) < Left(s.lookups[ch].pc) else after[ch] == s.lookups[ch]
  {
    var pc := NextPc(cfg, s.table, s.lookups[c], m);
    assert Left(pc) < Left(s.lookups[c].pc);
  }

  lemma SpawningCountsDown(cfg: Config, s: State, q: nat, ch: Chan)
    requires Spawners(s.queries, s.lookups) && Enabled(cfg, s, Spawn(q)) && ch in s.lookups
    ensures var after := AfterSpawn(cfg, s, q).lookups;
            && ch in after && after[ch].addr == s.lookups[ch].addr
            && if s.queries[q].pc.ch == ch then Left(after[ch].pc) < Left(s.lookups[ch].pc) else after[ch] == s.lookups[ch]
  {
    assert s.lookups[s.queries[q].pc.ch].pc.Unspawned?;
  }

  lemma ConsultingMovesNone(cfg: Config, s: State, q: nat, done: Chan, ch: Chan)
    requires Enabled(cfg, s, Consult(q, done)) && ch in s.lookups
    ensures ch in AfterConsult(cfg, s, q, done).lookups && AfterConsult(cfg, s, q, done).lookups[ch] == s.lookups[ch]
  {
  }

  lemma AdvancingCountsDown(cfg: Config, s: State, act: Action, ch: Chan)
    requires Inv(cfg, s) && Enabled(cfg, s, act) && ch in s.lookups
    ensures ch in Step(cfg, s, act).lookups
    ensures Step(cfg, s, act).lookups[ch].addr == s.lookups[ch].addr
    ensures Advances(s, act, ch) ==> Left(Step(cfg, s, act).lookups[ch].pc) < Left(s.lookups[ch].pc)
    ensures !Advances(s, act, ch) ==> Step(cfg, s, act).lookups[ch] == s.lookups[ch]
  {
    match act
    case Work(c, m) => MovingCountsDown(cfg, s, c, m, ch);
    case Spawn(q) => SpawningCountsDown(cfg, s, q, ch);
    case Consult(q, done) => ConsultingMovesNone(cfg, s, q, done, ch);
    case _ =>
  }

  /** A lookup that is not finished always has a step it can take: no lookup waits
      for another, nor for the query that started it beyond its `go` statement. */
  lemma NeverStuck(cfg: Config, s: State, ch: Chan)
    requires Inv(cfg, s) && ch in s.lookups && s.lookups[ch].pc != Finished
    ensures exists act :: Enabled(cfg, s, act) && Advances(s, act, ch)
  {
    var l := s.lookups[ch];
    var victim := Choice(s.table, l.addr, cfg.max);
    var act := match l.pc
      case Unspawned(q) => Spawn(q)
      case Ready => Work(ch, Ask)
      case Resolving => Work(ch, Fail)
      case Storing(_, _) => Work(ch, StoreReply(victim))
      case Cleaning(_) => Work(ch, Cleanup)
      case StoringBlank => Work(ch, StoreBlank(victim))
      case Closing => Work(ch, Close)
      case Finishing => Work(ch, Done);
    assert Enabled(cfg, s, act) && Advances(s, act, ch);
  }

  /** Some entry the eviction loop may drop. */
  ghost function Choice(t: Table, a: Addr, max: nat): (victim: Option<Addr>)
    ensures MayEvict(t, a, max, victim)
  {
    if Full(t, a, max) && t.entries != map[] then
      assert t.entries.Keys != {};
      var k :| k in t.entries; Some(k)
    else None
  }

  ghost function Advanced(cfg: Config, s: State, acts: seq<Action>, ch: Chan): nat
    requires Run(cfg, s, acts)
    decreases |acts|
  {
    if acts == [] then 0
    else
      var before := acts[..|acts| - 1];
      Advanced(cfg, s, before, ch)
      + if Advances(Exec(cfg, s, before), acts[|acts| - 1], ch) then 1 else 0
  }

  /** In every interleaving a lookup can take at most its remaining number of steps. */
  lemma {:induction false} StepsRunOut(cfg: Config, s: State, acts: seq<Action>, ch: Chan)
    requires cfg.max >= 1 && Inv(cfg, s) && Run(cfg, s, acts) && ch in s.lookups
    ensures ch in Exec(cfg, s, acts).lookups
    ensures Exec(cfg, s, acts).lookups[ch].addr == s.lookups[ch].addr
    ensures Advanced(cfg, s, acts, ch) + Left(Exec(cfg, s, acts).lookups[ch].pc) <= Left(s.lookups[ch].pc)
    decreases |acts|
  {
    if acts != [] {
      var before := acts[..|acts| - 1];
      StepsRunOut(cfg, s, before, ch);
      RunKeepsInv(cfg, s, before);
      AdvancingCountsDown(cfg, Exec(cfg, s, before), acts[|acts| - 1], ch);
    }
  }

  predicate WaitsOn(s: State, q: nat, ch: Chan) {
    QueryIn(s, q) && (s.queries[q].pc == Holding(ch) || s.queries[q].pc == Reading(ch) || s.queries[q].pc.Returned?)
  }

  lemma KeepsItsChannelStep(cfg: Config, s: State, act: Action, q: nat, ch: Chan)
    requires Enabled(cfg, s, act) && WaitsOn(s, q, ch)
    ensures WaitsOn(Step(cfg, s, act), q, ch)
  {
    match act
    case Consult(p, done) => assert p != q;
    case Spawn(p) => assert p != q;
    case _ =>
  }

  lemma {:induction false} KeepsItsChannel(cfg: Config, s: State, acts: seq<Action>, q: nat, ch: Chan)
    requires Run(cfg, s, acts) && WaitsOn(s, q, ch)
    ensures WaitsOn(Exec(cfg, s, acts), q, ch)
    decreases |acts|
  {
    if acts != [] {
      KeepsItsChannel(cfg, s, acts[..|acts| - 1], q, ch);
      KeepsItsChannelStep(cfg, Exec(cfg, s, acts[..|acts| - 1]), acts[|acts| - 1], q, ch);
    }
  }

  predicate ClosedIt(s: State, ch: Chan) {
    ch in s.lookups && PastClose(s.lookups[ch].pc)
  }

  /** No lost wakeup. Take any run from a moment at which a query is held, to a moment at
      which its lookup is past its close or has no step left to take. Then the channel is
      closed, and the query has left or is free to wake. With NeverStuck and StepsRunOut,
      which say a lookup always has a step until it is finished and few of them, only a
      resolver that does not return can keep the query waiting. */
  lemma HeldQueriesAreReleased(cfg: Config, s: State, acts: seq<Action>, q: nat)
    requires cfg.max >= 1 && Inv(cfg, s) && Run(cfg, s, acts)
    requires QueryIn(s, q) && s.queries[q].pc.Holding?
    requires var s', ch := Exec(cfg, s, acts), s.queries[q].pc.ch;
             ClosedIt(s', ch) || forall act :: Advances(s', act, ch) ==> !Enabled(cfg, s', act)
    ensures var s' := Exec(cfg, s, acts);
            && s.queries[q].pc.ch in s'.closed
            && QueryIn(s', q)
            && (Enabled(cfg, s', Wake(q)) || s'.queries[q].pc.Reading? || s'.queries[q].pc.Returned?)
  {
    var s', ch := Exec(cfg, s, acts), s.queries[q].pc.ch;
    StepsRunOut(cfg, s, acts, ch);
    RunKeepsInv(cfg, s, acts);
    if !ClosedIt(s', ch) {
      NeverStuck(cfg, s', ch);
    }
    KeepsItsChannel(cfg, s, acts, q, ch);
  }

  // ---- Shutdown ends -------------------------------------------------------

  /** The steps all lookups together can still take. */
  ghost function Total(lookups: map<Chan, Lookup>): nat
    decreases |lookups|
  {
    if lookups == map[] then 0
    else
      assert lookups.Keys != {};
      var c :| c in lookups;
      assert (lookups - {c}).Keys == lookups.Keys - {c};
      Left(lookups[c].pc) + Total(lookups - {c})
  }

  lemma {:induction false} TotalWithout(lookups: map<Chan, Lookup>, c: Chan)
    requires c in lookups
    ensures Total(lookups) == Left(lookups[c].pc) + Total(lookups - {c})
    decreases |lookups|
  {
    assert lookups.Keys != {};
    var d :| d in lookups && Total(lookups) == Left(lookups[d].pc) + Total(lookups - {d});
    if d != c {
      assert (lookups - {d}).Keys == lookups.Keys - {d};
      assert (lookups - {c}).Keys == lookups.Keys - {c};
      TotalWithout(lookups - {d}, c);
      TotalWithout(lookups - {c}, d);
      assert lookups - {d} - {c} == lookups - {c} - {d};
    }
  }

  lemma TotalAfter(lookups: map<Chan, Lookup>, c: Chan, l: Lookup)
    requires c in lookups
    ensures Total(lookups[c := l]) == Total(lookups) - Left(lookups[c].pc) + Left(l.pc)
  {
    TotalWithout(lookups, c);
    TotalWithout(lookups[c := l], c);
    assert lookups[c := l] - {c} == lookups - {c};
  }

  predicate LookupStep(act: Action) {
    act.Work? || act.Spawn?
  }

  lemma MoveCountsDown(cfg: Config, s: State, ch: Chan, m: Move)
    requires ch in s.lookups && MoveEnabled(cfg, s.table, s.lookups[ch], m)
    ensures Total(AfterWork(cfg, s, ch, m).lookups) < Total(s.lookups)
  {
    var pc := NextPc(cfg, s.table, s.lookups[ch], m);
    assert Left(pc) < Left(s.lookups[ch].pc);
    TotalAfter(s.lookups, ch, s.lookups[ch].(pc := pc));
  }

  lemma SpawnCountsDown(cfg: Config, s: State, q: nat)
    requires Inv(cfg, s) && Enabled(cfg, s, Spawn(q))
    ensures Total(AfterSpawn(cfg, s, q).lookups) < Total(s.lookups)
  {
    var ch := s.queries[q].pc.ch;
    TotalAfter(s.lookups, ch, s.lookups[ch].(pc := Ready));
  }

  lemma ClosingCountsDown(cfg: Config, s: State, act: Action)
    requires Inv(cfg, s) && s.table.closing && Enabled(cfg, s, act)
    ensures LookupStep(act) ==> Total(Step(cfg, s, act).lookups) < Total(s.lookups)
    ensures !LookupStep(act) ==> Step(cfg, s, act).lookups == s.lookups
  {
    match act
    case Work(ch, m) => MoveCountsDown(cfg, s, ch, m);
    case Spawn(q) => SpawnCountsDown(cfg, s, q);
    case _ =>
  }

  ghost function LookupSteps(acts: seq<Action>): nat
    decreases |acts|
  {
    if acts == [] then 0
    else LookupSteps(acts[..|acts| - 1]) + if LookupStep(acts[|acts| - 1]) then 1 else 0
  }

  /** Shutdown finishes: after `closing` is set only boundedly many lookup steps are
      left in any run, and when none can be taken the counter is zero, so every
      pending Wait may return. */
  lemma {:induction false} ShutdownEnds(cfg: Config, s: State, acts: seq<Action>)
    requires cfg.max >= 1 && Inv(cfg, s) && s.table.closing && Run(cfg, s, acts)
    ensures LookupSteps(acts) + Total(Exec(cfg, s, acts).lookups) <= Total(s.lookups)
    ensures (forall act :: LookupStep(act) ==> !Enabled(cfg, Exec(cfg, s, acts), act)) ==>
              Exec(cfg, s, acts).table.wg == 0
    decreases |acts|
  {
    var s' := Exec(cfg, s, acts);
    RunKeepsInv(cfg, s, acts);
    if forall act :: LookupStep(act) ==> !Enabled(cfg, s', act) {
      forall ch | ch in s'.lookups ensures s'.lookups[ch].pc == Finished {
        if s'.lookups[ch].pc != Finished {
          NeverStuck(cfg, s', ch);
        }
      }
      assert Live(s'.lookups) == {};
    }
    if acts != [] {
      var before := acts[..|acts| - 1];
      ShutdownEnds(cfg, s, before);
      NothingStartsAfterClosing(cfg, s, before);
      RunKeepsInv(cfg, s, before);
      ClosingCountsDown(cfg, Exec(cfg, s, before), acts[|acts| - 1]);
    }
  }
}
