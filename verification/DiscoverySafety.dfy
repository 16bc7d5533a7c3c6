/** What holds in every interleaving of the discoverer: no runtime panic, single
    flight, correct attribution, and a shutdown that no lookup can slip past. */
module DiscoverySafety {
  import opened Base
  import opened DiscoveryTable
  import opened DiscoveryRuns

  lemma {:induction false} RunKeepsInv(cfg: Config, s: State, acts: seq<Action>)
    requires cfg.max >= 1 && Inv(cfg, s) && Run(cfg, s, acts)
    ensures Inv(cfg, Exec(cfg, s, acts))
    decreases |acts|
  {
    if acts != [] {
      var before := acts[..|acts| - 1];
      RunKeepsInv(cfg, s, before);
      StepKeepsInv(cfg, Exec(cfg, s, before), acts[|acts| - 1]);
    }
  }

  /** No interleaving closes a channel twice, drives the WaitGroup below zero or adds
      to it beside a pending Wait. The counter is the number of lookups started and
      not yet Done; the table and the lookups in flight stay within their limits. */
  lemma EveryRunIsSafe(cfg: Config, acts: seq<Action>)
    requires cfg.max >= 1 && Run(cfg, INIT, acts)
    ensures var s := Exec(cfg, INIT, acts);
            && !s.crashed
            && s.table.wg == |Live(s.lookups)|
            && |s.table.inflight| <= MAX_INFLIGHT
            && |s.table.entries| <= cfg.max
            && Inv(cfg, s)
  {
    assert Live(INIT.lookups) == {};
    RunKeepsInv(cfg, INIT, acts);
  }

  /** Single flight: of all the lookups for one address, at most one has not
      cleaned up, so two resolver calls for it never overlap. */
  lemma SingleFlight(cfg: Config, acts: seq<Action>, c: Chan, d: Chan)
    requires cfg.max >= 1 && Run(cfg, INIT, acts)
    requires var s := Exec(cfg, INIT, acts);
             && c in s.lookups && d in s.lookups && s.lookups[c].addr == s.lookups[d].addr
             && HoldsSlot(s.lookups[c].pc) && HoldsSlot(s.lookups[d].pc)
    ensures c == d
  {
    EveryRunIsSafe(cfg, acts);
  }

  /** The cleanup deletes by address, and what it deletes is always its own slot. */
  lemma CleanupDeletesOwnSlot(cfg: Config, acts: seq<Action>, ch: Chan)
    requires cfg.max >= 1 && Run(cfg, INIT, acts) && Enabled(cfg, Exec(cfg, INIT, acts), Work(ch, Cleanup))
    ensures var s := Exec(cfg, INIT, acts);
            var s' := Step(cfg, s, Work(ch, Cleanup));
            && s.lookups[ch].addr in s.table.inflight
            && s.table.inflight[s.lookups[ch].addr] == ch
            && forall a :: a in s'.table.inflight <==> a in s.table.inflight && s.table.inflight[a] != ch
  {
    EveryRunIsSafe(cfg, acts);
  }

  predicate ClosesChannel(act: Action, ch: Chan) {
    act == Work(ch, Close)
  }

  ghost function Closes(acts: seq<Action>, ch: Chan): nat
    decreases |acts|
  {
    if acts == [] then 0
    else Closes(acts[..|acts| - 1], ch) + if ClosesChannel(acts[|acts| - 1], ch) then 1 else 0
  }

  lemma OnlyCloseCloses(cfg: Config, s: State, act: Action, ch: Chan)
    requires Inv(cfg, s) && Enabled(cfg, s, act)
    ensures ch in Step(cfg, s, act).closed <==> ch in s.closed || ClosesChannel(act, ch)
    ensures ClosesChannel(act, ch) ==> ch !in s.closed
  {
    assert ClosesChannel(act, ch) ==> s.lookups[ch].pc == Closing;
  }

  /** A channel is closed at most once in a run, and is closed at its end exactly
      when the run closed it. */
  lemma {:induction false} ClosedOnce(cfg: Config, acts: seq<Action>, ch: Chan)
    requires cfg.max >= 1 && Run(cfg, INIT, acts)
    ensures Closes(acts, ch) == if ch in Exec(cfg, INIT, acts).closed then 1 else 0
    decreases |acts|
  {
    if acts != [] {
      var before := acts[..|acts| - 1];
      ClosedOnce(cfg, before, ch);
      EveryRunIsSafe(cfg, before);
      OnlyCloseCloses(cfg, Exec(cfg, INIT, before), acts[|acts| - 1], ch);
    }
  }

  // ---- Shutdown ------------------------------------------------------------

  lemma ClosingMoveStartsNothing(cfg: Config, s: State, ch: Chan, m: Move)
    requires ch in s.lookups && MoveEnabled(cfg, s.table, s.lookups[ch], m)
    ensures var s' := AfterWork(cfg, s, ch, m);
            s'.table.closing == s.table.closing && s'.lookups.Keys == s.lookups.Keys && s'.table.wg <= s.table.wg
  {
    assert s.lookups.Keys + {ch} == s.lookups.Keys;
  }

  lemma ClosingStepStartsNothing(cfg: Config, s: State, act: Action)
    requires Inv(cfg, s) && s.table.closing && Enabled(cfg, s, act)
    ensures var s' := Step(cfg, s, act);
            s'.table.closing && s'.lookups.Keys == s.lookups.Keys && s'.table.wg <= s.table.wg
  {
    match act
    case Consult(q, done) => assert !Opens(s, q);
    case Spawn(q) => assert s.lookups.Keys + {s.queries[q].pc.ch} == s.lookups.Keys;
    case Work(ch, m) => ClosingMoveStartsNothing(cfg, s, ch, m);
    case _ =>
  }

  /** Once `closing` is set, no run starts a lookup or raises the counter, and a
      counter that has reached zero stays there however often `drain` is called. */
  lemma {:induction false} NothingStartsAfterClosing(cfg: Config, s: State, acts: seq<Action>)
    requires cfg.max >= 1 && Inv(cfg, s) && s.table.closing && Run(cfg, s, acts)
    ensures var s' := Exec(cfg, s, acts);
            && s'.table.closing
            && s'.lookups.Keys == s.lookups.Keys
            && 0 <= s'.table.wg <= s.table.wg
    decreases |acts|
  {
    if acts != [] {
      var before := acts[..|acts| - 1];
      NothingStartsAfterClosing(cfg, s, before);
      RunKeepsInv(cfg, s, before);
      ClosingStepStartsNothing(cfg, Exec(cfg, s, before), acts[|acts| - 1]);
    }
    RunKeepsInv(cfg, s, acts);
  }

  /** When a drain's Wait returns, every lookup ever started has finished. */
  lemma JoinedMeansFinished(cfg: Config, acts: seq<Action>, d: nat)
    requires cfg.max >= 1 && Run(cfg, INIT, acts)
    requires d in Exec(cfg, INIT, acts).drains && Exec(cfg, INIT, acts).drains[d] == Joined
    ensures var s := Exec(cfg, INIT, acts);
            s.table.inflight == map[] && forall ch :: ch in s.lookups ==> s.lookups[ch].pc == Finished && ch in s.closed
  {
    EveryRunIsSafe(cfg, acts);
    var s := Exec(cfg, INIT, acts);
    assert Live(s.lookups) == {};
    forall ch | ch in s.lookups ensures s.lookups[ch].pc == Finished {
      assert ch !in Live(s.lookups);
    }
    assert s.table.inflight.Keys == {};
  }

  // ---- Attribution ---------------------------------------------------------

  /** Step `i` of the run is the resolver giving `name` to a lookup of `a`. */
  ghost predicate Resolves(cfg: Config, acts: seq<Action>, i: nat, a: Addr, name: string)
    requires Run(cfg, INIT, acts)
  {
    && i < |acts| && acts[i].Work? && acts[i].move == Reply(name)
    && Run(cfg, INIT, acts[..i])
    && acts[i].ch in Exec(cfg, INIT, acts[..i]).lookups
    && Exec(cfg, INIT, acts[..i]).lookups[acts[i].ch].addr == a
  }

  lemma {:induction false} ProducedWasResolved(cfg: Config, acts: seq<Action>, a: Addr, name: string)
    requires Run(cfg, INIT, acts) && (a, name) in Exec(cfg, INIT, acts).produced
    ensures exists i: nat :: Resolves(cfg, acts, i, a, name)
    decreases |acts|
  {
    if acts != [] {
      var k := |acts| - 1;
      var before := acts[..k];
      if (a, name) in Exec(cfg, INIT, before).produced {
        ProducedWasResolved(cfg, before, a, name);
        var i: nat :| Resolves(cfg, before, i, a, name);
        assert before[..i] == acts[..i];
        assert Resolves(cfg, acts, i, a, name);
      } else {
        assert Resolves(cfg, acts, k, a, name);
      }
    }
  }

  /** No cross-attribution: a non-empty name that `name` returns for an address was
      given by the resolver, earlier in the run, to a lookup of that address. */
  lemma ReturnedNameWasResolvedForIt(cfg: Config, acts: seq<Action>, q: nat)
    requires cfg.max >= 1 && Run(cfg, INIT, acts)
    requires q in Exec(cfg, INIT, acts).queries && Exec(cfg, INIT, acts).queries[q].pc.Returned?
    requires Exec(cfg, INIT, acts).queries[q].pc.name != ""
    ensures var query := Exec(cfg, INIT, acts).queries[q];
            exists i: nat :: Resolves(cfg, acts, i, query.addr, query.pc.name)
  {
    EveryRunIsSafe(cfg, acts);
    var query := Exec(cfg, INIT, acts).queries[q];
    ProducedWasResolved(cfg, acts, query.addr, query.pc.name);
  }

  // ---- Store before close --------------------------------------------------

  predicate Records(m: Move) {
    m.StoreReply? || m.StoreBlank? || m.NoReverse?
  }

  ghost predicate RecordedIn(acts: seq<Action>, ch: Chan) {
    exists i :: 0 <= i < |acts| && acts[i].Work? && acts[i].ch == ch && Records(acts[i].move)
  }

  /** Past the point where a lookup's result is on record. */
  predicate OnRecord(pc: LookupPc) {
    pc == Cleaning(false) || pc == Closing || PastClose(pc)
  }

  lemma OnlyRecordingGetsOnRecord(cfg: Config, s: State, act: Action, ch: Chan)
    requires Inv(cfg, s) && Enabled(cfg, s, act)
    requires ch in Step(cfg, s, act).lookups && OnRecord(Step(cfg, s, act).lookups[ch].pc)
    requires !(act.Work? && act.ch == ch && Records(act.move))
    ensures ch in s.lookups && OnRecord(s.lookups[ch].pc)
  {
    match act
    case Work(c, m) => if c == ch { UnrecordedMove(cfg, s.table, s.lookups[ch], m); }
    case Spawn(q) => assert s.queries[q].pc.ch != ch;
    case Consult(_, _) =>
    case _ =>
  }

  lemma UnrecordedMove(cfg: Config, t: Table, l: Lookup, m: Move)
    requires MoveEnabled(cfg, t, l, m) && !Records(m) && OnRecord(NextPc(cfg, t, l, m))
    ensures OnRecord(l.pc)
  {
  }

  lemma {:induction false} RecordedBeforeClosing(cfg: Config, acts: seq<Action>, ch: Chan)
    requires cfg.max >= 1 && Run(cfg, INIT, acts) && ch in Exec(cfg, INIT, acts).lookups
    requires OnRecord(Exec(cfg, INIT, acts).lookups[ch].pc)
    ensures RecordedIn(acts, ch)
    decreases |acts|
  {
    var before := acts[..|acts| - 1];
    var act := acts[|acts| - 1];
    EveryRunIsSafe(cfg, before);
    if act.Work? && act.ch == ch && Records(act.move) {
    } else {
      OnlyRecordingGetsOnRecord(cfg, Exec(cfg, INIT, before), act, ch);
      RecordedBeforeClosing(cfg, before, ch);
      var i :| 0 <= i < |before| && before[i].Work? && before[i].ch == ch && Records(before[i].move);
      assert acts[i] == before[i];
    }
  }

  /** By the time a waiter is released, its lookup has put its result on record
      (or found that the address has no reverse name to ask for). */
  lemma ReleasedMeansRecorded(cfg: Config, acts: seq<Action>, q: nat)
    requires cfg.max >= 1 && Run(cfg, INIT, acts) && Enabled(cfg, Exec(cfg, INIT, acts), Wake(q))
    ensures var ch := Exec(cfg, INIT, acts).queries[q].pc.ch;
            && ch in Exec(cfg, INIT, acts).lookups
            && Exec(cfg, INIT, acts).lookups[ch].addr == Exec(cfg, INIT, acts).queries[q].addr
            && RecordedIn(acts, ch)
  {
    EveryRunIsSafe(cfg, acts);
    RecordedBeforeClosing(cfg, acts, Exec(cfg, INIT, acts).queries[q].pc.ch);
  }

  // ---- One result each -----------------------------------------------------

  /** How many results a lookup has come to: entries stored, or the finding that its
      address has no reverse name, for which nothing is stored. */
  ghost function Results(acts: seq<Action>, ch: Chan): nat
    decreases |acts|
  {
    if acts == [] then 0
    else
      var act := acts[|acts| - 1];
      Results(acts[..|acts| - 1], ch) + if act.Work? && act.ch == ch && Records(act.move) then 1 else 0
  }

  lemma ResultStep(cfg: Config, s: State, act: Action, ch: Chan)
    requires Inv(cfg, s) && Enabled(cfg, s, act)
    ensures var s' := Step(cfg, s, act);
            (if ch in s'.lookups && OnRecord(s'.lookups[ch].pc) then 1 else 0) ==
            (if ch in s.lookups && OnRecord(s.lookups[ch].pc) then 1 else 0)
            + (if act.Work? && act.ch == ch && Records(act.move) then 1 else 0)
  {
    match act
    case Work(c, m) => if c == ch { MoveResult(cfg, s.table, s.lookups[ch], m); }
    case Spawn(q) => SpawnResult(cfg, s, q, ch);
    case Consult(q, done) => ConsultResult(cfg, s, q, done, ch);
    case _ =>
  }

  lemma SpawnResult(cfg: Config, s: State, q: nat, ch: Chan)
    requires Spawners(s.queries, s.lookups) && Enabled(cfg, s, Spawn(q))
    ensures ch in AfterSpawn(cfg, s, q).lookups <==> ch in s.lookups
    ensures ch in s.lookups ==> (OnRecord(AfterSpawn(cfg, s, q).lookups[ch].pc) <==> OnRecord(s.lookups[ch].pc))
  {
    assert s.lookups[s.queries[q].pc.ch].pc.Unspawned?;
  }

  lemma ConsultResult(cfg: Config, s: State, q: nat, done: Chan, ch: Chan)
    requires Enabled(cfg, s, Consult(q, done))
    ensures ch in s.lookups ==>
              ch in AfterConsult(cfg, s, q, done).lookups && AfterConsult(cfg, s, q, done).lookups[ch] == s.lookups[ch]
    ensures ch in AfterConsult(cfg, s, q, done).lookups && ch !in s.lookups ==>
              !OnRecord(AfterConsult(cfg, s, q, done).lookups[ch].pc)
  {
  }

  lemma MoveResult(cfg: Config, t: Table, l: Lookup, m: Move)
    requires MoveEnabled(cfg, t, l, m)
    ensures OnRecord(NextPc(cfg, t, l, m)) <==> OnRecord(l.pc) || Records(m)
    ensures Records(m) ==> !OnRecord(l.pc)
  {
  }

  /** In every run a lookup comes to one result and no more: one by the time it cleans up or,
      after a panic, closes its channel, and none before. */
  lemma {:induction false} OneResultEach(cfg: Config, acts: seq<Action>, ch: Chan)
    requires cfg.max >= 1 && Run(cfg, INIT, acts)
    ensures var s := Exec(cfg, INIT, acts);
            Results(acts, ch) == if ch in s.lookups && OnRecord(s.lookups[ch].pc) then 1 else 0
    decreases |acts|
  {
    if acts != [] {
      OneResultEach(cfg, acts[..|acts| - 1], ch);
      EveryRunIsSafe(cfg, acts[..|acts| - 1]);
      ResultStep(cfg, Exec(cfg, INIT, acts[..|acts| - 1]), acts[|acts| - 1], ch);
    }
  }

  predicate Blanks(acts: seq<Action>, ch: Chan) {
    exists i :: 0 <= i < |acts| && acts[i].Work? && acts[i].ch == ch && acts[i].move.StoreBlank?
  }

  predicate Panicked(acts: seq<Action>, ch: Chan) {
    Work(ch, Panic) in acts
  }

  ghost predicate BlankAfterPanic(s: State, acts: seq<Action>, ch: Chan) {
    && (Blanks(acts, ch) ==> Panicked(acts, ch))
    && (ch in s.lookups && (s.lookups[ch].pc == Cleaning(true) || s.lookups[ch].pc.StoringBlank?) ==> Panicked(acts, ch))
  }

  /** A blank entry is stored by a panicked lookup only. */
  lemma {:induction false} OnlyPanicsBlank(cfg: Config, acts: seq<Action>, ch: Chan)
    requires Run(cfg, INIT, acts)
    ensures BlankAfterPanic(Exec(cfg, INIT, acts), acts, ch)
    decreases |acts|
  {
    if acts != [] {
      OnlyPanicsBlank(cfg, acts[..|acts| - 1], ch);
      BlankStep(cfg, Exec(cfg, INIT, acts[..|acts| - 1]), acts[..|acts| - 1], acts[|acts| - 1], ch);
      assert acts == acts[..|acts| - 1] + [acts[|acts| - 1]];
    }
  }

  lemma BlankStep(cfg: Config, s: State, before: seq<Action>, act: Action, ch: Chan)
    requires Enabled(cfg, s, act) && BlankAfterPanic(s, before, ch)
    ensures BlankAfterPanic(Step(cfg, s, act), before + [act], ch)
  {
    var acts := before + [act];
    BlankMembers(before, act, ch);
    match act
    case Work(c, m) =>
      if c == ch {
        BlankMove(cfg, s.table, s.lookups[ch], m);
      }
    case Consult(_, _) =>
    case _ =>
  }

  lemma BlankMembers(before: seq<Action>, act: Action, ch: Chan)
    ensures Panicked(before + [act], ch) <==> Panicked(before, ch) || act == Work(ch, Panic)
    ensures Blanks(before + [act], ch) ==> Blanks(before, ch) || (act.Work? && act.ch == ch && act.move.StoreBlank?)
  {
    var acts := before + [act];
    if Blanks(acts, ch) {
      var i :| 0 <= i < |acts| && acts[i].Work? && acts[i].ch == ch && acts[i].move.StoreBlank?;
      assert i < |before| ==> before[i] == acts[i];
    }
  }

  lemma BlankMove(cfg: Config, t: Table, l: Lookup, m: Move)
    requires MoveEnabled(cfg, t, l, m)
    ensures m.StoreBlank? ==> l.pc.StoringBlank?
    ensures var pc := NextPc(cfg, t, l, m);
            pc == Cleaning(true) || pc.StoringBlank? ==> m == Panic || l.pc == Cleaning(true)
  {
  }
}
