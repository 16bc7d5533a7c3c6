/** The request path (ServeDNS in nextdns.go) under every interleaving of queries: the
    max_concurrent limiter, the guard on the plugin's own reverse lookups, and what is
    allowed into the cache. The cache's answers, the routing and the upstream exchange
    are choices of the environment here. */
module Requests {
  import opened Base

  datatype Config = Config(maxConcurrent: nat, cacheOn: bool)

  datatype Outcome =
    | FromNext       // the next plugin answered, or its failure is passed on
    | NoName         // our own lookup, unanswered: NXDOMAIN written here
    | FromCache
    | Refused
    | ServFail
    | FormErr        // the upstream reply did not match the question
    | FromUpstream

  /** What the exchange came back with. */
  datatype Exchanged = Failed | Mismatched | Matched

  /** Where a query is in ServeDNS. `Refusing` and `Replying` still owe the deferred
      decrement of the counter. */
  datatype Pc =
    | Arrived
    | Routed(profile: string)
    | Missed(profile: string)
    | Identified(profile: string)
    | Exchanging(profile: string)
    | Replying(outcome: Outcome)
    | Refusing
    | Answered(outcome: Outcome)

  datatype Query = Query(marked: bool, pc: Pc)

  /** What a query makes happen outside ServeDNS, in order. */
  datatype Effect =
    | CallNext(q: nat)
    | ReadCache(q: nat, profile: string)
    | LookupDevice(q: nat, mayHold: bool)
    | Exchange(q: nat, profile: string)
    | PutCache(q: nat, profile: string, reply: Exchanged)

  datatype State = State(concurrent: int, queries: map<nat, Query>, log: seq<Effect>)

  datatype Action =
    | Arrive(q: nat, marked: bool)
    | Guard(q: nat, answered: bool)
    | Route(q: nat, profile: string)
    | Consult(q: nat, hit: bool)
    | Identify(q: nat)
    | Acquire(q: nat)
    | Receive(q: nat, got: Exchanged)
    | Finish(q: nat)

  const INIT := State(0, map[], [])

  predicate At(s: State, q: nat, marked: bool) {
    q in s.queries && s.queries[q].marked == marked
  }

  predicate Enabled(s: State, act: Action) {
    match act
    case Arrive(q, _) => q !in s.queries
    case Guard(q, _) => At(s, q, true) && s.queries[q].pc.Arrived?
    case Route(q, _) => At(s, q, false) && s.queries[q].pc.Arrived?
    case Consult(q, _) => q in s.queries && s.queries[q].pc.Routed?
    case Identify(q) => q in s.queries && s.queries[q].pc.Missed?
    case Acquire(q) => q in s.queries && s.queries[q].pc.Identified?
    case Receive(q, _) => q in s.queries && s.queries[q].pc.Exchanging?
    case Finish(q) => q in s.queries && (s.queries[q].pc.Replying? || s.queries[q].pc.Refusing?)
  }

  function To(s: State, q: nat, pc: Pc, effects: seq<Effect>): State
    requires q in s.queries
  {
    s.(queries := s.queries[q := s.queries[q].(pc := pc)], log := s.log + effects)
  }

  function Step(cfg: Config, s: State, act: Action): State
    requires Enabled(s, act)
  {
    match act
    case Arrive(q, marked) => s.(queries := s.queries[q := Query(marked, Arrived)])
    case Guard(q, answered) => To(s, q, Answered(if answered then FromNext else NoName), [CallNext(q)])
    case Route(q, profile) =>
      if profile == "" || profile == PASSTHROUGH then To(s, q, Answered(FromNext), [CallNext(q)])
      else To(s, q, if cfg.cacheOn then Routed(profile) else Missed(profile), [])
    case Consult(q, hit) =>
      var profile := s.queries[q].pc.profile;
      if hit then To(s, q, Answered(FromCache), [ReadCache(q, profile), LookupDevice(q, false)])
      else To(s, q, Missed(profile), [ReadCache(q, profile)])
    case Identify(q) => To(s, q, Identified(s.queries[q].pc.profile), [LookupDevice(q, true)])
    case Acquire(q) =>
      var profile := s.queries[q].pc.profile;
      if cfg.maxConcurrent == 0 then To(s, q, Exchanging(profile), [Exchange(q, profile)])
      else
        var count := s.concurrent + 1;
        if count > cfg.maxConcurrent then To(s, q, Refusing, []).(concurrent := count)
        else To(s, q, Exchanging(profile), [Exchange(q, profile)]).(concurrent := count)
    case Receive(q, got) =>
      var profile := s.queries[q].pc.profile;
      (match got
       case Failed => To(s, q, Replying(ServFail), [])
       case Mismatched => To(s, q, Replying(FormErr), [])
       case Matched => To(s, q, Replying(FromUpstream), if cfg.cacheOn then [PutCache(q, profile, got)] else []))
    case Finish(q) =>
      var outcome := if s.queries[q].pc.Refusing? then Refused else s.queries[q].pc.outcome;
      To(s, q, Answered(outcome), []).(
        concurrent := if cfg.maxConcurrent == 0 then s.concurrent else s.concurrent - 1)
  }

  ghost predicate Run(cfg: Config, s: State, acts: seq<Action>)
    decreases |acts|, 0
  {
    acts == [] ||
    var before := acts[..|acts| - 1];
    Run(cfg, s, before) && Enabled(Exec(cfg, s, before), acts[|acts| - 1])
  }

  ghost function Exec(cfg: Config, s: State, acts: seq<Action>): State
    requires Run(cfg, s, acts)
    decreases |acts|, 1
  {
    if acts == [] then s
    else
      var before := acts[..|acts| - 1];
      Step(cfg, Exec(cfg, s, before), acts[|acts| - 1])
  }

  // ---- The limiter ---------------------------------------------------------

  function Admitted(queries: map<nat, Query>): set<nat> {
    set q | q in queries && (queries[q].pc.Exchanging? || queries[q].pc.Replying?)
  }

  function BeingRefused(queries: map<nat, Query>): set<nat> {
    set q | q in queries && queries[q].pc.Refusing?
  }

  ghost predicate Inv(cfg: Config, s: State) {
    && s.concurrent == (if cfg.maxConcurrent == 0 then 0 else |Admitted(s.queries)| + |BeingRefused(s.queries)|)
    && (cfg.maxConcurrent > 0 ==> |Admitted(s.queries)| <= cfg.maxConcurrent)
    && (cfg.maxConcurrent == 0 ==> BeingRefused(s.queries) == {})
  }

  function Admits(pc: Pc): nat {
    if pc.Exchanging? || pc.Replying? then 1 else 0
  }

  function Refuses(pc: Pc): nat {
    if pc.Refusing? then 1 else 0
  }

  lemma AdmittedAfter(queries: map<nat, Query>, q: nat, query: Query)
    ensures |Admitted(queries[q := query])| ==
            |Admitted(queries)| - (if q in queries then Admits(queries[q].pc) else 0) + Admits(query.pc)
  {
    var rest := Admitted(queries) - {q};
    assert Admitted(queries) == if q in queries && Admits(queries[q].pc) == 1 then rest + {q} else rest;
    assert Admitted(queries[q := query]) == if Admits(query.pc) == 1 then rest + {q} else rest;
  }

  lemma RefusedAfter(queries: map<nat, Query>, q: nat, query: Query)
    ensures |BeingRefused(queries[q := query])| ==
            |BeingRefused(queries)| - (if q in queries then Refuses(queries[q].pc) else 0) + Refuses(query.pc)
  {
    var rest := BeingRefused(queries) - {q};
    assert BeingRefused(queries) == if q in queries && Refuses(queries[q].pc) == 1 then rest + {q} else rest;
    assert BeingRefused(queries[q := query]) == if Refuses(query.pc) == 1 then rest + {q} else rest;
  }

  lemma StepKeepsInv(cfg: Config, s: State, act: Action)
    requires Inv(cfg, s) && Enabled(s, act)
    ensures Inv(cfg, Step(cfg, s, act))
  {
    var query := Step(cfg, s, act).queries[act.q];
    assert Step(cfg, s, act).queries == s.queries[act.q := query];
    AdmittedAfter(s.queries, act.q, query);
    RefusedAfter(s.queries, act.q, query);
    assert act.q in s.queries && s.queries[act.q].pc.Refusing? ==> act.q in BeingRefused(s.queries);
    assert |BeingRefused(Step(cfg, s, act).queries)| == 0 ==> BeingRefused(Step(cfg, s, act).queries) == {};
  }

  /** In every interleaving at most `maxConcurrent` queries are upstream at once. The
      counter is exactly the queries admitted and those about to be refused, so it is
      never negative, and zero when nothing is in flight. */
  lemma {:induction false} LimiterHolds(cfg: Config, acts: seq<Action>)
    requires Run(cfg, INIT, acts)
    ensures var s := Exec(cfg, INIT, acts);
            && Inv(cfg, s) && s.concurrent >= 0
            && ((forall q :: q in s.queries ==> s.queries[q].pc.Answered?) ==> s.concurrent == 0)
    decreases |acts|
  {
    if acts == [] {
      assert Admitted(INIT.queries) == {} && BeingRefused(INIT.queries) == {};
    } else {
      var before := acts[..|acts| - 1];
      LimiterHolds(cfg, before);
      StepKeepsInv(cfg, Exec(cfg, INIT, before), acts[|acts| - 1]);
    }
    var s := Exec(cfg, INIT, acts);
    if forall q :: q in s.queries ==> s.queries[q].pc.Answered? {
      assert Admitted(s.queries) == {} && BeingRefused(s.queries) == {};
    }
  }

  /** A query is refused exactly when the queries admitted and those still being
      refused already number the maximum. */
  lemma RefusedIff(cfg: Config, s: State, q: nat)
    requires Inv(cfg, s) && cfg.maxConcurrent > 0 && Enabled(s, Acquire(q))
    ensures Step(cfg, s, Acquire(q)).queries[q].pc.Refusing? <==>
            |Admitted(s.queries)| + |BeingRefused(s.queries)| >= cfg.maxConcurrent
  {
  }

  // ---- Effects -------------------------------------------------------------

  /** On its way upstream, past a cache miss, or answered from there. */
  predicate PastMiss(pc: Pc) {
    || pc.Identified? || pc.Exchanging? || pc.Replying? || pc.Refusing?
    || (pc.Answered? && (pc.outcome == Refused || pc.outcome == ServFail || pc.outcome == FormErr || pc.outcome == FromUpstream))
  }

  /** The effects a run can have: nothing but the next plugin for a marked query,
      nothing into the cache but a reply that matched the question, no exchange for
      the passthrough route or for a query answered from the cache. */
  predicate Permitted(cfg: Config, queries: map<nat, Query>, e: Effect) {
    && e.q in queries
    && match e
       case CallNext(q) => queries[q].pc.Answered? && (queries[q].pc.outcome == FromNext || queries[q].pc.outcome == NoName)
       case ReadCache(q, profile) => !queries[q].marked && cfg.cacheOn && profile != "" && profile != PASSTHROUGH
       case LookupDevice(q, mayHold) =>
         !queries[q].marked && if mayHold then PastMiss(queries[q].pc) else queries[q].pc == Answered(FromCache)
       case Exchange(q, profile) =>
         && !queries[q].marked && profile != "" && profile != PASSTHROUGH
         && PastMiss(queries[q].pc) && !queries[q].pc.Identified? && !queries[q].pc.Refusing?
         && queries[q].pc != Answered(Refused)
       case PutCache(q, profile, reply) =>
         && !queries[q].marked && cfg.cacheOn && profile != "" && profile != PASSTHROUGH
         && reply == Matched
         && (queries[q].pc == Replying(FromUpstream) || queries[q].pc == Answered(FromUpstream))
  }

  ghost predicate Sane(s: State) {
    forall q :: q in s.queries ==>
      var query := s.queries[q];
      && (query.marked ==> query.pc.Arrived? || query.pc == Answered(FromNext) || query.pc == Answered(NoName))
      && (query.pc.Routed? || query.pc.Missed? || query.pc.Identified? || query.pc.Exchanging? ==>
            query.pc.profile != "" && query.pc.profile != PASSTHROUGH)
      && (query.pc.Replying? ==>
            query.pc.outcome == ServFail || query.pc.outcome == FormErr || query.pc.outcome == FromUpstream)
  }

  ghost predicate AllPermitted(cfg: Config, s: State) {
    forall i :: 0 <= i < |s.log| ==> Permitted(cfg, s.queries, s.log[i])
  }

  lemma SaneStep(cfg: Config, s: State, act: Action)
    requires Sane(s) && Enabled(s, act)
    ensures Sane(Step(cfg, s, act))
  {
  }

  /** What was permitted stays so as the queries move on. */
  lemma PermittedStep(cfg: Config, s: State, act: Action, e: Effect)
    requires Sane(s) && Enabled(s, act) && Permitted(cfg, s.queries, e)
    ensures Permitted(cfg, Step(cfg, s, act).queries, e)
  {
  }

  lemma NewEffectsPermitted(cfg: Config, s: State, act: Action)
    requires Sane(s) && Enabled(s, act) && (act.Consult? ==> cfg.cacheOn)
    ensures var s' := Step(cfg, s, act);
            && s.log <= s'.log
            && forall i :: |s.log| <= i < |s'.log| ==> Permitted(cfg, s'.queries, s'.log[i])
  {
  }

  ghost predicate RoutedOnlyWithCache(cfg: Config, s: State) {
    forall q :: q in s.queries && s.queries[q].pc.Routed? ==> cfg.cacheOn
  }

  /** Whatever the interleaving, every effect of every query is a permitted one. */
  lemma {:induction false} OnlyPermittedEffects(cfg: Config, acts: seq<Action>)
    requires Run(cfg, INIT, acts)
    ensures var s := Exec(cfg, INIT, acts);
            Sane(s) && RoutedOnlyWithCache(cfg, s) && AllPermitted(cfg, s)
    decreases |acts|
  {
    if acts != [] {
      var before := acts[..|acts| - 1];
      var act := acts[|acts| - 1];
      OnlyPermittedEffects(cfg, before);
      var s, s' := Exec(cfg, INIT, before), Exec(cfg, INIT, acts);
      SaneStep(cfg, s, act);
      NewEffectsPermitted(cfg, s, act);
      forall i | 0 <= i < |s'.log| ensures Permitted(cfg, s'.queries, s'.log[i]) {
        if i < |s.log| {
          assert s'.log[i] == s.log[i];
          PermittedStep(cfg, s, act, s.log[i]);
        }
      }
    }
  }

  /** A marked query, one of the plugin's own reverse lookups, reaches nothing but the
      next plugin: no cache, no device lookup, no exchange. */
  lemma MarkedQueriesOnlyPassOn(cfg: Config, acts: seq<Action>, i: nat)
    requires Run(cfg, INIT, acts) && i < |Exec(cfg, INIT, acts).log|
    requires var s := Exec(cfg, INIT, acts); s.log[i].q in s.queries && s.queries[s.log[i].q].marked
    ensures Exec(cfg, INIT, acts).log[i].CallNext?
  {
    OnlyPermittedEffects(cfg, acts);
  }

  /** How often a query has asked for its device's identity. */
  function DeviceLookups(log: seq<Effect>, q: nat): nat {
    if log == [] then 0
    else
      var last := log[|log| - 1];
      DeviceLookups(log[..|log| - 1], q) + if IsLookupOf(last, q) then 1 else 0
  }

  predicate IsLookupOf(e: Effect, q: nat) {
    e.LookupDevice? && e.q == q
  }

  lemma DeviceLookupsAdd(log: seq<Effect>, e: Effect, q: nat)
    ensures DeviceLookups(log + [e], q) == DeviceLookups(log, q) + if IsLookupOf(e, q) then 1 else 0
  {
    assert (log + [e])[..|log|] == log;
  }

  /** What a step adds to the log: no effect, one, or a cache read and a device lookup. */
  lemma DeviceLookupsAfter(log: seq<Effect>, more: seq<Effect>, q: nat)
    requires |more| <= 1 || (|more| == 2 && more[0].ReadCache?)
    ensures DeviceLookups(log + more, q) ==
            DeviceLookups(log, q) + if more != [] && IsLookupOf(more[|more| - 1], q) then 1 else 0
  {
    if |more| == 0 {
      assert log + more == log;
    } else if |more| == 1 {
      assert more == [more[0]];
      DeviceLookupsAdd(log, more[0], q);
    } else {
      assert log + more == log + [more[0]] + [more[1]];
      DeviceLookupsAdd(log, more[0], q);
      DeviceLookupsAdd(log + [more[0]], more[1], q);
    }
  }

  /** Before its device lookup a query may still make one; afterwards none. */
  function LookupsLeft(s: State, q: nat): nat {
    if q !in s.queries || s.queries[q].pc.Arrived? || s.queries[q].pc.Routed? || s.queries[q].pc.Missed? then 1 else 0
  }

  lemma StepLogs(cfg: Config, s: State, act: Action, q: nat) returns (more: seq<Effect>)
    requires Enabled(s, act)
    ensures Step(cfg, s, act).log == s.log + more
    ensures |more| <= 1 || (|more| == 2 && more[0].ReadCache?)
    ensures (if more != [] && IsLookupOf(more[|more| - 1], q) then 1 else 0) + LookupsLeft(Step(cfg, s, act), q)
            <= LookupsLeft(s, q)
  {
    more := Step(cfg, s, act).log[|s.log|..];
  }

  lemma DeviceLookupStep(cfg: Config, s: State, act: Action, q: nat)
    requires Enabled(s, act)
    ensures var s' := Step(cfg, s, act);
            DeviceLookups(s'.log, q) + LookupsLeft(s', q) <= DeviceLookups(s.log, q) + LookupsLeft(s, q)
  {
    var more := StepLogs(cfg, s, act, q);
    DeviceLookupsAfter(s.log, more, q);
  }

  /** In every interleaving a query identifies its device at most once. */
  lemma {:induction false} AtMostOneDeviceLookup(cfg: Config, acts: seq<Action>, q: nat)
    requires Run(cfg, INIT, acts)
    ensures DeviceLookups(Exec(cfg, INIT, acts).log, q) + LookupsLeft(Exec(cfg, INIT, acts), q) <= 1
    decreases |acts|
  {
    if acts != [] {
      AtMostOneDeviceLookup(cfg, acts[..|acts| - 1], q);
      DeviceLookupStep(cfg, Exec(cfg, INIT, acts[..|acts| - 1]), acts[|acts| - 1], q);
    }
  }

  ghost predicate FetchedBefore(log: seq<Effect>, i: nat, q: nat, profile: string) {
    exists j :: 0 <= j < i && j < |log| && log[j] == Exchange(q, profile)
  }

  ghost predicate Fetches(s: State) {
    && (forall q :: q in s.queries && s.queries[q].pc.Exchanging? ==>
          FetchedBefore(s.log, |s.log|, q, s.queries[q].pc.profile))
    && (forall i :: 0 <= i < |s.log| && s.log[i].PutCache? ==> FetchedBefore(s.log, i, s.log[i].q, s.log[i].profile))
  }

  lemma LongerLogFetches(log: seq<Effect>, more: seq<Effect>, i: nat, q: nat, profile: string)
    requires FetchedBefore(log, i, q, profile)
    ensures FetchedBefore(log + more, i, q, profile) && FetchedBefore(log + more, |log + more|, q, profile)
  {
    var j :| 0 <= j < i && j < |log| && log[j] == Exchange(q, profile);
    assert (log + more)[j] == log[j];
  }

  lemma FetchesStep(cfg: Config, s: State, act: Action)
    requires Fetches(s) && Enabled(s, act)
    ensures Fetches(Step(cfg, s, act))
  {
    var s' := Step(cfg, s, act);
    var more := s'.log[|s.log|..];
    assert s'.log == s.log + more;
    forall i | 0 <= i < |s'.log| && s'.log[i].PutCache?
      ensures FetchedBefore(s'.log, i, s'.log[i].q, s'.log[i].profile)
    {
      if i < |s.log| {
        assert s'.log[i] == s.log[i];
        LongerLogFetches(s.log, more, i, s.log[i].q, s.log[i].profile);
      } else {
        LongerLogFetches(s.log, more, |s.log|, act.q, s.queries[act.q].pc.profile);
      }
    }
    forall q | q in s'.queries && s'.queries[q].pc.Exchanging?
      ensures FetchedBefore(s'.log, |s'.log|, q, s'.queries[q].pc.profile)
    {
      if q in s.queries && s.queries[q].pc.Exchanging? {
        LongerLogFetches(s.log, more, |s.log|, q, s.queries[q].pc.profile);
      } else {
        assert s'.log[|s.log|] == Exchange(q, s'.queries[q].pc.profile);
      }
    }
  }

  lemma {:induction false} FetchesLogged(cfg: Config, acts: seq<Action>)
    requires Run(cfg, INIT, acts)
    ensures Fetches(Exec(cfg, INIT, acts))
    decreases |acts|
  {
    if acts != [] {
      var before := acts[..|acts| - 1];
      FetchesLogged(cfg, before);
      FetchesStep(cfg, Exec(cfg, INIT, before), acts[|acts| - 1]);
    }
  }

  /** What enters the cache answered its question, and was fetched for the profile it
      is filed under: its exchange stands earlier in the log. */
  lemma CachedWasFetched(cfg: Config, acts: seq<Action>, i: nat)
    requires Run(cfg, INIT, acts) && i < |Exec(cfg, INIT, acts).log|
    requires Exec(cfg, INIT, acts).log[i].PutCache?
    ensures var PutCache(q, profile, reply) := Exec(cfg, INIT, acts).log[i];
            reply == Matched && FetchedBefore(Exec(cfg, INIT, acts).log, i, q, profile)
  {
    OnlyPermittedEffects(cfg, acts);
    FetchesLogged(cfg, acts);
  }

  // ---- A refusal with nobody upstream --------------------------------------

  lemma Extend(cfg: Config, s: State, acts: seq<Action>, act: Action)
    requires Run(cfg, s, acts) && Enabled(Exec(cfg, s, acts), act)
    ensures Run(cfg, s, acts + [act]) && Exec(cfg, s, acts + [act]) == Step(cfg, Exec(cfg, s, acts), act)
  {
    assert (acts + [act])[..|acts|] == acts;
  }

  lemma Approaches(s: State, acts: seq<Action>, q: nat) returns (acts': seq<Action>, s': State)
    requires Run(Config(1, false), INIT, acts) && s == Exec(Config(1, false), INIT, acts) && q !in s.queries
    ensures Run(Config(1, false), INIT, acts') && s' == Exec(Config(1, false), INIT, acts')
    ensures s'.concurrent == s.concurrent
    ensures s'.queries == s.queries[q := Query(false, Identified("abc123"))]
  {
    var cfg := Config(1, false);
    acts', s' := acts, s;
    var todo := [Arrive(q, false), Route(q, "abc123"), Identify(q)];
    for i := 0 to 3
      invariant Run(cfg, INIT, acts') && s' == Exec(cfg, INIT, acts') && s'.concurrent == s.concurrent
      invariant s'.queries == if i == 0 then s.queries
        else s.queries[q := Query(false, [Arrived, Missed("abc123"), Identified("abc123")][i - 1])]
    {
      Extend(cfg, INIT, acts', todo[i]);
      acts', s' := acts' + [todo[i]], Step(cfg, s', todo[i]);
    }
  }

  /** The counter includes queries on their way to a refusal, so a query can be refused
      while nothing at all is upstream: with a maximum of one, a first query is served
      while a second is being refused, and a third finds the second's count. */
  lemma RefusedWithNothingUpstream()
    ensures exists acts, q :: Run(Config(1, false), INIT, acts) && Enabled(Exec(Config(1, false), INIT, acts), Acquire(q))
              && Admitted(Exec(Config(1, false), INIT, acts).queries) == {}
              && Step(Config(1, false), Exec(Config(1, false), INIT, acts), Acquire(q)).queries[q].pc.Refusing?
  {
    var cfg := Config(1, false);
    var acts, s := Approaches(INIT, [], 0);
    acts, s := Approaches(s, acts, 1);
    acts, s := Approaches(s, acts, 2);
    acts, s := Advance(acts, s, Acquire(0));
    acts, s := Advance(acts, s, Acquire(1));
    acts, s := Advance(acts, s, Receive(0, Failed));
    acts, s := Advance(acts, s, Finish(0));
    assert s.concurrent == 1 && s.queries[1].pc.Refusing? && s.queries[2].pc.Identified?;
    assert forall q :: q in s.queries ==> q == 0 || q == 1 || q == 2;
    assert Admitted(s.queries) == {};
    assert Step(cfg, s, Acquire(2)).queries[2].pc.Refusing?;
  }

  lemma Advance(acts: seq<Action>, s: State, act: Action) returns (acts': seq<Action>, s': State)
    requires Run(Config(1, false), INIT, acts) && s == Exec(Config(1, false), INIT, acts) && Enabled(s, act)
    ensures Run(Config(1, false), INIT, acts') && s' == Exec(Config(1, false), INIT, acts')
    ensures s' == Step(Config(1, false), s, act)
  {
    Extend(Config(1, false), INIT, acts, act);
    acts', s' := acts + [act], Step(Config(1, false), s, act);
  }
}
