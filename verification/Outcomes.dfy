/** What a query is answered with, against what happened to it (ServeDNS in nextdns.go):
    each outcome comes of one cause and of no other, and so does each effect. */
module Outcomes {
  import opened Base
  import opened Requests

  /** The query is answered that way, or is about to be. */
  predicate Ends(s: State, q: nat, o: Outcome) {
    q in s.queries && (s.queries[q].pc == Replying(o) || s.queries[q].pc == Answered(o))
  }

  /** The query is refused, or is about to be. */
  predicate EndsRefused(s: State, q: nat) {
    q in s.queries && (s.queries[q].pc == Refusing || s.queries[q].pc == Answered(Refused))
  }

  // ---- Outcomes ------------------------------------------------------------

  /** What makes a query end in an outcome, refusals apart. */
  predicate Causes(act: Action, q: nat, o: Outcome) {
    match o
    case FromUpstream => act == Receive(q, Matched)
    case FormErr => act == Receive(q, Mismatched)
    case ServFail => act == Receive(q, Failed)
    case FromCache => act == Consult(q, true)
    case NoName => act == Guard(q, false)
    case FromNext => act == Guard(q, true) || act == Route(q, "") || act == Route(q, "-")
    case Refused => false
  }

  ghost predicate Caused(acts: seq<Action>, q: nat, o: Outcome) {
    exists i :: 0 <= i < |acts| && Causes(acts[i], q, o)
  }

  lemma CausedMore(acts: seq<Action>, act: Action, q: nat, o: Outcome)
    ensures Caused(acts + [act], q, o) <==> Caused(acts, q, o) || Causes(act, q, o)
  {
    var more := acts + [act];
    assert more[|acts|] == act;
    if Caused(acts, q, o) {
      var i :| 0 <= i < |acts| && Causes(acts[i], q, o);
      assert Causes(more[i], q, o);
    }
    if Caused(more, q, o) {
      var i :| 0 <= i < |more| && Causes(more[i], q, o);
      assert i < |acts| ==> Causes(acts[i], q, o);
    }
  }

  lemma OtherStepKeeps(cfg: Config, s: State, act: Action, q: nat)
    requires Enabled(s, act) && act.q != q
    ensures var s' := Step(cfg, s, act);
            (q in s'.queries <==> q in s.queries) && (q in s.queries ==> s'.queries[q] == s.queries[q])
  {
  }

  lemma EndsStep(cfg: Config, s: State, act: Action, q: nat, o: Outcome)
    requires Sane(s) && Enabled(s, act) && o != Refused
    ensures Ends(Step(cfg, s, act), q, o) <==> Ends(s, q, o) || Causes(act, q, o)
  {
    if act.q != q {
      OtherStepKeeps(cfg, s, act, q);
    } else {
      OwnStepEnds(cfg, s, act, o);
    }
  }

  lemma OwnStepEnds(cfg: Config, s: State, act: Action, o: Outcome)
    requires Sane(s) && Enabled(s, act) && o != Refused
    ensures Ends(Step(cfg, s, act), act.q, o) <==> Ends(s, act.q, o) || Causes(act, act.q, o)
  {
  }

  /** The count stood at the maximum when the query asked for a slot. */
  ghost predicate OverLimit(cfg: Config, acts: seq<Action>, q: nat) {
    exists i :: AcquiredOverLimit(cfg, acts, q, i)
  }

  ghost predicate AcquiredOverLimit(cfg: Config, acts: seq<Action>, q: nat, i: int) {
    && 0 <= i < |acts| && acts[i] == Acquire(q) && Run(cfg, INIT, acts[..i])
    && var s := Exec(cfg, INIT, acts[..i]);
    && cfg.maxConcurrent > 0
    && |Admitted(s.queries)| + |BeingRefused(s.queries)| >= cfg.maxConcurrent
  }

  lemma OverLimitGrows(cfg: Config, acts: seq<Action>, act: Action, q: nat)
    requires Run(cfg, INIT, acts)
    ensures OverLimit(cfg, acts + [act], q) <==>
            OverLimit(cfg, acts, q) || AcquiredOverLimit(cfg, acts + [act], q, |acts|)
  {
    var more := acts + [act];
    assert more[..|acts|] == acts;
    forall i | 0 <= i < |acts|
      ensures AcquiredOverLimit(cfg, more, q, i) <==> AcquiredOverLimit(cfg, acts, q, i)
    {
      assert more[..i] == acts[..i];
    }
  }

  lemma RefusedStep(cfg: Config, s: State, act: Action, q: nat)
    requires Sane(s) && Inv(cfg, s) && Enabled(s, act)
    ensures EndsRefused(Step(cfg, s, act), q) <==>
            EndsRefused(s, q)
            || (act == Acquire(q) && cfg.maxConcurrent > 0
                && |Admitted(s.queries)| + |BeingRefused(s.queries)| >= cfg.maxConcurrent)
  {
    if act.q != q {
      OtherStepKeeps(cfg, s, act, q);
    } else if act.Acquire? && cfg.maxConcurrent > 0 {
      RefusedIff(cfg, s, q);
    }
  }

  /** In every interleaving: a query is answered with the reply from upstream, FORMERR or
      SERVFAIL exactly when what it received matched its question, did not, or was a failure;
      from the cache exactly on a hit; by the next plugin exactly when the next plugin
      answered its own reverse lookup or it is routed nowhere or to the passthrough; with
      NXDOMAIN exactly when its own reverse lookup stayed unanswered; and refused exactly
      when it asked for a slot with the count at the maximum. */
  lemma {:induction false} OutcomesExplained(cfg: Config, acts: seq<Action>, q: nat, o: Outcome)
    requires Run(cfg, INIT, acts)
    ensures if o == Refused then EndsRefused(Exec(cfg, INIT, acts), q) <==> OverLimit(cfg, acts, q)
            else Ends(Exec(cfg, INIT, acts), q, o) <==> Caused(acts, q, o)
    decreases |acts|
  {
    if acts != [] {
      var before, act := acts[..|acts| - 1], acts[|acts| - 1];
      var s := Exec(cfg, INIT, before);
      assert acts == before + [act];
      OutcomesExplained(cfg, before, q, o);
      OnlyPermittedEffects(cfg, before);
      if o == Refused {
        LimiterHolds(cfg, before);
        RefusedStep(cfg, s, act, q);
        assert acts[..|before|] == before;
        OverLimitGrows(cfg, before, act, q);
      } else {
        EndsStep(cfg, s, act, q, o);
        CausedMore(before, act, q, o);
      }
    }
  }

  /** Until it is answered, a query has a step it can take. */
  lemma UnansweredHasAStep(s: State, q: nat)
    requires q in s.queries && !s.queries[q].pc.Answered?
    ensures exists act :: Enabled(s, act) && act.q == q
  {
    var act := match s.queries[q].pc
      case Arrived => if s.queries[q].marked then Guard(q, true) else Route(q, "")
      case Routed(_) => Consult(q, true)
      case Missed(_) => Identify(q)
      case Identified(_) => Acquire(q)
      case Exchanging(_) => Receive(q, Failed)
      case _ => Finish(q);
    assert Enabled(s, act) && act.q == q;
  }

  // ---- Effects -------------------------------------------------------------

  function ProfileOf(pc: Pc): Option<string> {
    match pc
    case Routed(p) => Some(p)
    case Missed(p) => Some(p)
    case Identified(p) => Some(p)
    case Exchanging(p) => Some(p)
    case _ => None
  }

  /** Some action of the run is that one. */
  predicate Did(acts: seq<Action>, act: Action) {
    act in acts
  }

  lemma DidMore(acts: seq<Action>, act: Action, x: Action)
    ensures Did(acts + [act], x) <==> Did(acts, x) || x == act
  {
  }

  /** Whether `p` is the profile the query was routed to. A query not yet routed was routed
      nowhere, and one on its way goes by its own route only. */
  ghost predicate RoutedOnce(s: State, acts: seq<Action>, q: nat, p: string) {
    && (q !in s.queries || s.queries[q].pc == Arrived ==> !Did(acts, Route(q, p)))
    && (q in s.queries && ProfileOf(s.queries[q].pc).Some? ==>
          (Did(acts, Route(q, p)) <==> p == ProfileOf(s.queries[q].pc).value))
  }

  lemma RoutedOnceStep(cfg: Config, s: State, acts: seq<Action>, act: Action, q: nat, p: string)
    requires Enabled(s, act) && RoutedOnce(s, acts, q, p)
    ensures RoutedOnce(Step(cfg, s, act), acts + [act], q, p)
  {
    DidMore(acts, act, Route(q, p));
    if act.q != q {
      OtherStepKeeps(cfg, s, act, q);
    }
  }

  /** Past the admission: what the exchange is made in, and what comes of it. */
  predicate Fetching(s: State, q: nat) {
    && q in s.queries
    && (s.queries[q].pc.Exchanging? || Ends(s, q, FromUpstream) || Ends(s, q, FormErr) || Ends(s, q, ServFail))
  }

  /** Whether the step logs the effect. */
  predicate Logs(cfg: Config, s: State, act: Action, e: Effect)
    requires Enabled(s, act)
  {
    e in Step(cfg, s, act).log[|s.log|..]
  }

  lemma LogStep(cfg: Config, s: State, act: Action, e: Effect)
    requires Enabled(s, act)
    ensures |s.log| <= |Step(cfg, s, act).log|
    ensures e in Step(cfg, s, act).log <==> e in s.log || Logs(cfg, s, act, e)
  {
    var more := StepLogs(cfg, s, act, act.q);
    assert Step(cfg, s, act).log[|s.log|..] == more;
  }

  lemma CallLogged(cfg: Config, s: State, act: Action, q: nat)
    requires Enabled(s, act)
    ensures |s.log| <= |Step(cfg, s, act).log|
    ensures Logs(cfg, s, act, CallNext(q)) <==> Causes(act, q, FromNext) || Causes(act, q, NoName)
  {
  }

  lemma ReadLogged(cfg: Config, s: State, act: Action, q: nat, p: string)
    requires Enabled(s, act)
    ensures |s.log| <= |Step(cfg, s, act).log|
    ensures Logs(cfg, s, act, ReadCache(q, p)) <==> act.Consult? && act.q == q && p == s.queries[q].pc.profile
  {
    if act.Consult? && act.q == q {
      assert Step(cfg, s, act).log[|s.log|] == ReadCache(q, s.queries[q].pc.profile);
    }
  }

  lemma ExchangeLogged(cfg: Config, s: State, act: Action, q: nat, p: string)
    requires Enabled(s, act)
    ensures |s.log| <= |Step(cfg, s, act).log|
    ensures Logs(cfg, s, act, Exchange(q, p)) <==>
            act == Acquire(q) && p == s.queries[q].pc.profile && Step(cfg, s, act).queries[q].pc.Exchanging?
  {
  }

  lemma PutLogged(cfg: Config, s: State, act: Action, q: nat, p: string, r: Exchanged)
    requires Enabled(s, act)
    ensures |s.log| <= |Step(cfg, s, act).log|
    ensures Logs(cfg, s, act, PutCache(q, p, r)) <==>
            cfg.cacheOn && r == Matched && act == Receive(q, Matched) && p == s.queries[q].pc.profile
  {
  }

  /** The next plugin is called for exactly the queries that end there. */
  lemma {:induction false} CallsExplained(cfg: Config, acts: seq<Action>, q: nat)
    requires Run(cfg, INIT, acts)
    ensures var s := Exec(cfg, INIT, acts);
            CallNext(q) in s.log <==> Ends(s, q, FromNext) || Ends(s, q, NoName)
    decreases |acts|
  {
    if acts != [] {
      var before, act := acts[..|acts| - 1], acts[|acts| - 1];
      var s := Exec(cfg, INIT, before);
      CallsExplained(cfg, before, q);
      OnlyPermittedEffects(cfg, before);
      LogStep(cfg, s, act, CallNext(q));
      CallLogged(cfg, s, act, q);
      EndsStep(cfg, s, act, q, FromNext);
      EndsStep(cfg, s, act, q, NoName);
    }
  }

  /** A query that consulted the cache did so past its routing. */
  predicate Consulted(acts: seq<Action>, q: nat) {
    Did(acts, Consult(q, true)) || Did(acts, Consult(q, false))
  }

  ghost predicate ReadsExplained(s: State, acts: seq<Action>, q: nat, p: string) {
    && (Consulted(acts, q) ==> q in s.queries && !s.queries[q].pc.Arrived? && !s.queries[q].pc.Routed?)
    && (ReadCache(q, p) in s.log <==> Did(acts, Route(q, p)) && Consulted(acts, q))
  }

  lemma ReadsStep(cfg: Config, s: State, acts: seq<Action>, act: Action, q: nat, p: string)
    requires Enabled(s, act) && RoutedOnce(s, acts, q, p) && ReadsExplained(s, acts, q, p)
    ensures ReadsExplained(Step(cfg, s, act), acts + [act], q, p)
  {
    DidMore(acts, act, Consult(q, true));
    DidMore(acts, act, Consult(q, false));
    DidMore(acts, act, Route(q, p));
    LogStep(cfg, s, act, ReadCache(q, p));
    ReadLogged(cfg, s, act, q, p);
    if act.q != q {
      OtherStepKeeps(cfg, s, act, q);
    }
  }

  ghost predicate ExchangesExplained(s: State, acts: seq<Action>, q: nat, p: string) {
    Exchange(q, p) in s.log <==> Did(acts, Route(q, p)) && Fetching(s, q)
  }

  lemma FetchingStep(cfg: Config, s: State, act: Action, q: nat)
    requires Sane(s) && Enabled(s, act)
    ensures Fetching(Step(cfg, s, act), q) <==>
            Fetching(s, q) || (act == Acquire(q) && Step(cfg, s, act).queries[q].pc.Exchanging?)
  {
    EndsStep(cfg, s, act, q, FromUpstream);
    EndsStep(cfg, s, act, q, FormErr);
    EndsStep(cfg, s, act, q, ServFail);
    if act.q != q {
      OtherStepKeeps(cfg, s, act, q);
    }
  }

  lemma ExchangesStep(cfg: Config, s: State, acts: seq<Action>, act: Action, q: nat, p: string)
    requires Sane(s) && Enabled(s, act) && RoutedOnce(s, acts, q, p) && ExchangesExplained(s, acts, q, p)
    ensures ExchangesExplained(Step(cfg, s, act), acts + [act], q, p)
  {
    DidMore(acts, act, Route(q, p));
    LogStep(cfg, s, act, Exchange(q, p));
    ExchangeLogged(cfg, s, act, q, p);
    FetchingStep(cfg, s, act, q);
  }

  ghost predicate PutsExplained(cfg: Config, s: State, acts: seq<Action>, q: nat, p: string, r: Exchanged) {
    PutCache(q, p, r) in s.log <==>
    cfg.cacheOn && r == Matched && Did(acts, Route(q, p)) && Ends(s, q, FromUpstream)
  }

  lemma PutsStep(cfg: Config, s: State, acts: seq<Action>, act: Action, q: nat, p: string, r: Exchanged)
    requires Sane(s) && Enabled(s, act) && RoutedOnce(s, acts, q, p) && PutsExplained(cfg, s, acts, q, p, r)
    ensures PutsExplained(cfg, Step(cfg, s, act), acts + [act], q, p, r)
  {
    DidMore(acts, act, Route(q, p));
    LogStep(cfg, s, act, PutCache(q, p, r));
    PutLogged(cfg, s, act, q, p, r);
    EndsStep(cfg, s, act, q, FromUpstream);
  }

  /** In every interleaving, and for every query and profile: the cache is read exactly when
      the query was routed to that profile and consulted it; NextDNS is asked under the
      profile exactly when the query was routed to it and got a slot; and, with the cache on,
      the reply is put under it exactly when the query was routed to it and is answered with
      the reply from upstream. */
  lemma {:induction false} EffectsExplained(cfg: Config, acts: seq<Action>, q: nat, p: string, r: Exchanged)
    requires Run(cfg, INIT, acts)
    ensures var s := Exec(cfg, INIT, acts);
            && RoutedOnce(s, acts, q, p)
            && ReadsExplained(s, acts, q, p)
            && ExchangesExplained(s, acts, q, p)
            && PutsExplained(cfg, s, acts, q, p, r)
    decreases |acts|
  {
    if acts != [] {
      var before, act := acts[..|acts| - 1], acts[|acts| - 1];
      var s := Exec(cfg, INIT, before);
      assert acts == before + [act];
      EffectsExplained(cfg, before, q, p, r);
      OnlyPermittedEffects(cfg, before);
      RoutedOnceStep(cfg, s, before, act, q, p);
      ReadsStep(cfg, s, before, act, q, p);
      ExchangesStep(cfg, s, before, act, q, p);
      PutsStep(cfg, s, before, act, q, p, r);
    }
  }

  // ---- Device lookups ------------------------------------------------------

  predicate Identifies(s: State, q: nat) {
    q in s.queries && (PastMiss(s.queries[q].pc) || s.queries[q].pc == Answered(FromCache))
  }

  lemma IdentifiesStep(cfg: Config, s: State, act: Action, q: nat)
    requires Sane(s) && Enabled(s, act)
    requires DeviceLookups(s.log, q) == if Identifies(s, q) then 1 else 0
    ensures DeviceLookups(Step(cfg, s, act).log, q) == if Identifies(Step(cfg, s, act), q) then 1 else 0
  {
    var more := StepLogs(cfg, s, act, q);
    DeviceLookupsAfter(s.log, more, q);
    if act.q == q {
      OwnLookup(cfg, s, act, more);
    } else {
      OtherStepKeeps(cfg, s, act, q);
      NewEffectsAreOwn(cfg, s, act, more);
    }
  }

  lemma NewEffectsAreOwn(cfg: Config, s: State, act: Action, more: seq<Effect>)
    requires Enabled(s, act) && Step(cfg, s, act).log == s.log + more
    ensures forall e :: e in more ==> e.q == act.q
  {
    assert more == Step(cfg, s, act).log[|s.log|..];
  }

  lemma OwnLookup(cfg: Config, s: State, act: Action, more: seq<Effect>)
    requires Sane(s) && Enabled(s, act) && Step(cfg, s, act).log == s.log + more
    ensures (if more != [] && IsLookupOf(more[|more| - 1], act.q) then 1 else 0) + (if Identifies(s, act.q) then 1 else 0)
            == if Identifies(Step(cfg, s, act), act.q) then 1 else 0
  {
    assert more == Step(cfg, s, act).log[|s.log|..];
  }

  /** In every interleaving a query identifies its device exactly once if it is answered from
      the cache or goes on past a miss, and never otherwise. */
  lemma {:induction false} OneDeviceLookup(cfg: Config, acts: seq<Action>, q: nat)
    requires Run(cfg, INIT, acts)
    ensures var s := Exec(cfg, INIT, acts);
            DeviceLookups(s.log, q) == if Identifies(s, q) then 1 else 0
    decreases |acts|
  {
    if acts != [] {
      var before, act := acts[..|acts| - 1], acts[|acts| - 1];
      OneDeviceLookup(cfg, before, q);
      OnlyPermittedEffects(cfg, before);
      IdentifiesStep(cfg, Exec(cfg, INIT, before), act, q);
    }
  }
}
