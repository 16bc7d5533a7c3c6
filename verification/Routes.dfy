/** Profile selection and the static count of the routes a server block can take
    (profileFor and reachableRoutes in nextdns.go). */
module Routes {
  import opened Base
  import opened Routing
  import opened Coverage

  /** What profileFor goes by besides the query: the parsed and sorted configuration. */
  datatype Config = Config(profile: string, viewProfiles: map<string, string>, clientProfiles: seq<Rule>)

  /** A query as profileFor sees it: the metadata value ("" for none), the view CoreDNS
      matched ("" for none), and the client address if it parsed, as it came. */
  datatype Client = Client(meta: string, view: string, ip: Option<Zoned>)

  /** The address the lines are matched against. */
  function Matched(c: Client): Option<Addr> {
    var a := ClientAddr(c.ip);
    if a.Some? then Some(a.value.addr) else None
  }

  /** The metadata override counts only when it has the shape of a route. */
  predicate Overridden(c: Client) {
    c.meta != "" && ValidRoute(c.meta)
  }

  function RouteFor(cfg: Config, c: Client): string {
    if Overridden(c) then c.meta
    else if c.view != "" && c.view in cfg.viewProfiles then cfg.viewProfiles[c.view]
    else
      var hit := if Matched(c).Some? then FirstHit(cfg.clientProfiles, Matched(c).value) else None;
      if hit.Some? then hit.value.profile else cfg.profile
  }

  /** An override of the shape of a route: the passthrough, or 4 to 64 letters and digits. */
  predicate WellFormedOverride(c: Client) {
    || c.meta == "-"
    || (4 <= |c.meta| <= 64
        && forall i :: 0 <= i < |c.meta| ==>
             'a' <= c.meta[i] <= 'z' || 'A' <= c.meta[i] <= 'Z' || '0' <= c.meta[i] <= '9')
  }

  /** A well-formed override is the route whatever the view, the address and the
      configuration; with any other the query goes where it would go without it. */
  lemma OverrideDecides(cfg: Config, c: Client)
    ensures WellFormedOverride(c) ==> RouteFor(cfg, c) == c.meta
    ensures !WellFormedOverride(c) ==> RouteFor(cfg, c) == RouteFor(cfg, c.(meta := ""))
  {
  }

  lemma LinesDecide(cfg: Config, c: Client)
    ensures !Overridden(c) && c.view !in cfg.viewProfiles && c.ip.Some? ==>
              forall rules: seq<Rule>, i: nat ::
                StableSortOf(cfg.clientProfiles, rules) && LongestMatch(rules, Unmap(c.ip.value.addr), i) ==>
                RouteFor(cfg, c) == rules[i].profile
    ensures !Overridden(c) && c.view !in cfg.viewProfiles && c.ip.Some? ==>
              (forall i :: 0 <= i < |cfg.clientProfiles| ==>
                 !Contains(cfg.clientProfiles[i].prefix, Unmap(c.ip.value.addr))) ==>
              RouteFor(cfg, c) == cfg.profile
  {
    if !Overridden(c) && c.view !in cfg.viewProfiles && c.ip.Some? {
      forall rules: seq<Rule>, i: nat | StableSortOf(cfg.clientProfiles, rules) && LongestMatch(rules, Unmap(c.ip.value.addr), i)
        ensures RouteFor(cfg, c) == rules[i].profile
      {
        FirstHitIsLongestMatch(cfg.clientProfiles, rules, Unmap(c.ip.value.addr), i);
      }
      NoHit(cfg.clientProfiles, Unmap(c.ip.value.addr));
    }
  }

  /** First occurrences, the empty string left out. */
  function Distinct(ps: seq<string>): seq<string> {
    if ps == [] then []
    else
      var before := Distinct(ps[..|ps| - 1]);
      var p := ps[|ps| - 1];
      if p == "" || p in before then before else before + [p]
  }

  function Profiles(rules: seq<Rule>): (ps: seq<string>)
    ensures |ps| == |rules|
  {
    seq(|rules|, i requires 0 <= i < |rules| => rules[i].profile)
  }

  function RoutesOf(cfg: Config, view: string): seq<string> {
    if view != "" && view in cfg.viewProfiles then [cfg.viewProfiles[view]]
    else Distinct([cfg.profile] + Profiles(cfg.clientProfiles))
  }

  /** The plugin's routing state. */
  class Router {
    const profile: string
    const viewProfiles: map<string, string>
    var clientProfiles: seq<Rule>
    var invalidCount: nat
    var warned: bool

    constructor (profile: string, viewProfiles: map<string, string>)
      ensures this.profile == profile && this.viewProfiles == viewProfiles
      ensures clientProfiles == [] && invalidCount == 0 && !warned
    {
      this.profile, this.viewProfiles := profile, viewProfiles;
      clientProfiles, invalidCount, warned := [], 0, false;
    }

    function Settings(): Config
      reads this
    {
      Config(profile, viewProfiles, clientProfiles)
    }

    /** One client_profile line: refused when it is neither a subnet nor a route. */
    method AddRule(subnet: Subnet, route: string) returns (ok: bool)
      modifies this`clientProfiles
      ensures ok <==> ParsePrefix(subnet).Some? && ValidRoute(route)
      ensures ok <==> !subnet.Neither? && (route == "-" || (4 <= |route| <= 64 && forall i :: 0 <= i < |route| ==> Alnum(route[i])))
      ensures clientProfiles == if ok then old(clientProfiles) + [Rule(ParsePrefix(subnet).value, route)] else old(clientProfiles)
    {
      var prefix := ParsePrefix(subnet);
      if prefix.None? || !ValidRoute(route) {
        return false;
      }
      clientProfiles := clientProfiles + [Rule(prefix.value, route)];
      return true;
    }

    /** The end of parsing: longest prefix first. */
    method SortRules()
      modifies this`clientProfiles
      ensures StableSortOf(clientProfiles, old(clientProfiles))
    {
      StableSortSorts(clientProfiles);
      clientProfiles := StableSort(clientProfiles);
    }

    /** An invalid override is counted every time and warned about once. */
    method ProfileFor(c: Client) returns (route: string)
      modifies this`invalidCount, this`warned
      ensures route == RouteFor(Settings(), c)
      ensures WellFormedOverride(c) ==> route == c.meta
      ensures !WellFormedOverride(c) ==> route == RouteFor(Settings(), c.(meta := ""))
      ensures !WellFormedOverride(c) && c.view != "" && c.view in viewProfiles ==> route == viewProfiles[c.view]
      ensures !WellFormedOverride(c) && c.view !in viewProfiles && c.ip.None? ==> route == profile
      ensures !WellFormedOverride(c) && c.view !in viewProfiles && c.ip.Some? ==>
        forall rules: seq<Rule>, i: nat :: StableSortOf(clientProfiles, rules) && LongestMatch(rules, Unmap(c.ip.value.addr), i) ==>
          route == rules[i].profile
      ensures !WellFormedOverride(c) && c.view !in viewProfiles && c.ip.Some? ==>
        (forall i :: 0 <= i < |clientProfiles| ==> !Contains(clientProfiles[i].prefix, Unmap(c.ip.value.addr))) ==>
          route == profile
      ensures invalidCount == old(invalidCount) + (if c.meta != "" && !ValidRoute(c.meta) then 1 else 0)
      ensures warned == (old(warned) || (c.meta != "" && !ValidRoute(c.meta)))
    {
      OverrideDecides(Settings(), c);
      LinesDecide(Settings(), c);
      if c.meta != "" {
        if ValidRoute(c.meta) {
          return c.meta;
        }
        invalidCount := invalidCount + 1;
        if !warned {
          warned := true;
        }
      }
      if |viewProfiles| > 0 && c.view != "" && c.view in viewProfiles {
        return viewProfiles[c.view];
      }
      if |clientProfiles| > 0 {
        var ip := ClientAddr(c.ip);
        if ip.Some? {
          for i := 0 to |clientProfiles|
            invariant FirstHit(clientProfiles, ip.value.addr) == FirstHit(clientProfiles[i..], ip.value.addr)
          {
            if PrefixContains(clientProfiles[i].prefix, ip.value) {
              return clientProfiles[i].profile;
            }
          }
        }
      }
      return profile;
    }

    method ReachableRoutes(view: string) returns (out: seq<string>)
      ensures out == RoutesOf(Settings(), view)
    {
      if view != "" && view in viewProfiles {
        return [viewProfiles[view]];
      }
      var seen: set<string> := {};
      out := [];
      var ps := [profile] + Profiles(clientProfiles);
      for i := 0 to |ps|
        invariant out == Distinct(ps[..i])
        invariant forall p :: p in seen <==> p in out
      {
        assert ps[..i + 1][..i] == ps[..i];
        if ps[i] != "" && ps[i] !in seen {
          seen := seen + {ps[i]};
          out := out + [ps[i]];
        }
      }
      assert ps[..|ps|] == ps;
    }
  }

  // ---- Sound and without duplicates ----------------------------------------

  lemma {:induction false} DistinctMembers(ps: seq<string>)
    ensures forall p :: p in Distinct(ps) <==> p in ps && p != ""
    ensures forall i, j :: 0 <= i < j < |Distinct(ps)| ==> Distinct(ps)[i] != Distinct(ps)[j]
    decreases |ps|
  {
    if ps != [] {
      DistinctMembers(ps[..|ps| - 1]);
      assert ps == ps[..|ps| - 1] + [ps[|ps| - 1]];
    }
  }

  predicate WellFormed(cfg: Config) {
    && cfg.profile != ""
    && (forall i :: 0 <= i < |cfg.clientProfiles| ==> cfg.clientProfiles[i].profile != "")
  }

  /** Every query the block can be handed, metadata overrides apart, takes a listed
      route; the list has no duplicates; and when the block's view names a profile,
      that is the only one. */
  lemma ReachableRoutesCover(cfg: Config, view: string, c: Client)
    requires WellFormed(cfg) && c.view == view && !Overridden(c)
    ensures RouteFor(cfg, c) in RoutesOf(cfg, view)
    ensures forall i, j :: 0 <= i < j < |RoutesOf(cfg, view)| ==> RoutesOf(cfg, view)[i] != RoutesOf(cfg, view)[j]
    ensures view != "" && view in cfg.viewProfiles ==> RoutesOf(cfg, view) == [RouteFor(cfg, c)]
  {
    var ps := [cfg.profile] + Profiles(cfg.clientProfiles);
    DistinctMembers(ps);
    assert ps[0] == cfg.profile;
    if Matched(c).Some? && FirstHit(cfg.clientProfiles, Matched(c).value).Some? {
      var h := FirstHitAt(cfg.clientProfiles, Matched(c).value);
      assert ps[h + 1] == cfg.clientProfiles[h].profile;
    }
  }

  /** Nothing else is listed: with a mapped view its profile alone, otherwise exactly the
      default and the profiles of the lines. */
  lemma ListedIff(cfg: Config, view: string, route: string)
    ensures route in RoutesOf(cfg, view) <==>
            if view != "" && view in cfg.viewProfiles then route == cfg.viewProfiles[view]
            else route != "" && (route == cfg.profile
                                 || exists i :: 0 <= i < |cfg.clientProfiles| && cfg.clientProfiles[i].profile == route)
  {
    var ps := [cfg.profile] + Profiles(cfg.clientProfiles);
    DistinctMembers(ps);
    assert ps[0] == cfg.profile;
    forall i | 0 <= i < |cfg.clientProfiles|
      ensures ps[i + 1] == cfg.clientProfiles[i].profile
    {
    }
    if route in ps && route != cfg.profile {
      var k :| 0 <= k < |ps| && ps[k] == route;
      assert cfg.clientProfiles[k - 1].profile == route;
    }
    if i :| 0 <= i < |cfg.clientProfiles| && cfg.clientProfiles[i].profile == route {
      assert ps[i + 1] == route;
    }
  }

  /** The route of a query in a block with sorted rules is the longest match among the
      Corefile's lines, or the default when none contains the client. */
  lemma RouteIsLongestMatch(cfg: Config, rules: seq<Rule>, c: Client)
    requires StableSortOf(cfg.clientProfiles, rules) && !Overridden(c) && c.view !in cfg.viewProfiles && c.ip.Some?
    ensures (forall j :: 0 <= j < |rules| ==> !Contains(rules[j].prefix, Unmap(c.ip.value.addr))) ==>
              RouteFor(cfg, c) == cfg.profile
    ensures forall i: nat :: LongestMatch(rules, Unmap(c.ip.value.addr), i) ==> RouteFor(cfg, c) == rules[i].profile
  {
    var a := Unmap(c.ip.value.addr);
    HitOrNoRule(cfg.clientProfiles, rules, a);
    forall i: nat | LongestMatch(rules, a, i) ensures RouteFor(cfg, c) == rules[i].profile {
      FirstHitIsLongestMatch(cfg.clientProfiles, rules, a, i);
    }
  }

  // ---- When a question-keyed cache is safe ---------------------------------

  /** One event of a block with a cache in front: a query with the answer its route
      would give it now, or an entry for a question going away. */
  datatype Event = Ask(client: Client, question: string, current: string) | Forget(question: string)

  /** The answers of a cache keyed by the question alone. */
  function ByQuestion(cfg: Config, cache: map<string, string>, events: seq<Event>): seq<string>
    decreases |events|
  {
    if events == [] then []
    else
      match events[0]
      case Forget(q) => ByQuestion(cfg, cache - {q}, events[1..])
      case Ask(c, q, current) =>
        if q in cache then [cache[q]] + ByQuestion(cfg, cache, events[1..])
        else [current] + ByQuestion(cfg, cache[q := current], events[1..])
  }

  /** The answers of a cache keyed by route and question. */
  function ByRoute(cfg: Config, cache: map<(string, string), string>, events: seq<Event>): seq<string>
    decreases |events|
  {
    if events == [] then []
    else
      match events[0]
      case Forget(q) => ByRoute(cfg, map k | k in cache && k.1 != q :: cache[k], events[1..])
      case Ask(c, q, current) =>
        var k := (RouteFor(cfg, c), q);
        if k in cache then [cache[k]] + ByRoute(cfg, cache, events[1..])
        else [current] + ByRoute(cfg, cache[k := current], events[1..])
  }

  /** A query the block with that view can be handed, without a metadata override. */
  predicate Possible(view: string, c: Client) {
    c.view == view && !Overridden(c) && (c.ip.Some? ==> ValidAddr(c.ip.value.addr))
  }

  ghost predicate Handled(view: string, events: seq<Event>) {
    forall i :: 0 <= i < |events| && events[i].Ask? ==> Possible(view, events[i].client)
  }

  /** Every query of the block takes one and the same route. */
  ghost predicate OneRoute(cfg: Config, view: string) {
    forall c: Client, d: Client :: Possible(view, c) && Possible(view, d) ==> RouteFor(cfg, c) == RouteFor(cfg, d)
  }

  ghost predicate SameAnswers(cfg: Config, view: string) {
    forall events :: Handled(view, events) ==> ByQuestion(cfg, map[], events) == ByRoute(cfg, map[], events)
  }

  lemma {:induction false} OneRouteSameAnswers(cfg: Config, view: string, route: string, events: seq<Event>,
      cache: map<string, string>, routed: map<(string, string), string>)
    requires Handled(view, events)
    requires forall c: Client :: Possible(view, c) ==> RouteFor(cfg, c) == route
    requires forall q :: q in cache <==> (route, q) in routed
    requires forall q :: q in cache ==> cache[q] == routed[(route, q)]
    ensures ByQuestion(cfg, cache, events) == ByRoute(cfg, routed, events)
    decreases |events|
  {
    if events != [] {
      var rest := events[1..];
      assert forall i :: 0 <= i < |rest| ==> rest[i] == events[i + 1];
      match events[0]
      case Forget(q) =>
        OneRouteSameAnswers(cfg, view, route, rest, cache - {q}, map k | k in routed && k.1 != q :: routed[k]);
      case Ask(c, q, current) =>
        assert RouteFor(cfg, c) == route;
        if q in cache {
          OneRouteSameAnswers(cfg, view, route, rest, cache, routed);
        } else {
          OneRouteSameAnswers(cfg, view, route, rest, cache[q := current], routed[(route, q) := current]);
        }
    }
  }

  /** A cache that knows only the question answers every run of a block like one that
      knows the route as well if and only if the block's queries take one route. */
  lemma QuestionKeyedIsSafeIff(cfg: Config, view: string)
    ensures SameAnswers(cfg, view) <==> OneRoute(cfg, view)
  {
    if OneRoute(cfg, view) {
      var route := RouteFor(cfg, Client("", view, None));
      forall events | Handled(view, events) ensures ByQuestion(cfg, map[], events) == ByRoute(cfg, map[], events) {
        OneRouteSameAnswers(cfg, view, route, events, map[], map[]);
      }
    } else {
      var c: Client, d: Client :| Possible(view, c) && Possible(view, d) && RouteFor(cfg, c) != RouteFor(cfg, d);
      var events := [Ask(c, "q", "filtered"), Ask(d, "q", "open")];
      assert events[1..] == [Ask(d, "q", "open")] && events[1..][1..] == [];
      assert ByQuestion(cfg, map["q" := "filtered"], events[1..]) == ["filtered"];
      assert ByRoute(cfg, map[(RouteFor(cfg, c), "q") := "filtered"], events[1..]) == ["open"];
      assert map[]["q" := "filtered"] == map["q" := "filtered"];
      assert ByQuestion(cfg, map[], events) == ["filtered", "filtered"];
      assert ByRoute(cfg, map[], events) == ["filtered", "open"];
      assert ["filtered", "filtered"][1] != ["filtered", "open"][1];
      assert Handled(view, events);
    }
  }

  /** What the startup warning goes by: a block with a single reachable route can use a
      question-keyed cache. */
  lemma SingleReachableRouteIsSafe(cfg: Config, view: string)
    requires WellFormed(cfg) && |RoutesOf(cfg, view)| == 1
    ensures SameAnswers(cfg, view)
  {
    forall c: Client, d: Client | Possible(view, c) && Possible(view, d)
      ensures RouteFor(cfg, c) == RouteFor(cfg, d)
    {
      ReachableRoutesCover(cfg, view, c);
      ReachableRoutesCover(cfg, view, d);
    }
    QuestionKeyedIsSafeIff(cfg, view);
  }

  // ---- When the list is exact ----------------------------------------------

  predicate Mapped(cfg: Config, view: string) {
    view != "" && view in cfg.viewProfiles
  }

  ghost predicate Taken(cfg: Config, view: string, route: string) {
    exists c: Client :: Possible(view, c) && RouteFor(cfg, c) == route
  }

  ghost predicate WellParsed(cfg: Config) {
    forall i :: 0 <= i < |cfg.clientProfiles| ==> IsMasked(cfg.clientProfiles[i].prefix)
  }

  /** A line for that route which the lines ahead of it do not cover. */
  predicate HasLiveLine(cfg: Config, route: string) {
    exists i: nat :: i < |cfg.clientProfiles| && LiveLine(cfg.clientProfiles, i) && cfg.clientProfiles[i].profile == route
  }

  lemma HitIsLive(cfg: Config, a: Addr)
    requires WellParsed(cfg) && ClientLike(a) && FirstHit(cfg.clientProfiles, a).Some?
    ensures HasLiveLine(cfg, FirstHit(cfg.clientProfiles, a).value.profile)
  {
    var h := FirstHitAt(cfg.clientProfiles, a);
    assert HitBy(cfg.clientProfiles, h, a);
    LiveIffHit(cfg.clientProfiles, h);
  }

  lemma LiveLineTakes(cfg: Config, view: string, i: nat)
    requires WellParsed(cfg) && !Mapped(cfg, view) && LiveLine(cfg.clientProfiles, i)
    ensures Taken(cfg, view, cfg.clientProfiles[i].profile) && TakenFromAddress(cfg, view, cfg.clientProfiles[i].profile)
  {
    LiveIffHit(cfg.clientProfiles, i);
    var a :| HitBy(cfg.clientProfiles, i, a);
    HitByIsFirst(cfg.clientProfiles, i, a);
    var c := Client("", view, Some(Zoned(a, "")));
    assert Possible(view, c) && RouteFor(cfg, c) == cfg.clientProfiles[i].profile;
  }

  lemma DefaultIsTaken(cfg: Config, view: string)
    ensures Taken(cfg, view, if Mapped(cfg, view) then cfg.viewProfiles[view] else cfg.profile)
  {
    assert Possible(view, Client("", view, None));
  }

  /** Without a mapped view, the routes some query takes are the default and those with a
      live line. */
  lemma TakenIff(cfg: Config, view: string, route: string)
    requires WellParsed(cfg) && !Mapped(cfg, view)
    ensures Taken(cfg, view, route) <==> route == cfg.profile || HasLiveLine(cfg, route)
  {
    DefaultIsTaken(cfg, view);
    if HasLiveLine(cfg, route) {
      var i: nat :| i < |cfg.clientProfiles| && LiveLine(cfg.clientProfiles, i) && cfg.clientProfiles[i].profile == route;
      LiveLineTakes(cfg, view, i);
    }
    if Taken(cfg, view, route) && route != cfg.profile {
      var c: Client :| Possible(view, c) && RouteFor(cfg, c) == route;
      ClientAddrIsUnmapped(c.ip);
      HitIsLive(cfg, Matched(c).value);
    }
  }

  /** The prefixes of all IPv4 and of all IPv6 addresses. */
  function All4(): (p: Prefix)
    ensures ValidPrefix(p)
  {
    Prefix(V4(seq(V4_LEN, _ => false)), 0)
  }

  function All6(): (p: Prefix)
    ensures ValidPrefix(p)
  {
    Prefix(V6(seq(V6_LEN, _ => false)), 0)
  }

  /** The lines leave some client address over. */
  predicate LeavesSome(rules: seq<Rule>) {
    !Covered(Ahead(rules, |rules|), All4()) || !Covered(Ahead(rules, |rules|), All6())
  }

  lemma LeavesSomeIff(rules: seq<Rule>)
    ensures LeavesSome(rules) <==> exists a :: ClientLike(a) && FirstHit(rules, a).None?
  {
    assert rules[..|rules|] == rules;
    LeftIff(rules, |rules|, All4());
    LeftIff(rules, |rules|, All6());
    forall a
      ensures FirstHit(rules, a).None? <==> !Caught(rules, a)
    {
      NoHit(rules, a);
    }
    forall a | ClientLike(a)
      ensures Contains(All4(), a) || Contains(All6(), a)
    {
      assert All4().addr.bits[..0] == a.bits[..0] == All6().addr.bits[..0];
    }
  }

  ghost predicate TakenFromAddress(cfg: Config, view: string, route: string) {
    exists c: Client :: Possible(view, c) && c.ip.Some? && RouteFor(cfg, c) == route
  }

  /** Of the queries whose client address parsed: the routes they take are those with a
      live line, and the default when the lines leave some address over. */
  lemma TakenFromAddressIff(cfg: Config, view: string, route: string)
    requires WellParsed(cfg) && !Mapped(cfg, view)
    ensures TakenFromAddress(cfg, view, route) <==>
            HasLiveLine(cfg, route) || (route == cfg.profile && LeavesSome(cfg.clientProfiles))
  {
    if HasLiveLine(cfg, route) {
      var i: nat :| i < |cfg.clientProfiles| && LiveLine(cfg.clientProfiles, i) && cfg.clientProfiles[i].profile == route;
      LiveLineTakes(cfg, view, i);
    }
    if LeavesSome(cfg.clientProfiles) {
      LeftoverTakesDefault(cfg, view);
    }
    if TakenFromAddress(cfg, view, route) {
      var c: Client :| Possible(view, c) && c.ip.Some? && RouteFor(cfg, c) == route;
      AddressedRoute(cfg, c);
    }
  }

  lemma LeftoverTakesDefault(cfg: Config, view: string)
    requires !Mapped(cfg, view) && LeavesSome(cfg.clientProfiles)
    ensures TakenFromAddress(cfg, view, cfg.profile)
  {
    LeavesSomeIff(cfg.clientProfiles);
    var a :| ClientLike(a) && FirstHit(cfg.clientProfiles, a).None?;
    var c := Client("", view, Some(Zoned(a, "")));
    assert Possible(view, c) && RouteFor(cfg, c) == cfg.profile;
  }

  lemma AddressedRoute(cfg: Config, c: Client)
    requires WellParsed(cfg) && !Mapped(cfg, c.view) && Possible(c.view, c) && c.ip.Some?
    ensures HasLiveLine(cfg, RouteFor(cfg, c)) || (RouteFor(cfg, c) == cfg.profile && LeavesSome(cfg.clientProfiles))
  {
    ClientAddrIsUnmapped(c.ip);
    var a := Matched(c).value;
    if FirstHit(cfg.clientProfiles, a).Some? {
      HitIsLive(cfg, a);
    } else {
      LeavesSomeIff(cfg.clientProfiles);
      assert ClientLike(a) && FirstHit(cfg.clientProfiles, a).None?;
    }
  }

  /** The list of reachable routes is exact, every one of them taken by some query, if and
      only if the view is mapped or every listed route but the default has a live line. */
  lemma ListIsExactIff(cfg: Config, view: string)
    requires WellParsed(cfg)
    ensures (forall route :: route in RoutesOf(cfg, view) ==> Taken(cfg, view, route)) <==>
            Mapped(cfg, view) || forall route :: route in RoutesOf(cfg, view) ==> route == cfg.profile || HasLiveLine(cfg, route)
  {
    if Mapped(cfg, view) {
      DefaultIsTaken(cfg, view);
    } else {
      forall route
        ensures Taken(cfg, view, route) <==> route == cfg.profile || HasLiveLine(cfg, route)
      {
        TakenIff(cfg, view, route);
      }
    }
  }

  /** What the startup warning would have to go by to be exact: a question-keyed cache is
      safe in front of a block if and only if its view is mapped or every live line is for
      the default route. */
  lemma QuestionKeyedIsSafeIffNoOtherLine(cfg: Config, view: string)
    requires WellParsed(cfg)
    ensures SameAnswers(cfg, view) <==>
            Mapped(cfg, view) || forall route :: HasLiveLine(cfg, route) ==> route == cfg.profile
  {
    QuestionKeyedIsSafeIff(cfg, view);
    if !Mapped(cfg, view) {
      DefaultIsTaken(cfg, view);
      forall route
        ensures Taken(cfg, view, route) <==> route == cfg.profile || HasLiveLine(cfg, route)
      {
        TakenIff(cfg, view, route);
      }
      assert OneRoute(cfg, view) <==> forall route :: Taken(cfg, view, route) ==> route == cfg.profile by {
        OneRouteIff(cfg, view);
      }
    }
  }

  lemma OneRouteIff(cfg: Config, view: string)
    requires Taken(cfg, view, cfg.profile)
    ensures OneRoute(cfg, view) <==> forall route :: Taken(cfg, view, route) ==> route == cfg.profile
  {
    if forall route :: Taken(cfg, view, route) ==> route == cfg.profile {
      forall c: Client | Possible(view, c)
        ensures RouteFor(cfg, c) == cfg.profile
      {
        assert Taken(cfg, view, RouteFor(cfg, c));
      }
    }
  }

  /** A line that only the mapped block keeps from being taken: with the default for
      ::fffe:0:0/96 and another profile for the /95 around it, every client takes the default.
      The other profile is listed, and yet a question-keyed cache is safe. */
  lemma MappedLeftoverIsListed(second: string, rules: seq<Rule>, cfg: Config)
    requires rules == [Rule(Half(Prefix(MappedBlock().addr, 95), false), "abc123"),
                       Rule(Prefix(Half(Prefix(MappedBlock().addr, 95), false).addr, 95), second)]
    requires cfg == Config("abc123", map[], rules) && second != "" && second != "abc123"
    ensures second in RoutesOf(cfg, "") && !Taken(cfg, "", second) && SameAnswers(cfg, "")
  {
    MappedHalfCovers("abc123", second);
    DistinctMembers(["abc123"] + Profiles(rules));
    assert (["abc123"] + Profiles(rules))[2] == second;
    assert WellParsed(cfg);
    assert forall i: nat :: i < |rules| && LiveLine(rules, i) ==> i == 0;
    TakenIff(cfg, "", second);
    QuestionKeyedIsSafeIffNoOtherLine(cfg, "");
  }

  /** The list is of what could be reached, not of what is: of two lines for one
      subnet only the first is ever taken, yet both profiles are listed. */
  lemma ShadowedRouteIsListed(p: Prefix, first: string, second: string, cfg: Config, c: Client)
    requires cfg == Config("abc123", map[], [Rule(p, first), Rule(p, second)])
    requires second != "" && second != first && second != "abc123" && !Overridden(c)
    ensures second in RoutesOf(cfg, "") && RouteFor(cfg, c) != second
    ensures IsMasked(p) ==> !HasLiveLine(cfg, second)
  {
    assert Ahead(cfg.clientProfiles, 1)[1] == Rule(p, first);
    assert ValidPrefix(p) ==> Holds(Ahead(cfg.clientProfiles, 1)[1].prefix, p);
    DistinctMembers(["abc123"] + Profiles(cfg.clientProfiles));
    assert (["abc123"] + Profiles(cfg.clientProfiles))[2] == second;
    if Matched(c).Some? {
      var a := Matched(c).value;
      assert cfg.clientProfiles[1..] == [Rule(p, second)] && [Rule(p, second)][1..] == [];
      assert !Contains(p, a) ==> FirstHit([Rule(p, second)], a) == None;
    }
  }
}
