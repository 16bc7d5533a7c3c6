/** Discovery cannot recurse (nextdns.go, discovery.go): the mark that `withDiscovery`
    puts on the context of a reverse lookup, followed through the plugin chains.

    A frame is an activation that can call others, with the server block it runs in and
    whether its context is marked. Every block has its own chain with at most one instance
    of this plugin. Neighbouring plugins are arbitrary, except that they hand on the
    context they got: they may call the plugin after them or hand the query to the server
    again, which may choose any block. So may the internal resolver. */
module Recursion {

  /** Where this plugin stands in a chain of `length` plugins (past the end: not in it), and
      whether its reverse lookups go back through the server (`discovery internal`). */
  datatype Chain = Chain(length: nat, at: nat, isInternal: bool)

  type Server = seq<Chain>

  datatype Frame =
    | Plugin(block: nat, pos: nat, marked: bool)
    | Exchange(block: nat, marked: bool)
    | Devices(block: nat, marked: bool)
    | Name(block: nat, marked: bool)
    | Lookup(block: nat, marked: bool)
    | Resolve(block: nat, marked: bool)

  /** The server handing a query to some block. */
  predicate Dispatched(sv: Server, g: Frame, marked: bool) {
    g.Plugin? && g.block < |sv| && g.pos == 0 && g.marked == marked
  }

  predicate Neighbour(sv: Server, f: Frame) {
    f.Plugin? && f.block < |sv| && f.pos != sv[f.block].at && f.pos < sv[f.block].length
  }

  /** A neighbour starting over, in its own chain or another. */
  predicate Restarts(sv: Server, f: Frame, g: Frame) {
    Neighbour(sv, f) && Dispatched(sv, g, f.marked)
  }

  /** `f` may call (or start, for the lookup goroutine) `g`. */
  predicate Calls(sv: Server, f: Frame, g: Frame) {
    && f.block < |sv|
    && match f
       case Plugin(block, pos, marked) =>
         if pos >= sv[block].length then false
         else if pos == sv[block].at then
           if marked then g == Plugin(block, pos + 1, true)
           else g == Plugin(block, pos + 1, false) || g == Devices(block, false) || g == Exchange(block, false)
         else
           g == Plugin(block, pos + 1, marked) || Restarts(sv, f, g)
       case Exchange(_, _) => false
       case Devices(block, marked) => g == Name(block, marked)
       case Name(block, marked) => g == Lookup(block, marked)
       case Lookup(block, _) => g == Resolve(block, true)
       case Resolve(block, marked) => sv[block].isInternal && Dispatched(sv, g, marked)
  }

  ghost predicate Path(sv: Server, p: seq<Frame>) {
    |p| > 0 && forall i :: 0 <= i < |p| - 1 ==> Calls(sv, p[i], p[i + 1])
  }

  /** Part of the device identification or of an exchange with NextDNS. */
  predicate Enriching(f: Frame) {
    f.Devices? || f.Name? || f.Lookup? || f.Exchange?
  }

  lemma MarkSticks(sv: Server, f: Frame, g: Frame)
    requires Calls(sv, f, g) && f.marked && !Enriching(f)
    ensures g.marked && !Enriching(g)
  {
  }

  lemma {:induction false} MarkedToTheEnd(sv: Server, p: seq<Frame>, i: nat, j: nat)
    requires Path(sv, p) && i <= j < |p| && p[i].marked && !Enriching(p[i])
    ensures p[j].marked && !Enriching(p[j])
    decreases j
  {
    if i < j {
      MarkedToTheEnd(sv, p, i, j - 1);
      MarkSticks(sv, p[j - 1], p[j]);
    }
  }

  /** However the chains are put together, whichever block the server chooses and whatever
      the neighbours do, below a reverse lookup there is no device lookup, no second
      reverse lookup and no exchange, of this instance of the plugin or of any other; so a
      call path holds at most one reverse lookup. */
  lemma NothingEnrichedBelowALookup(sv: Server, p: seq<Frame>, i: nat, j: nat)
    requires Path(sv, p) && i < j < |p| && p[i].Lookup?
    ensures p[j].marked && !Enriching(p[j])
  {
    assert Calls(sv, p[i], p[i + 1]);
    MarkedToTheEnd(sv, p, i + 1, j);
  }

  /** The guard is needed: wherever this plugin stands in the chain it comes back to, a
      reverse lookup of a block with internal discovery can reach it again, marked. */
  lemma {:induction false} LookupCanComeBack(sv: Server, b: nat, d: nat, k: nat) returns (p: seq<Frame>)
    requires b < |sv| && sv[b].isInternal && sv[b].at < sv[b].length
    requires d < |sv| && k <= sv[d].at && sv[d].at < sv[d].length
    ensures Path(sv, p) && p[0] == Plugin(b, sv[b].at, false) && p[|p| - 1] == Plugin(d, k, true)
    ensures exists i :: 0 <= i < |p| && p[i].Lookup?
    decreases k
  {
    if k == 0 {
      p := [Plugin(b, sv[b].at, false), Devices(b, false), Name(b, false), Lookup(b, false), Resolve(b, true), Plugin(d, 0, true)];
      assert p[3].Lookup?;
    } else {
      var q := LookupCanComeBack(sv, b, d, k - 1);
      p := q + [Plugin(d, k, true)];
      var i :| 0 <= i < |q| && q[i].Lookup?;
      assert p[i].Lookup?;
    }
  }

  /** A marked query entering a chain goes nowhere but on, or over to another. */
  lemma {:induction false} MarkedQueryPassesOn(sv: Server, p: seq<Frame>, i: nat, j: nat)
    requires Path(sv, p) && i <= j < |p| && p[i].Plugin? && p[i].marked
    ensures p[j].Plugin? && p[j].marked
    decreases j
  {
    if i < j {
      MarkedQueryPassesOn(sv, p, i, j - 1);
      assert Calls(sv, p[j - 1], p[j]);
    }
  }

  /** No chain of the server is longer than `n`. */
  ghost predicate NoneLonger(sv: Server, n: nat) {
    forall b :: 0 <= b < |sv| ==> sv[b].length <= n
  }

  /** How deep the calls below a frame can go if no neighbour starts over. */
  function Rank(sv: Server, n: nat, f: Frame): nat {
    match f
    case Plugin(block, pos, marked) =>
      (if marked then 0 else n + 6) + (if block < |sv| && pos <= sv[block].length then sv[block].length - pos else 0)
    case Exchange(_, _) => 0
    case Devices(_, _) => n + 5
    case Name(_, _) => n + 4
    case Lookup(_, _) => n + 3
    case Resolve(_, _) => n + 2
  }

  ghost function Restarted(sv: Server, p: seq<Frame>): nat
    decreases |p|
  {
    if |p| < 2 then 0
    else Restarted(sv, p[..|p| - 1]) + if Restarts(sv, p[|p| - 2], p[|p| - 1]) then 1 else 0
  }

  /** Frames that arise: only chain positions, and no marked device identification. */
  predicate Live(sv: Server, f: Frame) {
    && f.block < |sv|
    && (f.Plugin? ==> f.pos <= sv[f.block].length)
    && (Enriching(f) ==> !f.marked)
    && (f.Resolve? ==> f.marked)
  }

  lemma CallLowersRank(sv: Server, n: nat, f: Frame, g: Frame)
    requires NoneLonger(sv, n) && Calls(sv, f, g) && Live(sv, f)
    ensures Live(sv, g)
    ensures Rank(sv, n, g) < Rank(sv, n, f) + if Restarts(sv, f, g) then n + 1 else 0
  {
  }

  lemma {:induction false} DepthIsRanked(sv: Server, n: nat, p: seq<Frame>)
    requires NoneLonger(sv, n) && Path(sv, p) && Live(sv, p[0])
    ensures Live(sv, p[|p| - 1])
    ensures |p| - 1 + Rank(sv, n, p[|p| - 1]) <= Rank(sv, n, p[0]) + Restarted(sv, p) * (n + 1)
    decreases |p|
  {
    if |p| > 1 {
      var q := p[..|p| - 1];
      assert Path(sv, q);
      DepthIsRanked(sv, n, q);
      assert Calls(sv, q[|q| - 1], p[|p| - 1]);
      CallLowersRank(sv, n, q[|q| - 1], p[|p| - 1]);
      OneMore(Restarted(sv, q), n + 1);
    }
  }

  lemma OneMore(r: nat, n: nat)
    ensures (r + 1) * n == r * n + n
  {
  }

  /** The call depth below any query is bounded by the longest chain and by how often
      neighbours start over; discovery adds one pass through a chain, once. */
  lemma CallDepthIsBounded(sv: Server, n: nat, p: seq<Frame>)
    requires NoneLonger(sv, n) && Path(sv, p) && Dispatched(sv, p[0], p[0].marked)
    ensures |p| <= 2 * n + 7 + Restarted(sv, p) * (n + 1)
  {
    DepthIsRanked(sv, n, p);
  }
}
