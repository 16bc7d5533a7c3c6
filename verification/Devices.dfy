/** What is learned about devices and how long it is remembered (device.go). */
module Devices {
  import opened Base

  /** The bytes of a hardware address, written as characters; empty for none. */
  type Mac = string

  datatype Info = Info(name: string, mac: Mac)

  const BLANK := Info("", "")

  type Table = map<Addr, Info>

  function InfoAt(t: Table, a: Addr): Info {
    if a in t then t[a] else BLANK
  }

  /** `merge`: a field is only overwritten by a value. */
  function Merged(cur: Info, info: Info): Info {
    Info(if info.name != "" then info.name else cur.name, if info.mac != "" then info.mac else cur.mac)
  }

  // ---- Learning ------------------------------------------------------------

  /** One source's part in a refresh: the table it gave, or None when a file could not
      be read. The ARP table comes last and is merged as far as it was read. */
  type Source = Option<Table>

  /** What the sources, in order, make of one address, whatever the order in which
      each table is walked. */
  function Learned(sources: seq<Source>, a: Addr): Info {
    if sources == [] then BLANK
    else
      var before := Learned(sources[..|sources| - 1], a);
      var last := sources[|sources| - 1];
      if last.Some? && a in last.value then Merged(before, last.value[a]) else before
  }

  predicate Mentions(s: Source, a: Addr) {
    s.Some? && a in s.value
  }

  predicate Known(sources: seq<Source>, a: Addr) {
    exists i :: 0 <= i < |sources| && Mentions(sources[i], a)
  }

  /** The name comes from the last source with a name for the address, and the MAC,
      separately, from the last source with a MAC for it. */
  lemma {:induction false} LastSourceWins(sources: seq<Source>, a: Addr)
    ensures LastName(sources, a, Learned(sources, a).name)
    ensures LastMac(sources, a, Learned(sources, a).mac)
    decreases |sources|
  {
    if sources != [] {
      var before := sources[..|sources| - 1];
      LastSourceWins(before, a);
      var k := |sources| - 1;
      if Mentions(sources[k], a) && sources[k].value[a].name != "" {
        assert NamedBy(sources, a, k, Learned(sources, a).name);
      } else if Learned(sources, a).name != "" {
        var i: nat :| NamedBy(before, a, i, Learned(before, a).name);
        assert NamedBy(sources, a, i, Learned(sources, a).name);
      }
      if Mentions(sources[k], a) && sources[k].value[a].mac != "" {
        assert MacBy(sources, a, k, Learned(sources, a).mac);
      } else if Learned(sources, a).mac != "" {
        var i: nat :| MacBy(before, a, i, Learned(before, a).mac);
        assert MacBy(sources, a, i, Learned(sources, a).mac);
      }
    }
  }

  /** Source `i` names the address and no later one does. */
  ghost predicate NamedBy(sources: seq<Source>, a: Addr, i: nat, name: string) {
    && i < |sources| && Mentions(sources[i], a) && sources[i].value[a].name == name
    && forall j :: i < j < |sources| && Mentions(sources[j], a) ==> sources[j].value[a].name == ""
  }

  ghost predicate LastName(sources: seq<Source>, a: Addr, name: string) {
    if name != "" then exists i: nat :: NamedBy(sources, a, i, name)
    else forall j :: 0 <= j < |sources| && Mentions(sources[j], a) ==> sources[j].value[a].name == ""
  }

  ghost predicate MacBy(sources: seq<Source>, a: Addr, i: nat, mac: Mac) {
    && i < |sources| && Mentions(sources[i], a) && sources[i].value[a].mac == mac
    && forall j :: i < j < |sources| && Mentions(sources[j], a) ==> sources[j].value[a].mac == ""
  }

  ghost predicate LastMac(sources: seq<Source>, a: Addr, mac: Mac) {
    if mac != "" then exists i: nat :: MacBy(sources, a, i, mac)
    else forall j :: 0 <= j < |sources| && Mentions(sources[j], a) ==> sources[j].value[a].mac == ""
  }

  /** The table after folding in what `t` has for the addresses `some`. */
  function MergeSome(into: Table, t: Table, some: set<Addr>): Table {
    map a | a in into.Keys + some :: if a in some && a in t then Merged(InfoAt(into, a), t[a]) else InfoAt(into, a)
  }

  lemma MergeOne(into: Table, t: Table, some: set<Addr>, a: Addr)
    requires a in t && a !in some
    ensures MergeSome(into, t, some)[a := Merged(InfoAt(MergeSome(into, t, some), a), t[a])] == MergeSome(into, t, some + {a})
  {
    var was := MergeSome(into, t, some);
    assert InfoAt(was, a) == InfoAt(into, a);
    assert was[a := Merged(InfoAt(was, a), t[a])].Keys == MergeSome(into, t, some + {a}).Keys;
  }

  /** The loop of `refresh` over one source's table, its addresses in any order. */
  method MergeAll(into: Table, t: Table) returns (out: Table)
    ensures out == MergeSome(into, t, t.Keys)
  {
    out := into;
    var some: set<Addr> := {};
    assert MergeSome(into, t, {}) == into;
    while t.Keys != some
      invariant some <= t.Keys && out == MergeSome(into, t, some)
      decreases t.Keys - some
    {
      var a :| a in t.Keys && a !in some;
      MergeOne(into, t, some, a);
      out := out[a := Merged(InfoAt(out, a), t[a])];
      some := some + {a};
    }
  }

  // ---- Bindings ------------------------------------------------------------

  /** The MACs seen in a learned table, or in the part of it about `some`. */
  function Macs(learned: Table): map<Addr, Mac> {
    MacsOf(learned, learned.Keys)
  }

  function MacsOf(learned: Table, some: set<Addr>): map<Addr, Mac> {
    map a | a in some && a in learned && learned[a].mac != "" :: learned[a].mac
  }

  lemma NoMacsYet(before: map<Addr, Mac>, learned: Table)
    ensures before + MacsOf(learned, {}) == before
  {
    assert MacsOf(learned, {}) == map[];
  }

  lemma MacsGrow(before: map<Addr, Mac>, learned: Table, some: set<Addr>, a: Addr)
    requires a in learned
    ensures before + MacsOf(learned, some + {a}) ==
            if learned[a].mac != "" then (before + MacsOf(learned, some))[a := learned[a].mac]
            else before + MacsOf(learned, some)
  {
    var m := MacsOf(learned, some);
    assert MacsOf(learned, some + {a}) == if learned[a].mac != "" then m[a := learned[a].mac] else m;
  }

  ghost predicate Part(some: map<Addr, Mac>, all: map<Addr, Mac>) {
    forall a :: a in some ==> a in all && some[a] == all[a]
  }

  /** What a refresh may make of bindings that should become `all`, whichever entries
      the eviction picks: nothing but those, no more than the limit, no fewer than
      before, and all of them while they fit. */
  ghost predicate Rebound(before: map<Addr, Mac>, all: map<Addr, Mac>, max: nat, after: map<Addr, Mac>) {
    && Part(after, all)
    && (|before| <= max ==> |after| <= max)
    && |after| >= |before|
    && (|all| <= max ==> after == all)
  }

  /** `drop` is a choice of the eviction loop. */
  predicate MayDrop(had: map<Addr, Mac>, a: Addr, max: nat, drop: set<Addr>) {
    drop <= had.Keys && |drop| == if a !in had && |had| >= max && had != map[] then 1 else 0
  }

  lemma BindSize(had: map<Addr, Mac>, a: Addr, mac: Mac, max: nat, drop: set<Addr>)
    requires max >= 1 && MayDrop(had, a, max, drop)
    ensures |(had - drop)[a := mac]| == |had| + (if a !in had && drop == {} then 1 else 0)
    ensures |had| <= max ==> |(had - drop)[a := mac]| <= max
  {
    var kept := had - drop;
    assert kept.Keys == had.Keys - drop;
    assert kept[a := mac].Keys == kept.Keys + {a};
  }

  lemma BindOne(before: map<Addr, Mac>, all: map<Addr, Mac>, a: Addr, mac: Mac, max: nat, had: map<Addr, Mac>, drop: set<Addr>)
    requires max >= 1 && Rebound(before, all, max, had) && MayDrop(had, a, max, drop)
    ensures Rebound(before, all[a := mac], max, (had - drop)[a := mac])
  {
    BindSize(had, a, mac, max, drop);
    if |all[a := mac]| <= max {
      BindAllFits(all, a, mac, max, had, drop);
    }
  }

  /** While everything fits, nothing is dropped. */
  lemma BindAllFits(all: map<Addr, Mac>, a: Addr, mac: Mac, max: nat, had: map<Addr, Mac>, drop: set<Addr>)
    requires MayDrop(had, a, max, drop) && (|all| <= max ==> had == all) && |all[a := mac]| <= max
    ensures (had - drop)[a := mac] == all[a := mac]
  {
    assert all[a := mac].Keys == all.Keys + {a};
    assert had - {} == had;
  }

  /** The binding loop of `refresh`, over the learned addresses in any order. */
  method Bind(before: map<Addr, Mac>, learned: Table, max: nat) returns (after: map<Addr, Mac>)
    requires max >= 1
    ensures Rebound(before, before + Macs(learned), max, after)
  {
    after := before;
    var some: set<Addr> := {};
    NoMacsYet(before, learned);
    while learned.Keys != some
      invariant some <= learned.Keys
      invariant Rebound(before, before + MacsOf(learned, some), max, after)
      decreases learned.Keys - some
    {
      var a :| a in learned.Keys && a !in some;
      after := BindNext(before, learned, some, a, max, after);
      some := some + {a};
    }
  }

  /** One round of that loop. */
  method BindNext(ghost before: map<Addr, Mac>, learned: Table, ghost some: set<Addr>, a: Addr, max: nat, had: map<Addr, Mac>)
    returns (after: map<Addr, Mac>)
    requires max >= 1 && a in learned && Rebound(before, before + MacsOf(learned, some), max, had)
    ensures Rebound(before, before + MacsOf(learned, some + {a}), max, after)
  {
    MacsGrow(before, learned, some, a);
    after := had;
    if learned[a].mac != "" {
      after := BindMac(before, before + MacsOf(learned, some), a, learned[a].mac, max, had);
    }
  }

  method BindMac(ghost before: map<Addr, Mac>, ghost all: map<Addr, Mac>, a: Addr, mac: Mac, max: nat, had: map<Addr, Mac>)
    returns (after: map<Addr, Mac>)
    requires max >= 1 && Rebound(before, all, max, had)
    ensures Rebound(before, all[a := mac], max, after)
  {
    ghost var drop := {};
    var kept := had;
    if a !in had && |had| >= max {
      assert had.Keys != {};
      var k :| k in had;
      kept := had - {k};
      drop := {k};
    } else {
      assert had - {} == had;
    }
    BindOne(before, all, a, mac, max, had, drop);
    after := kept[a := mac];
  }

  class DeviceDB {
    const maxBindings: nat
    var learned: Table
    var bindings: map<Addr, Mac>

    constructor (maxBindings: nat)
      ensures this.maxBindings == maxBindings && learned == map[] && bindings == map[]
    {
      this.maxBindings, learned, bindings := maxBindings, map[], map[];
    }

    /** Re-read every source and swap in the new table; then remember every MAC seen. */
    method Refresh(sources: seq<Source>)
      requires maxBindings >= 1
      modifies this
      ensures LearnedTable(sources, learned)
      ensures Rebound(old(bindings), old(bindings) + Macs(learned), maxBindings, bindings)
    {
      var table := LearnAll(sources);
      bindings := Bind(bindings, table, maxBindings);
      learned := table;
    }
  }

  /** The first loop of `refresh`: every source that could be read, in order. */
  method LearnAll(sources: seq<Source>) returns (table: Table)
    ensures LearnedTable(sources, table)
  {
    table := map[];
    for i := 0 to |sources|
      invariant LearnedTable(sources[..i], table)
    {
      ghost var was := table;
      if sources[i].Some? {
        table := MergeAll(table, sources[i].value);
      }
      LearnMore(sources[..i], sources[i], was, table);
      assert sources[..i + 1] == sources[..i] + [sources[i]];
    }
    assert sources[..|sources|] == sources;
  }

  /** The table is what the sources make of every address, and lists no others. */
  ghost predicate LearnedTable(sources: seq<Source>, t: Table) {
    && (forall a :: a in t <==> Known(sources, a))
    && (forall a :: InfoAt(t, a) == Learned(sources, a))
  }

  lemma LearnMore(sources: seq<Source>, s: Source, was: Table, t: Table)
    requires LearnedTable(sources, was)
    requires t == if s.Some? then MergeSome(was, s.value, s.value.Keys) else was
    ensures LearnedTable(sources + [s], t)
  {
    var more := sources + [s];
    assert more[..|more| - 1] == sources;
    forall a ensures a in t <==> Known(more, a) {
      KnownGrows(sources, s, a);
    }
  }

  lemma KnownGrows(sources: seq<Source>, s: Source, a: Addr)
    ensures Known(sources + [s], a) <==> Known(sources, a) || Mentions(s, a)
  {
    var more := sources + [s];
    if Known(sources, a) {
      var j :| 0 <= j < |sources| && Mentions(sources[j], a);
      assert Mentions(more[j], a);
    }
    assert more[|sources|] == s;
    if Known(more, a) {
      var j :| 0 <= j < |more| && Mentions(more[j], a);
      assert j < |sources| ==> Mentions(sources[j], a);
    }
  }
}
