/** The lock regions of the reverse-DNS discoverer (discovery.go): what each one
    does to the state guarded by `mu`, and the class whose methods are those regions. */
module DiscoveryTable {
  import opened Base

  /** The identity of a done-channel; each `make` yields a new one. */
  type Chan = nat

  datatype Entry = Entry(name: string, expires: Time)

  /** The state behind `mu`. The WaitGroup counter is raised under the lock too. */
  datatype Table = Table(
    entries: map<Addr, Entry>,
    inflight: map<Addr, Chan>,
    closing: bool,
    wg: int)

  /** What the lock region of `name` decided. */
  datatype Verdict =
    | Answer(name: string)
    | Join(ch: Chan, stale: string)
    | Begin(stale: string)

  const MAX_INFLIGHT := 64

  const EMPTY := Table(map[], map[], false, 0)

  function NameAt(t: Table, a: Addr): string {
    if a in t.entries then t.entries[a].name else ""
  }

  predicate Fresh(t: Table, a: Addr, now: Time) {
    a in t.entries && now < t.entries[a].expires
  }

  function Decide(t: Table, a: Addr, now: Time): Verdict {
    if Fresh(t, a, now) then Answer(t.entries[a].name)
    else if a in t.inflight then Join(t.inflight[a], NameAt(t, a))
    else if t.closing || |t.inflight| >= MAX_INFLIGHT then Answer(NameAt(t, a))
    else Begin(NameAt(t, a))
  }

  /** The table after the lock region of `name`, when a new channel would be `done`. */
  function Consulted(t: Table, a: Addr, now: Time, done: Chan): Table {
    if Decide(t, a, now).Begin?
    then t.(inflight := t.inflight[a := done], wg := t.wg + 1)
    else t
  }

  /** Whether a query with nothing to show waits for the lookup. */
  predicate Waits(mayHold: bool, wait: Time, stale: string) {
    mayHold && wait > 0 && stale == ""
  }

  predicate Full(t: Table, a: Addr, max: nat) {
    a !in t.entries && |t.entries| >= max
  }

  /** `victim` is a choice the eviction loop of `store` may make: any entry when
      the table is full, nothing when there is room (or nothing to drop). */
  predicate MayEvict(t: Table, a: Addr, max: nat, victim: Option<Addr>) {
    if Full(t, a, max) && t.entries != map[]
    then victim.Some? && victim.value in t.entries
    else victim.None?
  }

  lemma ConsultedStaysBounded(t: Table, a: Addr, now: Time, done: Chan)
    requires |t.inflight| <= MAX_INFLIGHT
    ensures |Consulted(t, a, now, done).inflight| <= MAX_INFLIGHT
    ensures Consulted(t, a, now, done).entries == t.entries
  {
    assert t.inflight[a := done].Keys == t.inflight.Keys + {a};
  }

  function Stored(t: Table, a: Addr, e: Entry, victim: Option<Addr>): Table {
    var kept := if victim.Some? then t.entries - {victim.value} else t.entries;
    t.(entries := kept[a := e])
  }

  function Released(t: Table, a: Addr): Table {
    t.(inflight := t.inflight - {a})
  }

  /** Storing never pushes a table of at least one slot past its limit, never
      evicts the address being stored, and touches at most one other address. */
  lemma StoredStaysBounded(t: Table, a: Addr, e: Entry, max: nat, victim: Option<Addr>)
    requires max >= 1 && |t.entries| <= max && MayEvict(t, a, max, victim)
    ensures var t' := Stored(t, a, e, victim);
            && |t'.entries| <= max
            && a in t'.entries && t'.entries[a] == e
            && victim != Some(a)
            && (victim.Some? <==> a !in t.entries && |t.entries| >= max)
            && forall b :: b != a && victim != Some(b) ==>
                 (b in t'.entries <==> b in t.entries) &&
                 (b in t.entries ==> t'.entries[b] == t.entries[b])
  {
    if victim.Some? {
      var kept := t.entries - {victim.value};
      assert kept.Keys == t.entries.Keys - {victim.value};
      assert |kept.Keys| == |t.entries.Keys| - 1;
      assert kept[a := e].Keys == kept.Keys + {a};
    } else {
      assert t.entries[a := e].Keys == t.entries.Keys + {a};
    }
  }

  /** The discoverer. Each method is one critical section of the source; the
      goroutines that interleave them are in DiscoveryRuns. */
  class Discoverer {
    const ttl: Time
    const retry: Time
    const wait: Time
    const max: nat

    var entries: map<Addr, Entry>
    var inflight: map<Addr, Chan>
    var closing: bool
    var wg: int

    constructor (ttl: Time, retry: Time, wait: Time, max: nat)
      ensures State() == EMPTY
      ensures this.ttl == ttl && this.retry == retry && this.wait == wait && this.max == max
    {
      this.ttl, this.retry, this.wait, this.max := ttl, retry, wait, max;
      entries, inflight, closing, wg := map[], map[], false, 0;
    }

    function State(): Table
      reads this
    {
      Table(entries, inflight, closing, wg)
    }

    /** The lock region of `name`: answer, join the running lookup, or take a slot. */
    method Consult(addr: Addr, now: Time, done: Chan) returns (v: Verdict)
      modifies this`inflight, this`wg
      ensures v == Decide(old(State()), addr, now)
      ensures State() == Consulted(old(State()), addr, now, done)
      ensures v.Begin? <==>
        && (addr !in entries || entries[addr].expires <= now)
        && addr !in old(inflight) && !closing && |old(inflight)| < MAX_INFLIGHT
      ensures inflight == if v.Begin? then old(inflight)[addr := done] else old(inflight)
      ensures wg == old(wg) + if v.Begin? then 1 else 0
      ensures v.Join? <==> (addr !in entries || entries[addr].expires <= now) && addr in old(inflight)
      ensures v.Join? ==> v.ch == old(inflight)[addr]
      ensures (if v.Answer? then v.name else v.stale) == if addr in entries then entries[addr].name else ""
    {
      var stale := "";
      if addr in entries {
        var e := entries[addr];
        if now < e.expires {
          return Answer(e.name);
        }
        stale := e.name;
      }
      if addr in inflight {
        return Join(inflight[addr], stale);
      }
      if closing || |inflight| >= MAX_INFLIGHT {
        return Answer(stale);
      }
      inflight := inflight[addr := done];
      wg := wg + 1;
      return Begin(stale);
    }

    /** `store`: when the table is full and the address new, drop an arbitrary entry. */
    method Store(addr: Addr, name: string, ttl: Time, now: Time) returns (ghost victim: Option<Addr>)
      modifies this`entries
      ensures MayEvict(old(State()), addr, max, victim)
      ensures victim.Some? ==> addr !in old(entries) && |old(entries)| >= max
      ensures State() == Stored(old(State()), addr, Entry(name, now + ttl), victim)
    {
      victim := None;
      if addr !in entries && |entries| >= max && entries != map[] {
        assert entries.Keys != {};
        var k :| k in entries;
        entries := entries - {k};
        victim := Some(k);
      }
      entries := entries[addr := Entry(name, now + ttl)];
    }

    /** The deferred cleanup of `lookup`: the slot is deleted by address. */
    method Release(addr: Addr)
      modifies this`inflight
      ensures State() == Released(old(State()), addr)
    {
      inflight := inflight - {addr};
    }

    /** The last lock region of `hold`. */
    method Recorded(addr: Addr) returns (name: string)
      ensures name == NameAt(State(), addr)
      ensures name == if addr in entries then entries[addr].name else ""
    {
      name := if addr in entries then entries[addr].name else "";
    }

    /** The lock region of `drain`: no lookup may start from here on. */
    method Shut()
      modifies this`closing
      ensures State() == old(State()).(closing := true)
    {
      closing := true;
    }
  }
}
