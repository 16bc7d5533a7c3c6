/** How long a device keeps its MAC over any run of refreshes, and what its ID is
    derived from meanwhile (device.go). */
module Bindings {
  import opened Base
  import opened Devices
  import opened ShortIds

  /** What the device table holds between two refreshes; lookups see both fields
      under one lock. */
  datatype Memory = Memory(learned: Table, bindings: map<Addr, Mac>)

  /** One refresh, with whatever the eviction picked. */
  ghost predicate Round(max: nat, m: Memory, sources: seq<Source>, m': Memory) {
    && LearnedTable(sources, m'.learned)
    && Rebound(m.bindings, m.bindings + Macs(m'.learned), max, m'.bindings)
  }

  ghost predicate History(max: nat, ms: seq<Memory>, rounds: seq<seq<Source>>) {
    && |ms| == |rounds| + 1
    && ms[0] == Memory(map[], map[])
    && forall i :: 0 <= i < |rounds| ==> Round(max, ms[i], rounds[i], ms[i + 1])
  }

  /** The last MAC ever seen for each address. */
  ghost function LastSeen(ms: seq<Memory>): map<Addr, Mac>
    decreases |ms|
  {
    if ms == [] then map[] else LastSeen(ms[..|ms| - 1]) + Macs(ms[|ms| - 1].learned)
  }

  lemma FewerKeys(a: map<Addr, Mac>, b: map<Addr, Mac>)
    ensures |a| <= |a + b|
  {
    assert (a + b).Keys == a.Keys + b.Keys;
    assert a.Keys + b.Keys == a.Keys + (b.Keys - a.Keys);
    assert |a.Keys| <= |a.Keys + (b.Keys - a.Keys)|;
  }

  /** The bindings against what has been seen: never more than the limit, never another
      MAC than the last one seen, and all of them as long as they fit. */
  ghost predicate Sticky(max: nat, seen: map<Addr, Mac>, bindings: map<Addr, Mac>) {
    && |bindings| <= max
    && Part(bindings, seen)
    && (|seen| <= max ==> bindings == seen)
  }

  lemma StickyStep(max: nat, seen: map<Addr, Mac>, m: Memory, sources: seq<Source>, m': Memory)
    requires Sticky(max, seen, m.bindings) && Round(max, m, sources, m')
    ensures Sticky(max, seen + Macs(m'.learned), m'.bindings)
  {
    var macs := Macs(m'.learned);
    FewerKeys(seen, macs);
    assert Part(m.bindings + macs, seen + macs);
    assert |seen + macs| <= max ==> m.bindings + macs == seen + macs;
  }

  lemma {:induction false} BindingsStick(max: nat, ms: seq<Memory>, rounds: seq<seq<Source>>)
    requires History(max, ms, rounds)
    ensures Sticky(max, LastSeen(ms), ms[|ms| - 1].bindings)
    decreases |ms|
  {
    var k := |rounds|;
    if k == 0 {
      assert ms[..0] == [] && Macs(ms[0].learned) == map[];
      assert LastSeen(ms) == map[];
    } else {
      BindingsStick(max, ms[..k], rounds[..k - 1]);
      StickyStep(max, LastSeen(ms[..k]), ms[k - 1], rounds[k - 1], ms[k]);
    }
  }

  // ---- What a lookup uses --------------------------------------------------

  datatype Mode = Auto | ByIp | ByMac | NoId

  /** The MAC a lookup goes by: the one just learned, or else the one remembered. */
  function MacFor(m: Memory, a: Addr): Mac {
    var learned := InfoAt(m.learned, a).mac;
    if learned != "" then learned else if a in m.bindings then m.bindings[a] else ""
  }

  /** deviceID; `ip` is the address's own bytes. */
  function DeviceId(hash: string -> Sum, mode: Mode, profile: string, ip: string, mac: Mac): string {
    match mode
    case NoId => ""
    case ByIp => ShortId(hash, profile, ip)
    case ByMac => if mac == "" then "" else ShortId(hash, profile, mac)
    case Auto => if mac != "" then ShortId(hash, profile, mac) else ShortId(hash, profile, ip)
  }

  /** In every mode the ID is empty if and only if there is nothing to derive it from, and
      otherwise five characters that decode to the leading digits of the hash of the profile
      and the MAC or the address: the MAC in `mac` mode, the address in `ip` mode, and in auto
      mode the MAC if there is one. */
  lemma DeviceIdIff(hash: string -> Sum, mode: Mode, profile: string, ip: string, mac: Mac)
    requires ip != ""
    ensures var id := DeviceId(hash, mode, profile, ip, mac);
            && (id == "" <==> mode == NoId || (mode == ByMac && mac == ""))
            && ((mode == Auto || mode == ByMac) && mac != "" ==> |id| == 5 && Decode(id) == Leading(hash(profile + mac)))
            && (mode == ByIp || (mode == Auto && mac == "") ==> |id| == 5 && Decode(id) == Leading(hash(profile + ip)))
  {
    ShortIdDecodes(hash, profile, ip);
    if mac != "" {
      ShortIdDecodes(hash, profile, mac);
    }
  }

  /** Round `i` has a MAC for the address. */
  predicate Shows(ms: seq<Memory>, a: Addr, i: nat) {
    i < |ms| && InfoAt(ms[i].learned, a).mac != ""
  }

  /** The last MAC ever seen for an address is that of the last refresh that learned one. */
  lemma {:induction false} LastSeenIff(ms: seq<Memory>, a: Addr)
    ensures a in LastSeen(ms) <==> exists i: nat :: Shows(ms, a, i)
    ensures forall i: nat :: Shows(ms, a, i) && (forall j: nat :: i < j ==> !Shows(ms, a, j)) ==>
              LastSeen(ms)[a] == InfoAt(ms[i].learned, a).mac
    decreases |ms|
  {
    if ms != [] {
      var before, k := ms[..|ms| - 1], |ms| - 1;
      LastSeenIff(before, a);
      assert a in Macs(ms[k].learned) <==> Shows(ms, a, k);
      assert forall i: nat :: i < k ==> (Shows(before, a, i) <==> Shows(ms, a, i));
      if a in LastSeen(before) && !Shows(ms, a, k) {
        var i: nat :| Shows(before, a, i);
        assert Shows(ms, a, i);
      }
    }
  }

  /** After any run of refreshes a lookup goes by the last MAC ever seen for the
      address, or by none. */
  lemma MacIsLastSeenOrNone(max: nat, ms: seq<Memory>, rounds: seq<seq<Source>>, a: Addr)
    requires History(max, ms, rounds)
    ensures var mac := MacFor(ms[|ms| - 1], a);
            && (mac == "" || (a in LastSeen(ms) && mac == LastSeen(ms)[a]))
            && (InfoAt(ms[|ms| - 1].learned, a).mac != "" ==> mac == InfoAt(ms[|ms| - 1].learned, a).mac)
  {
    BindingsStick(max, ms, rounds);
    var m := ms[|ms| - 1];
    assert InfoAt(m.learned, a).mac != "" ==> a in Macs(m.learned);
  }

  /** As long as the addresses ever seen with a MAC number at most the limit, an
      address once seen with a MAC keeps the ID of the last one: in auto mode the ID
      never falls back to the IP. */
  lemma SeenDeviceKeepsItsId(hash: string -> Sum, profile: string, ip: string,
      max: nat, ms: seq<Memory>, rounds: seq<seq<Source>>, a: Addr)
    requires History(max, ms, rounds) && a in LastSeen(ms) && |LastSeen(ms)| <= max
    ensures LastSeen(ms)[a] != ""
    ensures DeviceId(hash, Auto, profile, ip, MacFor(ms[|ms| - 1], a)) == ShortId(hash, profile, LastSeen(ms)[a])
  {
    BindingsStick(max, ms, rounds);
    MacIsLastSeenOrNone(max, ms, rounds, a);
    SeenIsNonEmpty(ms, a);
  }

  lemma {:induction false} SeenIsNonEmpty(ms: seq<Memory>, a: Addr)
    requires a in LastSeen(ms)
    ensures LastSeen(ms)[a] != ""
    decreases |ms|
  {
    if a !in Macs(ms[|ms| - 1].learned) {
      SeenIsNonEmpty(ms[..|ms| - 1], a);
    }
  }

  /** Two addresses whose last MACs are one and the same, a device whose lease moved,
      share an ID. */
  lemma IdFollowsTheMac(hash: string -> Sum, profile: string, ip: string, ip': string,
      max: nat, ms: seq<Memory>, rounds: seq<seq<Source>>, a: Addr, b: Addr)
    requires History(max, ms, rounds) && |LastSeen(ms)| <= max
    requires a in LastSeen(ms) && b in LastSeen(ms) && LastSeen(ms)[a] == LastSeen(ms)[b]
    ensures DeviceId(hash, Auto, profile, ip, MacFor(ms[|ms| - 1], a)) ==
            DeviceId(hash, Auto, profile, ip', MacFor(ms[|ms| - 1], b))
  {
    SeenDeviceKeepsItsId(hash, profile, ip, max, ms, rounds, a);
    SeenDeviceKeepsItsId(hash, profile, ip', max, ms, rounds, b);
  }
}
