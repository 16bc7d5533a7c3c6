/** Reading an ISC dhcpd leases file (parseDHCPDLeases in sources.go): the one pass over
    the lines against what a lease file says block by block. The address and MAC parsers of
    the Go library are arbitrary functions. */
module Leases {
  import opened Base
  import opened Devices
  import opened LeaseLines
  import Routing

  // ---- Blocks --------------------------------------------------------------

  predicate Bounds(s: Stmt) {
    s.Open? || s.Close?
  }

  /** A lease block: a well-formed opening line, the next closing line, and no opening or
      closing line between them. */
  predicate Block(s: seq<Stmt>, i: nat, j: nat) {
    && i < j < |s| && s[i].Open? && s[i].addr.Some? && s[j].Close?
    && forall k :: i < k < j ==> !Bounds(s[k])
  }

  /** A lease opened and neither closed nor given up by another opening line. */
  predicate Pending(s: seq<Stmt>, i: nat) {
    && i < |s| && s[i].Open? && s[i].addr.Some?
    && forall k :: i < k < |s| ==> !Bounds(s[k])
  }

  /** The last client-hostname line, or -1. */
  function LastClient(body: seq<Stmt>): (p: int)
    ensures -1 <= p < |body|
    ensures p >= 0 ==> body[p].ClientHostname?
    ensures forall k :: p < k < |body| ==> !body[k].ClientHostname?
  {
    if body == [] then -1
    else if body[|body| - 1].ClientHostname? then |body| - 1
    else LastClient(body[..|body| - 1])
  }

  /** The first non-empty hostname line. */
  function FirstHost(body: seq<Stmt>): string {
    if body == [] then ""
    else if body[0].Hostname? && body[0].name != "" then body[0].name
    else FirstHost(body[1..])
  }

  /** The name of a block: that of its last client-hostname line when it is not empty,
      else of the first hostname line after it with a name. */
  function NameOf(body: seq<Stmt>): string {
    var p := LastClient(body);
    if p >= 0 && body[p].name != "" then body[p].name else FirstHost(body[p + 1..])
  }

  /** The MAC of a block: that of its last well-formed hardware line. */
  function MacOf(body: seq<Stmt>): Mac {
    if body == [] then ""
    else
      var last := body[|body| - 1];
      if last.Hardware? && last.mac.Some? then last.mac.value else MacOf(body[..|body| - 1])
  }

  function InfoOf(body: seq<Stmt>): Info {
    Info(NameOf(body), MacOf(body))
  }

  function AddrAt(s: seq<Stmt>, i: nat): Addr
    requires i < |s| && s[i].Open? && s[i].addr.Some?
  {
    Routing.Unmap(s[i].addr.value)
  }

  /** A block that tells something about an address. */
  predicate Tells(s: seq<Stmt>, a: Addr, i: nat, j: nat) {
    Block(s, i, j) && AddrAt(s, i) == a && InfoOf(s[i + 1..j]) != BLANK
  }

  ghost predicate LastTells(s: seq<Stmt>, a: Addr, i: nat, j: nat) {
    Tells(s, a, i, j) && forall x: nat, y: nat :: Tells(s, a, x, y) ==> y <= j
  }

  ghost predicate Told(s: seq<Stmt>, a: Addr, i: nat, j: nat, info: Info) {
    LastTells(s, a, i, j) && info == InfoOf(s[i + 1..j])
  }

  /** A leases file block by block, for one address: the address is known when some block tells
      something about it, by the last such block. */
  ghost predicate LeaseOf(s: seq<Stmt>, a: Addr, out: Table) {
    if a in out then exists i: nat, j: nat :: Told(s, a, i, j, out[a])
    else forall i: nat, j: nat :: !Tells(s, a, i, j)
  }

  ghost predicate LeasesOf(s: seq<Stmt>, out: Table) {
    forall a :: LeaseOf(s, a, out)
  }

  /** The specification leaves no choice. */
  lemma LeasesAreUnique(s: seq<Stmt>, out1: Table, out2: Table)
    requires LeasesOf(s, out1) && LeasesOf(s, out2)
    ensures out1 == out2
  {
    forall a
      ensures (a in out1 <==> a in out2) && (a in out1 && a in out2 ==> out1[a] == out2[a])
    {
      LeaseIsUnique(s, a, out1, out2);
    }
  }

  lemma LastIsUnique(s: seq<Stmt>, a: Addr, i: nat, j: nat, x: nat, y: nat, info1: Info, info2: Info)
    requires Told(s, a, i, j, info1) && Told(s, a, x, y, info2)
    ensures info1 == info2
  {
    assert Tells(s, a, i, j) && Tells(s, a, x, y);
    OneOpening(s, i, x, j);
  }

  lemma LeaseIsUnique(s: seq<Stmt>, a: Addr, out1: Table, out2: Table)
    requires LeaseOf(s, a, out1) && LeaseOf(s, a, out2)
    ensures (a in out1 <==> a in out2) && (a in out1 && a in out2 ==> out1[a] == out2[a])
  {
    if a in out1 && a in out2 {
      var i: nat, j: nat :| Told(s, a, i, j, out1[a]);
      var x: nat, y: nat :| Told(s, a, x, y, out2[a]);
      LastIsUnique(s, a, i, j, x, y, out1[a], out2[a]);
    }
  }

  /** A block is known by its closing line. */
  lemma OneOpening(s: seq<Stmt>, i: nat, x: nat, j: nat)
    requires Block(s, i, j) && Block(s, x, j)
    ensures i == x
  {}

  /** Block (i, j) is the last one of its address. */
  ghost predicate LastBlockOf(s: seq<Stmt>, a: Addr, i: nat, j: nat) {
    Block(s, i, j) && AddrAt(s, i) == a
    && forall x: nat, y: nat :: Block(s, x, y) && AddrAt(s, x) == a ==> y <= j
  }

  /** The table has for an address what this block says: its content, or nothing. */
  predicate Agrees(out: Table, a: Addr, info: Info) {
    if info != BLANK then a in out && out[a] == info else a !in out
  }

  /** The last block of an address is what the table goes by if and only if it says
      something, or no earlier block of the address does. An empty last block leaves the
      one before it in place. */
  lemma LastBlockDecidesIff(s: seq<Stmt>, out: Table, a: Addr, i: nat, j: nat)
    requires LeasesOf(s, out) && LastBlockOf(s, a, i, j)
    ensures Agrees(out, a, InfoOf(s[i + 1..j])) <==>
            InfoOf(s[i + 1..j]) != BLANK || forall x: nat, y: nat :: y < j ==> !Tells(s, a, x, y)
  {
    var info := InfoOf(s[i + 1..j]);
    assert LeaseOf(s, a, out);
    if info != BLANK {
      assert Told(s, a, i, j, info);
      if a in out {
        var x: nat, y: nat :| Told(s, a, x, y, out[a]);
        LastIsUnique(s, a, i, j, x, y, info, out[a]);
      }
    } else {
      forall x: nat, y: nat
        ensures Tells(s, a, x, y) ==> y < j
      {
        BlankTellsNothing(s, a, i, j, x, y);
      }
    }
  }

  lemma BlankTellsNothing(s: seq<Stmt>, a: Addr, i: nat, j: nat, x: nat, y: nat)
    requires LastBlockOf(s, a, i, j) && InfoOf(s[i + 1..j]) == BLANK
    ensures Tells(s, a, x, y) ==> y < j
  {
    if Block(s, x, y) && y == j {
      OneOpening(s, i, x, j);
      BlankBlockIsSilent(s, a, i, j);
    }
  }

  lemma BlankBlockIsSilent(s: seq<Stmt>, a: Addr, i: nat, j: nat)
    requires Block(s, i, j) && InfoOf(s[i + 1..j]) == BLANK
    ensures !Tells(s, a, i, j)
  {
  }

  // ---- One line more -------------------------------------------------------

  lemma {:induction false} FirstHostGrows(body: seq<Stmt>, x: Stmt)
    ensures FirstHost(body + [x]) ==
            if FirstHost(body) != "" then FirstHost(body)
            else if x.Hostname? then x.name else ""
    decreases |body|
  {
    if body == [] {
      assert (body + [x])[1..] == [];
    } else {
      assert (body + [x])[1..] == body[1..] + [x];
      FirstHostGrows(body[1..], x);
    }
  }

  lemma NameGrows(body: seq<Stmt>, x: Stmt)
    ensures NameOf(body + [x]) ==
            if x.ClientHostname? then x.name
            else if x.Hostname? && NameOf(body) == "" then x.name
            else NameOf(body)
  {
    assert (body + [x])[..|body|] == body;
    var p := LastClient(body);
    if !x.ClientHostname? {
      assert (body + [x])[p + 1..] == body[p + 1..] + [x];
      FirstHostGrows(body[p + 1..], x);
    }
  }

  lemma MacGrows(body: seq<Stmt>, x: Stmt)
    ensures MacOf(body + [x]) == if x.Hardware? && x.mac.Some? then x.mac.value else MacOf(body)
  {
    assert (body + [x])[..|body|] == body;
  }

  /** One more line of a block. */
  function WithField(info: Info, x: Stmt): Info {
    Info(if x.ClientHostname? || (x.Hostname? && info.name == "") then x.name else info.name,
         if x.Hardware? && x.mac.Some? then x.mac.value else info.mac)
  }

  lemma InfoGrows(s: seq<Stmt>, x: Stmt, i: nat)
    requires i < |s|
    ensures InfoOf((s + [x])[i + 1..]) == WithField(InfoOf(s[i + 1..]), x)
  {
    assert (s + [x])[i + 1..] == s[i + 1..] + [x];
    NameGrows(s[i + 1..], x);
    MacGrows(s[i + 1..], x);
  }

  lemma BlocksOfPrefix(s: seq<Stmt>, x: Stmt, i: nat, j: nat)
    requires j < |s|
    ensures Block(s + [x], i, j) <==> Block(s, i, j)
    ensures i < j ==> (s + [x])[i + 1..j] == s[i + 1..j]
  {
    if Block(s + [x], i, j) {
      assert forall k :: i < k < j ==> s[k] == (s + [x])[k];
    }
  }

  lemma LastBlock(s: seq<Stmt>, x: Stmt, i: nat)
    ensures Block(s + [x], i, |s|) <==> x.Close? && Pending(s, i)
    ensures i < |s| ==> (s + [x])[i + 1..|s|] == s[i + 1..]
  {
    if Block(s + [x], i, |s|) {
      assert forall k :: i < k < |s| ==> s[k] == (s + [x])[k];
    }
  }

  lemma PendingAfter(s: seq<Stmt>, x: Stmt, i: nat)
    ensures Pending(s + [x], i) <==>
            if i == |s| then x.Open? && x.addr.Some? else !Bounds(x) && Pending(s, i)
  {
    if Pending(s + [x], i) && i < |s| {
      assert (s + [x])[|s|] == x;
      assert forall k :: i < k < |s| ==> s[k] == (s + [x])[k];
    }
  }

  lemma TellsOfPrefix(s: seq<Stmt>, x: Stmt, a: Addr, i: nat, j: nat)
    requires j < |s|
    ensures Tells(s + [x], a, i, j) <==> Tells(s, a, i, j)
  {
    BlocksOfPrefix(s, x, i, j);
  }

  /** A line that closes no pending lease tells nothing new about an address. */
  lemma SameTold(s: seq<Stmt>, x: Stmt, a: Addr, i: nat, j: nat)
    requires x.Close? ==> !Pending(s, i)
    ensures Tells(s + [x], a, i, j) <==> Tells(s, a, i, j)
  {
    if j < |s| {
      TellsOfPrefix(s, x, a, i, j);
    } else if j == |s| {
      LastBlock(s, x, i);
    }
  }

  lemma NothingTold(s: seq<Stmt>, x: Stmt, out: Table)
    requires LeasesOf(s, out)
    requires x.Close? ==> forall i: nat :: !Pending(s, i)
    ensures LeasesOf(s + [x], out)
  {
    forall a
      ensures LeaseOf(s + [x], a, out)
    {
      assert LeaseOf(s, a, out);
      forall i: nat, j: nat
        ensures Tells(s + [x], a, i, j) <==> Tells(s, a, i, j)
      {
        SameTold(s, x, a, i, j);
      }
      SameLease(s, x, a, out, out);
    }
  }

  /** What is told stays, as long as the same is told. */
  lemma SameLease(s: seq<Stmt>, x: Stmt, a: Addr, out: Table, after: Table)
    requires LeaseOf(s, a, out)
    requires forall i: nat, j: nat :: Tells(s + [x], a, i, j) <==> Tells(s, a, i, j)
    requires a in after <==> a in out
    requires a in after ==> after[a] == out[a]
    ensures LeaseOf(s + [x], a, after)
  {
    if a in out {
      var i: nat, j: nat :| Told(s, a, i, j, out[a]);
      BlocksOfPrefix(s, x, i, j);
      assert Told(s + [x], a, i, j, after[a]);
    }
  }

  lemma ToldByClosing(s: seq<Stmt>, i: nat, a: Addr, p: nat, q: nat)
    requires Pending(s, i)
    ensures Tells(s + [Close], a, p, q) <==>
            Tells(s, a, p, q) || (a == AddrAt(s, i) && p == i && q == |s| && InfoOf(s[i + 1..]) != BLANK)
  {
    if q < |s| {
      TellsOfPrefix(s, Close, a, p, q);
    } else if q == |s| {
      LastToldByClosing(s, i, a, p);
    }
  }

  lemma LastToldByClosing(s: seq<Stmt>, i: nat, a: Addr, p: nat)
    requires Pending(s, i)
    ensures Tells(s + [Close], a, p, |s|) <==> a == AddrAt(s, i) && p == i && InfoOf(s[i + 1..]) != BLANK
  {
    LastBlock(s, Close, p);
    if p == i {
      assert (s + [Close])[i] == s[i];
    } else if Pending(s, p) {
      OnePending(s, i, p);
    } else {
      assert !Block(s + [Close], p, |s|);
    }
  }

  lemma OnePending(s: seq<Stmt>, i: nat, p: nat)
    requires Pending(s, i) && Pending(s, p)
    ensures i == p
  {}

  /** Closing a pending lease tells what stands in it, if anything does. */
  lemma LeaseTold(s: seq<Stmt>, i: nat, out: Table)
    requires LeasesOf(s, out) && Pending(s, i)
    ensures var info := InfoOf(s[i + 1..]);
            LeasesOf(s + [Close], if info != BLANK then out[AddrAt(s, i) := info] else out)
  {
    var cur, info := AddrAt(s, i), InfoOf(s[i + 1..]);
    var after := if info != BLANK then out[cur := info] else out;
    forall a
      ensures LeaseOf(s + [Close], a, after)
    {
      assert LeaseOf(s, a, out);
      forall p: nat, q: nat
        ensures Tells(s + [Close], a, p, q) <==>
                Tells(s, a, p, q) || (a == cur && p == i && q == |s| && info != BLANK)
      {
        ToldByClosing(s, i, a, p, q);
      }
      if a == cur && info != BLANK {
        LastBlock(s, Close, i);
        assert Told(s + [Close], a, i, |s|, info);
      } else {
        SameLease(s, Close, a, out, after);
      }
    }
  }

  // ---- The loop ------------------------------------------------------------

  /** What the loop's variables say after the statements `s`. */
  ghost predicate Tracks(s: seq<Stmt>, inTag: bool, cur: Addr, info: Info, out: Table) {
    && LeasesOf(s, out)
    && (!inTag ==> forall i: nat :: !Pending(s, i))
    && (inTag ==> exists i: nat :: Pending(s, i) && AddrAt(s, i) == cur && InfoOf(s[i + 1..]) == info)
  }

  /** Any opening line gives up the lease before it; a malformed one opens none. */
  lemma TracksOpen(s: seq<Stmt>, x: Stmt, inTag: bool, cur: Addr, info: Info, out: Table, next: Addr)
    requires Tracks(s, inTag, cur, info, out)
    requires x.Open? && (x.addr.Some? ==> next == Routing.Unmap(x.addr.value))
    ensures Tracks(s + [x], x.addr.Some?, next, BLANK, out)
  {
    NothingTold(s, x, out);
    forall i: nat
      ensures Pending(s + [x], i) <==> i == |s| && x.addr.Some?
    {
      PendingAfter(s, x, i);
    }
    if x.addr.Some? {
      assert Pending(s + [x], |s|);
      assert (s + [x])[|s| + 1..] == [];
      assert InfoOf([]) == BLANK;
    }
  }

  /** Outside a lease every other line is skipped. */
  lemma TracksIdle(s: seq<Stmt>, x: Stmt, cur: Addr, info: Info, out: Table)
    requires Tracks(s, false, cur, info, out) && !x.Open?
    ensures Tracks(s + [x], false, cur, info, out)
  {
    NothingTold(s, x, out);
    forall i: nat
      ensures !Pending(s + [x], i)
    {
      PendingAfter(s, x, i);
    }
  }

  lemma TracksClose(s: seq<Stmt>, cur: Addr, info: Info, out: Table)
    requires Tracks(s, true, cur, info, out)
    ensures Tracks(s + [Close], false, cur, info, if info != BLANK then out[cur := info] else out)
  {
    var i: nat :| Pending(s, i) && AddrAt(s, i) == cur && InfoOf(s[i + 1..]) == info;
    LeaseTold(s, i, out);
    forall k: nat
      ensures !Pending(s + [Close], k)
    {
      PendingAfter(s, Close, k);
    }
  }

  lemma TracksField(s: seq<Stmt>, x: Stmt, cur: Addr, info: Info, out: Table)
    requires Tracks(s, true, cur, info, out) && !Bounds(x)
    ensures Tracks(s + [x], true, cur, WithField(info, x), out)
  {
    var i: nat :| Pending(s, i) && AddrAt(s, i) == cur && InfoOf(s[i + 1..]) == info;
    NothingTold(s, x, out);
    PendingAfter(s, x, i);
    InfoGrows(s, x, i);
  }

  method ReadField(ps: Parsers, line: string, info: Info) returns (r: Info)
    requires !Bounds(Read(ps, line))
    ensures r == WithField(info, Read(ps, line))
  {
    r := info;
    if CLIENT <= line {
      r := r.(name := Unquote(TrimSuffix(line[|CLIENT|..], ";")));
    } else if HOST <= line {
      if info.name == "" {
        r := r.(name := Unquote(TrimSuffix(line[|HOST|..], ";")));
      }
    } else if ETHERNET <= line {
      var mac := ps.mac(Trim(TrimSuffix(line[|ETHERNET|..], ";")));
      if mac.Some? {
        r := r.(mac := mac.value);
      }
    }
  }

  /** One round of the loop. */
  method NextLine(ps: Parsers, raw: string, ghost s: seq<Stmt>, inTag: bool, cur: Addr, info: Info, out: Table)
    returns (inTag': bool, cur': Addr, info': Info, out': Table)
    requires Tracks(s, inTag, cur, info, out)
    ensures Tracks(s + [Classify(ps, raw)], inTag', cur', info', out')
  {
    inTag', cur', info', out' := inTag, cur, info, out;
    var line := Strip(raw);
    ghost var x := Classify(ps, raw);
    if LEASE <= line && HasSuffix(line, "{") {
      LeaseLineHasAddress(line);
      var fields := Fields(line);
      var addr := ps.addr(fields[1]);
      if addr.None? {
        TracksOpen(s, x, inTag, cur, info, out, cur);
        inTag' := false;
        return;
      }
      TracksOpen(s, x, inTag, cur, info, out, Routing.Unmap(addr.value));
      inTag', cur', info' := true, Routing.Unmap(addr.value), BLANK;
    } else if !inTag {
      TracksIdle(s, x, cur, info, out);
    } else if line == "}" {
      TracksClose(s, cur, info, out);
      if info.name != "" || |info.mac| > 0 {
        out' := out[cur := info];
      }
      inTag' := false;
    } else {
      TracksField(s, x, cur, info, out);
      info' := ReadField(ps, line, info);
    }
  }

  lemma NextStmt(ps: Parsers, lines: seq<string>, n: nat)
    requires n < |lines|
    ensures Stmts(ps, lines[..n + 1]) == Stmts(ps, lines[..n]) + [Classify(ps, lines[n])]
  {
    var more, one := Stmts(ps, lines[..n + 1]), Stmts(ps, lines[..n]) + [Classify(ps, lines[n])];
    forall i | 0 <= i < |more|
      ensures more[i] == one[i]
    {
      assert lines[..n + 1][i] == lines[i];
    }
  }

  lemma AllStmts(ps: Parsers, lines: seq<string>)
    ensures Stmts(ps, lines[..|lines|]) == Stmts(ps, lines)
  {
    assert lines[..|lines|] == lines;
  }

  lemma NothingYet(ps: Parsers, lines: seq<string>)
    ensures Tracks(Stmts(ps, lines[..0]), false, V4([]), BLANK, map[])
  {
  }

  method ParseLeases(ps: Parsers, lines: seq<string>) returns (out: Table)
    ensures LeasesOf(Stmts(ps, lines), out)
  {
    out := map[];
    var cur, info, inTag := V4([]), BLANK, false;
    NothingYet(ps, lines);
    for n := 0 to |lines|
      invariant Tracks(Stmts(ps, lines[..n]), inTag, cur, info, out)
    {
      inTag, cur, info, out := NextLine(ps, lines[n], Stmts(ps, lines[..n]), inTag, cur, info, out);
      NextStmt(ps, lines, n);
    }
    AllStmts(ps, lines);
  }
}
