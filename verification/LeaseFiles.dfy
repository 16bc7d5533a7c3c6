/** Writing a leases file and reading it back. */
module LeaseFiles {
  import opened Base
  import opened Devices
  import opened LeaseLines
  import opened Leases
  import Routing

  /** One line with a name: of the client, or of the host. */
  datatype NameEntry = NameEntry(client: bool, name: string, quoted: bool)

  /** One lease to be written: the texts of the address and of the MAC, and any lines with
      names. */
  datatype Lease = Lease(addr: string, mac: string, names: seq<NameEntry>)

  predicate PlainText(s: string) {
    s != [] && '#' !in s && forall i :: 0 <= i < |s| ==> !IsSpace(s[i])
  }

  predicate Writable(ps: Parsers, l: Lease) {
    && PlainText(l.addr) && PlainText(l.mac) && ps.addr(l.addr).Some? && ps.mac(l.mac).Some?
    && forall i :: 0 <= i < |l.names| ==> Readable(l.names[i].name, l.names[i].quoted)
  }

  function LeaseLine(addr: string): string {
    LEASE + addr + " {"
  }

  function EthernetLine(mac: string): string {
    "  " + ETHERNET + mac + ";"
  }

  function KeyOf(n: NameEntry): (key: string)
    ensures NameKey(key)
  {
    if n.client then CLIENT else HOST
  }

  function EntryLine(n: NameEntry): string {
    "  " + NameLine(KeyOf(n), Written(n.name, n.quoted))
  }

  function EntryLines(names: seq<NameEntry>): (lines: seq<string>)
    ensures |lines| == |names|
  {
    seq(|names|, i requires 0 <= i < |names| => EntryLine(names[i]))
  }

  function Lines(l: Lease): seq<string> {
    [LeaseLine(l.addr), EthernetLine(l.mac)] + EntryLines(l.names) + ["}"]
  }

  /** Lease after lease. */
  function File(ls: seq<Lease>): seq<string> {
    if ls == [] then [] else File(ls[..|ls| - 1]) + Lines(ls[|ls| - 1])
  }

  /** The name a lease is to be read with: a client name takes over, a host name fills in. */
  function FinalName(names: seq<NameEntry>): string {
    if names == [] then ""
    else
      var before, last := FinalName(names[..|names| - 1]), names[|names| - 1];
      if last.client || before == "" then last.name else before
  }

  /** What the file is to be read as: each lease over the ones before it. */
  function Known(ps: Parsers, ls: seq<Lease>): Table
    requires forall i :: 0 <= i < |ls| ==> Writable(ps, ls[i])
  {
    if ls == [] then map[]
    else
      With(ps, Known(ps, ls[..|ls| - 1]), ls[|ls| - 1])
  }

  function InfoFor(ps: Parsers, l: Lease): Info
    requires Writable(ps, l)
  {
    Info(FinalName(l.names), ps.mac(l.mac).value)
  }

  function AddrFor(ps: Parsers, l: Lease): Addr
    requires Writable(ps, l)
  {
    Routing.Unmap(ps.addr(l.addr).value)
  }

  function With(ps: Parsers, t: Table, l: Lease): Table
    requires Writable(ps, l)
  {
    if InfoFor(ps, l) == BLANK then t else t[AddrFor(ps, l) := InfoFor(ps, l)]
  }

  // ---- Which name wins -----------------------------------------------------

  lemma {:induction false} NothingReplaces(names: seq<NameEntry>, k: nat)
    requires k < |names| && names[k].client && names[k].name != ""
    requires forall i :: k < i < |names| ==> !names[i].client
    ensures FinalName(names) == names[k].name
    decreases |names|
  {
    if k < |names| - 1 {
      NothingReplaces(names[..|names| - 1], k);
    }
  }

  lemma {:induction false} FirstFills(names: seq<NameEntry>, k: nat)
    requires k < |names| && names[k].name != "" && forall i :: 0 <= i < |names| ==> !names[i].client
    requires forall i :: 0 <= i < k ==> names[i].name == ""
    ensures FinalName(names) == names[k].name
    decreases |names|
  {
    if k < |names| - 1 {
      FirstFills(names[..|names| - 1], k);
    } else {
      NoneFills(names[..k]);
    }
  }

  lemma {:induction false} NoneFills(names: seq<NameEntry>)
    requires forall i :: 0 <= i < |names| ==> names[i].name == ""
    ensures FinalName(names) == ""
    decreases |names|
  {
    if names != [] {
      NoneFills(names[..|names| - 1]);
    }
  }

  /** With one line of each kind, a client name that is not empty wins in either order, and
      a host name counts where there is no client name. Only an empty client name after the
      host name is worse than none: it blanks the name. */
  lemma ClientBeatsHost(c: NameEntry, h: NameEntry)
    requires c.client && !h.client
    ensures FinalName([c, h]) == if c.name != "" then c.name else h.name
    ensures FinalName([h, c]) == c.name
    ensures FinalName([h]) == h.name && FinalName([c]) == c.name
  {
    assert [c, h][..1] == [c] && [h, c][..1] == [h];
  }

  // ---- The lines -----------------------------------------------------------

  lemma {:induction false} WordOf(w: string, s: string)
    requires forall i :: 0 <= i < |w| ==> !IsSpace(w[i])
    requires s == [] || IsSpace(s[0])
    ensures Word(w + s) == w
    decreases |w|
  {
    if w == [] {
      assert w + s == s;
    } else {
      assert (w + s)[1..] == w[1..] + s;
      WordOf(w[1..], s);
    }
  }

  lemma StrippedPlain(t: string)
    requires t != [] && !IsSpace(t[0]) && !IsSpace(t[|t| - 1]) && '#' !in t
    ensures Stripped(t) == t
  {}

  lemma StrippedIndented(t: string)
    requires t != [] && !IsSpace(t[0]) && !IsSpace(t[|t| - 1]) && '#' !in t
    ensures Stripped("  " + t) == t
  {
    TrimLeftAll("  ", t);
  }

  lemma LeaseLineFields(addr: string)
    requires PlainText(addr)
    ensures |Fields(LeaseLine(addr))| >= 2 && Fields(LeaseLine(addr))[1] == addr
  {
    var t := LeaseLine(addr);
    FirstWord(t);
    assert t[5..] == " " + (addr + " {");
    TrimLeftAll(" ", addr + " {");
    WordOf(addr, " {");
  }

  lemma LeaseLineRead(ps: Parsers, addr: string)
    requires PlainText(addr)
    ensures Classify(ps, LeaseLine(addr)) == Open(ps.addr(addr))
  {
    var t := LeaseLine(addr);
    assert t[0] == 'l' && t[|t| - 1] == '{';
    assert '#' !in LEASE && '#' !in " {";
    StrippedPlain(t);
    assert t[|t| - 1..] == "{";
    LeaseLineFields(addr);
  }

  lemma EthernetLineRead(ps: Parsers, mac: string)
    requires PlainText(mac)
    ensures Classify(ps, EthernetLine(mac)) == Hardware(ps.mac(mac))
  {
    var t := ETHERNET + mac + ";";
    assert EthernetLine(mac) == "  " + t;
    assert t[0] == 'h' && t[|t| - 1] == ';' && t[1] == 'a';
    assert '#' !in ETHERNET;
    StrippedIndented(t);
    EthernetRead(ps, mac, t);
  }

  lemma EthernetRead(ps: Parsers, mac: string, t: string)
    requires PlainText(mac) && t == ETHERNET + mac + ";"
    ensures Read(ps, t) == Hardware(ps.mac(mac))
  {
    assert t[0] == ETHERNET[0] && t[1] == ETHERNET[1];
    assert !(LEASE <= t) && !(CLIENT <= t) && !(HOST <= t) by {
      assert LEASE[0] != t[0] && CLIENT[0] != t[0] && HOST[1] != t[1];
    }
    var u := t[|ETHERNET|..];
    assert u == mac + ";" && u[|u| - 1..] == ";" && u[..|u| - 1] == mac;
    assert Trim(mac) == mac;
  }

  lemma CloseLineRead(ps: Parsers)
    ensures Classify(ps, "}") == Close
  {
    StrippedPlain("}");
  }

  // ---- The statements ------------------------------------------------------

  function EntryStmts(names: seq<NameEntry>): (s: seq<Stmt>)
    ensures |s| == |names|
  {
    seq(|names|, i requires 0 <= i < |names| => Named(KeyOf(names[i]), names[i].name))
  }

  function Body(m: Mac, names: seq<NameEntry>): seq<Stmt> {
    [Hardware(Some(m))] + EntryStmts(names)
  }

  function BlockStmts(a: Addr, m: Mac, names: seq<NameEntry>): seq<Stmt> {
    [Open(Some(a))] + Body(m, names) + [Close]
  }

  function LeaseStmts(ps: Parsers, l: Lease): seq<Stmt>
    requires Writable(ps, l)
  {
    BlockStmts(ps.addr(l.addr).value, ps.mac(l.mac).value, l.names)
  }

  lemma StmtsOfMore(ps: Parsers, a: seq<string>, b: seq<string>)
    ensures Stmts(ps, a + b) == Stmts(ps, a) + Stmts(ps, b)
  {
    var both, one := Stmts(ps, a + b), Stmts(ps, a) + Stmts(ps, b);
    forall i | 0 <= i < |both|
      ensures both[i] == one[i]
    {
      assert (a + b)[i] == if i < |a| then a[i] else b[i - |a|];
    }
  }

  lemma EntriesRead(ps: Parsers, names: seq<NameEntry>)
    requires forall i :: 0 <= i < |names| ==> Readable(names[i].name, names[i].quoted)
    ensures Stmts(ps, EntryLines(names)) == EntryStmts(names)
  {
    var s := Stmts(ps, EntryLines(names));
    forall i | 0 <= i < |names|
      ensures s[i] == EntryStmts(names)[i]
    {
      NameReadBackIff(ps, "  ", KeyOf(names[i]), names[i].name, names[i].quoted);
    }
  }

  lemma TwoStmts(ps: Parsers, a: string, b: string)
    ensures Stmts(ps, [a, b]) == [Classify(ps, a), Classify(ps, b)]
  {}

  lemma LeaseRead(ps: Parsers, l: Lease)
    requires Writable(ps, l)
    ensures Stmts(ps, Lines(l)) == LeaseStmts(ps, l)
  {
    LeaseLineRead(ps, l.addr);
    EthernetLineRead(ps, l.mac);
    CloseLineRead(ps);
    EntriesRead(ps, l.names);
    TwoStmts(ps, LeaseLine(l.addr), EthernetLine(l.mac));
    OneStmt(ps, "}");
    StmtsOfMore(ps, [LeaseLine(l.addr), EthernetLine(l.mac)], EntryLines(l.names));
    StmtsOfMore(ps, [LeaseLine(l.addr), EthernetLine(l.mac)] + EntryLines(l.names), ["}"]);
    FromPieces(ps.addr(l.addr).value, ps.mac(l.mac).value, l.names);
  }

  lemma FromPieces(a: Addr, m: Mac, names: seq<NameEntry>)
    ensures [Open(Some(a)), Hardware(Some(m))] + EntryStmts(names) + [Close] == BlockStmts(a, m, names)
  {}

  lemma NoneBounds(m: Mac, names: seq<NameEntry>)
    ensures forall i :: 0 <= i < |Body(m, names)| ==> !Bounds(Body(m, names)[i])
  {}

  lemma BodyGrows(m: Mac, names: seq<NameEntry>)
    requires names != []
    ensures var last := names[|names| - 1];
            Body(m, names) == Body(m, names[..|names| - 1]) + [Named(KeyOf(last), last.name)]
  {}

  lemma OneMoreLine(body: seq<Stmt>, x: Stmt, info: Info)
    requires InfoOf(body) == info
    ensures InfoOf(body + [x]) == WithField(info, x)
  {
    NameGrows(body, x);
    MacGrows(body, x);
  }

  lemma OneMoreName(m: Mac, names: seq<NameEntry>)
    requires names != []
    ensures var last := names[|names| - 1];
            WithField(Info(FinalName(names[..|names| - 1]), m), Named(KeyOf(last), last.name)) == Info(FinalName(names), m)
  {
    assert CLIENT[0] != HOST[0];
  }

  lemma HardwareInfo(m: Mac)
    ensures InfoOf([Hardware(Some(m))]) == Info("", m)
  {
    HardwareMac(m);
    HardwareName(m);
  }

  lemma HardwareMac(m: Mac)
    ensures MacOf([Hardware(Some(m))]) == m
  {}

  lemma HardwareName(m: Mac)
    ensures NameOf([Hardware(Some(m))]) == ""
  {
    var body := [Hardware(Some(m))];
    assert LastClient(body) == -1;
    assert body[0..] == body && FirstHost(body) == FirstHost(body[1..]) == "";
  }

  lemma {:induction false} BodyInfo(m: Mac, names: seq<NameEntry>)
    ensures InfoOf(Body(m, names)) == Info(FinalName(names), m)
    decreases |names|
  {
    if names == [] {
      assert Body(m, names) == [Hardware(Some(m))];
      HardwareInfo(m);
    } else {
      var before, last := names[..|names| - 1], names[|names| - 1];
      BodyInfo(m, before);
      BodyGrows(m, names);
      OneMoreLine(Body(m, before), Named(KeyOf(last), last.name), Info(FinalName(before), m));
      OneMoreName(m, names);
    }
  }

  // ---- The file ------------------------------------------------------------

  lemma {:induction false} NothingToldBy(s: seq<Stmt>, body: seq<Stmt>, out: Table)
    requires LeasesOf(s, out) && forall i :: 0 <= i < |body| ==> !body[i].Close?
    ensures LeasesOf(s + body, out)
    decreases |body|
  {
    if body == [] {
      assert s + body == s;
    } else {
      var n := |body| - 1;
      NothingToldBy(s, body[..n], out);
      NothingTold(s + body[..n], body[n], out);
      assert s + body[..n] + [body[n]] == s + body;
    }
  }

  lemma BodyPending(s: seq<Stmt>, a: Addr, body: seq<Stmt>)
    requires forall i :: 0 <= i < |body| ==> !Bounds(body[i])
    ensures var t := s + ([Open(Some(a))] + body);
            Pending(t, |s|) && AddrAt(t, |s|) == Routing.Unmap(a) && t[|s| + 1..] == body
  {
    var t := s + ([Open(Some(a))] + body);
    assert t[|s|] == Open(Some(a));
    forall k: nat | |s| < k < |t|
      ensures !Bounds(t[k])
    {
      assert t[k] == body[k - |s| - 1];
    }
  }

  lemma LastLine(t: seq<Stmt>, i: nat, info: Info, out: Table, after: Table)
    requires LeasesOf(t, out) && Pending(t, i) && InfoOf(t[i + 1..]) == info
    requires after == if info == BLANK then out else out[AddrAt(t, i) := info]
    ensures LeasesOf(t + [Close], after)
  {
    LeaseTold(t, i, out);
  }

  /** A block adds what its body says. */
  lemma BlockAppended(s: seq<Stmt>, out: Table, a: Addr, body: seq<Stmt>, info: Info, after: Table)
    requires LeasesOf(s, out) && (forall i :: 0 <= i < |body| ==> !Bounds(body[i])) && InfoOf(body) == info
    requires after == if info == BLANK then out else out[Routing.Unmap(a) := info]
    ensures LeasesOf(s + ([Open(Some(a))] + body + [Close]), after)
  {
    OpenedTellsNothing(s, a, body, out);
    OpenedClosed(s, a, body, info, out, after);
    Regrouped(s, [Open(Some(a))] + body, [Close]);
  }

  lemma OpenedClosed(s: seq<Stmt>, a: Addr, body: seq<Stmt>, info: Info, out: Table, after: Table)
    requires LeasesOf(s + ([Open(Some(a))] + body), out) && forall i :: 0 <= i < |body| ==> !Bounds(body[i])
    requires InfoOf(body) == info && after == if info == BLANK then out else out[Routing.Unmap(a) := info]
    ensures LeasesOf(s + ([Open(Some(a))] + body) + [Close], after)
  {
    BodyPending(s, a, body);
    BodyClosed(s + ([Open(Some(a))] + body), |s|, a, body, info, out, after);
  }

  lemma BodyClosed(t: seq<Stmt>, i: nat, a: Addr, body: seq<Stmt>, info: Info, out: Table, after: Table)
    requires LeasesOf(t, out) && Pending(t, i) && AddrAt(t, i) == Routing.Unmap(a) && t[i + 1..] == body
    requires InfoOf(body) == info && after == if info == BLANK then out else out[Routing.Unmap(a) := info]
    ensures LeasesOf(t + [Close], after)
  {
    LastLine(t, i, info, out, after);
  }

  lemma SameStmts(s: seq<Stmt>, t: seq<Stmt>, out: Table)
    requires s == t && LeasesOf(s, out)
    ensures LeasesOf(t, out)
  {}

  lemma OpenedTellsNothing(s: seq<Stmt>, a: Addr, body: seq<Stmt>, out: Table)
    requires LeasesOf(s, out) && forall i :: 0 <= i < |body| ==> !Bounds(body[i])
    ensures LeasesOf(s + ([Open(Some(a))] + body), out)
  {
    NothingTold(s, Open(Some(a)), out);
    NothingToldBy(s + [Open(Some(a))], body, out);
    Regrouped(s, [Open(Some(a))], body);
  }

  lemma Regrouped(a: seq<Stmt>, b: seq<Stmt>, c: seq<Stmt>)
    ensures a + b + c == a + (b + c)
  {}

  lemma LeaseAppended(ps: Parsers, s: seq<Stmt>, out: Table, l: Lease)
    requires Writable(ps, l) && LeasesOf(s, out)
    ensures LeasesOf(s + LeaseStmts(ps, l), With(ps, out, l))
  {
    NamesAppended(s, out, ps.addr(l.addr).value, ps.mac(l.mac).value, l.names, With(ps, out, l));
  }

  lemma NamesAppended(s: seq<Stmt>, out: Table, a: Addr, m: Mac, names: seq<NameEntry>, after: Table)
    requires LeasesOf(s, out)
    requires var info := Info(FinalName(names), m);
             after == if info == BLANK then out else out[Routing.Unmap(a) := info]
    ensures LeasesOf(s + BlockStmts(a, m, names), after)
  {
    NoneBounds(m, names);
    BodyInfo(m, names);
    BlockAppended(s, out, a, Body(m, names), Info(FinalName(names), m), after);
  }

  lemma {:induction false} FileRead(ps: Parsers, ls: seq<Lease>)
    requires forall i :: 0 <= i < |ls| ==> Writable(ps, ls[i])
    ensures LeasesOf(Stmts(ps, File(ls)), Known(ps, ls))
    decreases |ls|
  {
    if ls != [] {
      var before, l := ls[..|ls| - 1], ls[|ls| - 1];
      FileRead(ps, before);
      LeaseRead(ps, l);
      StmtsOfMore(ps, File(before), Lines(l));
      LeaseAppended(ps, Stmts(ps, File(before)), Known(ps, before), l);
    }
  }

  /** Round trip: what is read from a file written lease by lease is the last lease of each
      address, and nothing else. */
  lemma FileReadBack(ps: Parsers, ls: seq<Lease>, out: Table)
    requires forall i :: 0 <= i < |ls| ==> Writable(ps, ls[i])
    requires LeasesOf(Stmts(ps, File(ls)), out)
    ensures out == Known(ps, ls)
  {
    FileRead(ps, ls);
    LeasesAreUnique(Stmts(ps, File(ls)), out, Known(ps, ls));
  }

  // ---- As one text ---------------------------------------------------------

  /** Every line ends in a newline. */
  function TextOf(lines: seq<string>): string {
    if lines == [] then [] else lines[0] + "\n" + TextOf(lines[1..])
  }

  predicate OneLine(line: string) {
    '\n' !in line && (line == [] || line[|line| - 1] != '\r')
  }

  lemma {:induction false} TextScanned(lines: seq<string>)
    requires forall i :: 0 <= i < |lines| ==> OneLine(lines[i])
    ensures ScanLines(TextOf(lines)) == lines
    decreases |lines|
  {
    if lines != [] {
      TextScanned(lines[1..]);
      LineScanned(lines[0], TextOf(lines[1..]));
      FirstAndRest(lines);
    }
  }

  lemma FirstAndRest(lines: seq<string>)
    requires lines != []
    ensures [lines[0]] + lines[1..] == lines
  {}

  lemma PlainIsOneLine(s: string)
    requires PlainText(s)
    ensures '\n' !in s
  {
    assert IsSpace('\n');
  }

  lemma LeaseLineIsOne(addr: string)
    requires PlainText(addr)
    ensures OneLine(LeaseLine(addr))
  {
    PlainIsOneLine(addr);
    assert '\n' !in LEASE && '\n' !in " {";
    var t := LeaseLine(addr);
    assert t[|t| - 1] == '{';
  }

  lemma EthernetLineIsOne(mac: string)
    requires PlainText(mac)
    ensures OneLine(EthernetLine(mac))
  {
    PlainIsOneLine(mac);
    assert '\n' !in ETHERNET && '\n' !in "  " && '\n' !in ";";
    var t := EthernetLine(mac);
    assert t[|t| - 1] == ';';
  }

  lemma EntryLineIsOne(n: NameEntry)
    requires '\n' !in n.name
    ensures OneLine(EntryLine(n))
  {
    assert '\n' !in "  " && '\n' !in "\"";
    NameLineIsOneLine("  ", KeyOf(n), Written(n.name, n.quoted));
  }

  predicate WithoutNewline(l: Lease) {
    forall i :: 0 <= i < |l.names| ==> '\n' !in l.names[i].name
  }

  lemma LinesAreOneEach(ps: Parsers, l: Lease)
    requires Writable(ps, l) && WithoutNewline(l)
    ensures forall i :: 0 <= i < |Lines(l)| ==> OneLine(Lines(l)[i])
  {
    LeaseLineIsOne(l.addr);
    EthernetLineIsOne(l.mac);
    var entries := EntryLines(l.names);
    forall i | 0 <= i < |entries|
      ensures OneLine(entries[i])
    {
      EntryLineIsOne(l.names[i]);
    }
    assert OneLine("}");
  }

  lemma {:induction false} FileLinesAreOneEach(ps: Parsers, ls: seq<Lease>)
    requires forall i :: 0 <= i < |ls| ==> Writable(ps, ls[i]) && WithoutNewline(ls[i])
    ensures forall i :: 0 <= i < |File(ls)| ==> OneLine(File(ls)[i])
    decreases |ls|
  {
    if ls != [] {
      var before, l := ls[..|ls| - 1], ls[|ls| - 1];
      FileLinesAreOneEach(ps, before);
      LinesAreOneEach(ps, l);
      assert File(ls) == File(before) + Lines(l);
    }
  }

  /** The round trip through one text, for names that hold no newline either. */
  lemma TextReadBack(ps: Parsers, ls: seq<Lease>, out: Table)
    requires forall i :: 0 <= i < |ls| ==> Writable(ps, ls[i]) && WithoutNewline(ls[i])
    requires LeasesOf(Stmts(ps, ScanLines(TextOf(File(ls)))), out)
    ensures out == Known(ps, ls)
  {
    FileLinesAreOneEach(ps, ls);
    TextScanned(File(ls));
    FileReadBack(ps, ls, out);
  }

  // ---- An empty last block -------------------------------------------------

  /** A lease as written, and then an empty block for the same address. */
  function EmptiedFile(l: Lease): seq<string> {
    Lines(l) + [LeaseLine(l.addr), "}"]
  }

  lemma EmptiedRead(ps: Parsers, l: Lease)
    requires Writable(ps, l)
    ensures Stmts(ps, EmptiedFile(l)) == LeaseStmts(ps, l) + [Open(ps.addr(l.addr)), Close]
  {
    LeaseRead(ps, l);
    LeaseLineRead(ps, l.addr);
    CloseLineRead(ps);
    TwoStmts(ps, LeaseLine(l.addr), "}");
    StmtsOfMore(ps, Lines(l), [LeaseLine(l.addr), "}"]);
  }

  lemma NothingSaid()
    ensures InfoOf([]) == BLANK
  {}

  /** An empty block at the end changes nothing. */
  lemma EmptyBlockTellsNothing(s: seq<Stmt>, a: Addr, out: Table)
    requires LeasesOf(s, out)
    ensures LeasesOf(s + [Open(Some(a)), Close], out)
  {
    NothingSaid();
    BlockAppended(s, out, a, [], BLANK, out);
    TwoMore(s, Open(Some(a)), Close);
    SameStmts(s + ([Open(Some(a))] + [] + [Close]), s + [Open(Some(a)), Close], out);
  }

  lemma TwoMore(s: seq<Stmt>, x: Stmt, y: Stmt)
    ensures s + ([x] + [] + [y]) == s + [x, y]
  {
    assert [x] + [] + [y] == [x, y];
  }

  /** It is the last of its address. */
  lemma EmptyBlockIsLast(s: seq<Stmt>, a: Addr)
    ensures var t := s + [Open(Some(a)), Close];
            LastBlockOf(t, Routing.Unmap(a), |s|, |s| + 1) && t[|s| + 1..|s| + 1] == []
  {
    var t := s + [Open(Some(a)), Close];
    assert t[|s|] == Open(Some(a)) && t[|s| + 1] == Close;
  }

  /** For every lease there is a file whose last block for the address is empty and whose
      table still has the lease. */
  lemma EmptyBlockKeepsLease(ps: Parsers, l: Lease, out: Table)
    requires Writable(ps, l) && InfoFor(ps, l) != BLANK
    requires LeasesOf(Stmts(ps, EmptiedFile(l)), out)
    ensures var s, a, i := Stmts(ps, EmptiedFile(l)), AddrFor(ps, l), |Lines(l)|;
            && a in out && out[a] == InfoFor(ps, l)
            && LastBlockOf(s, a, i, i + 1) && InfoOf(s[i + 1..i + 1]) == BLANK && !Agrees(out, a, BLANK)
  {
    EmptiedRead(ps, l);
    NothingSaid();
    EmptyBlockIsLast(LeaseStmts(ps, l), ps.addr(l.addr).value);
    EmptiedTable(ps, l);
    LeasesAreUnique(Stmts(ps, EmptiedFile(l)), out, With(ps, map[], l));
  }

  lemma EmptiedTable(ps: Parsers, l: Lease)
    requires Writable(ps, l)
    ensures LeasesOf(LeaseStmts(ps, l) + [Open(ps.addr(l.addr)), Close], With(ps, map[], l))
  {
    NothingLeased();
    LeaseAppended(ps, [], map[], l);
    assert [] + LeaseStmts(ps, l) == LeaseStmts(ps, l);
    EmptyBlockTellsNothing(LeaseStmts(ps, l), ps.addr(l.addr).value, With(ps, map[], l));
  }

  lemma NothingLeased()
    ensures LeasesOf([], map[])
  {}
}
