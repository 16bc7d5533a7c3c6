/** The lines of an ISC dhcpd leases file and what each one says (parseDHCPDLeases and
    unquote in sources.go). The address and MAC parsers of the Go library are arbitrary
    functions. */
module LeaseLines {
  import opened Base
  import opened Devices

  // ---- Lines ---------------------------------------------------------------

  /** The position of the first newline, or the length when there is none. */
  function Newline(s: string): (i: nat)
    ensures i <= |s|
    ensures i < |s| ==> s[i] == '\n'
    ensures i == |s| ==> '\n' !in s
  {
    if s == [] || s[0] == '\n' then 0 else Newline(s[1..]) + 1
  }

  /** One carriage return before the newline is dropped. */
  function DropCr(s: string): string {
    if s != [] && s[|s| - 1] == '\r' then s[..|s| - 1] else s
  }

  /** bufio.ScanLines: the lines of a text, the last one with or without its newline. */
  function ScanLines(text: string): seq<string>
    decreases |text|
  {
    if text == [] then []
    else
      var n := Newline(text);
      if n == |text| then [DropCr(text)] else [DropCr(text[..n])] + ScanLines(text[n + 1..])
  }

  lemma {:induction false} NewlineAt(s: string, rest: string)
    requires '\n' !in s
    ensures Newline(s + "\n" + rest) == |s|
    decreases |s|
  {
    var text := s + "\n" + rest;
    if s != [] {
      assert text[0] == s[0] && s[0] in s;
      assert text[1..] == s[1..] + "\n" + rest;
      NewlineAt(s[1..], rest);
    } else {
      assert text[0] == '\n';
    }
  }

  /** A line without newlines and not ending in a carriage return is scanned as it is. */
  lemma LineScanned(s: string, rest: string)
    requires '\n' !in s && (s == [] || s[|s| - 1] != '\r')
    ensures ScanLines(s + "\n" + rest) == [s] + ScanLines(rest)
  {
    var text := s + "\n" + rest;
    NewlineAt(s, rest);
    assert text[..|s|] == s && text[|s| + 1..] == rest;
  }

  /** A newline within a text makes it more than one line. */
  lemma NewlineSplits(s: string, t: string)
    requires t != []
    ensures |ScanLines(s + "\n" + t)| >= 2
  {
    var text := s + "\n" + t;
    assert text[|s|] == '\n';
    var n := Newline(text);
    FirstNewline(text, |s|);
    assert text[n + 1..] != [];
  }

  lemma {:induction false} FirstNewline(s: string, k: nat)
    requires k < |s| && s[k] == '\n'
    ensures Newline(s) <= k
    decreases |s|
  {
    if s[0] != '\n' {
      FirstNewline(s[1..], k - 1);
    }
  }

  // ---- Text ----------------------------------------------------------------

  /** unicode.IsSpace. */
  predicate IsSpace(c: char) {
    var n := c as int;
    9 <= n <= 13 || n == 32 || n == 0x85 || n == 0xA0 || n == 0x1680 || 0x2000 <= n <= 0x200a
    || n == 0x2028 || n == 0x2029 || n == 0x202f || n == 0x205f || n == 0x3000
  }

  function TrimLeft(s: string): (t: string)
    ensures |t| <= |s|
    ensures t == [] || !IsSpace(t[0])
  {
    if s != [] && IsSpace(s[0]) then TrimLeft(s[1..]) else s
  }

  function TrimRight(s: string): (t: string)
    ensures t <= s
    ensures t == [] || !IsSpace(t[|t| - 1])
  {
    if s != [] && IsSpace(s[|s| - 1]) then TrimRight(s[..|s| - 1]) else s
  }

  function Trim(s: string): string {
    TrimRight(TrimLeft(s))
  }

  /** The text before the first '#'. */
  function BeforeHash(s: string): (t: string)
    ensures t <= s && '#' !in t
    ensures |t| < |s| ==> s[|t|] == '#'
  {
    if s == [] || s[0] == '#' then [] else [s[0]] + BeforeHash(s[1..])
  }

  /** The leading run of characters that are no spaces. */
  function Word(s: string): (w: string)
    ensures w <= s
    ensures forall i :: 0 <= i < |w| ==> !IsSpace(w[i])
    ensures |w| < |s| ==> IsSpace(s[|w|])
  {
    if s == [] || IsSpace(s[0]) then [] else [s[0]] + Word(s[1..])
  }

  /** strings.Fields. */
  function Fields(s: string): seq<string>
    decreases |s|
  {
    var t := TrimLeft(s);
    if t == [] then [] else [Word(t)] + Fields(t[|Word(t)|..])
  }

  predicate HasSuffix(s: string, suffix: string) {
    |suffix| <= |s| && s[|s| - |suffix|..] == suffix
  }

  function TrimSuffix(s: string, suffix: string): string {
    if HasSuffix(s, suffix) then s[..|s| - |suffix|] else s
  }

  /** `unquote`: one pair of enclosing quotes is dropped. */
  function Unquote(s: string): string {
    var t := Trim(s);
    if |t| >= 2 && t[0] == '"' && t[|t| - 1] == '"' then t[1..|t| - 1] else t
  }

  // ---- Statements ----------------------------------------------------------

  datatype Stmt =
    | Open(addr: Option<Addr>)
    | Close
    | ClientHostname(name: string)
    | Hostname(name: string)
    | Hardware(mac: Option<Mac>)
    | Other

  const LEASE := "lease "
  const CLIENT := "client-hostname "
  const HOST := "hostname "
  const ETHERNET := "hardware ethernet "

  /** A line without its comment and surrounding space. */
  function Stripped(line: string): string {
    var t := Trim(line);
    if '#' in t then Trim(BeforeHash(t)) else t
  }

  datatype Parsers = Parsers(addr: string -> Option<Addr>, mac: string -> Option<Mac>)

  /** What one line says. */
  function Classify(ps: Parsers, line: string): Stmt {
    Read(ps, Stripped(line))
  }

  function Read(ps: Parsers, t: string): Stmt {
    if LEASE <= t && HasSuffix(t, "{") then
      if |Fields(t)| < 2 then Other else Open(ps.addr(Fields(t)[1]))
    else if t == "}" then Close
    else if CLIENT <= t then ClientHostname(Unquote(TrimSuffix(t[|CLIENT|..], ";")))
    else if HOST <= t then Hostname(Unquote(TrimSuffix(t[|HOST|..], ";")))
    else if ETHERNET <= t then Hardware(ps.mac(Trim(TrimSuffix(t[|ETHERNET|..], ";"))))
    else Other
  }

  /** Only a line with both marks opens a lease, and only a lone brace closes one. */
  lemma BoundsIff(ps: Parsers, line: string)
    ensures Classify(ps, line).Open? <==> "lease " <= Stripped(line) && HasSuffix(Stripped(line), "{")
    ensures Classify(ps, line).Close? <==> Stripped(line) == "}"
  {
    if LEASE <= Stripped(line) && HasSuffix(Stripped(line), "{") {
      LeaseLineHasAddress(Stripped(line));
    }
  }

  function Stmts(ps: Parsers, lines: seq<string>): (s: seq<Stmt>)
    ensures |s| == |lines|
  {
    seq(|lines|, i requires 0 <= i < |lines| => Classify(ps, lines[i]))
  }

  lemma {:induction false} SomethingLeft(s: string, k: nat)
    requires k < |s| && !IsSpace(s[k])
    ensures TrimLeft(s) != []
    decreases |s|
  {
    if IsSpace(s[0]) {
      SomethingLeft(s[1..], k - 1);
    }
  }

  /** A line that opens a lease always has a second field. */
  lemma LeaseLineHasAddress(t: string)
    requires LEASE <= t && HasSuffix(t, "{")
    ensures |Fields(t)| >= 2
  {
    assert t[|t| - 1] == t[|t| - 1..][0] == '{';
    FirstWord(t);
    SomethingLeft(t[5..], |t| - 6);
    assert |Fields(t[5..])| >= 1;
  }

  lemma FirstWord(t: string)
    requires LEASE <= t
    ensures TrimLeft(t) == t && |Word(t)| == 5
  {
    var w := Word(t);
    assert t[0] == LEASE[0] && t[1] == LEASE[1] && t[2] == LEASE[2] && t[3] == LEASE[3] && t[4] == LEASE[4]
        && t[5] == LEASE[5];
    assert forall i :: 0 <= i < |w| ==> w[i] == t[i];
  }

  // ---- Reading a quoted name back ------------------------------------------

  lemma {:induction false} TrimLeftAll(pre: string, s: string)
    requires forall i :: 0 <= i < |pre| ==> IsSpace(pre[i])
    requires s != [] && !IsSpace(s[0])
    ensures TrimLeft(pre + s) == s
    decreases |pre|
  {
    if pre == [] {
      assert pre + s == s;
    } else {
      assert (pre + s)[1..] == pre[1..] + s;
      TrimLeftAll(pre[1..], s);
    }
  }

  function Quoted(name: string): string {
    "\"" + name + "\""
  }

  /** The lines that name a client begin with one of two keys. */
  predicate NameKey(key: string) {
    key == CLIENT || key == HOST
  }

  function Named(key: string, name: string): Stmt {
    if key == CLIENT then ClientHostname(name) else Hostname(name)
  }

  function NameLine(key: string, text: string): string {
    key + text + ";"
  }

  /** A name in plain quotes, or as it is. */
  function Written(name: string, quoted: bool): string {
    if quoted then Quoted(name) else name
  }

  predicate Enclosed(s: string) {
    |s| >= 2 && s[0] == '"' && s[|s| - 1] == '"'
  }

  /** A name that survives its line: without a '#', and, where it is not quoted, without
      space around it and not in quotes of its own. */
  predicate Readable(name: string, quoted: bool) {
    '#' !in name && (quoted || (Trim(name) == name && !Enclosed(name)))
  }

  /** A name line of either kind, quoted or not, is read back as it was written exactly when
      the name survives: the comment is cut first, quotes or not, and what is left is
      trimmed and taken out of one pair of quotes. */
  lemma NameReadBackIff(ps: Parsers, indent: string, key: string, name: string, quoted: bool)
    requires NameKey(key) && forall i :: 0 <= i < |indent| ==> IsSpace(indent[i])
    ensures Classify(ps, indent + NameLine(key, Written(name, quoted))) == Named(key, name) <==> Readable(name, quoted)
  {
    var text := Written(name, quoted);
    var line := indent + NameLine(key, text);
    assert NameLine(key, text) != [] && !IsSpace(NameLine(key, text)[0]) by {
      assert NameLine(key, text)[0] == key[0];
    }
    TrimLeftAll(indent, NameLine(key, text));
    if '#' !in name {
      NoHashWritten(name, quoted);
      NameLineStripped(line, key, text);
      NameLineRead(ps, line, key, text);
      if quoted {
        QuotedRead(name);
      } else {
        UnquoteIff(name);
      }
    } else {
      NoHashAfterCut(ps, line);
    }
  }

  lemma NoHashWritten(name: string, quoted: bool)
    requires '#' !in name
    ensures '#' !in Written(name, quoted)
  {
    assert '#' !in "\"";
  }

  lemma QuotedNameReadBackIff(ps: Parsers, indent: string, name: string)
    requires forall i :: 0 <= i < |indent| ==> IsSpace(indent[i])
    ensures Classify(ps, indent + NameLine(CLIENT, Quoted(name))) == ClientHostname(name) <==> '#' !in name
    ensures Classify(ps, indent + NameLine(HOST, Quoted(name))) == Hostname(name) <==> '#' !in name
  {
    NameReadBackIff(ps, indent, CLIENT, name, true);
    NameReadBackIff(ps, indent, HOST, name, true);
    assert CLIENT[0] != HOST[0];
  }

  /** As text, such a line is read as that one statement exactly when, besides, the name
      holds no newline. */
  lemma NameTextReadBackIff(ps: Parsers, indent: string, key: string, name: string, quoted: bool)
    requires NameKey(key) && forall i :: 0 <= i < |indent| ==> IsSpace(indent[i]) && indent[i] != '\n'
    ensures Stmts(ps, ScanLines(indent + NameLine(key, Written(name, quoted)) + "\n")) == [Named(key, name)] <==>
            Readable(name, quoted) && '\n' !in name
  {
    var text := Written(name, quoted);
    if '\n' !in name {
      assert '\n' !in "\"";
      OneScannedLine(indent, key, text);
      NameReadBackIff(ps, indent, key, name, quoted);
      OneStmt(ps, indent + NameLine(key, text));
    } else {
      NewlineWritten(name, quoted);
      TwoScannedLines(indent, key, text);
    }
  }

  lemma NewlineWritten(name: string, quoted: bool)
    requires '\n' in name
    ensures '\n' in Written(name, quoted)
  {
  }

  lemma QuotedTextReadBackIff(ps: Parsers, indent: string, name: string)
    requires forall i :: 0 <= i < |indent| ==> IsSpace(indent[i]) && indent[i] != '\n'
    ensures Stmts(ps, ScanLines(indent + NameLine(CLIENT, Quoted(name)) + "\n")) == [ClientHostname(name)] <==>
            '#' !in name && '\n' !in name
  {
    NameTextReadBackIff(ps, indent, CLIENT, name, true);
  }

  lemma OneStmt(ps: Parsers, line: string)
    ensures Stmts(ps, [line]) == [Classify(ps, line)]
  {
  }

  lemma OneScannedLine(indent: string, key: string, text: string)
    requires NameKey(key) && '\n' !in indent && '\n' !in text
    ensures ScanLines(indent + NameLine(key, text) + "\n") == [indent + NameLine(key, text)]
  {
    var line := indent + NameLine(key, text);
    NameLineIsOneLine(indent, key, text);
    LineScanned(line, "");
    assert line + "\n" + "" == line + "\n";
  }

  lemma TwoScannedLines(indent: string, key: string, text: string)
    requires '\n' in text
    ensures |ScanLines(indent + NameLine(key, text) + "\n")| >= 2
  {
    var k :| 0 <= k < |text| && text[k] == '\n';
    var s, t := indent + key + text[..k], text[k + 1..] + ";" + "\n";
    assert text == text[..k] + "\n" + text[k + 1..];
    assert indent + NameLine(key, text) + "\n" == s + "\n" + t;
    NewlineSplits(s, t);
  }

  lemma NameLineIsOneLine(indent: string, key: string, text: string)
    requires NameKey(key) && '\n' !in indent && '\n' !in text
    ensures var line := indent + NameLine(key, text); '\n' !in line && line != [] && line[|line| - 1] == ';'
  {
    assert '\n' !in CLIENT && '\n' !in HOST && '\n' !in ";";
  }

  lemma NameLineStripped(line: string, key: string, text: string)
    requires NameKey(key) && '#' !in text
    requires TrimLeft(line) == NameLine(key, text)
    ensures Stripped(line) == NameLine(key, text)
  {
    var t := NameLine(key, text);
    assert t[|t| - 1] == ';';
    assert '#' !in t by {
      assert '#' !in CLIENT && '#' !in HOST && '#' !in ";";
    }
    assert TrimRight(t) == t;
  }

  lemma NameLineRead(ps: Parsers, line: string, key: string, text: string)
    requires NameKey(key) && Stripped(line) == NameLine(key, text)
    ensures Classify(ps, line) == Named(key, Unquote(text))
  {
    var t := NameLine(key, text);
    assert t[0] == key[0];
    assert !(LEASE <= t) by {
      assert LEASE[0] != t[0];
    }
    assert key == HOST ==> !(CLIENT <= t) by {
      assert key == HOST ==> CLIENT[0] != t[0];
    }
    assert key <= t;
    var u := t[|key|..];
    assert u == text + ";" && u[|u| - 1..] == ";" && u[..|u| - 1] == text;
    assert TrimSuffix(u, ";") == text;
  }

  lemma QuotedRead(name: string)
    ensures Unquote(Quoted(name)) == name
  {
    var q := Quoted(name);
    assert q[|q| - 1] == '"' && q[0] == '"';
    assert q[1..|q| - 1] == name;
  }

  /** Taking a name out of its quotes leaves it alone exactly when it has none and no space
      around it. */
  lemma UnquoteIff(name: string)
    ensures Unquote(name) == name <==> Trim(name) == name && !Enclosed(name)
  {
    assert |Trim(name)| <= |name|;
  }

  /** No name that is read holds a '#'. */
  lemma NoHashAfterCut(ps: Parsers, line: string)
    ensures var s := Classify(ps, line); s.ClientHostname? || s.Hostname? ==> '#' !in s.name
  {
    var t := Stripped(line);
    NoHashStripped(line);
    if CLIENT <= t {
      NoHashUnquoted(TrimSuffix(t[|CLIENT|..], ";"));
    }
    if HOST <= t {
      NoHashUnquoted(TrimSuffix(t[|HOST|..], ";"));
    }
  }

  lemma NoHashStripped(line: string)
    ensures '#' !in Stripped(line)
  {
    NoHashInTrim(BeforeHash(Trim(line)));
  }

  lemma NoHashUnquoted(u: string)
    requires '#' !in u
    ensures '#' !in Unquote(u)
  {
    NoHashInTrim(u);
  }

  lemma NoHashInTrim(s: string)
    requires '#' !in s
    ensures '#' !in Trim(s)
  {
    NoHashInTrimLeft(s);
  }

  lemma {:induction false} NoHashInTrimLeft(s: string)
    requires '#' !in s
    ensures '#' !in TrimLeft(s)
    decreases |s|
  {
    if s != [] && IsSpace(s[0]) {
      NoHashInTrimLeft(s[1..]);
    }
  }

  /** The line as the loop prepares it. */
  method Strip(raw: string) returns (line: string)
    ensures line == Stripped(raw)
  {
    line := Trim(raw);
    if '#' in line {
      line := Trim(BeforeHash(line));
    }
  }
}
