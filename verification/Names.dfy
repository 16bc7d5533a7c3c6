/** Turning a discovered host name into a device name (normalizeName in device.go). A name
    is a sequence of characters, as the loop over its runes sees it. */
module Names {
  import opened Base

  const MAX_NAME_LEN := 63

  // ---- What a name is to become --------------------------------------------

  /** The position of the first dot, or the length when there is none. */
  function FirstDot(s: string): (i: nat)
    ensures i <= |s|
    ensures i < |s| ==> s[i] == '.'
    ensures '.' !in s[..i]
  {
    if s == [] || s[0] == '.' then 0 else
      var i := FirstDot(s[1..]) + 1;
      assert s[..i] == [s[0]] + s[1..][..i - 1];
      i
  }

  /** The host label: everything before the first dot, unless the name starts with it. */
  function Label(name: string): string {
    if FirstDot(name) > 0 then name[..FirstDot(name)] else name
  }

  /** The maximal runs of letters and digits, in order. */
  function Words(s: string): (ws: seq<string>)
    ensures forall i :: 0 <= i < |ws| ==> |ws[i]| > 0 && forall j :: 0 <= j < |ws[i]| ==> Alnum(ws[i][j])
    ensures |s| > 0 && Alnum(s[|s| - 1]) ==> |ws| > 0
  {
    if s == [] then []
    else
      var ws, n := Words(s[..|s| - 1]), |s| - 1;
      if !Alnum(s[n]) then ws
      else if n > 0 && Alnum(s[n - 1]) then ws[|ws| - 1 := ws[|ws| - 1] + [s[n]]]
      else ws + [[s[n]]]
  }

  /** The words with one dash between neighbours. */
  function Joined(ws: seq<string>): (s: string) {
    if ws == [] then []
    else if |ws| == 1 then ws[0]
    else Joined(ws[..|ws| - 1]) + "-" + ws[|ws| - 1]
  }

  function Cut(s: string): (t: string)
    ensures |t| <= MAX_NAME_LEN && t <= s
  {
    if |s| > MAX_NAME_LEN then s[..MAX_NAME_LEN] else s
  }

  function TrimDashes(s: string): (t: string)
    ensures t <= s
    ensures t == [] || t[|t| - 1] != '-'
    ensures s == [] || s[|s| - 1] != '-' ==> t == s
  {
    if |s| > 0 && s[|s| - 1] == '-' then TrimDashes(s[..|s| - 1]) else s
  }

  /** The words of the label joined by single dashes, cut to 63 characters, without a dash
      at the end. */
  function Normalized(name: string): string {
    TrimDashes(Cut(Joined(Words(Label(name)))))
  }

  // ---- Clean names ---------------------------------------------------------

  /** Only letters, digits and single dashes, no dash at either end. */
  predicate Dashed(s: string) {
    && (forall i :: 0 <= i < |s| ==> Alnum(s[i]) || s[i] == '-')
    && (forall i :: 0 <= i < |s| && s[i] == '-' ==> 0 < i < |s| - 1 && Alnum(s[i - 1]))
  }

  predicate Clean(s: string) {
    |s| <= MAX_NAME_LEN && Dashed(s)
  }

  lemma {:induction false} JoinedIsDashed(ws: seq<string>)
    requires forall i :: 0 <= i < |ws| ==> |ws[i]| > 0 && forall j :: 0 <= j < |ws[i]| ==> Alnum(ws[i][j])
    ensures Dashed(Joined(ws))
    ensures |ws| > 0 ==> |Joined(ws)| > 0 && Alnum(Joined(ws)[|Joined(ws)| - 1])
    decreases |ws|
  {
    if |ws| > 1 {
      JoinedIsDashed(ws[..|ws| - 1]);
    }
  }

  /** The words of a text ending in a non-empty word grow at the end. */
  lemma JoinedGrows(ws: seq<string>, c: char)
    ensures Joined(ws + [[c]]) == if ws == [] then [c] else Joined(ws) + "-" + [c]
    ensures |ws| > 0 ==> Joined(ws[|ws| - 1 := ws[|ws| - 1] + [c]]) == Joined(ws) + [c]
  {
    assert (ws + [[c]])[..|ws|] == ws;
    if |ws| > 0 {
      assert ws[|ws| - 1 := ws[|ws| - 1] + [c]][..|ws| - 1] == ws[..|ws| - 1];
    }
  }

  /** What the loop builds: the words so far, and a dash already written for the gap the
      text ends in. */
  function Built(s: string): string {
    if s == [] || Alnum(s[|s| - 1]) || Words(s) == [] then Joined(Words(s)) else Joined(Words(s)) + "-"
  }

  /** One more character: a letter or digit is added; anything else adds a dash unless the
      text is empty or already ends in one. */
  lemma BuiltGrows(s: string, c: char)
    ensures Built(s + [c]) ==
            if Alnum(c) then Built(s) + [c]
            else if Built(s) != [] && Built(s)[|Built(s)| - 1] != '-' then Built(s) + "-"
            else Built(s)
  {
    assert (s + [c])[..|s|] == s;
    JoinedIsDashed(Words(s));
    JoinedGrows(Words(s), c);
  }

  /** A text with dashes only as single separators is its own words joined. */
  lemma {:induction false} DashedIsJoined(s: string)
    requires forall i :: 0 <= i < |s| ==> Alnum(s[i]) || s[i] == '-'
    requires forall i :: 0 <= i < |s| && s[i] == '-' ==> 0 < i && Alnum(s[i - 1])
    ensures Built(s) == s
    decreases |s|
  {
    if |s| > 0 {
      var t := s[..|s| - 1];
      DashedIsJoined(t);
      BuiltGrows(t, s[|s| - 1]);
      assert s == t + [s[|s| - 1]];
    }
  }

  lemma TrimmedIsClean(s: string)
    requires Dashed(s)
    ensures Clean(TrimDashes(Cut(s)))
  {}

  /** A name is left unchanged exactly when it is already clean, and every result is. */
  lemma CleanIffFixed(name: string)
    ensures Clean(Normalized(name))
    ensures Clean(name) <==> Normalized(name) == name
    ensures Normalized(Normalized(name)) == Normalized(name)
  {
    NormalizedIsClean(name);
    if Clean(name) {
      CleanIsFixed(name);
    }
    CleanIsFixed(Normalized(name));
  }

  lemma NormalizedIsClean(name: string)
    ensures Clean(Normalized(name))
  {
    JoinedIsDashed(Words(Label(name)));
    TrimmedIsClean(Joined(Words(Label(name))));
  }

  lemma CleanIsFixed(s: string)
    requires Clean(s)
    ensures Normalized(s) == s
  {
    assert Label(s) == s;
    DashedIsJoined(s);
    assert Joined(Words(s)) == s;
  }

  // ---- Where the dashes are ------------------------------------------------

  ghost predicate AllAlnum(s: string) {
    forall i :: 0 <= i < |s| ==> Alnum(s[i])
  }

  /** Letters and digits that follow each other are one word. */
  lemma {:induction false} RunIsOneWord(s: string)
    requires s != [] && AllAlnum(s)
    ensures Words(s) == [s]
    decreases |s|
  {
    var n := |s| - 1;
    assert s == s[..n] + [s[n]];
    if n > 0 {
      RunIsOneWord(s[..n]);
    } else {
      assert s[..n] == [];
    }
  }

  /** The words after one character more. */
  function Grown(ws: seq<string>, c: char, joins: bool): seq<string>
    requires joins ==> ws != []
  {
    if !Alnum(c) then ws
    else if joins then ws[|ws| - 1 := ws[|ws| - 1] + [c]]
    else ws + [[c]]
  }

  predicate EndsInWord(s: string) {
    s != [] && Alnum(s[|s| - 1])
  }

  lemma WordsGrow(s: string, c: char)
    ensures EndsInWord(s) ==> Words(s) != []
    ensures Words(s + [c]) == Grown(Words(s), c, EndsInWord(s))
  {
    assert (s + [c])[..|s|] == s;
  }

  lemma GrownBehind(before: seq<string>, ws: seq<string>, c: char, joins: bool)
    requires joins ==> ws != []
    ensures Grown(before + ws, c, joins) == before + Grown(ws, c, joins)
  {
  }

  /** Any other character separates words, and does nothing else. */
  lemma {:induction false} OtherSeparates(s: string, c: char, t: string)
    requires !Alnum(c)
    ensures Words(s + [c] + t) == Words(s) + Words(t)
    decreases |t|
  {
    if t == [] {
      WordsGrow(s, c);
      assert s + [c] + t == s + [c];
      assert Words(s) + Words(t) == Words(s);
    } else {
      var n := |t| - 1;
      var part, d := s + [c] + t[..n], t[n];
      OtherSeparates(s, c, t[..n]);
      WordsGrow(part, d);
      WordsGrow(t[..n], d);
      assert EndsInWord(part) == EndsInWord(t[..n]) by {
        assert part[|part| - 1] == if n > 0 then t[n - 1] else c;
      }
      GrownBehind(Words(s), Words(t[..n]), d, EndsInWord(t[..n]));
      assert s + [c] + t == part + [d] && t == t[..n] + [d];
    }
  }

  /** The words joined are one word as it is, and two lists of words with a dash between. */
  lemma {:induction false} JoinedSplits(a: seq<string>, b: seq<string>)
    requires a != [] && b != []
    ensures Joined(a + b) == Joined(a) + "-" + Joined(b)
    decreases |b|
  {
    var n := |b| - 1;
    assert (a + b)[..|a + b| - 1] == a + b[..n];
    if n == 0 {
      assert a + b[..n] == a;
      assert b == [b[0]];
    } else {
      JoinedSplits(a, b[..n]);
      assert Joined(b) == Joined(b[..n]) + "-" + b[n];
    }
  }

  /** Two parts of a name with a separator between them become two parts with one dash
      between them; a part without letters or digits vanishes, and its dash with it. */
  lemma SeparatorIsOneDash(s: string, c: char, t: string)
    requires !Alnum(c)
    ensures Joined(Words(s + [c] + t)) ==
            if Words(s) == [] then Joined(Words(t))
            else if Words(t) == [] then Joined(Words(s))
            else Joined(Words(s)) + "-" + Joined(Words(t))
  {
    OtherSeparates(s, c, t);
    if Words(s) != [] && Words(t) != [] {
      JoinedSplits(Words(s), Words(t));
    } else if Words(s) == [] {
      assert Words(s) + Words(t) == Words(t);
    } else {
      assert Words(s) + Words(t) == Words(s);
    }
  }

  // ---- The label, and the cut ----------------------------------------------

  lemma {:induction false} DotAt(s: string, t: string)
    requires '.' !in s
    ensures FirstDot(s + "." + t) == |s| && FirstDot(s) == |s|
    decreases |s|
  {
    var all := s + "." + t;
    if s == [] {
      assert all[0] == '.';
    } else {
      assert all[0] == s[0] && s[0] in s;
      assert all[1..] == s[1..] + "." + t;
      DotAt(s[1..], t);
    }
  }

  /** Whatever follows the first dot of a name is dropped, unless the name starts with it. */
  lemma DomainIsDropped(host: string, domain: string)
    requires '.' !in host && host != ""
    ensures Normalized(host + "." + domain) == Normalized(host)
    ensures Normalized(host) == TrimDashes(Cut(Joined(Words(host))))
  {
    DotAt(host, domain);
    assert (host + "." + domain)[..|host|] == host;
    assert host[..|host|] == host;
  }

  /** A name that starts with a dot is taken as a whole. */
  lemma LeadingDotIsKept(rest: string)
    ensures Normalized("." + rest) == TrimDashes(Cut(Joined(Words(rest))))
  {
    assert [] + ['.'] + rest == "." + rest;
    SeparatorIsOneDash([], '.', rest);
  }

  /** Nothing more is cut than has to be: the result is what was joined, or its first 63
      characters, or 62 of them when the last one would be a dash. */
  lemma NoMoreIsCut(name: string)
    ensures var joined, r := Joined(Words(Label(name))), Normalized(name);
            && r <= joined
            && (|joined| <= 63 ==> r == joined)
            && (|joined| > 63 ==> |r| == if joined[62] == '-' then 62 else 63)
  {
    var joined := Joined(Words(Label(name)));
    JoinedIsDashed(Words(Label(name)));
    if |joined| > 63 {
      var cut := joined[..63];
      assert cut[62] == joined[62];
      if joined[62] == '-' {
        assert cut[..62][61] == joined[61] != '-';
      }
    }
  }

  // ---- Nothing is made up --------------------------------------------------

  function Letters(s: string): string {
    if s == [] then [] else Letters(s[..|s| - 1]) + if Alnum(s[|s| - 1]) then [s[|s| - 1]] else []
  }

  lemma {:induction false} LettersOfPrefix(t: string, s: string)
    requires t <= s
    ensures Letters(t) <= Letters(s)
    decreases |s|
  {
    if |t| < |s| {
      LettersOfPrefix(t, s[..|s| - 1]);
    } else {
      assert t == s;
    }
  }

  lemma {:induction false} BuiltKeepsLetters(s: string)
    ensures Letters(Built(s)) == Letters(s)
    decreases |s|
  {
    if |s| > 0 {
      var t, c := s[..|s| - 1], s[|s| - 1];
      BuiltKeepsLetters(t);
      BuiltGrows(t, c);
      assert s == t + [c];
      LettersOfMore(t, c);
      LettersOfMore(Built(t), c);
      LettersOfMore(Built(t), '-');
      assert Built(t) + ['-'] == Built(t) + "-";
    }
  }

  lemma LettersOfMore(s: string, c: char)
    ensures Letters(s + [c]) == Letters(s) + if Alnum(c) then [c] else []
  {
    assert (s + [c])[..|s|] == s;
  }

  /** The letters and digits of the result are the first ones of the label, in order; all
      of them when the joined words fit. */
  lemma LettersSurvive(name: string)
    ensures Letters(Normalized(name)) <= Letters(Label(name))
    ensures |Joined(Words(Label(name)))| <= MAX_NAME_LEN ==> Letters(Normalized(name)) == Letters(Label(name))
  {
    var host := Label(name);
    var joined := Joined(Words(host));
    JoinedIsDashed(Words(host));
    BuiltKeepsLetters(host);
    assert (joined + "-")[..|joined|] == joined;
    LettersOfPrefix(Normalized(name), joined);
  }

  // ---- The loop ------------------------------------------------------------

  lemma BuiltGrowsByOne(s: string)
    requires s != []
    ensures Built(s[..|s| - 1]) <= Built(s)
  {
    BuiltGrows(s[..|s| - 1], s[|s| - 1]);
    assert s == s[..|s| - 1] + [s[|s| - 1]];
  }

  lemma {:induction false} BuiltOnlyGrows(t: string, s: string)
    requires t <= s
    ensures Built(t) <= Built(s)
    decreases |s|
  {
    if |t| < |s| {
      BuiltOnlyGrows(t, s[..|s| - 1]);
      BuiltGrowsByOne(s);
    } else {
      assert t == s;
    }
  }

  /** Cutting what is built, a last dash included, and trimming gives the specification. */
  lemma TrimmedBuilt(host: string)
    ensures TrimDashes(Cut(Built(host))) == TrimDashes(Cut(Joined(Words(host))))
  {
    var joined := Joined(Words(host));
    JoinedIsDashed(Words(host));
    if |joined| >= MAX_NAME_LEN {
      assert (joined + "-")[..MAX_NAME_LEN] == joined[..MAX_NAME_LEN];
    } else {
      assert (joined + "-")[..|joined|] == joined;
    }
  }

  method IndexDot(s: string) returns (i: int)
    ensures i == if FirstDot(s) < |s| then FirstDot(s) else -1
  {
    i := 0;
    while i < |s|
      invariant 0 <= i <= |s|
      invariant FirstDot(s) == i + FirstDot(s[i..])
    {
      if s[i] == '.' {
        return;
      }
      i := i + 1;
    }
    i := -1;
  }

  method TrimRight(s: string) returns (t: string)
    ensures t == TrimDashes(s)
  {
    t := s;
    while |t| > 0 && t[|t| - 1] == '-'
      invariant TrimDashes(t) == TrimDashes(s)
    {
      t := t[..|t| - 1];
    }
  }

  predicate EndsInDash(b: string) {
    b != "" && b[|b| - 1] == '-'
  }

  /** The text after one more character. */
  function Next(b: string, c: char): string {
    if Alnum(c) then b + [c] else if b != [] && b[|b| - 1] != '-' then b + "-" else b
  }

  lemma NothingBuilt(host: string)
    ensures host[..0] == "" && Built("") == ""
  {
  }

  lemma BuiltPrefixGrows(host: string, k: nat)
    requires k < |host|
    ensures Built(host[..k + 1]) == Next(Built(host[..k]), host[k])
  {
    BuiltGrows(host[..k], host[k]);
    assert host[..k + 1] == host[..k] + [host[k]];
  }

  /** Stopping early loses nothing: a text of full length is the cut of all that follows. */
  lemma StoppedAt(host: string, k: nat)
    requires k <= |host| && |Built(host[..k])| <= MAX_NAME_LEN
    requires k < |host| ==> |Built(host[..k])| == MAX_NAME_LEN
    ensures Built(host[..k]) == Cut(Built(host))
  {
    BuiltOnlyGrows(host[..k], host);
    if k == |host| {
      assert host[..k] == host;
    }
  }

  /** The body of the loop, up to its early exit. */
  method OneMore(b: string, dash: bool, c: char) returns (b': string, dash': bool)
    requires dash <==> EndsInDash(b)
    ensures b' == Next(b, c) && (dash' <==> EndsInDash(b')) && |b'| <= |b| + 1
  {
    b', dash' := b, dash;
    if Alnum(c) {
      b' := b + [c];
      dash' := false;
    } else if !dash && |b| > 0 {
      b' := b + "-";
      dash' := true;
    }
  }

  method Rebuild(host: string) returns (b: string)
    ensures b == Cut(Built(host))
  {
    NothingBuilt(host);
    b := "";
    var dash := false;
    var k := 0;
    while k < |host|
      invariant 0 <= k <= |host|
      invariant b == Built(host[..k])
      invariant |b| < MAX_NAME_LEN
      invariant dash <==> EndsInDash(b)
    {
      BuiltPrefixGrows(host, k);
      b, dash := OneMore(b, dash, host[k]);
      k := k + 1;
      if |b| >= MAX_NAME_LEN {
        break;
      }
    }
    StoppedAt(host, k);
  }

  /** normalizeName as written. */
  method NormalizeName(name: string) returns (r: string)
    ensures r == Normalized(name)
  {
    if name == "" {
      return "";
    }
    var i := IndexDot(name);
    var host := if i > 0 then name[..i] else name;
    assert FirstDot(name) == |name| ==> name[..|name|] == name;
    var b := Rebuild(host);
    TrimmedBuilt(host);
    r := TrimRight(b);
  }
}
