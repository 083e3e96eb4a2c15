/** The shell's command parser of sh.c, as functions on the text still to be
    read, and the printed form it takes back. */
module Shell {

  const MAXARGS := 10

  /** A command tree whose words are `W`: text, or places in the input line. */
  datatype Cmd<W> =
    | Exec(argv: seq<W>)
    | Redir(cmd: Cmd<W>, file: W, input: bool)
    | Pipe(left: Cmd<W>, right: Cmd<W>)
    | List(left: Cmd<W>, right: Cmd<W>)
    | Back(cmd: Cmd<W>)

  predicate IsSpace(c: char) {
    c == ' ' || c == '\t' || c == '\r' || c == '\n' || c == '\U{000B}'
  }

  predicate IsSymbol(c: char) {
    c == '<' || c == '|' || c == '>' || c == '&' || c == ';' || c == '(' || c == ')'
  }

  predicate IsWord(c: char) {
    !IsSpace(c) && !IsSymbol(c)
  }

  // Tokens -----------------------------------------------------------------------------------------

  function Skip(s: string): (r: string)
    ensures |r| <= |s| && (r == "" || !IsSpace(r[0]))
    ensures s == "" || !IsSpace(s[0]) ==> r == s
  {
    if s != "" && IsSpace(s[0]) then Skip(s[1..]) else s
  }

  /** How many characters of the word at the head of `s`. */
  function WordLen(s: string): (n: nat)
    ensures n <= |s| && (forall k :: 0 <= k < n ==> IsWord(s[k])) && (n == |s| || !IsWord(s[n]))
  {
    if s != "" && IsWord(s[0]) then 1 + WordLen(s[1..]) else 0
  }

  /** gettoken: its kind ('\0' at the end, 'a' for a word, '+' for >>, else the
      symbol itself), its text, and what is left. */
  datatype Token = Token(kind: char, text: string, rest: string)

  function GetToken(s: string): (t: Token)
    ensures |t.rest| <= |s| && (Skip(s) != "" ==> |t.rest| < |s|)
    ensures t.rest == Skip(t.rest)
  {
    var r := Skip(s);
    if r == "" then Token('\0', "", r)
    else if r[0] == '>' && |r| > 1 && r[1] == '>' then Token('+', r[..2], Skip(r[2..]))
    else if IsSymbol(r[0]) then Token(r[0], r[..1], Skip(r[1..]))
    else
      var n := WordLen(r);
      Token('a', r[..n], Skip(r[n..]))
  }

  predicate Peek(s: string, toks: set<char>) {
    var r := Skip(s);
    r != "" && r[0] in toks
  }

  // Grammar ----------------------------------------------------------------------------------------

  datatype Parsed = Ok(cmd: Cmd<string>, rest: string) | Panic(msg: string)

  /** parseredirs: wrap `c` in the redirections that follow. */
  function ParseRedirs(c: Cmd<string>, s: string): (r: Parsed)
    ensures r.Ok? ==> |r.rest| <= |s| && r.rest == Skip(r.rest)
    decreases |s|
  {
    if !Peek(s, {'<', '>'}) then Ok(c, Skip(s))
    else
      var t := GetToken(s);
      var f := GetToken(t.rest);
      if f.kind != 'a' then Panic("missing file for redirection")
      else ParseRedirs(Redir(c, f.text, t.kind == '<'), f.rest)
  }

  /** One more argument for the command at the bottom of the redirections. */
  function AddWord<W>(c: Cmd<W>, w: W): (r: Cmd<W>) {
    match c
    case Exec(ws) => Exec(ws + [w])
    case Redir(d, f, i) => Redir(AddWord(d, w), f, i)
    case _ => c
  }

  /** parseexec's loop, with `n` arguments read. */
  function ParseArgs(c: Cmd<string>, n: nat, s: string): (r: Parsed)
    ensures r.Ok? ==> |r.rest| <= |s| && r.rest == Skip(r.rest)
    decreases |s|
  {
    if Peek(s, {'|', ')', '&', ';'}) then Ok(c, Skip(s))
    else
      var t := GetToken(s);
      if t.kind == '\0' then Ok(c, t.rest)
      else if t.kind != 'a' then Panic("syntax")
      else if n + 1 >= MAXARGS then Panic("too many args")
      else
        var r := ParseRedirs(AddWord(c, t.text), t.rest);
        if r.Panic? then r else ParseArgs(r.cmd, n + 1, r.rest)
  }

  function ParseExec(s: string): (r: Parsed)
    ensures r.Ok? ==> |r.rest| <= |s| && r.rest == Skip(r.rest)
    decreases |s|, 1
  {
    if Peek(s, {'('}) then ParseBlock(s)
    else
      var r := ParseRedirs(Exec([]), s);
      if r.Panic? then r else ParseArgs(r.cmd, 0, r.rest)
  }

  function ParseBlock(s: string): (r: Parsed)
    requires Peek(s, {'('})
    ensures r.Ok? ==> |r.rest| <= |s| && r.rest == Skip(r.rest)
    decreases |s|, 0
  {
    var r := ParseLine(GetToken(s).rest);
    if r.Panic? then r
    else if !Peek(r.rest, {')'}) then Panic("syntax - missing )")
    else ParseRedirs(r.cmd, GetToken(r.rest).rest)
  }

  function ParsePipe(s: string): (r: Parsed)
    ensures r.Ok? ==> |r.rest| <= |s| && r.rest == Skip(r.rest)
    decreases |s|, 2
  {
    var l := ParseExec(s);
    if l.Panic? || !Peek(l.rest, {'|'}) then l
    else
      var r := ParsePipe(GetToken(l.rest).rest);
      if r.Panic? then r else Ok(Pipe(l.cmd, r.cmd), r.rest)
  }

  /** parseline's loop over &. */
  function ParseBacks(c: Cmd<string>, s: string): (r: Parsed)
    ensures r.Ok? && |r.rest| <= |s| && r.rest == Skip(r.rest)
    decreases |s|
  {
    if Peek(s, {'&'}) then ParseBacks(Back(c), GetToken(s).rest) else Ok(c, Skip(s))
  }

  function ParseLine(s: string): (r: Parsed)
    ensures r.Ok? ==> |r.rest| <= |s| && r.rest == Skip(r.rest)
    decreases |s|, 3
  {
    var p := ParsePipe(s);
    if p.Panic? then p
    else
      var l := ParseBacks(p.cmd, p.rest);
      if !Peek(l.rest, {';'}) then l
      else
        var r := ParseLine(GetToken(l.rest).rest);
        if r.Panic? then r else Ok(List(l.cmd, r.cmd), r.rest)
  }

  /** parsecmd: a line and nothing after it. */
  function ParseCmd(s: string): (r: Parsed) {
    var r := ParseLine(s);
    if r.Panic? then r else if Skip(r.rest) != "" then Panic("syntax") else r
  }

  // Printing -----------------------------------------------------------------------------------------

  predicate GoodWord(w: string) {
    w != "" && forall k :: 0 <= k < |w| ==> IsWord(w[k])
  }

  /** What a parse can give: words that are words, and at most nine per command. */
  predicate WellFormed(c: Cmd<string>) {
    match c
    case Exec(ws) => |ws| < MAXARGS && forall k :: 0 <= k < |ws| ==> GoodWord(ws[k])
    case Redir(d, f, _) => WellFormed(d) && GoodWord(f)
    case Pipe(l, r) => WellFormed(l) && WellFormed(r)
    case List(l, r) => WellFormed(l) && WellFormed(r)
    case Back(d) => WellFormed(d)
  }

  function PrintWords(ws: seq<string>): (s: string) {
    if ws == [] then "" else ws[0] + " " + PrintWords(ws[1..])
  }

  /** The command with every part in parentheses. */
  function Print(c: Cmd<string>): (s: string)
    decreases c, 0
  {
    match c
    case Exec(ws) => PrintWords(ws)
    case Redir(d, f, input) => Group(d) + (if input then "<" else ">") + f
    case Pipe(l, r) => Group(l) + "|" + Group(r)
    case List(l, r) => Group(l) + ";" + Group(r)
    case Back(d) => Group(d) + "&"
  }

  function Group(c: Cmd<string>): (s: string)
    decreases c, 1
  {
    "(" + Print(c) + ")"
  }

  // The round trip -----------------------------------------------------------------------------------

  /** Text that ends a command: nothing, or a closing parenthesis. */
  predicate Ends(rest: string) {
    rest == "" || rest[0] == ')'
  }

  lemma SymbolToken(c: char, s: string)
    requires IsSymbol(c) && (c == '>' ==> s == "" || s[0] != '>')
    ensures GetToken([c] + s) == Token(c, [c], Skip(s))
  {
    assert ([c] + s)[1..] == s && ([c] + s)[..1] == [c];
  }

  lemma {:induction false} WordLenIs(w: string, rest: string)
    requires (forall k :: 0 <= k < |w| ==> IsWord(w[k])) && (rest == "" || !IsWord(rest[0]))
    ensures WordLen(w + rest) == |w|
  {
    if w == "" {
      assert w + rest == rest;
    } else {
      assert (w + rest)[1..] == w[1..] + rest;
      WordLenIs(w[1..], rest);
    }
  }

  lemma WordToken(w: string, rest: string)
    requires GoodWord(w) && (rest == "" || !IsWord(rest[0]))
    ensures GetToken(w + rest) == Token('a', w, Skip(rest))
  {
    var s := w + rest;
    WordLenIs(w, rest);
    assert s[0] == w[0];
    assert s[..|w|] == w && s[|w|..] == rest;
  }

  /** Printed words, and what follows them, begin with no space. */
  lemma WordsHead(ws: seq<string>, rest: string)
    requires (forall k :: 0 <= k < |ws| ==> GoodWord(ws[k])) && Ends(rest)
    ensures var s := PrintWords(ws) + rest;
            && Skip(s) == s && (s == "" || s[0] == ')' || IsWord(s[0]))
            && (ws != [] ==> s != "" && IsWord(s[0]))
  {
  }

  lemma NoRedirs(c: Cmd<string>, x: string)
    requires x == "" || (!IsSpace(x[0]) && x[0] != '<' && x[0] != '>')
    ensures ParseRedirs(c, x) == Ok(c, x)
  {
  }

  lemma ArgStep(c: Cmd<string>, n: nat, w: string, more: string)
    requires GoodWord(w) && n + 1 < MAXARGS && Skip(more) == more
    requires more == "" || (more[0] != '<' && more[0] != '>')
    ensures ParseArgs(c, n, w + (" " + more)) == ParseArgs(AddWord(c, w), n + 1, more)
  {
    var s := w + (" " + more);
    assert s[0] == w[0];
    WordToken(w, " " + more);
    assert (" " + more)[1..] == more;
    NoRedirs(AddWord(c, w), more);
  }

  lemma {:induction false} ArgsBack(done: seq<string>, ws: seq<string>, rest: string)
    requires |done| + |ws| < MAXARGS && Ends(rest) && forall k :: 0 <= k < |ws| ==> GoodWord(ws[k])
    ensures ParseArgs(Exec(done), |done|, PrintWords(ws) + rest) == Ok(Exec(done + ws), rest)
    decreases |ws|
  {
    if ws == [] {
      assert PrintWords(ws) + rest == rest && done + ws == done;
      ArgsEnd(Exec(done), |done|, rest);
    } else {
      ArgsBack(done + [ws[0]], ws[1..], rest);
      OneMore(done, ws);
      FirstWord(done, ws, rest);
    }
  }

  lemma OneMore<T>(done: seq<T>, ws: seq<T>)
    requires ws != []
    ensures done + [ws[0]] + ws[1..] == done + ws && |done + [ws[0]]| == |done| + 1
  {
  }

  lemma FirstWord(done: seq<string>, ws: seq<string>, rest: string)
    requires ws != [] && |done| + |ws| < MAXARGS && Ends(rest) && forall k :: 0 <= k < |ws| ==> GoodWord(ws[k])
    ensures ParseArgs(Exec(done), |done|, PrintWords(ws) + rest) ==
            ParseArgs(Exec(done + [ws[0]]), |done| + 1, PrintWords(ws[1..]) + rest)
  {
    PrintStep(ws, rest);
    WordsHead(ws[1..], rest);
    ArgStep(Exec(done), |done|, ws[0], PrintWords(ws[1..]) + rest);
  }

  lemma PrintStep(ws: seq<string>, rest: string)
    requires ws != []
    ensures PrintWords(ws) + rest == ws[0] + (" " + (PrintWords(ws[1..]) + rest))
  {
  }

  lemma ArgsEnd(c: Cmd<string>, n: nat, rest: string)
    requires Ends(rest)
    ensures ParseArgs(c, n, rest) == Ok(c, rest)
  {
  }

  lemma ExecBack(ws: seq<string>, rest: string)
    requires |ws| < MAXARGS && Ends(rest) && forall k :: 0 <= k < |ws| ==> GoodWord(ws[k])
    ensures ParseExec(PrintWords(ws) + rest) == Ok(Exec(ws), rest)
  {
    WordsHead(ws, rest);
    ArgsBack([], ws, rest);
    assert [] + ws == ws;
  }

  /** Printed text, and what follows it, begins with no space. */
  lemma PrintHead(c: Cmd<string>, rest: string)
    requires WellFormed(c) && Ends(rest)
    ensures Skip(Print(c) + rest) == Print(c) + rest
  {
  }

  lemma BlockBack(s: string, c: Cmd<string>, x: string)
    requires s == Skip(s) && ParseLine(s) == Ok(c, ")" + x)
    ensures Peek("(" + s, {'('}) && ParseBlock("(" + s) == ParseRedirs(c, Skip(x))
  {
  }

  /** A parenthesised command, if its inside parses back, is followed by its redirections. */
  lemma GroupBack(c: Cmd<string>, x: string)
    requires WellFormed(c) && ParseLine(Print(c) + (")" + x)) == Ok(c, ")" + x)
    ensures ParseExec(Group(c) + x) == ParseRedirs(c, Skip(x))
  {
    var s := Print(c) + (")" + x);
    assert Group(c) + x == "(" + s;
    PrintHead(c, ")" + x);
    BlockBack(s, c, x);
  }

  lemma RedirBack(c: Cmd<string>, f: string, d: char, rest: string)
    requires GoodWord(f) && Ends(rest) && (d == '<' || d == '>')
    ensures ParseRedirs(c, [d] + (f + rest)) == Ok(Redir(c, f, d == '<'), rest)
  {
    var s := [d] + (f + rest);
    assert (f + rest)[0] == f[0];
    SymbolToken(d, f + rest);
    WordToken(f, rest);
    assert Peek(s, {'<', '>'});
    NoRedirs(Redir(c, f, d == '<'), rest);
  }

  lemma PipeOf(s: string, c: Cmd<string>, rest: string)
    requires ParseExec(s) == Ok(c, rest) && Skip(rest) == rest && (rest == "" || rest[0] != '|')
    ensures ParsePipe(s) == Ok(c, rest)
  {
  }

  lemma LineOf(s: string, c: Cmd<string>, rest: string)
    requires ParsePipe(s) == Ok(c, rest) && Ends(rest)
    ensures ParseLine(s) == Ok(c, rest)
  {
  }

  /** A parenthesised command followed by neither a redirection nor a pipe. */
  lemma GroupPipe(c: Cmd<string>, x: string)
    requires WellFormed(c) && ParseLine(Print(c) + (")" + x)) == Ok(c, ")" + x)
    requires x == "" || (!IsSpace(x[0]) && x[0] != '<' && x[0] != '>' && x[0] != '|')
    ensures ParsePipe(Group(c) + x) == Ok(c, x)
  {
    GroupBack(c, x);
    NoRedirs(c, x);
    PipeOf(Group(c) + x, c, x);
  }

  lemma {:induction false} BackBack(d: Cmd<string>, rest: string)
    requires WellFormed(d) && Ends(rest)
    ensures ParseLine(Group(d) + ("&" + rest)) == Ok(Back(d), rest)
    decreases d, 3
  {
    var x := "&" + rest;
    LineBack(d, ")" + x);
    GroupPipe(d, x);
    SymbolToken('&', rest);
    assert Peek(x, {'&'}) && !Peek(rest, {'&'}) && !Peek(rest, {';'});
    assert ParseBacks(Back(d), rest) == Ok(Back(d), rest);
    assert ParseBacks(d, x) == Ok(Back(d), rest);
  }

  lemma {:induction false} PipeBack(l: Cmd<string>, r: Cmd<string>, rest: string)
    requires WellFormed(l) && WellFormed(r) && Ends(rest)
    ensures ParsePipe(Group(l) + ("|" + (Group(r) + rest))) == Ok(Pipe(l, r), rest)
    decreases Pipe(l, r), 1
  {
    var y := Group(r) + rest;
    var x := "|" + y;
    LineBack(l, ")" + x);
    GroupBack(l, x);
    NoRedirs(l, x);
    LineBack(r, ")" + rest);
    GroupPipe(r, rest);
    assert y[0] == '(';
    SymbolToken('|', y);
    assert Peek(x, {'|'});
  }

  lemma {:induction false} ListBack(l: Cmd<string>, r: Cmd<string>, rest: string)
    requires WellFormed(l) && WellFormed(r) && Ends(rest)
    ensures ParseLine(Group(l) + (";" + (Group(r) + rest))) == Ok(List(l, r), rest)
    decreases List(l, r), 1
  {
    var y := Group(r) + rest;
    var x := ";" + y;
    hide ParseExec, ParsePipe, WellFormed;
    LineBack(l, ")" + x);
    GroupPipe(l, x);
    LineBack(r, ")" + rest);
    GroupPipe(r, rest);
    LineOf(y, r, rest);
    assert y[0] == '(';
    SymbolToken(';', y);
    assert !Peek(x, {'&'}) && Peek(x, {';'});
  }

  lemma {:induction false} RedirGroup(d: Cmd<string>, f: string, c: char, rest: string)
    requires WellFormed(d) && GoodWord(f) && Ends(rest) && (c == '<' || c == '>')
    ensures ParseExec(Group(d) + ([c] + (f + rest))) == Ok(Redir(d, f, c == '<'), rest)
    decreases d, 3
  {
    var x := [c] + (f + rest);
    LineBack(d, ")" + x);
    GroupBack(d, x);
    RedirBack(d, f, c, rest);
  }

  /** Printed text is a group and what follows it. */
  lemma PrintGroup(c: Cmd<string>, rest: string)
    ensures match c
      case Exec(_) => true
      case Redir(d, f, input) => Print(c) + rest == Group(d) + ([if input then '<' else '>'] + (f + rest))
      case Pipe(l, r) => Print(c) + rest == Group(l) + ("|" + (Group(r) + rest))
      case List(l, r) => Print(c) + rest == Group(l) + (";" + (Group(r) + rest))
      case Back(d) => Print(c) + rest == Group(d) + ("&" + rest)
  {
    match c
    case Exec(_) =>
    case Redir(d, f, input) => Regroup(Group(d), if input then "<" else ">", f, rest);
    case Pipe(l, r) => Regroup(Group(l), "|", Group(r), rest);
    case List(l, r) => Regroup(Group(l), ";", Group(r), rest);
    case Back(d) =>
  }

  lemma Regroup<T>(a: seq<T>, b: seq<T>, c: seq<T>, d: seq<T>)
    ensures a + b + c + d == a + (b + (c + d))
  {
  }

  /** Parsing what was printed gives the command back. */
  lemma {:induction false} LineBack(c: Cmd<string>, rest: string)
    requires WellFormed(c) && Ends(rest)
    ensures ParseLine(Print(c) + rest) == Ok(c, rest)
    decreases c, 2
  {
    var s := Print(c) + rest;
    PrintGroup(c, rest);
    match c {
      case Exec(ws) =>
        ExecBack(ws, rest);
        PipeOf(s, c, rest);
        LineOf(s, c, rest);
      case Redir(d, f, input) =>
        RedirGroup(d, f, if input then '<' else '>', rest);
        PipeOf(s, c, rest);
        LineOf(s, c, rest);
      case Pipe(l, r) =>
        PipeBack(l, r, rest);
        LineOf(s, c, rest);
      case List(l, r) =>
        ListBack(l, r, rest);
      case Back(d) =>
        BackBack(d, rest);
    }
  }

  /** parsecmd takes back the printed form of every well-formed command. */
  lemma PrintParse(c: Cmd<string>)
    requires WellFormed(c)
    ensures ParseCmd(Print(c)) == Ok(c, "")
  {
    LineBack(c, "");
    assert Print(c) + "" == Print(c);
  }

  // What a parse can give ------------------------------------------------------------------------------

  /** A command under construction: `n` arguments beneath redirections. */
  predicate Simple(c: Cmd<string>, n: nat) {
    match c
    case Exec(ws) => |ws| == n
    case Redir(d, _, _) => Simple(d, n)
    case _ => false
  }

  lemma {:induction false} AddWordKeeps(c: Cmd<string>, n: nat, w: string)
    requires WellFormed(c) && Simple(c, n) && GoodWord(w) && n + 1 < MAXARGS
    ensures WellFormed(AddWord(c, w)) && Simple(AddWord(c, w), n + 1)
  {
    if c.Redir? {
      AddWordKeeps(c.cmd, n, w);
    }
  }

  lemma TokenGood(s: string)
    requires GetToken(s).kind == 'a'
    ensures GoodWord(GetToken(s).text)
  {
  }

  lemma {:induction false} RedirsGood(c: Cmd<string>, s: string)
    requires WellFormed(c) && ParseRedirs(c, s).Ok?
    ensures WellFormed(ParseRedirs(c, s).cmd)
    ensures forall n :: Simple(c, n) ==> Simple(ParseRedirs(c, s).cmd, n)
    decreases |s|
  {
    if Peek(s, {'<', '>'}) {
      var t := GetToken(s);
      var f := GetToken(t.rest);
      TokenGood(t.rest);
      RedirsGood(Redir(c, f.text, t.kind == '<'), f.rest);
    }
  }

  lemma ArgGood(c: Cmd<string>, n: nat, s: string)
    requires WellFormed(c) && Simple(c, n) && n + 1 < MAXARGS && GetToken(s).kind == 'a'
    requires ParseRedirs(AddWord(c, GetToken(s).text), GetToken(s).rest).Ok?
    ensures var r := ParseRedirs(AddWord(c, GetToken(s).text), GetToken(s).rest);
            WellFormed(r.cmd) && Simple(r.cmd, n + 1)
  {
    var t := GetToken(s);
    TokenGood(s);
    AddWordKeeps(c, n, t.text);
    RedirsGood(AddWord(c, t.text), t.rest);
  }

  lemma ArgsStop(c: Cmd<string>, n: nat, s: string)
    requires ParseArgs(c, n, s).Ok? && (Peek(s, {'|', ')', '&', ';'}) || GetToken(s).kind != 'a')
    ensures ParseArgs(c, n, s).cmd == c
  {
  }

  lemma ArgsGo(c: Cmd<string>, n: nat, s: string)
    requires ParseArgs(c, n, s).Ok? && !Peek(s, {'|', ')', '&', ';'}) && GetToken(s).kind == 'a'
    ensures var r := ParseRedirs(AddWord(c, GetToken(s).text), GetToken(s).rest);
            n + 1 < MAXARGS && r.Ok? && |r.rest| < |s| && ParseArgs(c, n, s) == ParseArgs(r.cmd, n + 1, r.rest)
  {
  }

  lemma {:induction false} ArgsGood(c: Cmd<string>, n: nat, s: string)
    requires WellFormed(c) && Simple(c, n) && ParseArgs(c, n, s).Ok?
    ensures WellFormed(ParseArgs(c, n, s).cmd)
    decreases |s|
  {
    if Peek(s, {'|', ')', '&', ';'}) || GetToken(s).kind != 'a' {
      ArgsStop(c, n, s);
    } else {
      ArgsGo(c, n, s);
      ArgGood(c, n, s);
      var r := ParseRedirs(AddWord(c, GetToken(s).text), GetToken(s).rest);
      ArgsGood(r.cmd, n + 1, r.rest);
    }
  }

  lemma {:induction false} ExecGood(s: string)
    requires ParseExec(s).Ok?
    ensures WellFormed(ParseExec(s).cmd)
    decreases |s|, 1
  {
    if Peek(s, {'('}) {
      var r := ParseLine(GetToken(s).rest);
      LineGood(GetToken(s).rest);
      RedirsGood(r.cmd, GetToken(r.rest).rest);
    } else {
      RedirsGood(Exec([]), s);
      var r := ParseRedirs(Exec([]), s);
      ArgsGood(r.cmd, 0, r.rest);
    }
  }

  lemma {:induction false} PipeGood(s: string)
    requires ParsePipe(s).Ok?
    ensures WellFormed(ParsePipe(s).cmd)
    decreases |s|, 2
  {
    var l := ParseExec(s);
    ExecGood(s);
    if Peek(l.rest, {'|'}) {
      PipeGood(GetToken(l.rest).rest);
    }
  }

  lemma {:induction false} BacksGood(c: Cmd<string>, s: string)
    requires WellFormed(c)
    ensures WellFormed(ParseBacks(c, s).cmd)
    decreases |s|
  {
    if Peek(s, {'&'}) {
      BacksGood(Back(c), GetToken(s).rest);
    }
  }

  lemma {:induction false} LineGood(s: string)
    requires ParseLine(s).Ok?
    ensures WellFormed(ParseLine(s).cmd)
    decreases |s|, 3
  {
    var p := ParsePipe(s);
    PipeGood(s);
    var l := ParseBacks(p.cmd, p.rest);
    BacksGood(p.cmd, p.rest);
    if Peek(l.rest, {';'}) {
      LineGood(GetToken(l.rest).rest);
    }
  }

  /** Every parse gives a well-formed command, so well-formed commands are all
      the commands there are; printing one and parsing it again changes nothing. */
  lemma ParsePrintParse(s: string)
    requires ParseCmd(s).Ok?
    ensures WellFormed(ParseCmd(s).cmd) && ParseCmd(Print(ParseCmd(s).cmd)) == Ok(ParseCmd(s).cmd, "")
  {
    LineGood(s);
    PrintParse(ParseCmd(s).cmd);
  }
}
