/** sh.c's parser as it runs: a position that moves along the input line, words
    as places in the line, and the NULs written after them at the end. */
module ShellLine {
  import opened Shell
  import G = Grammar

  /** A word's place: from `q` up to `eq`. */
  datatype Span = Span(q: nat, eq: nat)

  /** A whole word of the line: nothing but word characters, and none after. */
  predicate IsToken(s: string, x: Span) {
    && x.q < x.eq <= |s| && (forall k :: x.q <= k < x.eq ==> IsWord(s[k]))
    && (x.eq == |s| || !IsWord(s[x.eq]))
  }

  predicate Tokens(s: string, c: Cmd<Span>) {
    match c
    case Exec(xs) => forall k :: 0 <= k < |xs| ==> IsToken(s, xs[k])
    case Redir(d, f, _) => Tokens(s, d) && IsToken(s, f)
    case Pipe(l, r) => Tokens(s, l) && Tokens(s, r)
    case List(l, r) => Tokens(s, l) && Tokens(s, r)
    case Back(d) => Tokens(s, d)
  }

  function WordAt(s: string, x: Span): (w: string)
    requires IsToken(s, x)
  {
    s[x.q..x.eq]
  }

  function TextOf(s: string, xs: seq<Span>): (ws: seq<string>)
    requires forall k :: 0 <= k < |xs| ==> IsToken(s, xs[k])
  {
    if xs == [] then []
    else
      var last := xs[|xs| - 1];
      assert IsToken(s, last);
      TextOf(s, xs[..|xs| - 1]) + [WordAt(s, last)]
  }

  /** The command with its words as text. */
  function Text(s: string, c: Cmd<Span>): (r: Cmd<string>)
    requires Tokens(s, c)
  {
    match c
    case Exec(xs) => Exec(TextOf(s, xs))
    case Redir(d, f, i) => Redir(Text(s, d), WordAt(s, f), i)
    case Pipe(l, r) => Pipe(Text(s, l), Text(s, r))
    case List(l, r) => List(Text(s, l), Text(s, r))
    case Back(d) => Back(Text(s, d))
  }

  lemma {:induction false} TextAddWord(s: string, c: Cmd<Span>, x: Span)
    requires Tokens(s, c) && IsToken(s, x)
    ensures Tokens(s, AddWord(c, x)) && Text(s, AddWord(c, x)) == AddWord(Text(s, c), WordAt(s, x))
  {
    match c
    case Exec(xs) =>
      assert (xs + [x])[..|xs|] == xs;
    case Redir(d, _, _) => TextAddWord(s, d, x);
    case _ =>
  }

  /** No NUL before the end: what strlen promises. */
  predicate Line(s: string, ps: nat) {
    ps <= |s| && forall k :: 0 <= k < |s| ==> s[k] != '\0'
  }

  lemma Behind(s: string, ps: nat, n: nat)
    requires ps + n <= |s|
    ensures s[ps..][n..] == s[ps + n..] && s[ps..][..n] == s[ps..ps + n]
  {
  }

  method SkipSpace(s: string, ps: nat) returns (p: nat)
    requires ps <= |s|
    ensures ps <= p <= |s| && s[p..] == Skip(s[ps..])
    ensures p == |s| || !IsSpace(s[p])
  {
    p := ps;
    while p < |s| && IsSpace(s[p])
      invariant ps <= p <= |s| && Skip(s[p..]) == Skip(s[ps..])
    {
      Behind(s, p, 1);
      p := p + 1;
    }
  }

  method WordEnd(s: string, ps: nat) returns (p: nat)
    requires ps <= |s|
    ensures p == ps + WordLen(s[ps..]) && p <= |s|
  {
    p := ps;
    while p < |s| && !IsSpace(s[p]) && !IsSymbol(s[p])
      invariant ps <= p <= |s| && p - ps + WordLen(s[p..]) == WordLen(s[ps..])
    {
      Behind(s, p, 1);
      p := p + 1;
    }
  }

  /** What gettoken promises: the token at `ps`, its place, and where to go on. */
  ghost predicate Got(s: string, ps: nat, ret: char, x: Span, p: nat)
    requires ps <= |s|
  {
    var t := GetToken(s[ps..]);
    && ps <= x.q <= x.eq <= p <= |s| && ret == t.kind && s[x.q..x.eq] == t.text && s[p..] == t.rest
    && (ret == 'a' ==> IsToken(s, x))
  }

  lemma GotSymbol(s: string, ps: nat, q: nat, n: nat, ret: char, p: nat)
    requires ps <= q < |s| && s[q..] == Skip(s[ps..]) && IsSymbol(s[q])
    requires q + n <= p <= |s| && s[p..] == Skip(s[q + n..])
    requires if s[q] == '>' && q + 1 < |s| && s[q + 1] == '>' then n == 2 && ret == '+' else n == 1 && ret == s[q]
    ensures Got(s, ps, ret, Span(q, q + n), p)
  {
  }

  lemma GotWord(s: string, ps: nat, q: nat, eq: nat, p: nat)
    requires ps <= q < |s| && s[q..] == Skip(s[ps..]) && IsWord(s[q])
    requires eq == q + WordLen(s[q..]) && eq <= p <= |s| && s[p..] == Skip(s[eq..])
    ensures Got(s, ps, 'a', Span(q, eq), p)
  {
    hide Skip, WordLen;
  }

  method Gettoken(s: string, ps: nat) returns (ret: char, x: Span, p: nat)
    requires Line(s, ps)
    ensures Got(s, ps, ret, x, p)
  {
    var q := SkipSpace(s, ps);
    if q == |s| {
      return '\0', Span(q, q), q;
    }
    if IsSymbol(s[q]) {
      ret := s[q];
      var n := 1;
      if s[q] == '>' && q + 1 < |s| && s[q + 1] == '>' {
        ret, n := '+', 2;
      }
      p := SkipSpace(s, q + n);
      GotSymbol(s, ps, q, n, ret, p);
      x := Span(q, q + n);
    } else {
      var eq := WordEnd(s, q);
      p := SkipSpace(s, eq);
      GotWord(s, ps, q, eq, p);
      ret, x := 'a', Span(q, eq);
    }
  }

  method PeekAt(s: string, ps: nat, toks: set<char>) returns (r: bool, p: nat)
    requires Line(s, ps)
    ensures ps <= p <= |s| && s[p..] == Skip(s[ps..]) && r == Peek(s[ps..], toks) == Peek(s[p..], toks)
  {
    p := SkipSpace(s, ps);
    r := p < |s| && s[p] in toks;
  }

  // The grammar, along the line --------------------------------------------------------------------------

  datatype Outcome = Done(cmd: Cmd<Span>, p: nat) | Halt(msg: string)

  /** The outcome at position `ps` is the parse of the text from there. */
  ghost predicate Agrees(s: string, ps: nat, o: Outcome, r: Parsed) {
    match o
    case Done(c, p) => ps <= p <= |s| && Tokens(s, c) && r == Ok(Text(s, c), s[p..])
    case Halt(msg) => r == Panic(msg)
  }

  lemma RedirsSkip(c: Cmd<string>, x: string)
    ensures ParseRedirs(c, Skip(x)) == ParseRedirs(c, x)
  {
  }

  lemma ArgsSkip(c: Cmd<string>, n: nat, x: string)
    ensures ParseArgs(c, n, Skip(x)) == ParseArgs(c, n, x)
  {
  }

  lemma BacksSkip(c: Cmd<string>, x: string)
    ensures ParseBacks(c, Skip(x)) == ParseBacks(c, x)
  {
  }

  lemma RedirStep(c: Cmd<string>, x: string)
    requires Peek(x, {'<', '>'})
    ensures var t := GetToken(x); var f := GetToken(t.rest);
            ParseRedirs(c, x) == if f.kind != 'a' then Panic("missing file for redirection")
                                 else ParseRedirs(Redir(c, f.text, t.kind == '<'), f.rest)
  {
  }

  method Parseredirs(c: Cmd<Span>, s: string, ps: nat) returns (o: Outcome)
    requires Line(s, ps) && Tokens(s, c)
    ensures Agrees(s, ps, o, ParseRedirs(Text(s, c), s[ps..]))
  {
    var cmd := c;
    var more, p := PeekAt(s, ps, {'<', '>'});
    RedirsSkip(Text(s, c), s[ps..]);
    while more
      invariant ps <= p <= |s| && Tokens(s, cmd) && more == Peek(s[p..], {'<', '>'}) && s[p..] == Skip(s[p..])
      invariant ParseRedirs(Text(s, cmd), s[p..]) == ParseRedirs(Text(s, c), s[ps..])
      decreases |s| - p
    {
      RedirStep(Text(s, cmd), s[p..]);
      var tok, x, p1 := Gettoken(s, p);
      var ret, f, p2 := Gettoken(s, p1);
      if ret != 'a' {
        return Halt("missing file for redirection");
      }
      assert WordAt(s, f) == s[f.q..f.eq];
      cmd := Redir(cmd, f, tok == '<');
      more, p := PeekAt(s, p2, {'<', '>'});
    }
    o := Done(cmd, p);
  }

  /** One turn of parseexec's loop. */
  function ArgTurn(c: Cmd<string>, n: nat, x: string): (r: Parsed)
    requires !Peek(x, {'|', ')', '&', ';'}) && GetToken(x).kind != '\0'
  {
    var t := GetToken(x);
    if t.kind != 'a' then Panic("syntax")
    else if n + 1 >= MAXARGS then Panic("too many args")
    else ParseRedirs(AddWord(c, t.text), t.rest)
  }

  lemma ArgsTurn(c: Cmd<string>, n: nat, x: string)
    requires !Peek(x, {'|', ')', '&', ';'})
    ensures var t := GetToken(x);
            if t.kind == '\0' then ParseArgs(c, n, x) == Ok(c, t.rest)
            else var r := ArgTurn(c, n, x);
                 ParseArgs(c, n, x) == if r.Panic? then r else ParseArgs(r.cmd, n + 1, r.rest)
  {
  }

  lemma ArgTurnShorter(c: Cmd<string>, n: nat, x: string)
    requires !Peek(x, {'|', ')', '&', ';'}) && GetToken(x).kind != '\0'
    ensures var r := ArgTurn(c, n, x); r.Ok? ==> |r.rest| < |x| && n + 1 < MAXARGS
  {
  }

  method Argument(c: Cmd<Span>, argc: nat, s: string, tok: char, x: Span, ghost ps: nat, p: nat) returns (o: Outcome)
    requires Line(s, p) && Line(s, ps) && Tokens(s, c) && Got(s, ps, tok, x, p)
    requires !Peek(s[ps..], {'|', ')', '&', ';'}) && tok != '\0'
    ensures Agrees(s, ps, o, ArgTurn(Text(s, c), argc, s[ps..]))
  {
    if tok != 'a' {
      return Halt("syntax");
    }
    if argc + 1 >= MAXARGS {
      return Halt("too many args");
    }
    TextAddWord(s, c, x);
    o := Parseredirs(AddWord(c, x), s, p);
  }

  method Arguments(c: Cmd<Span>, s: string, ps: nat) returns (o: Outcome)
    requires Line(s, ps) && Tokens(s, c)
    ensures Agrees(s, ps, o, ParseArgs(Text(s, c), 0, s[ps..]))
  {
    var cmd, argc := c, 0;
    var stop, p := PeekAt(s, ps, {'|', ')', '&', ';'});
    ArgsSkip(Text(s, c), 0, s[ps..]);
    while !stop
      invariant ps <= p <= |s| && Tokens(s, cmd)
      invariant stop == Peek(s[p..], {'|', ')', '&', ';'}) && s[p..] == Skip(s[p..])
      invariant ParseArgs(Text(s, cmd), argc, s[p..]) == ParseArgs(Text(s, c), 0, s[ps..])
      decreases |s| - p
    {
      var tok, x, p1 := Gettoken(s, p);
      ArgsTurn(Text(s, cmd), argc, s[p..]);
      if tok == '\0' {
        return Done(cmd, p1);
      }
      ArgTurnShorter(Text(s, cmd), argc, s[p..]);
      var r := Argument(cmd, argc, s, tok, x, p, p1);
      if r.Halt? {
        return r;
      }
      cmd, argc := r.cmd, argc + 1;
      ArgsSkip(Text(s, cmd), argc, s[r.p..]);
      stop, p := PeekAt(s, r.p, {'|', ')', '&', ';'});
    }
    o := Done(cmd, p);
  }

  lemma ExecRead(s: string, ps: nat, o: Outcome)
    requires ps <= |s| && Agrees(s, ps, o, ParseExec(s[ps..]))
    ensures o.Done? ==> G.IsElement(G.Lex(s[ps..]), Text(s, o.cmd), G.Lex(s[o.p..]))
  {
    hide G.Lex, G.IsElement, ParseExec;
    if o.Done? {
      G.ReadsElement(s[ps..]);
    }
  }

  lemma PipeRead(s: string, ps: nat, o: Outcome)
    requires ps <= |s| && Agrees(s, ps, o, ParsePipe(s[ps..]))
    ensures o.Done? ==> G.IsPipeline(G.Lex(s[ps..]), Text(s, o.cmd), G.Lex(s[o.p..]))
  {
    hide G.Lex, G.IsPipeline, ParsePipe;
    if o.Done? {
      G.ReadsPipeline(s[ps..]);
    }
  }

  lemma LineRead(s: string, ps: nat, o: Outcome)
    requires ps <= |s| && Agrees(s, ps, o, ParseLine(s[ps..]))
    ensures o.Done? ==> G.IsLine(G.Lex(s[ps..]), Text(s, o.cmd), G.Lex(s[o.p..]))
  {
    hide G.Lex, G.IsLine, ParseLine;
    if o.Done? {
      G.ReadsLine(s[ps..]);
    }
  }

  method Parseexec(s: string, ps: nat) returns (o: Outcome)
    requires Line(s, ps)
    ensures Agrees(s, ps, o, ParseExec(s[ps..]))
    ensures o.Done? ==> G.IsElement(G.Lex(s[ps..]), Text(s, o.cmd), G.Lex(s[o.p..]))
    decreases |s| - ps, 1
  {
    hide G.IsElement, G.Lex;
    var group, p := PeekAt(s, ps, {'('});
    if group {
      o := Parseblock(s, ps);
      ExecRead(s, ps, o);
      return;
    }
    var c: Cmd<Span> := Exec([]);
    var r := Parseredirs(c, s, ps);
    if r.Halt? {
      return r;
    }
    o := Arguments(r.cmd, s, r.p);
    ExecRead(s, ps, o);
  }

  method Parseblock(s: string, ps: nat) returns (o: Outcome)
    requires Line(s, ps) && Peek(s[ps..], {'('})
    ensures Agrees(s, ps, o, ParseBlock(s[ps..]))
    decreases |s| - ps, 0
  {
    var tok, x, p := Gettoken(s, ps);
    var r := Parseline(s, p);
    if r.Halt? {
      return r;
    }
    var closed, p1 := PeekAt(s, r.p, {')'});
    if !closed {
      return Halt("syntax - missing )");
    }
    tok, x, p := Gettoken(s, r.p);
    o := Parseredirs(r.cmd, s, p);
  }

  method Parsepipe(s: string, ps: nat) returns (o: Outcome)
    requires Line(s, ps)
    ensures Agrees(s, ps, o, ParsePipe(s[ps..]))
    ensures o.Done? ==> G.IsPipeline(G.Lex(s[ps..]), Text(s, o.cmd), G.Lex(s[o.p..]))
    decreases |s| - ps, 2
  {
    hide G.IsElement, G.IsPipeline, G.Lex, ParseExec, Skip;
    var l := Parseexec(s, ps);
    if l.Halt? {
      return l;
    }
    var more, p1 := PeekAt(s, l.p, {'|'});
    if !more {
      PipeRead(s, ps, l);
      return l;
    }
    var tok, x, p := Gettoken(s, l.p);
    var r := Parsepipe(s, p);
    if r.Halt? {
      return r;
    }
    o := Done(Pipe(l.cmd, r.cmd), r.p);
    PipeRead(s, ps, o);
  }

  method Backs(c: Cmd<Span>, s: string, ps: nat) returns (cmd: Cmd<Span>, p: nat)
    requires Line(s, ps) && Tokens(s, c)
    ensures Agrees(s, ps, Done(cmd, p), ParseBacks(Text(s, c), s[ps..]))
  {
    cmd := c;
    var more;
    more, p := PeekAt(s, ps, {'&'});
    BacksSkip(Text(s, c), s[ps..]);
    while more
      invariant ps <= p <= |s| && Tokens(s, cmd) && more == Peek(s[p..], {'&'}) && s[p..] == Skip(s[p..])
      invariant ParseBacks(Text(s, cmd), s[p..]) == ParseBacks(Text(s, c), s[ps..])
      decreases |s| - p
    {
      var tok, x, p1 := Gettoken(s, p);
      cmd := Back(cmd);
      more, p := PeekAt(s, p1, {'&'});
    }
  }

  method Parseline(s: string, ps: nat) returns (o: Outcome)
    requires Line(s, ps)
    ensures Agrees(s, ps, o, ParseLine(s[ps..]))
    ensures o.Done? ==> G.IsLine(G.Lex(s[ps..]), Text(s, o.cmd), G.Lex(s[o.p..]))
    decreases |s| - ps, 3
  {
    hide G.IsPipeline, G.IsLine, G.Lex, ParsePipe, ParseBacks, Skip;
    var l := Parsepipe(s, ps);
    if l.Halt? {
      return l;
    }
    var cmd, p := Backs(l.cmd, s, l.p);
    var more, p1 := PeekAt(s, p, {';'});
    if !more {
      LineRead(s, ps, Done(cmd, p));
      return Done(cmd, p);
    }
    var tok, x, p2 := Gettoken(s, p);
    var r := Parseline(s, p2);
    if r.Halt? {
      return r;
    }
    o := Done(List(cmd, r.cmd), r.p);
    LineRead(s, ps, o);
  }

  // nulterminate -----------------------------------------------------------------------------------------

  /** Every word ends before the buffer does. */
  predicate Fits(c: Cmd<Span>, n: nat) {
    match c
    case Exec(xs) => forall k :: 0 <= k < |xs| ==> xs[k].eq < n
    case Redir(d, f, _) => Fits(d, n) && f.eq < n
    case Pipe(l, r) => Fits(l, n) && Fits(r, n)
    case List(l, r) => Fits(l, n) && Fits(r, n)
    case Back(d) => Fits(d, n)
  }

  /** `x` is one of the command's words. */
  predicate Has(c: Cmd<Span>, x: Span) {
    match c
    case Exec(xs) => x in xs
    case Redir(d, f, _) => Has(d, x) || x == f
    case Pipe(l, r) => Has(l, x) || Has(r, x)
    case List(l, r) => Has(l, x) || Has(r, x)
    case Back(d) => Has(d, x)
  }

  function NulArgs(b: string, xs: seq<Span>): (r: string)
    requires forall k :: 0 <= k < |xs| ==> xs[k].eq < |b|
    ensures |r| == |b|
  {
    if xs == [] then b else NulArgs(b, xs[..|xs| - 1])[xs[|xs| - 1].eq := '\0']
  }

  function Nulled(b: string, c: Cmd<Span>): (r: string)
    requires Fits(c, |b|)
    ensures |r| == |b|
    decreases c
  {
    match c
    case Exec(xs) => NulArgs(b, xs)
    case Redir(d, f, _) => Nulled(b, d)[f.eq := '\0']
    case Pipe(l, r) => Nulled(Nulled(b, l), r)
    case List(l, r) => Nulled(Nulled(b, l), r)
    case Back(d) => Nulled(b, d)
  }

  /** Only ends of words become NUL. */
  lemma {:induction false} NulArgsAt(b: string, xs: seq<Span>, k: nat)
    requires (forall j :: 0 <= j < |xs| ==> xs[j].eq < |b|) && k < |b|
    ensures NulArgs(b, xs)[k] == b[k] || (NulArgs(b, xs)[k] == '\0' && exists j :: 0 <= j < |xs| && xs[j].eq == k)
    ensures (exists j :: 0 <= j < |xs| && xs[j].eq == k) ==> NulArgs(b, xs)[k] == '\0'
    decreases |xs|
  {
    if xs != [] {
      NulArgsAt(b, xs[..|xs| - 1], k);
    }
  }

  ghost predicate EndsAt(c: Cmd<Span>, k: nat) {
    exists x :: Has(c, x) && x.eq == k
  }

  lemma {:induction false} NulledAt(b: string, c: Cmd<Span>, k: nat)
    requires Fits(c, |b|) && k < |b|
    ensures EndsAt(c, k) ==> Nulled(b, c)[k] == '\0'
    ensures !EndsAt(c, k) ==> Nulled(b, c)[k] == b[k]
    decreases c
  {
    match c
    case Exec(xs) => NulArgsAt(b, xs, k);
    case Redir(d, f, _) =>
      NulledAt(b, d, k);
      assert EndsAt(d, k) ==> EndsAt(c, k);
      assert Has(c, f);
    case Pipe(l, r) => NulledTwo(b, l, r, c, k);
    case List(l, r) => NulledTwo(b, l, r, c, k);
    case Back(d) =>
      NulledAt(b, d, k);
      assert EndsAt(d, k) <==> EndsAt(c, k);
  }

  lemma {:induction false} NulledTwo(b: string, l: Cmd<Span>, r: Cmd<Span>, c: Cmd<Span>, k: nat)
    requires (c == Pipe(l, r) || c == List(l, r)) && Fits(c, |b|) && k < |b|
    ensures EndsAt(c, k) ==> Nulled(Nulled(b, l), r)[k] == '\0'
    ensures !EndsAt(c, k) ==> Nulled(Nulled(b, l), r)[k] == b[k]
    decreases c, 0
  {
    NulledAt(b, l, k);
    NulledAt(Nulled(b, l), r, k);
    assert EndsAt(c, k) <==> EndsAt(l, k) || EndsAt(r, k);
  }

  /** The C string at `q`. */
  function CString(b: string, q: nat): (w: string)
    decreases |b| - q
  {
    if q >= |b| || b[q] == '\0' then "" else [b[q]] + CString(b, q + 1)
  }

  lemma {:induction false} CStringIs(b: string, q: nat, eq: nat)
    requires q <= eq < |b| && b[eq] == '\0' && forall k :: q <= k < eq ==> b[k] != '\0'
    ensures CString(b, q) == b[q..eq]
    decreases eq - q
  {
    if q < eq {
      CStringIs(b, q + 1, eq);
    }
  }

  lemma {:induction false} TokenOf(s: string, c: Cmd<Span>, x: Span)
    requires Tokens(s, c) && Has(c, x)
    ensures IsToken(s, x)
  {
    match c
    case Exec(xs) =>
    case Redir(d, f, _) => if Has(d, x) { TokenOf(s, d, x); }
    case Pipe(l, r) => if Has(l, x) { TokenOf(s, l, x); } else { TokenOf(s, r, x); }
    case List(l, r) => if Has(l, x) { TokenOf(s, l, x); } else { TokenOf(s, r, x); }
    case Back(d) => TokenOf(s, d, x);
  }

  lemma {:induction false} TokensFit(s: string, c: Cmd<Span>, n: nat)
    requires Tokens(s, c) && |s| < n
    ensures Fits(c, n)
  {
    match c
    case Exec(xs) =>
    case Redir(d, f, _) => TokensFit(s, d, n);
    case Pipe(l, r) => TokensFit(s, l, n); TokensFit(s, r, n);
    case List(l, r) => TokensFit(s, l, n); TokensFit(s, r, n);
    case Back(d) => TokensFit(s, d, n);
  }

  /** nulterminate writes after words and never inside one, so every word reads
      back, as a C string, as the token it was; and nothing after the line's NUL. */
  lemma WordsRead(s: string, b: string, c: Cmd<Span>, x: Span)
    requires Line(s, 0) && s + "\0" <= b && Tokens(s, c) && Has(c, x) && Fits(c, |b|)
    ensures IsToken(s, x) && CString(Nulled(b, c), x.q) == WordAt(s, x)
  {
    var r := Nulled(b, c);
    TokenOf(s, c, x);
    forall k | x.q <= k < x.eq ensures r[k] == s[k] {
      NulledAt(b, c, k);
      if EndsAt(c, k) {
        var y :| Has(c, y) && y.eq == k;
        TokenOf(s, c, y);
        assert false;
      }
    }
    NulledAt(b, c, x.eq);
    CStringIs(r, x.q, x.eq);
    assert r[x.q..x.eq] == s[x.q..x.eq];
  }

  lemma RestStays(s: string, b: string, c: Cmd<Span>)
    requires s + "\0" <= b && Tokens(s, c) && Fits(c, |b|)
    ensures |Nulled(b, c)| == |b| && Nulled(b, c)[|s|..] == b[|s|..]
  {
    var r := Nulled(b, c);
    NulledAt(b, c, |s|);
    forall k | |s| <= k < |b| ensures r[k] == b[k] {
      NulledAt(b, c, k);
      if EndsAt(c, k) {
        var y :| Has(c, y) && y.eq == k;
        TokenOf(s, c, y);
      }
    }
  }

  method Nulterminate(buf: array<char>, c: Cmd<Span>)
    requires Fits(c, buf.Length)
    modifies buf
    ensures buf[..] == Nulled(old(buf[..]), c)
    decreases c
  {
    match c {
      case Exec(xs) =>
        var i := 0;
        while i < |xs|
          invariant 0 <= i <= |xs| && buf[..] == NulArgs(old(buf[..]), xs[..i])
        {
          assert xs[..i + 1][..i] == xs[..i];
          buf[xs[i].eq] := '\0';
          i := i + 1;
        }
        assert xs[..i] == xs;
      case Redir(d, f, _) =>
        Nulterminate(buf, d);
        buf[f.eq] := '\0';
      case Pipe(l, r) =>
        Nulterminate(buf, l);
        Nulterminate(buf, r);
      case List(l, r) =>
        Nulterminate(buf, l);
        Nulterminate(buf, r);
      case Back(d) =>
        Nulterminate(buf, d);
    }
  }

  /** parsecmd on the line in `buf`, whose first NUL is at `n`: the command it
      parses to, each word of it readable in the buffer as a C string, and the
      buffer from the NUL on as it was; or a panic. */
  method Parsecmd(buf: array<char>, n: nat) returns (o: Outcome)
    requires n < buf.Length && buf[n] == '\0' && forall k :: 0 <= k < n ==> buf[k] != '\0'
    modifies buf
    ensures buf[n..] == old(buf[n..])
    ensures o.Halt? ==> ParseCmd(old(buf[..n])) == Panic(o.msg) && buf[..] == old(buf[..])
    ensures o.Done? ==> Tokens(old(buf[..n]), o.cmd) && ParseCmd(old(buf[..n])) == Ok(Text(old(buf[..n]), o.cmd), "")
    ensures o.Halt? ==> forall c :: !G.Means(old(buf[..n]), c)
    ensures o.Done? ==> G.Means(old(buf[..n]), Text(old(buf[..n]), o.cmd))
    ensures o.Done? ==> forall x :: Has(o.cmd, x) ==>
              IsToken(old(buf[..n]), x) && CString(buf[..], x.q) == WordAt(old(buf[..n]), x)
  {
    hide G.Means;
    var s := buf[..n];
    ghost var b := buf[..];
    forall c ensures ParseCmd(s) == Ok(c, "") <==> G.Means(s, c) {
      G.ParsesLanguage(s, c);
    }
    assert b[..n + 1] == s + "\0";
    assert s[0..] == s;
    o := Parseline(s, 0);
    if o.Halt? {
      return;
    }
    var q, p := PeekAt(s, o.p, {});
    if p != n {
      return Halt("syntax");
    }
    TokensFit(s, o.cmd, buf.Length);
    Nulterminate(buf, o.cmd);
    RestStays(s, b, o.cmd);
    assert buf[n..] == buf[..][n..];
    forall x | Has(o.cmd, x) ensures IsToken(s, x) && CString(buf[..], x.q) == WordAt(s, x) {
      WordsRead(s, b, o.cmd, x);
    }
  }
}
