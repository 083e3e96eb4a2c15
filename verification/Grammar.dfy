/** The shell's language, defined by its grammar: what a line may look like and
    what it means. The recursive-descent parser accepts exactly this. */
module Grammar {
  import opened Shell

  /** `>>` is the symbol '+'. */
  datatype Tok = Word(text: string) | Sym(c: char)

  /** The tokens of a text, character by character. */
  function Lex(s: string): (ts: seq<Tok>)
    decreases |s|
  {
    if s == "" then []
    else if IsSpace(s[0]) then Lex(s[1..])
    else if |s| > 1 && s[0] == '>' && s[1] == '>' then [Sym('+')] + Lex(s[2..])
    else if IsSymbol(s[0]) then [Sym(s[0])] + Lex(s[1..])
    else [Word(s[..WordLen(s)])] + Lex(s[WordLen(s)..])
  }

  // Syntax -----------------------------------------------------------------------------------------

  datatype Redirection = Redirection(dir: char, file: string)
  datatype Item = Arg(word: string) | Red(r: Redirection)

  /** Words and redirections in any order, or a line in parentheses. */
  datatype Element = Simple(items: seq<Item>) | Block(inside: Line, redirs: seq<Redirection>)
  datatype Pipeline = One(only: Element) | Piped(first: Element, more: Pipeline)
  datatype Line = Last(pipe: Pipeline, amps: nat) | Then(pipe: Pipeline, amps: nat, next: Line)

  predicate GoodDir(r: Redirection) {
    r.dir == '<' || r.dir == '>' || r.dir == '+'
  }

  /** The words of a simple command, in order. */
  function Args(items: seq<Item>): seq<string> {
    if items == [] then []
    else Args(items[..|items| - 1]) + if items[|items| - 1].Arg? then [items[|items| - 1].word] else []
  }

  /** Its redirections, in order. */
  function Reds(items: seq<Item>): seq<Redirection> {
    if items == [] then []
    else Reds(items[..|items| - 1]) + if items[|items| - 1].Red? then [items[|items| - 1].r] else []
  }

  predicate GoodElement(e: Element) {
    match e
    case Simple(items) =>
      |Args(items)| < MAXARGS && forall k :: 0 <= k < |items| && items[k].Red? ==> GoodDir(items[k].r)
    case Block(l, rs) => GoodLine(l) && forall k :: 0 <= k < |rs| ==> GoodDir(rs[k])
  }

  predicate GoodPipeline(p: Pipeline) {
    match p
    case One(e) => GoodElement(e)
    case Piped(e, more) => GoodElement(e) && GoodPipeline(more)
  }

  predicate GoodLine(l: Line) {
    match l
    case Last(p, _) => GoodPipeline(p)
    case Then(p, _, next) => GoodPipeline(p) && GoodLine(next)
  }

  // Its tokens ---------------------------------------------------------------------------------------

  function FlatRedir(r: Redirection): seq<Tok> {
    [Sym(r.dir), Word(r.file)]
  }

  function FlatItem(x: Item): seq<Tok> {
    if x.Arg? then [Word(x.word)] else FlatRedir(x.r)
  }

  function FlatItems(items: seq<Item>): seq<Tok> {
    if items == [] then [] else FlatItem(items[0]) + FlatItems(items[1..])
  }

  function FlatRedirs(rs: seq<Redirection>): seq<Tok> {
    if rs == [] then [] else FlatRedir(rs[0]) + FlatRedirs(rs[1..])
  }

  function FlatElement(e: Element): seq<Tok> {
    match e
    case Simple(items) => FlatItems(items)
    case Block(l, rs) => [Sym('(')] + FlatLine(l) + [Sym(')')] + FlatRedirs(rs)
  }

  function FlatPipeline(p: Pipeline): seq<Tok> {
    match p
    case One(e) => FlatElement(e)
    case Piped(e, more) => FlatElement(e) + [Sym('|')] + FlatPipeline(more)
  }

  function Amps(n: nat): seq<Tok> {
    if n == 0 then [] else [Sym('&')] + Amps(n - 1)
  }

  function FlatLine(l: Line): seq<Tok> {
    match l
    case Last(p, n) => FlatPipeline(p) + Amps(n)
    case Then(p, n, next) => FlatPipeline(p) + Amps(n) + [Sym(';')] + FlatLine(next)
  }

  // Its meaning --------------------------------------------------------------------------------------

  /** The command under its redirections, the last of them outermost. */
  function Wrap(c: Cmd<string>, rs: seq<Redirection>): Cmd<string> {
    if rs == [] then c
    else var r := rs[|rs| - 1]; Redir(Wrap(c, rs[..|rs| - 1]), r.file, r.dir == '<')
  }

  function Backed(c: Cmd<string>, n: nat): Cmd<string> {
    if n == 0 then c else Back(Backed(c, n - 1))
  }

  function Plain(items: seq<Item>): Cmd<string> {
    Wrap(Exec(Args(items)), Reds(items))
  }

  function ElementCmd(e: Element): Cmd<string> {
    match e
    case Simple(items) => Plain(items)
    case Block(l, rs) => Wrap(LineCmd(l), rs)
  }

  function PipelineCmd(p: Pipeline): Cmd<string> {
    match p
    case One(e) => ElementCmd(e)
    case Piped(e, more) => Pipe(ElementCmd(e), PipelineCmd(more))
  }

  function LineCmd(l: Line): Cmd<string> {
    match l
    case Last(p, n) => Backed(PipelineCmd(p), n)
    case Then(p, n, next) => List(Backed(PipelineCmd(p), n), LineCmd(next))
  }

  /** The text is a line of the language, and `c` is what it means. */
  ghost predicate Means(s: string, c: Cmd<string>) {
    exists l :: GoodLine(l) && FlatLine(l) == Lex(s) && LineCmd(l) == c
  }

  /** The tokens are those of an element meaning `c`, and `rest`; so for a
      pipeline and a line. */
  ghost predicate IsElement(ts: seq<Tok>, c: Cmd<string>, rest: seq<Tok>) {
    exists e :: GoodElement(e) && ts == FlatElement(e) + rest && ElementCmd(e) == c
  }

  ghost predicate IsPipeline(ts: seq<Tok>, c: Cmd<string>, rest: seq<Tok>) {
    exists p :: GoodPipeline(p) && ts == FlatPipeline(p) + rest && PipelineCmd(p) == c
  }

  ghost predicate IsLine(ts: seq<Tok>, c: Cmd<string>, rest: seq<Tok>) {
    exists l :: GoodLine(l) && ts == FlatLine(l) + rest && LineCmd(l) == c
  }

  // Tokens as gettoken and peek see them ---------------------------------------------------------------

  lemma {:induction false} LexSkip(s: string)
    ensures Lex(Skip(s)) == Lex(s) && (Lex(s) == [] <==> Skip(s) == "")
  {
    if s != "" && IsSpace(s[0]) {
      LexSkip(s[1..]);
    }
  }

  /** One token is the head of the text's tokens, and the rest gives the others. */
  lemma LexToken(s: string)
    ensures var t := GetToken(s); var ts := Lex(s);
            if ts == [] then t.kind == '\0' && t.rest == ""
            else Lex(t.rest) == ts[1..] && |t.rest| < |s| && match ts[0]
                 case Word(w) => t.kind == 'a' && t.text == w
                 case Sym(c) => t.kind == c && c != 'a' && c != '\0'
  {
    var r := Skip(s);
    LexSkip(s);
    if r != "" {
      var t := GetToken(s);
      if r[0] == '>' && |r| > 1 && r[1] == '>' {
        LexSkip(r[2..]);
      } else if IsSymbol(r[0]) {
        LexSkip(r[1..]);
      } else {
        LexSkip(r[WordLen(r)..]);
      }
    }
  }

  predicate IsRedir(ts: seq<Tok>) {
    ts != [] && (ts[0] == Sym('<') || ts[0] == Sym('>') || ts[0] == Sym('+'))
  }

  /** What may follow an element, or nothing. */
  predicate Stops(ts: seq<Tok>) {
    ts == [] || ts[0] == Sym('|') || ts[0] == Sym(')') || ts[0] == Sym('&') || ts[0] == Sym(';')
  }

  lemma LexPeek(s: string)
    ensures Peek(s, {'<', '>'}) <==> IsRedir(Lex(s))
    ensures Peek(s, {'|', ')', '&', ';'}) <==> Lex(s) != [] && Stops(Lex(s))
    ensures forall c :: c in {'(', ')', '|', '&', ';'} ==> (Peek(s, {c}) <==> Lex(s) != [] && Lex(s)[0] == Sym(c))
  {
    LexSkip(s);
  }

  // Items and redirections -------------------------------------------------------------------------------

  function ItemsOf(rs: seq<Redirection>): (items: seq<Item>)
    ensures |items| == |rs|
  {
    seq(|rs|, i requires 0 <= i < |rs| => Red(rs[i]))
  }

  lemma ItemsLast(items: seq<Item>, x: Item)
    ensures Args(items + [x]) == if x.Arg? then Args(items) + [x.word] else Args(items)
    ensures Reds(items + [x]) == if x.Red? then Reds(items) + [x.r] else Reds(items)
  {
    assert (items + [x])[..|items|] == items;
  }

  lemma {:induction false} WrapWord(ws: seq<string>, rs: seq<Redirection>, w: string)
    ensures AddWord(Wrap(Exec(ws), rs), w) == Wrap(Exec(ws + [w]), rs)
  {
    if rs != [] {
      WrapWord(ws, rs[..|rs| - 1], w);
    }
  }

  lemma PlainLast(items: seq<Item>, x: Item)
    ensures x.Arg? ==> Plain(items + [x]) == AddWord(Plain(items), x.word)
    ensures x.Red? ==> Plain(items + [x]) == Redir(Plain(items), x.r.file, x.r.dir == '<')
  {
    ItemsLast(items, x);
    if x.Arg? {
      WrapWord(Args(items), Reds(items), x.word);
    } else {
      assert (Reds(items) + [x.r])[..|Reds(items)|] == Reds(items);
    }
  }

  /** Redirections after some items wrap what the items mean. */
  lemma {:induction false} PlainReds(items: seq<Item>, rs: seq<Redirection>)
    ensures Plain(items + ItemsOf(rs)) == Wrap(Plain(items), rs) && Args(items + ItemsOf(rs)) == Args(items)
  {
    if rs == [] {
      assert items + ItemsOf(rs) == items;
    } else {
      var n := |rs| - 1;
      PlainReds(items, rs[..n]);
      var x := items + ItemsOf(rs[..n]);
      assert items + ItemsOf(rs) == x + [Red(rs[n])];
      PlainLast(x, Red(rs[n]));
      ItemsLast(x, Red(rs[n]));
    }
  }

  lemma {:induction false} FlatReds(rs: seq<Redirection>)
    ensures FlatItems(ItemsOf(rs)) == FlatRedirs(rs)
  {
    if rs != [] {
      FlatReds(rs[1..]);
      assert ItemsOf(rs)[1..] == ItemsOf(rs[1..]);
    }
  }

  lemma {:induction false} FlatBoth(a: seq<Item>, b: seq<Item>)
    ensures FlatItems(a + b) == FlatItems(a) + FlatItems(b)
  {
    if a == [] {
      assert a + b == b;
    } else {
      hide FlatItem;
      FlatBoth(a[1..], b);
      assert (a + b)[1..] == a[1..] + b;
      Assoc(FlatItem(a[0]), FlatItems(a[1..]), FlatItems(b));
    }
  }

  lemma {:induction false} ArgsGrow(a: seq<Item>, b: seq<Item>)
    ensures |Args(a)| <= |Args(a + b)|
  {
    if b == [] {
      assert a + b == a;
    } else {
      ArgsGrow(a, b[..|b| - 1]);
      ItemsLast(a + b[..|b| - 1], b[|b| - 1]);
      assert a + b == a + b[..|b| - 1] + [b[|b| - 1]];
    }
  }

  // Redirections -------------------------------------------------------------------------------------------

  /** A parse to `c` that leaves the tokens `rest`. */
  predicate Gives(r: Parsed, c: Cmd<string>, rest: seq<Tok>) {
    r.Ok? && r.cmd == c && Lex(r.rest) == rest
  }

  lemma RedirsDone(c: Cmd<string>, s: string)
    requires !IsRedir(Lex(s))
    ensures Gives(ParseRedirs(c, s), c, Lex(s))
  {
    LexPeek(s);
    LexSkip(s);
  }

  /** One turn of parseredirs's loop. */
  lemma RedirTurn(c: Cmd<string>, s: string) returns (more: string)
    requires IsRedir(Lex(s))
    ensures |Lex(s)| > 1 && Lex(s)[1].Word? ==>
              && |more| < |s| && Lex(more) == Lex(s)[2..]
              && ParseRedirs(c, s) == ParseRedirs(Redir(c, Lex(s)[1].text, Lex(s)[0] == Sym('<')), more)
    ensures ParseRedirs(c, s).Ok? ==> |Lex(s)| > 1 && Lex(s)[1].Word?
  {
    LexPeek(s);
    LexToken(s);
    var t := GetToken(s);
    LexToken(t.rest);
    more := GetToken(t.rest).rest;
  }

  /** Tokens that begin with a redirection. */
  lemma RedirFirst(rs: seq<Redirection>, rest: seq<Tok>)
    requires rs != [] && GoodDir(rs[0])
    ensures var ts := FlatRedirs(rs) + rest;
            && IsRedir(ts) && ts[0] == Sym(rs[0].dir) && |ts| > 1 && ts[1] == Word(rs[0].file)
            && ts[2..] == FlatRedirs(rs[1..]) + rest
  {
    assert FlatRedirs(rs) == FlatRedir(rs[0]) + FlatRedirs(rs[1..]);
    Assoc(FlatRedir(rs[0]), FlatRedirs(rs[1..]), rest);
  }

  lemma {:induction false} RedirsComplete(c: Cmd<string>, rs: seq<Redirection>, rest: seq<Tok>, s: string)
    requires Lex(s) == FlatRedirs(rs) + rest && !IsRedir(rest) && forall k :: 0 <= k < |rs| ==> GoodDir(rs[k])
    ensures Gives(ParseRedirs(c, s), Wrap(c, rs), rest)
    decreases |rs|
  {
    if rs == [] {
      hide Lex, ParseRedirs;
      assert FlatRedirs(rs) + rest == rest;
      RedirsDone(c, s);
    } else {
      hide *;
      RedirFirst(rs, rest);
      var more := RedirTurn(c, s);
      var d := Redir(c, rs[0].file, rs[0].dir == '<');
      RedirsComplete(d, rs[1..], rest, more);
      WrapFirst(c, rs[0], rs[1..]);
      assert [rs[0]] + rs[1..] == rs;
    }
  }

  lemma {:induction false} WrapFirst(c: Cmd<string>, r: Redirection, rs: seq<Redirection>)
    ensures Wrap(c, [r] + rs) == Wrap(Redir(c, r.file, r.dir == '<'), rs)
  {
    if rs == [] {
      assert ([r] + rs)[..0] == [];
    } else {
      WrapFirst(c, r, rs[..|rs| - 1]);
      assert ([r] + rs)[..|rs|] == [r] + rs[..|rs| - 1];
    }
  }

  lemma {:induction false} RedirsSound(c: Cmd<string>, s: string) returns (rs: seq<Redirection>)
    requires ParseRedirs(c, s).Ok?
    ensures forall k :: 0 <= k < |rs| ==> GoodDir(rs[k])
    ensures Lex(s) == FlatRedirs(rs) + Lex(ParseRedirs(c, s).rest) && ParseRedirs(c, s).cmd == Wrap(c, rs)
    decreases |s|
  {
    hide Lex, ParseRedirs;
    if !IsRedir(Lex(s)) {
      RedirsDone(c, s);
      rs := [];
    } else {
      var more := RedirTurn(c, s);
      var r := Redirection(Lex(s)[0].c, Lex(s)[1].text);
      var tail := RedirsSound(Redir(c, r.file, r.dir == '<'), more);
      rs := [r] + tail;
      WrapFirst(c, r, tail);
      assert Lex(s) == FlatRedir(r) + Lex(s)[2..];
    }
  }

  // Simple commands ------------------------------------------------------------------------------------------

  /** One turn of parseexec's loop. */
  lemma ArgTurn(c: Cmd<string>, n: nat, s: string)
    ensures Stops(Lex(s)) ==> Gives(ParseArgs(c, n, s), c, Lex(s))
    ensures !Stops(Lex(s)) ==> Lex(s) != []
    ensures !Stops(Lex(s)) ==>
              var w, more := GetToken(s).text, GetToken(s).rest;
              && |more| < |s| && Lex(more) == Lex(s)[1..] && (Lex(s)[0].Word? ==> w == Lex(s)[0].text)
              && var r := ParseRedirs(AddWord(c, w), more);
                 if Lex(s)[0].Word? && n + 1 < MAXARGS && r.Ok?
                 then ParseArgs(c, n, s) == ParseArgs(r.cmd, n + 1, r.rest)
                 else ParseArgs(c, n, s).Panic?
  {
    LexPeek(s);
    LexSkip(s);
    LexToken(s);
  }

  /** The redirections at the head of some items. */
  function Lead(items: seq<Item>): (rs: seq<Redirection>)
    ensures |rs| <= |items| && (|rs| == |items| || items[|rs|].Arg?)
  {
    if items == [] || items[0].Arg? then [] else [items[0].r] + Lead(items[1..])
  }

  predicate GoodItems(items: seq<Item>) {
    forall k :: 0 <= k < |items| && items[k].Red? ==> GoodDir(items[k].r)
  }

  lemma {:induction false} LeadIs(items: seq<Item>)
    ensures items[..|Lead(items)|] == ItemsOf(Lead(items))
  {
    if items != [] && items[0].Red? {
      LeadIs(items[1..]);
    }
  }

  lemma LeadFlat(items: seq<Item>)
    requires GoodItems(items)
    ensures var rs := Lead(items);
            && items[..|rs|] == ItemsOf(rs) && (forall i :: 0 <= i < |rs| ==> GoodDir(rs[i]))
            && FlatItems(items) == FlatRedirs(rs) + FlatItems(items[|rs|..])
  {
    var rs := Lead(items);
    LeadIs(items);
    hide Lead, FlatItems, FlatRedirs;
    FlatBoth(ItemsOf(rs), items[|rs|..]);
    FlatReds(rs);
    assert items == ItemsOf(rs) + items[|rs|..];
    forall i | 0 <= i < |rs| ensures GoodDir(rs[i]) {
      assert items[i] == ItemsOf(rs)[i];
    }
  }

  /** What comes after redirections is no redirection. */
  lemma TailNoRedir(items: seq<Item>, rest: seq<Tok>)
    requires (items == [] || items[0].Arg?) && Stops(rest)
    ensures !IsRedir(FlatItems(items) + rest)
  {
  }

  lemma LeadComplete(done: seq<Item>, items: seq<Item>, rest: seq<Tok>, s: string)
    requires Lex(s) == FlatItems(items) + rest && Stops(rest) && GoodItems(items)
    ensures var k := |Lead(items)|;
            Gives(ParseRedirs(Plain(done), s), Plain(done + items[..k]), FlatItems(items[k..]) + rest)
  {
    hide *;
    var rs := Lead(items);
    var tail := FlatItems(items[|rs|..]) + rest;
    LeadFlat(items);
    PlainReds(done, rs);
    TailNoRedir(items[|rs|..], rest);
    Assoc(FlatRedirs(rs), FlatItems(items[|rs|..]), rest);
    RedirsComplete(Plain(done), rs, tail, s);
  }

  lemma LeadArgs(done: seq<Item>, items: seq<Item>)
    ensures var k := |Lead(items)|; var d := done + items[..k];
            Args(d) == Args(done) && d + items[k..] == done + items
  {
    hide *;
    LeadIs(items);
    PlainReds(done, Lead(items));
  }

  lemma Assoc<T>(a: seq<T>, b: seq<T>, c: seq<T>)
    ensures a + b + c == a + (b + c)
  {
  }

  /** A word and the redirections after it. */
  lemma ArgComplete(done: seq<Item>, items: seq<Item>, rest: seq<Tok>, s: string) returns (more: string)
    requires items != [] && items[0].Arg? && Lex(s) == FlatItems(items) + rest && Stops(rest)
    requires GoodItems(items) && |Args(done)| + 1 < MAXARGS
    ensures var tail := items[1..]; var k := |Lead(tail)|; var d := done + [items[0]] + tail[..k];
            && Lex(more) == FlatItems(tail[k..]) + rest
            && ParseArgs(Plain(done), |Args(done)|, s) == ParseArgs(Plain(d), |Args(done)| + 1, more)
  {
    var tail := items[1..];
    var after := GetToken(s).rest;
    WordFirst(items, rest, s);
    GoodTail(items);
    hide *;
    ArgTurn(Plain(done), |Args(done)|, s);
    PlainLast(done, items[0]);
    LeadComplete(done + [items[0]], tail, rest, after);
    more := ParseRedirs(Plain(done + [items[0]]), after).rest;
  }

  lemma WordFirst(items: seq<Item>, rest: seq<Tok>, s: string)
    requires items != [] && items[0].Arg? && Lex(s) == FlatItems(items) + rest
    ensures !Stops(Lex(s)) && Lex(s)[0] == Word(items[0].word) && Lex(s)[1..] == FlatItems(items[1..]) + rest
  {
    hide Lex, Stops;
    assert FlatItems(items) == [Word(items[0].word)] + FlatItems(items[1..]);
    hide FlatItems;
    Assoc([Word(items[0].word)], FlatItems(items[1..]), rest);
    WordGoesOn(Lex(s));
  }

  lemma WordGoesOn(ts: seq<Tok>)
    requires ts != [] && ts[0].Word?
    ensures !Stops(ts)
  {
  }

  /** The words counted after a word and redirections. */
  lemma ArgCount(done: seq<Item>, items: seq<Item>)
    requires items != [] && items[0].Arg?
    ensures var tail := items[1..]; var k := |Lead(tail)|; var d := done + [items[0]] + tail[..k];
            && d + tail[k..] == done + items && |Args(d)| == |Args(done)| + 1 <= |Args(done + items)|
  {
    hide *;
    ItemsLast(done, items[0]);
    LeadArgs(done + [items[0]], items[1..]);
    assert done + [items[0]] + items[1..] == done + items;
    ArgsGrow(done + [items[0]], items[1..]);
  }

  lemma {:induction false} ArgsComplete(done: seq<Item>, items: seq<Item>, rest: seq<Tok>, s: string)
    requires (items == [] || items[0].Arg?) && Lex(s) == FlatItems(items) + rest && Stops(rest)
    requires GoodItems(items) && |Args(done + items)| < MAXARGS
    ensures Gives(ParseArgs(Plain(done), |Args(done)|, s), Plain(done + items), rest)
    decreases |items|
  {
    hide Lex, ParseArgs, GetToken, Plain, Args;
    if items == [] {
      ArgTurn(Plain(done), |Args(done)|, s);
      assert FlatItems(items) + rest == rest && done + items == done;
    } else {
      ArgCount(done, items);
      var more := ArgComplete(done, items, rest, s);
      var tail := items[1..];
      var k := |Lead(tail)|;
      ArgsComplete(done + [items[0]] + tail[..k], tail[k..], rest, more);
    }
  }

  lemma ExecIs(s: string)
    requires !Peek(s, {'('})
    ensures var r := ParseRedirs(Exec([]), s);
            ParseExec(s) == if r.Panic? then r else ParseArgs(r.cmd, 0, r.rest)
  {
  }

  lemma NotBlock(items: seq<Item>, rest: seq<Tok>, s: string)
    requires Lex(s) == FlatItems(items) + rest && Stops(rest) && GoodItems(items)
    ensures !Peek(s, {'('})
  {
    LexPeek(s);
  }

  lemma NoItems()
    ensures Plain([]) == Exec([]) && Args([]) == []
  {
  }

  lemma SimpleComplete(items: seq<Item>, rest: seq<Tok>, s: string)
    requires Lex(s) == FlatItems(items) + rest && Stops(rest) && GoodItems(items) && |Args(items)| < MAXARGS
    ensures Gives(ParseExec(s), Plain(items), rest)
  {
    hide Lex, ParseRedirs, ParseArgs, Peek, ParseExec, FlatItems, Plain, Args, Lead;
    NoItems();
    NotBlock(items, rest, s);
    ExecIs(s);
    var k := |Lead(items)|;
    assert [] + items == items && [] + items[..k] == items[..k];
    LeadComplete([], items, rest, s);
    LeadArgs([], items);
    ArgsComplete(items[..k], items[k..], rest, ParseRedirs(Exec([]), s).rest);
  }

  lemma GoodBoth(a: seq<Item>, b: seq<Item>)
    requires GoodItems(a) && GoodItems(b)
    ensures GoodItems(a + b)
  {
  }

  lemma GoodTail(items: seq<Item>)
    requires GoodItems(items) && items != []
    ensures GoodItems(items[1..])
  {
  }

  /** A word and the redirections after it, read. */
  lemma ArgSound(done: seq<Item>, s: string) returns (w: Item, rs: seq<Redirection>, more: string)
    requires ParseArgs(Plain(done), |Args(done)|, s).Ok? && !Stops(Lex(s))
    ensures w.Arg? && |more| < |s| && |Args(done)| + 1 < MAXARGS && forall k :: 0 <= k < |rs| ==> GoodDir(rs[k])
    ensures Lex(s) == [Word(w.word)] + (FlatRedirs(rs) + Lex(more))
    ensures var d := done + [w] + ItemsOf(rs);
            |Args(d)| == |Args(done)| + 1
            && ParseArgs(Plain(done), |Args(done)|, s) == ParseArgs(Plain(d), |Args(d)|, more)
  {
    hide *;
    ArgTurn(Plain(done), |Args(done)|, s);
    var after := GetToken(s).rest;
    w := Arg(Lex(s)[0].text);
    PlainLast(done, w);
    ItemsLast(done, w);
    rs := RedirsSound(Plain(done + [w]), after);
    PlainReds(done + [w], rs);
    more := ParseRedirs(Plain(done + [w]), after).rest;
  }

  lemma {:induction false} ArgsSound(done: seq<Item>, s: string) returns (items: seq<Item>)
    requires ParseArgs(Plain(done), |Args(done)|, s).Ok? && |Args(done)| < MAXARGS
    ensures var r := ParseArgs(Plain(done), |Args(done)|, s);
            && GoodItems(items) && |Args(done + items)| < MAXARGS
            && Lex(s) == FlatItems(items) + Lex(r.rest) && r.cmd == Plain(done + items)
    decreases |s|
  {
    hide Lex, ParseArgs, ParseRedirs, GetToken, Plain, Args, Stops;
    if Stops(Lex(s)) {
      ArgTurn(Plain(done), |Args(done)|, s);
      items := [];
      assert done + items == done;
    } else {
      hide *;
      var w, rs, more := ArgSound(done, s);
      var tail := ArgsSound(done + [w] + ItemsOf(rs), more);
      items := [w] + (ItemsOf(rs) + tail);
      assert done + items == done + [w] + ItemsOf(rs) + tail;
      ArgItems(w, rs, tail, Lex(ParseArgs(Plain(done), |Args(done)|, s).rest));
    }
  }

  lemma ArgItems(w: Item, rs: seq<Redirection>, tail: seq<Item>, rest: seq<Tok>)
    requires w.Arg? && (forall k :: 0 <= k < |rs| ==> GoodDir(rs[k])) && GoodItems(tail)
    ensures var items := [w] + (ItemsOf(rs) + tail);
            && GoodItems(items)
            && FlatItems(items) + rest == [Word(w.word)] + (FlatRedirs(rs) + (FlatItems(tail) + rest))
  {
    var items := [w] + (ItemsOf(rs) + tail);
    assert items[1..] == ItemsOf(rs) + tail;
    assert FlatItems(items) == [Word(w.word)] + FlatItems(ItemsOf(rs) + tail);
    GoodBoth(ItemsOf(rs), tail);
    GoodBoth([w], ItemsOf(rs) + tail);
    hide *;
    FlatBoth(ItemsOf(rs), tail);
    FlatReds(rs);
    Assoc([Word(w.word)], FlatRedirs(rs) + FlatItems(tail), rest);
    Assoc(FlatRedirs(rs), FlatItems(tail), rest);
  }

  lemma RedItems(rs: seq<Redirection>)
    requires forall k :: 0 <= k < |rs| ==> GoodDir(rs[k])
    ensures var a := ItemsOf(rs);
            Plain(a) == Wrap(Exec([]), rs) && Args(a) == [] && FlatItems(a) == FlatRedirs(rs) && GoodItems(a)
  {
    assert Plain([]) == Exec([]) && [] + ItemsOf(rs) == ItemsOf(rs);
    PlainReds([], rs);
    FlatReds(rs);
  }

  lemma SimpleSound(s: string) returns (items: seq<Item>)
    requires ParseExec(s).Ok? && !Peek(s, {'('})
    ensures GoodItems(items) && |Args(items)| < MAXARGS && Lex(s) == FlatItems(items) + Lex(ParseExec(s).rest)
    ensures ParseExec(s).cmd == Plain(items)
  {
    ExecIs(s);
    hide *;
    var rs := RedirsSound(Exec([]), s);
    RedItems(rs);
    var b := ArgsSound(ItemsOf(rs), ParseRedirs(Exec([]), s).rest);
    items := ItemsOf(rs) + b;
    FlatBoth(ItemsOf(rs), b);
    Assoc(FlatRedirs(rs), FlatItems(b), Lex(ParseExec(s).rest));
    GoodBoth(ItemsOf(rs), b);
  }

  // Elements, pipelines, lines ---------------------------------------------------------------------------------

  /** What may follow a pipeline, and a line. */
  predicate PipelineStops(ts: seq<Tok>) {
    Stops(ts) && (ts == [] || ts[0] != Sym('|'))
  }

  predicate LineStops(ts: seq<Tok>) {
    ts == [] || ts[0] == Sym(')')
  }

  lemma BlockIs(s: string)
    requires Peek(s, {'('})
    ensures var r := ParseLine(GetToken(s).rest);
            ParseExec(s) == if r.Panic? then r
                            else if !Peek(r.rest, {')'}) then Panic("syntax - missing )")
                            else ParseRedirs(r.cmd, GetToken(r.rest).rest)
  {
  }

  /** The symbol at the head of a text, and the tokens after it. */
  lemma SymFirst(s: string, c: char, ts: seq<Tok>)
    requires c in {'(', ')', '|', '&', ';'} && Lex(s) == [Sym(c)] + ts
    ensures Peek(s, {c}) && Lex(GetToken(s).rest) == ts
  {
    hide Lex, Peek, GetToken;
    LexPeek(s);
    LexToken(s);
  }

  lemma NoSym(s: string, c: char)
    requires c in {'(', ')', '|', '&', ';'} && (Lex(s) == [] || Lex(s)[0] != Sym(c))
    ensures !Peek(s, {c})
  {
    hide Lex, Peek;
    LexPeek(s);
  }

  lemma {:induction false} ElementComplete(e: Element, rest: seq<Tok>, s: string)
    requires Lex(s) == FlatElement(e) + rest && Stops(rest) && GoodElement(e)
    ensures Gives(ParseExec(s), ElementCmd(e), rest)
    decreases e, 0
  {
    match e
    case Simple(items) => SimpleComplete(items, rest, s);
    case Block(l, rs) =>
      var after := FlatRedirs(rs) + rest;
      var inside := FlatLine(l) + ([Sym(')')] + after);
      BlockFlat(l, rs, rest);
      NoRedirStops(rest);
      hide *;
      SymFirst(s, '(', inside);
      BlockIs(s);
      CloseStops(after);
      LineComplete(l, [Sym(')')] + after, GetToken(s).rest);
      var r := ParseLine(GetToken(s).rest);
      SymFirst(r.rest, ')', after);
      RedirsComplete(LineCmd(l), rs, rest, GetToken(r.rest).rest);
  }

  lemma BlockFlat(l: Line, rs: seq<Redirection>, rest: seq<Tok>)
    ensures FlatElement(Block(l, rs)) + rest == [Sym('(')] + (FlatLine(l) + ([Sym(')')] + (FlatRedirs(rs) + rest)))
  {
  }

  lemma NoRedirStops(ts: seq<Tok>)
    requires Stops(ts)
    ensures !IsRedir(ts)
  {
  }

  lemma CloseStops(ts: seq<Tok>)
    ensures LineStops([Sym(')')] + ts)
  {
  }

  lemma PipeIs(s: string)
    requires ParseExec(s).Ok?
    ensures var l := ParseExec(s);
            if !Peek(l.rest, {'|'}) then ParsePipe(s) == l
            else var r := ParsePipe(GetToken(l.rest).rest);
                 ParsePipe(s) == if r.Panic? then r else Ok(Pipe(l.cmd, r.cmd), r.rest)
  {
  }

  lemma {:induction false} PipelineComplete(p: Pipeline, rest: seq<Tok>, s: string)
    requires Lex(s) == FlatPipeline(p) + rest && PipelineStops(rest) && GoodPipeline(p)
    ensures Gives(ParsePipe(s), PipelineCmd(p), rest)
    decreases p, 0
  {
    hide Lex, ParseExec, ParsePipe, Peek, GetToken;
    match p
    case One(e) =>
      ElementComplete(e, rest, s);
      PipeIs(s);
      NoSym(ParseExec(s).rest, '|');
    case Piped(e, more) =>
      var after := FlatPipeline(more) + rest;
      assert FlatPipeline(p) + rest == FlatElement(e) + ([Sym('|')] + after);
      ElementComplete(e, [Sym('|')] + after, s);
      PipeIs(s);
      var l := ParseExec(s);
      SymFirst(l.rest, '|', after);
      PipelineComplete(more, rest, GetToken(l.rest).rest);
  }

  lemma {:induction false} BackedFirst(c: Cmd<string>, n: nat)
    ensures Backed(Back(c), n) == Backed(c, n + 1)
  {
    if n > 0 {
      BackedFirst(c, n - 1);
    }
  }

  lemma BacksIs(c: Cmd<string>, s: string)
    ensures ParseBacks(c, s) == if Peek(s, {'&'}) then ParseBacks(Back(c), GetToken(s).rest) else Ok(c, Skip(s))
  {
  }

  lemma {:induction false} BacksComplete(c: Cmd<string>, n: nat, rest: seq<Tok>, s: string)
    requires Lex(s) == Amps(n) + rest && (rest == [] || rest[0] != Sym('&'))
    ensures Gives(ParseBacks(c, s), Backed(c, n), rest)
    decreases n
  {
    hide Lex, ParseBacks, Peek, GetToken, Skip;
    BacksIs(c, s);
    if n == 0 {
      assert Amps(n) + rest == rest;
      NoSym(s, '&');
      LexSkip(s);
    } else {
      assert Amps(n) + rest == [Sym('&')] + (Amps(n - 1) + rest);
      SymFirst(s, '&', Amps(n - 1) + rest);
      BacksComplete(Back(c), n - 1, rest, GetToken(s).rest);
      BackedFirst(c, n - 1);
    }
  }

  lemma LineIs(s: string)
    requires ParsePipe(s).Ok?
    ensures var p := ParsePipe(s); var l := ParseBacks(p.cmd, p.rest);
            if !Peek(l.rest, {';'}) then ParseLine(s) == l
            else var r := ParseLine(GetToken(l.rest).rest);
                 ParseLine(s) == if r.Panic? then r else Ok(List(l.cmd, r.cmd), r.rest)
  {
  }

  /** A pipeline and its ampersands. */
  lemma {:induction false} HeadComplete(p: Pipeline, n: nat, rest: seq<Tok>, s: string)
    requires Lex(s) == FlatPipeline(p) + (Amps(n) + rest) && GoodPipeline(p)
    requires rest == [] || rest[0] == Sym(')') || rest[0] == Sym(';')
    ensures ParsePipe(s).Ok?
    ensures Gives(ParseBacks(ParsePipe(s).cmd, ParsePipe(s).rest), Backed(PipelineCmd(p), n), rest)
    decreases p, 1
  {
    assert PipelineStops(Amps(n) + rest);
    hide Lex, ParsePipe, ParseBacks, FlatPipeline, GoodPipeline;
    PipelineComplete(p, Amps(n) + rest, s);
    BacksComplete(PipelineCmd(p), n, rest, ParsePipe(s).rest);
  }

  lemma {:induction false} LineComplete(l: Line, rest: seq<Tok>, s: string)
    requires Lex(s) == FlatLine(l) + rest && LineStops(rest) && GoodLine(l)
    ensures Gives(ParseLine(s), LineCmd(l), rest)
    decreases l, 0
  {
    hide Lex, ParsePipe, ParseBacks, ParseLine, Peek, GetToken;
    match l
    case Last(p, n) =>
      Assoc(FlatPipeline(p), Amps(n), rest);
      HeadComplete(p, n, rest, s);
      LineIs(s);
      NoSym(ParseBacks(ParsePipe(s).cmd, ParsePipe(s).rest).rest, ';');
    case Then(p, n, next) =>
      var after := FlatLine(next) + rest;
      assert FlatLine(l) + rest == FlatPipeline(p) + (Amps(n) + ([Sym(';')] + after));
      HeadComplete(p, n, [Sym(';')] + after, s);
      LineIs(s);
      var h := ParseBacks(ParsePipe(s).cmd, ParsePipe(s).rest);
      SymFirst(h.rest, ';', after);
      LineComplete(next, rest, GetToken(h.rest).rest);
  }

  lemma SymAt(s: string, c: char)
    requires c in {'(', ')', '|', '&', ';'} && Peek(s, {c})
    ensures Lex(s) == [Sym(c)] + Lex(GetToken(s).rest)
  {
    hide Lex, Peek, GetToken;
    LexPeek(s);
    LexToken(s);
  }

  lemma {:induction false} ElementSound(s: string) returns (e: Element)
    requires ParseExec(s).Ok?
    ensures GoodElement(e) && Lex(s) == FlatElement(e) + Lex(ParseExec(s).rest) && ElementCmd(e) == ParseExec(s).cmd
    decreases |s|, 0
  {
    if Peek(s, {'('}) {
      BlockIs(s);
      BlockShorter(s);
      SymAt(s, '(');
      var l := LineSound(GetToken(s).rest);
      var r := ParseLine(GetToken(s).rest);
      SymAt(r.rest, ')');
      var rs := RedirsSound(r.cmd, GetToken(r.rest).rest);
      e := Block(l, rs);
      BlockFlat(l, rs, Lex(ParseExec(s).rest));
    } else {
      var items := SimpleSound(s);
      e := Simple(items);
    }
  }

  lemma BlockShorter(s: string)
    requires Peek(s, {'('})
    ensures |GetToken(s).rest| < |s|
  {
  }

  lemma OneParts(e: Element)
    ensures GoodPipeline(One(e)) == GoodElement(e) && PipelineCmd(One(e)) == ElementCmd(e)
    ensures FlatPipeline(One(e)) == FlatElement(e)
  {
  }

  lemma PipedParts(e: Element, more: Pipeline, rest: seq<Tok>)
    ensures var p := Piped(e, more);
            && GoodPipeline(p) == (GoodElement(e) && GoodPipeline(more))
            && PipelineCmd(p) == Pipe(ElementCmd(e), PipelineCmd(more))
            && FlatPipeline(p) + rest == FlatElement(e) + ([Sym('|')] + (FlatPipeline(more) + rest))
  {
    Shell.Regroup(FlatElement(e), [Sym('|')], FlatPipeline(more), rest);
  }

  lemma PipeShorter(s: string)
    requires ParsePipe(s).Ok?
    ensures var l := ParseExec(s); l.Ok? && (Peek(l.rest, {'|'}) ==> |GetToken(l.rest).rest| < |s|)
  {
  }

  lemma {:induction false} PipelineSound(s: string) returns (p: Pipeline)
    requires ParsePipe(s).Ok?
    ensures GoodPipeline(p) && Lex(s) == FlatPipeline(p) + Lex(ParsePipe(s).rest) && PipelineCmd(p) == ParsePipe(s).cmd
    decreases |s|, 1
  {
    var l := ParseExec(s);
    PipeShorter(s);
    PipeIs(s);
    hide *;
    var e := ElementSound(s);
    if Peek(l.rest, {'|'}) {
      SymAt(l.rest, '|');
      var more := PipelineSound(GetToken(l.rest).rest);
      p := Piped(e, more);
      PipedParts(e, more, Lex(ParsePipe(s).rest));
    } else {
      p := One(e);
      OneParts(e);
    }
  }

  lemma {:induction false} BacksSound(c: Cmd<string>, s: string) returns (n: nat)
    ensures Lex(s) == Amps(n) + Lex(ParseBacks(c, s).rest) && ParseBacks(c, s).cmd == Backed(c, n)
    decreases |s|
  {
    BacksIs(c, s);
    if Peek(s, {'&'}) {
      SymAt(s, '&');
      n := BacksSound(Back(c), GetToken(s).rest);
      BackedFirst(c, n);
      n := n + 1;
    } else {
      LexSkip(s);
      n := 0;
    }
  }

  lemma LastParts(p: Pipeline, n: nat, rest: seq<Tok>)
    ensures var l := Last(p, n);
            && GoodLine(l) == GoodPipeline(p) && LineCmd(l) == Backed(PipelineCmd(p), n)
            && FlatLine(l) + rest == FlatPipeline(p) + (Amps(n) + rest)
  {
    Assoc(FlatPipeline(p), Amps(n), rest);
  }

  lemma ThenParts(p: Pipeline, n: nat, next: Line, rest: seq<Tok>)
    ensures var l := Then(p, n, next);
            && GoodLine(l) == (GoodPipeline(p) && GoodLine(next))
            && LineCmd(l) == List(Backed(PipelineCmd(p), n), LineCmd(next))
            && FlatLine(l) + rest == FlatPipeline(p) + (Amps(n) + ([Sym(';')] + (FlatLine(next) + rest)))
  {
    Assoc(FlatPipeline(p), Amps(n), [Sym(';')]);
    Shell.Regroup(FlatPipeline(p) + Amps(n), [Sym(';')], FlatLine(next), rest);
    Assoc(FlatPipeline(p), Amps(n), [Sym(';')] + (FlatLine(next) + rest));
  }

  lemma LineShorter(s: string)
    requires ParseLine(s).Ok?
    ensures var p := ParsePipe(s);
            p.Ok? && var h := ParseBacks(p.cmd, p.rest); Peek(h.rest, {';'}) ==> |GetToken(h.rest).rest| < |s|
  {
  }

  lemma {:induction false} LineSound(s: string) returns (l: Line)
    requires ParseLine(s).Ok?
    ensures GoodLine(l) && Lex(s) == FlatLine(l) + Lex(ParseLine(s).rest) && LineCmd(l) == ParseLine(s).cmd
    decreases |s|, 2
  {
    var p := ParsePipe(s);
    LineShorter(s);
    LineIs(s);
    hide *;
    var pipe := PipelineSound(s);
    var n := BacksSound(p.cmd, p.rest);
    var h := ParseBacks(p.cmd, p.rest);
    if Peek(h.rest, {';'}) {
      SymAt(h.rest, ';');
      var next := LineSound(GetToken(h.rest).rest);
      l := Then(pipe, n, next);
      ThenParts(pipe, n, next, Lex(ParseLine(s).rest));
    } else {
      l := Last(pipe, n);
      LastParts(pipe, n, Lex(ParseLine(s).rest));
    }
  }

  // Where a parse function succeeds, it has read what it is named for.

  lemma ReadsElement(s: string)
    requires ParseExec(s).Ok?
    ensures IsElement(Lex(s), ParseExec(s).cmd, Lex(ParseExec(s).rest))
  {
    hide Lex, ParseExec;
    var e := ElementSound(s);
  }

  lemma ReadsPipeline(s: string)
    requires ParsePipe(s).Ok?
    ensures IsPipeline(Lex(s), ParsePipe(s).cmd, Lex(ParsePipe(s).rest))
  {
    hide Lex, ParsePipe;
    var p := PipelineSound(s);
  }

  lemma ReadsLine(s: string)
    requires ParseLine(s).Ok?
    ensures IsLine(Lex(s), ParseLine(s).cmd, Lex(ParseLine(s).rest))
  {
    hide Lex, ParseLine;
    var l := LineSound(s);
  }

  /** The parser accepts exactly the lines of the language, with their meaning. */
  lemma ParsesLanguage(s: string, c: Cmd<string>)
    ensures ParseCmd(s) == Ok(c, "") <==> Means(s, c)
  {
    if ParseCmd(s) == Ok(c, "") {
      var l := LineSound(s);
      LexSkip(ParseLine(s).rest);
      assert GoodLine(l) && FlatLine(l) == Lex(s) && LineCmd(l) == c;
    }
    if Means(s, c) {
      var l :| GoodLine(l) && FlatLine(l) == Lex(s) && LineCmd(l) == c;
      LineComplete(l, [], s);
      LexSkip(ParseLine(s).rest);
    }
  }
}
