/**
The language of the shell (user/sh.c) as a grammar: trees that say how a line is put together, blanks included, the text
of a tree and the command it stands for. The parser accepts exactly the texts of trees, and returns what they stand for.
*/
module ShellGrammar {
  import opened Param
  import opened ShellSpec

  /* ---------------- trees ---------------- */

  /** A word of a simple command, or a redirection, with the blanks in front of it and inside. */
  datatype Item = Word(gap: string, text: string) | Redirect(gap: string, op: string, gap': string, file: string)

  /** What parseexec reads: words and redirections in any order, or a block and the redirections after it. */
  datatype Unit = Simple(items: seq<Item>) | Block(gap: string, line: Line, gap': string, redirs: seq<Item>)

  datatype Pipeline = Alone(unit: Unit) | Piped(unit: Unit, gap: string, next: Pipeline)

  /** A pipeline, a & for each of amps, and perhaps a ; and another line. */
  datatype Line =
    | Last(pipe: Pipeline, amps: seq<string>)
    | Then(pipe: Pipeline, amps: seq<string>, gap: string, next: Line)

  predicate IsGap(g: string) { forall k :: 0 <= k < |g| ==> Blank(g[k]) }
  predicate IsOp(op: string) { op == "<" || op == ">" || op == ">>" }

  predicate GoodItem(x: Item)
  {
    match x
    case Word(g, w) => IsGap(g) && IsWord(w)
    case Redirect(g, op, g', f) => IsGap(g) && IsOp(op) && IsGap(g') && IsWord(f)
  }

  /** Every item is a good one, and a word is kept apart from what precedes it, which ends in a word. */
  predicate GoodItems(items: seq<Item>)
  {
    && (forall k :: 0 <= k < |items| ==> GoodItem(items[k]))
    && (forall k :: 0 < k < |items| && items[k].Word? ==> items[k].gap != [])
  }

  predicate NoWords(items: seq<Item>) { forall k :: 0 <= k < |items| ==> items[k].Redirect? }

  predicate GoodUnit(u: Unit)
  {
    match u
    case Simple(items) => GoodItems(items) && |WordsIn(items)| < MAXARGS
    case Block(g, l, g', rs) => IsGap(g) && GoodLine(l) && IsGap(g') && GoodItems(rs) && NoWords(rs)
  }

  predicate GoodPipe(p: Pipeline)
  {
    match p
    case Alone(u) => GoodUnit(u)
    case Piped(u, g, next) => GoodUnit(u) && IsGap(g) && GoodPipe(next)
  }

  predicate GoodLine(l: Line)
  {
    && GoodPipe(l.pipe) && (forall k :: 0 <= k < |l.amps| ==> IsGap(l.amps[k]))
    && (l.Then? ==> IsGap(l.gap) && GoodLine(l.next))
  }

  /* ---------------- their text ---------------- */

  function ItemText(x: Item): (s: string)
  {
    match x
    case Word(g, w) => g + w
    case Redirect(g, op, g', f) => g + (op + (g' + f))
  }

  function ItemsText(items: seq<Item>): (s: string)
  {
    if items == [] then [] else ItemText(items[0]) + ItemsText(items[1..])
  }

  function UnitText(u: Unit): (s: string)
  {
    match u
    case Simple(items) => ItemsText(items)
    case Block(g, l, g', rs) => g + ("(" + (LineText(l) + (g' + (")" + ItemsText(rs)))))
  }

  function PipeText(p: Pipeline): (s: string)
  {
    match p
    case Alone(u) => UnitText(u)
    case Piped(u, g, next) => UnitText(u) + (g + ("|" + PipeText(next)))
  }

  function AmpsText(amps: seq<string>): (s: string)
  {
    if amps == [] then [] else amps[0] + ("&" + AmpsText(amps[1..]))
  }

  function LineText(l: Line): (s: string)
  {
    PipeText(l.pipe) + (AmpsText(l.amps) + if l.Then? then l.gap + (";" + LineText(l.next)) else [])
  }

  /* ---------------- what they stand for ---------------- */

  function WordsIn(items: seq<Item>): (ws: seq<string>)
  {
    if items == [] then [] else (if items[0].Word? then [items[0].text] else []) + WordsIn(items[1..])
  }

  /** c with the redirections among the items around it, the first one innermost; >> is as >. */
  function Redirected(c: Cmd<string>, items: seq<Item>): (r: Cmd<string>)
    decreases |items|
  {
    if items == [] then c
    else Redirected(match items[0]
                    case Word(_, _) => c
                    case Redirect(_, op, _, f) => Redir(c, f, if op == "<" then In else Out), items[1..])
  }

  function UnitMeans(u: Unit): (c: Cmd<string>)
  {
    match u
    case Simple(items) => Redirected(Exec(WordsIn(items)), items)
    case Block(_, l, _, rs) => Redirected(LineMeans(l), rs)
  }

  /** a|b|c is a|(b|c). */
  function PipeMeans(p: Pipeline): (c: Cmd<string>)
  {
    match p
    case Alone(u) => UnitMeans(u)
    case Piped(u, _, next) => Pipe(UnitMeans(u), PipeMeans(next))
  }

  function InBack(c: Cmd<string>, n: nat): (r: Cmd<string>) { if n == 0 then c else Back(InBack(c, n - 1)) }

  /** & takes the pipeline before it, and ; what is before it and all that follows. */
  function LineMeans(l: Line): (c: Cmd<string>)
  {
    var b := InBack(PipeMeans(l.pipe), |l.amps|);
    if l.Then? then List(b, LineMeans(l.next)) else b
  }

  /** The line s is the text of l and perhaps blanks, and stands for c. */
  ghost predicate Denotes(l: Line, gap: string, s: string, c: Cmd<string>)
  {
    GoodLine(l) && IsGap(gap) && s == LineText(l) + gap && LineMeans(l) == c
  }

  /** The line s stands for c. */
  ghost predicate Says(s: string, c: Cmd<string>) { exists l, gap :: Denotes(l, gap, s, c) }

  /* ---------------- blanks ---------------- */

  lemma {:induction false} SkipGap(g: string, u: string)
    requires IsGap(g)
    ensures Skip(g + u) == Skip(u)
  {
    if g == [] {
      assert g + u == u;
    } else {
      assert (g + u)[1..] == g[1..] + u;
      SkipGap(g[1..], u);
    }
  }

  /** Parsing does not see the blanks in front. */
  lemma FrontBlanks(s: string, t: string, argc: nat, c: Cmd<string>)
    requires Skip(s) == Skip(t)
    ensures Next(s) == Next(t) && (forall toks :: Ahead(s, toks) == Ahead(t, toks)) && Redirs(s) == Redirs(t)
    ensures Args(s, argc) == Args(t, argc) && Backs(c, s) == Backs(c, t)
    ensures ParseExec(s) == ParseExec(t)
  {
    hide Skip, Wrap, ParseLine;
  }

  lemma FrontBlanksPipe(s: string, t: string)
    requires Skip(s) == Skip(t)
    ensures ParsePipe(s) == ParsePipe(t) && ParseLine(s) == ParseLine(t)
  {
    hide Skip, Next, Ahead, ParseExec, Backs, Args, Redirs;
    FrontBlanks(s, t, 0, Exec([]));
  }

  /** What may come after a simple command. */
  predicate Closed(u: string) { var t := Skip(u); t == [] || t[0] == '|' || t[0] == ')' || t[0] == '&' || t[0] == ';' }

  /* ---------------- every text is read as it is meant ---------------- */

  function RedirOf(x: Item): (rs: seq<Redirection<string>>)
  {
    match x
    case Word(_, _) => []
    case Redirect(_, op, _, f) => [To(f, if op == "<" then In else Out)]
  }

  function RedirsIn(items: seq<Item>): (rs: seq<Redirection<string>>)
  {
    if items == [] then [] else RedirOf(items[0]) + RedirsIn(items[1..])
  }

  lemma {:induction false} RedirectedIsWrap(c: Cmd<string>, items: seq<Item>, rs: seq<Redirection<string>>)
    ensures Redirected(Wrap(c, rs), items) == Wrap(c, rs + RedirsIn(items))
    decreases |items|
  {
    hide RedirsIn, ItemsText, ItemText, WordsIn;
    NoItems([]);
    if items == [] {
      assert rs + [] == rs;
    } else {
      FirstItem(items, []);
      var one := RedirOf(items[0]);
      RedirectedIsWrap(c, items[1..], rs + one);
      Joined(rs, one, RedirsIn(items[1..]));
      if items[0].Redirect? { assert (rs + one)[..|rs|] == rs; } else { assert rs + one == rs; }
    }
  }

  /** A word behind blanks. */
  lemma GapWord(g: string, w: string, u: string)
    requires IsGap(g) && IsWord(w) && (u == [] || !WordChar(u[0]))
    ensures Next(g + (w + u)) == Token(WORD, w, Skip(u)) && Skip(g + (w + u)) == w + u && WordChar((w + u)[0])
  {
    hide Skip, WordLen;
    SkipGap(g, w + u);
    assert (w + u)[0] == w[0];
    SkipNone(w + u);
    WordNext(w, u);
    FrontBlanks(g + (w + u), w + u, 0, Exec([]));
  }

  /** A symbol behind blanks. */
  lemma GapSymbol(g: string, c: char, u: string)
    requires IsGap(g) && Symbol(c) && (c == '>' ==> u == [] || u[0] != '>')
    ensures Next(g + ([c] + u)) == Token(c, [c], Skip(u)) && Skip(g + ([c] + u)) == [c] + u
  {
    hide Skip, WordLen;
    SkipGap(g, [c] + u);
    SkipNone([c] + u);
    SymbolNext(c, u);
    FrontBlanks(g + ([c] + u), [c] + u, 0, Exec([]));
  }

  lemma GapOp(g: string, op: string, u: string)
    requires IsGap(g) && IsOp(op) && (u == [] || u[0] != '>')
    ensures var t := Next(g + (op + u));
            && t.rest == Skip(u) && (t.kind == '<' <==> op == "<") && t.kind != END
            && Skip(g + (op + u)) == op + u && Ahead(g + (op + u), "<>")
  {
    hide Skip, WordLen;
    if op == ">>" {
      SkipGap(g, op + u);
      assert (op + u)[0] == '>' && (op + u)[1] == '>';
      SkipNone(op + u);
      assert (op + u)[2..] == u;
    } else {
      assert op == [op[0]];
      GapSymbol(g, op[0], u);
    }
  }

  /** The text of an item, in front of something that is no part of it. */
  lemma ItemFirst(x: Item, u: string)
    requires GoodItem(x)
    ensures var s := Skip(ItemText(x) + u);
            s != [] && if x.Word? then WordChar(s[0]) else s[0] == '<' || s[0] == '>'
    ensures x.Redirect? || x.gap != [] ==> (ItemText(x) + u) != [] && !WordChar((ItemText(x) + u)[0])
  {
    hide Skip;
    match x
    case Word(g, w) =>
      assert ItemText(x) + u == g + (w + u);
      SkipGap(g, w + u);
      assert (w + u)[0] == w[0];
      SkipNone(w + u);
      if g != [] { assert (g + (w + u))[0] == g[0]; }
    case Redirect(g, op, g', f) =>
      assert ItemText(x) + u == g + (op + (g' + f + u));
      SkipGap(g, op + (g' + f + u));
      assert (op + (g' + f + u))[0] == op[0];
      SkipNone(op + (g' + f + u));
      if g != [] { assert (g + (op + (g' + f + u)))[0] == g[0]; }
      else { assert g + (op + (g' + f + u)) == op + (g' + f + u); }
  }

  lemma ClosedFirst(u: string)
    requires Closed(u)
    ensures u == [] || !WordChar(u[0])
    ensures !Ahead(u, "<>") && !Ahead(u, "(") && (Ahead(u, "|)&;") <==> Skip(u) != [])
  {
  }

  /** A row of items, from its first on. */
  lemma FirstItem(items: seq<Item>, u: string)
    requires items != []
    ensures ItemsText(items) + u == ItemText(items[0]) + (ItemsText(items[1..]) + u)
    ensures WordsIn(items) == (if items[0].Word? then [items[0].text] else []) + WordsIn(items[1..])
    ensures RedirsIn(items) == RedirOf(items[0]) + RedirsIn(items[1..])
  {
    hide ItemText;
    Assoc(ItemText(items[0]), ItemsText(items[1..]), u);
  }

  lemma NoItems(u: string)
    ensures ItemsText([]) + u == u && WordsIn([]) == [] && RedirsIn([]) == []
  {
  }

  /** What follows an item begins with no word character. */
  lemma Apart(items: seq<Item>, k: nat, u: string)
    requires GoodItems(items) && 0 < k <= |items| && Closed(u)
    ensures var s := ItemsText(items[k..]) + u; s == [] || !WordChar(s[0])
  {
    hide Skip, Closed, ItemsText, ItemText, GoodItem, WordsIn, RedirsIn;
    ClosedFirst(u);
    if k < |items| {
      var more := ItemsText(items[k..][1..]) + u;
      assert items[k..][0] == items[k];
      FirstItem(items[k..], u);
      ItemFirst(items[k], more);
    } else {
      assert items[k..] == [];
      NoItems(u);
    }
  }

  /** The redirections at the front, and the items after them. */
  function Leading(items: seq<Item>): (n: nat)
    ensures n <= |items| && (forall k :: 0 <= k < n ==> items[k].Redirect?) && (n < |items| ==> items[n].Word?)
  {
    if items != [] && items[0].Redirect? then 1 + Leading(items[1..]) else 0
  }

  lemma GoodTail(items: seq<Item>, k: nat)
    requires GoodItems(items) && k <= |items|
    ensures GoodItems(items[k..])
  {
    forall j | 0 <= j < |items[k..]| ensures GoodItem(items[k..][j]) { assert items[k..][j] == items[k + j]; }
    forall j | 0 < j < |items[k..]| && items[k..][j].Word? ensures items[k..][j].gap != [] {
      assert items[k..][j] == items[k + j];
    }
  }

  lemma {:induction false} LeadingRedirs(items: seq<Item>, u: string)
    requires GoodItems(items) && Closed(u)
    ensures var n := Leading(items);
            Redirs(ItemsText(items) + u) == Some((RedirsIn(items[..n]), Skip(ItemsText(items[n..]) + u)))
    decreases |items|
  {
    hide Skip, Next, Ahead, Redirs, Args, Closed, GoodItems, GoodItem, ItemsText, ItemText, WordsIn, RedirsIn;
    var n, s := Leading(items), ItemsText(items) + u;
    ClosedFirst(u);
    NoItems(u);
    if items == [] {
      assert items[0..] == items;
      NoneAhead(s);
    } else {
      var tail := items[1..];
      var more := ItemsText(tail) + u;
      FirstItem(items, u);
      GoodFirst(items);
      if items[0].Word? {
        assert items[0..] == items;
        ItemFirst(items[0], more);
        NotAhead(s);
        NoneAhead(s);
      } else {
        GoodTail(items, 1);
        Apart(items, 1, u);
        OneRedirect(items[0], more);
        LeadingRedirs(tail, u);
        FirstItem(items[..n], u);
        assert items[..n][0] == items[0] && items[..n][1..] == tail[..n - 1] && items[n..] == tail[n - 1..];
        SkipTwice(more);
        FrontBlanks(Skip(more), more, 0, Exec([]));
      }
    }
  }

  lemma GoodFirst(items: seq<Item>)
    requires GoodItems(items) && items != []
    ensures GoodItem(items[0])
  {
  }

  lemma NoneAhead(s: string)
    requires !Ahead(s, "<>")
    ensures Redirs(s) == Some(([], Skip(s)))
  {
    hide Skip, Next, Ahead;
  }

  lemma NotAhead(s: string)
    requires Skip(s) != [] && WordChar(Skip(s)[0])
    ensures !Ahead(s, "<>") && !Ahead(s, "(") && !Ahead(s, "|)&;")
  {
  }

  /** One redirection: its sign, its file and the rest. */
  lemma OneRedirect(x: Item, u: string)
    requires GoodItem(x) && x.Redirect? && (u == [] || !WordChar(u[0]))
    ensures var s := ItemText(x) + u;
            && Ahead(s, "<>") && Next(Next(s).rest) == Token(WORD, x.file, Skip(u))
            && (Redirs(Skip(u)).None? ==> Redirs(s).None?)
            && (Redirs(Skip(u)).Some? ==>
                  Redirs(s) == Some(([To(x.file, if x.op == "<" then In else Out)] + Redirs(Skip(u)).value.0,
                                     Redirs(Skip(u)).value.1)))
  {
    hide Skip, Next, Ahead, Redirs, ItemText, IsGap, IsWord;
    var s, v := ItemText(x) + u, x.gap' + (x.file + u);
    RedirectText(x, u);
    GapWord(x.gap', x.file, u);
    GapOp(x.gap, x.op, v);
    SkipTwice(v);
    FrontBlanks(Skip(v), v, 0, Exec([]));
    RedirsMore(s);
  }

  lemma RedirectText(x: Item, u: string)
    requires GoodItem(x) && x.Redirect?
    ensures var v := x.gap' + (x.file + u); ItemText(x) + u == x.gap + (x.op + v) && v != [] && v[0] != '>'
  {
    var v := x.gap' + (x.file + u);
    Assoc(x.gap, x.op + (x.gap' + x.file), u);
    Assoc(x.op, x.gap' + x.file, u);
    Assoc(x.gap', x.file, u);
    if x.gap' != [] { assert v[0] == x.gap'[0]; } else { assert v == x.file + u && v[0] == x.file[0]; }
  }

  lemma {:induction false} InParts(items: seq<Item>, n: nat)
    requires n <= |items|
    ensures RedirsIn(items) == RedirsIn(items[..n]) + RedirsIn(items[n..])
    ensures WordsIn(items) == WordsIn(items[..n]) + WordsIn(items[n..])
    decreases n
  {
    hide ItemText, ItemsText, WordsIn, RedirsIn, RedirOf;
    NoItems([]);
    if n == 0 {
      assert items[0..] == items && items[..0] == [];
    } else {
      var tail := items[1..];
      InParts(tail, n - 1);
      FirstItem(items, []);
      FirstItem(items[..n], []);
      assert items[..n][1..] == tail[..n - 1] && tail[n - 1..] == items[n..];
      Joined(RedirOf(items[0]), RedirsIn(tail[..n - 1]), RedirsIn(items[n..]));
      Joined(if items[0].Word? then [items[0].text] else [], WordsIn(tail[..n - 1]), WordsIn(items[n..]));
    }
  }

  lemma Joined<T>(a: seq<T>, b: seq<T>, c: seq<T>)
    ensures a + (b + c) == a + b + c
  {
  }

  lemma {:induction false} NoWordsIn(items: seq<Item>)
    requires NoWords(items)
    ensures WordsIn(items) == []
  {
    hide ItemText, ItemsText, WordsIn, RedirsIn, RedirOf;
    NoItems([]);
    if items != [] {
      FirstItem(items, []);
      NoWordsIn(items[1..]);
    }
  }

  lemma {:induction false} ItemsParsed(items: seq<Item>, argc: nat, u: string)
    requires GoodItems(items) && Closed(u) && argc + |WordsIn(items)| < MAXARGS && (items != [] ==> items[0].Word?)
    ensures Args(ItemsText(items) + u, argc) == Some(((WordsIn(items), RedirsIn(items)), Skip(u)))
    decreases |items|
  {
    hide Skip, Next, Ahead, Redirs, Args, Closed, GoodItems, GoodItem, ItemsText, ItemText, WordsIn, RedirsIn;
    NoItems(u);
    if items == [] {
      ClosedArgs(u, argc);
    } else {
      var tail, n := items[1..], Leading(items[1..]);
      LeadingRedirs(tail, u) by { GoodTail(items, 1); }
      GoodTail(items, 1);
      GoodTail(tail, n);
      FirstItem(items, u);
      InParts(tail, n);
      NoWordsIn(tail[..n]);
      ItemsParsed(tail[n..], argc + 1, u);
      Apart(items, 1, u);
      WordThen(items[0], ItemsText(tail) + u, argc, RedirsIn(tail[..n]), ItemsText(tail[n..]) + u, WordsIn(tail[n..]),
               RedirsIn(tail[n..]), Skip(u)) by { GoodFirst(items); }
      assert WordsIn(tail) == WordsIn(tail[n..]) && RedirsIn(items) == RedirsIn(tail);
    }
  }

  /** One turn of the loop: a word, the redirections after it, and the rest. */
  lemma WordThen(x: Item, more: string, argc: nat, rs: seq<Redirection<string>>, rest: string, ws: seq<string>,
                 rs': seq<Redirection<string>>, end: string)
    requires GoodItem(x) && x.Word? && (more == [] || !WordChar(more[0])) && argc + 1 < MAXARGS
    requires Redirs(more) == Some((rs, Skip(rest))) && Args(rest, argc + 1) == Some(((ws, rs'), end))
    ensures Args(ItemText(x) + more, argc) == Some((([x.text] + ws, rs + rs'), end))
  {
    hide Skip, Next, Ahead, Redirs, Args;
    var s := ItemText(x) + more;
    Assoc(x.gap, x.text, more);
    GapWord(x.gap, x.text, more);
    NotAhead(s);
    SkipTwice(more);
    FrontBlanks(Skip(more), more, argc, Exec([]));
    SkipTwice(rest);
    FrontBlanks(Skip(rest), rest, argc + 1, Exec([]));
    ArgsMore(s, argc);
  }

  lemma ClosedArgs(u: string, argc: nat)
    requires Closed(u)
    ensures Args(u, argc) == Some((([], []), Skip(u)))
  {
  }

  lemma SimpleParsed(items: seq<Item>, u: string)
    requires GoodUnit(Simple(items)) && Closed(u)
    ensures ParseExec(ItemsText(items) + u) == Some((UnitMeans(Simple(items)), Skip(u)))
  {
    hide Skip, Next, Ahead, Redirs, Args, Closed, GoodItems, GoodItem, ItemsText, ItemText, WordsIn, RedirsIn,
         Wrap, Redirected, ParseBlock;
    var s, n := ItemsText(items) + u, Leading(items);
    NotABlock(items, u);
    LeadingRedirs(items, u);
    GoodTail(items, n);
    InParts(items, n);
    NoWordsIn(items[..n]);
    var rest := ItemsText(items[n..]) + u;
    ItemsParsed(items[n..], 0, u);
    SkipTwice(rest);
    FrontBlanks(Skip(rest), rest, 0, Exec([]));
    assert WordsIn(items) == WordsIn(items[n..]);
    Unwrapped(Exec(WordsIn(items)), items);
  }

  lemma NotABlock(items: seq<Item>, u: string)
    requires GoodItems(items) && Closed(u)
    ensures !Ahead(ItemsText(items) + u, "(")
  {
    hide Skip, Next, Ahead, Redirs, Args, Closed, GoodItems, GoodItem, ItemsText, ItemText, WordsIn, RedirsIn;
    NoItems(u);
    ClosedFirst(u);
    if items != [] {
      FirstItem(items, u);
      GoodFirst(items);
      ItemFirst(items[0], ItemsText(items[1..]) + u);
      NoParen(ItemsText(items) + u);
    }
  }

  lemma NoParen(s: string)
    requires Skip(s) != [] && (WordChar(Skip(s)[0]) || Skip(s)[0] == '<' || Skip(s)[0] == '>')
    ensures !Ahead(s, "(")
  {
  }

  lemma Unwrapped(c: Cmd<string>, items: seq<Item>)
    ensures Redirected(c, items) == Wrap(c, RedirsIn(items))
  {
    var none: seq<Redirection<string>> := [];
    RedirectedIsWrap(c, items, none);
    assert none + RedirsIn(items) == RedirsIn(items);
  }

  lemma {:induction false} UnitParsed(x: Unit, u: string)
    requires GoodUnit(x) && Closed(u)
    ensures ParseExec(UnitText(x) + u) == Some((UnitMeans(x), Skip(u)))
    decreases x
  {
    hide Skip, Next, Ahead, Redirs, Args, Closed, GoodItems, Wrap, Redirected, ParseLine, ParseExec, LineText,
         LineMeans, GoodLine;
    match x
    case Simple(items) =>
      SimpleParsed(items, u);
    case Block(g, l, g', rs) =>
      var v := ItemsText(rs) + u;
      var w := g' + (")" + v);
      var inner := LineText(l) + w;
      assert UnitText(x) + u == g + ("(" + inner);
      LineParsed(l, w) by { GapSymbol(g', ')', v); }
      LeadingRedirs(rs, u);
      assert Leading(rs) == |rs| && rs[..|rs|] == rs && rs[|rs|..] == [] && ItemsText(rs[|rs|..]) + u == u;
      Unwrapped(LineMeans(l), rs);
      BlockParsed(g, inner, LineMeans(l), g', v, RedirsIn(rs), Skip(u));
  }

  /** A block, given what is inside it and what follows. */
  lemma BlockParsed(g: string, inner: string, c: Cmd<string>, g': string, v: string, rs: seq<Redirection<string>>,
                    rest: string)
    requires IsGap(g) && IsGap(g') && ParseLine(inner) == Some((c, Skip(g' + (")" + v))))
    requires Redirs(v) == Some((rs, rest))
    ensures ParseExec(g + ("(" + inner)) == Some((Wrap(c, rs), rest))
  {
    hide Skip, Next, Redirs, Args, Wrap, ParseLine;
    var s := g + ("(" + inner);
    GapSymbol(g, '(', inner);
    GapSymbol(g', ')', v);
    SkipTwice(inner);
    FrontBlanksPipe(Skip(inner), inner);
    assert Ahead(s, "(");
    var t := ")" + v;
    SkipNone(t);
    GapSymbol([], ')', v);
    assert [] + t == t && Ahead(t, ")");
    SkipTwice(v);
    FrontBlanks(Skip(v), v, 0, Exec([]));
  }

  predicate PipeEnds(u: string) { var t := Skip(u); t == [] || t[0] == ')' || t[0] == '&' || t[0] == ';' }
  predicate LineEnds(u: string) { var t := Skip(u); t == [] || t[0] == ')' }

  lemma {:induction false} PipeParsed(p: Pipeline, u: string)
    requires GoodPipe(p) && PipeEnds(u)
    ensures ParsePipe(PipeText(p) + u) == Some((PipeMeans(p), Skip(u)))
    decreases p
  {
    hide Skip, Next, UnitText, UnitMeans, GoodUnit, ParseExec;
    SkipTwice(u);
    match p
    case Alone(x) =>
      UnitParsed(x, u);
    case Piped(x, g, next) =>
      var v := PipeText(next) + u;
      var w := g + ("|" + v);
      assert PipeText(p) + u == UnitText(x) + w;
      GapSymbol(g, '|', v);
      UnitParsed(x, w);
      PipeParsed(next, u);
      var t := "|" + v;
      SkipNone(t);
      GapSymbol([], '|', v);
      assert [] + t == t && Ahead(t, "|");
      SkipTwice(v);
      FrontBlanksPipe(Skip(v), v);
  }

  lemma {:induction false} AmpsParsed(c: Cmd<string>, amps: seq<string>, u: string)
    requires (forall k :: 0 <= k < |amps| ==> IsGap(amps[k])) && !Ahead(u, "&")
    ensures Backs(c, AmpsText(amps) + u) == (InBack(c, |amps|), Skip(u))
    decreases |amps|
  {
    hide Skip, Next;
    if amps == [] {
      assert AmpsText(amps) + u == u;
    } else {
      var v := AmpsText(amps[1..]) + u;
      var s := amps[0] + ("&" + v);
      assert AmpsText(amps) + u == s;
      GapSymbol(amps[0], '&', v);
      assert Ahead(s, "&");
      AmpsParsed(Back(c), amps[1..], u);
      SkipTwice(v);
      FrontBlanks(Skip(v), v, 0, Back(c));
      InBackFirst(c, |amps| - 1);
    }
  }

  lemma {:induction false} InBackFirst(c: Cmd<string>, n: nat)
    ensures InBack(Back(c), n) == InBack(c, n + 1)
  {
    if n > 0 { InBackFirst(c, n - 1); }
  }

  lemma AmpsFirst(amps: seq<string>, u: string)
    requires (forall k :: 0 <= k < |amps| ==> IsGap(amps[k])) && PipeEnds(u)
    ensures PipeEnds(AmpsText(amps) + u)
  {
    hide Skip;
    if amps == [] {
      assert AmpsText(amps) + u == u;
    } else {
      var rest := AmpsText(amps[1..]);
      Assoc(amps[0], "&" + rest, u);
      Assoc("&", rest, u);
      GapSymbol(amps[0], '&', rest + u);
    }
  }

  lemma {:induction false} LineParsed(l: Line, u: string)
    requires GoodLine(l) && LineEnds(u)
    ensures ParseLine(LineText(l) + u) == Some((LineMeans(l), Skip(u)))
    decreases l
  {
    hide Skip, Next, PipeText, PipeMeans, GoodPipe, ParsePipe, Backs, AmpsText, InBack;
    var v := if l.Then? then l.gap + (";" + (LineText(l.next) + u)) else u;
    var w := AmpsText(l.amps) + v;
    assert LineText(l) + u == PipeText(l.pipe) + w;
    SkipTwice(u);
    if l.Then? {
      GapSymbol(l.gap, ';', LineText(l.next) + u);
      LineParsed(l.next, u);
    }
    AmpsFirst(l.amps, v);
    PipeParsed(l.pipe, w);
    AmpsParsed(PipeMeans(l.pipe), l.amps, v);
    SkipTwice(w);
    FrontBlanks(Skip(w), w, 0, PipeMeans(l.pipe));
    if l.Then? {
      var next := LineText(l.next) + u;
      var t := ";" + next;
      SkipNone(t);
      GapSymbol([], ';', next);
      assert [] + t == t && Ahead(t, ";");
      SkipTwice(next);
      FrontBlanksPipe(Skip(next), next);
    }
  }

  /* ---------------- whatever is read is such a text ---------------- */

  lemma {:induction false} GapOf(s: string) returns (g: string)
    ensures IsGap(g) && s == g + Skip(s)
  {
    g := [];
    if s != [] && Blank(s[0]) {
      var more := GapOf(s[1..]);
      Assoc([s[0]], more, Skip(s[1..]));
      assert s == [s[0]] + s[1..];
      g := [s[0]] + more;
    }
  }

  lemma WordFrom(s: string) returns (g: string, tail: string)
    requires Next(s).kind == WORD
    ensures var w := Next(s).word;
            IsGap(g) && IsWord(w) && s == g + (w + tail) && Next(s).rest == Skip(tail) && |tail| < |s|
    ensures tail == [] || !WordChar(tail[0])
  {
    hide Skip;
    g := GapOf(s);
    var t := Skip(s);
    WordLenIs(t);
    tail := t[WordLen(t)..];
    assert t == t[..WordLen(t)] + tail;
  }

  lemma SymbolFrom(s: string, c: char) returns (g: string, tail: string)
    requires Symbol(c) && c != '>' && Ahead(s, [c])
    ensures IsGap(g) && s == g + ([c] + tail) && Next(s).rest == Skip(tail) && |tail| < |s|
  {
    hide Skip;
    g := GapOf(s);
    tail := Skip(s)[1..];
    assert Skip(s) == [c] + tail;
  }

  lemma OpFrom(s: string) returns (g: string, op: string, tail: string)
    requires Ahead(s, "<>")
    ensures IsGap(g) && IsOp(op) && s == g + (op + tail) && Next(s).rest == Skip(tail) && |tail| < |s|
    ensures Next(s).kind == '<' <==> op == "<"
  {
    hide Skip;
    g := GapOf(s);
    var t := Skip(s);
    op := Next(s).word;
    tail := t[|op|..];
    assert t == op + tail;
  }

  lemma ItemsJoined(a: seq<Item>, b: seq<Item>)
    ensures ItemsText(a + b) == ItemsText(a) + ItemsText(b)
    ensures WordsIn(a + b) == WordsIn(a) + WordsIn(b) && RedirsIn(a + b) == RedirsIn(a) + RedirsIn(b)
  {
    hide ItemsText, WordsIn, RedirsIn;
    TextJoined(a, b);
    InParts(a + b, |a|);
    assert (a + b)[..|a|] == a && (a + b)[|a|..] == b;
  }

  lemma {:induction false} TextJoined(a: seq<Item>, b: seq<Item>)
    ensures ItemsText(a + b) == ItemsText(a) + ItemsText(b)
    decreases |a|
  {
    hide ItemText;
    if a == [] {
      assert a + b == b;
    } else {
      TextJoined(a[1..], b);
      assert (a + b)[1..] == a[1..] + b && (a + b)[0] == a[0];
      Assoc(ItemText(a[0]), ItemsText(a[1..]), ItemsText(b));
    }
  }

  lemma GoodJoined(a: seq<Item>, b: seq<Item>)
    requires GoodItems(a) && GoodItems(b) && (b != [] && b[0].Word? && a != [] ==> b[0].gap != [])
    ensures GoodItems(a + b)
  {
  }

  lemma {:induction false} RedirsFrom(s: string) returns (items: seq<Item>, tail: string)
    requires Redirs(s).Some?
    ensures GoodItems(items) && NoWords(items) && s == ItemsText(items) + tail
    ensures RedirsIn(items) == Redirs(s).value.0 && Skip(tail) == Redirs(s).value.1
    ensures (items == [] ==> tail == s) && (items != [] ==> tail == [] || !WordChar(tail[0]))
    decreases |s|
  {
    hide Skip, Next, Ahead, ItemsText, ItemText, RedirsIn, WordsIn, IsWord;
    items, tail := [], s;
    NoItems(s);
    if Ahead(s, "<>") {
      var x, t := RedirectFrom(s);
      var more;
      more, tail := RedirsFrom(t);
      GoodJoined([x], more);
      items := [x] + more;
      FirstItem(items, tail);
      assert items[0] == x && items[1..] == more;
    }
  }

  lemma RedirectFrom(s: string) returns (x: Item, tail: string)
    requires Ahead(s, "<>") && Redirs(s).Some?
    ensures x.Redirect? && GoodItem(x) && s == ItemText(x) + tail && |tail| < |s| && (tail == [] || !WordChar(tail[0]))
    ensures Redirs(tail).Some?
    ensures Redirs(s).value == (RedirOf(x) + Redirs(tail).value.0, Redirs(tail).value.1)
  {
    hide Skip, Next, Ahead, IsWord;
    var g, op, t := OpFrom(s);
    SkipTwice(t);
    FrontBlanks(Skip(t), t, 0, Exec([]));
    var g';
    g', tail := WordFrom(t);
    x := Redirect(g, op, g', Next(t).word);
    SkipTwice(tail);
    FrontBlanks(Skip(tail), tail, 0, Exec([]));
    Assoc(g', x.file, tail);
    Assoc(op, g' + x.file, tail);
    Assoc(g, op + (g' + x.file), tail);
  }

  lemma {:induction false} ArgsFrom(s: string, argc: nat) returns (items: seq<Item>, tail: string)
    requires Args(s, argc).Some?
    ensures GoodItems(items) && s == ItemsText(items) + tail && Skip(tail) == Args(s, argc).value.1
    ensures (WordsIn(items), RedirsIn(items)) == Args(s, argc).value.0
    ensures items != [] ==> items[0].Word? && (items[0].gap == [] ==> s != [] && WordChar(s[0]))
    decreases |s|
  {
    hide Skip, Next, Ahead, Redirs, ItemsText, ItemText, RedirsIn, WordsIn, GoodItems, IsWord;
    items, tail := [], s;
    NoItems(s);
    if Ahead(s, "|)&;") {
      GoodNone();
    } else if Next(s).kind == END {
      AtEnd(s);
      GoodNone();
    } else {
      var g, t := WordFrom(s);
      var x := Word(g, Next(s).word);
      SkipTwice(t);
      FrontBlanks(Skip(t), t, 0, Exec([]));
      var rs, t' := RedirsFrom(t);
      SkipTwice(t');
      FrontBlanks(Skip(t'), t', argc + 1, Exec([]));
      var more;
      more, tail := ArgsFrom(t', argc + 1);
      items := [x] + (rs + more);
      WordAndMore(s, x, t, rs, t', more, tail);
    }
  }

  lemma GoodNone()
    ensures GoodItems([])
  {
  }

  /** A word, the redirections after it and the items after these make a row of items. */
  lemma WordAndMore(s: string, x: Item, t: string, rs: seq<Item>, t': string, more: seq<Item>, tail: string)
    requires x.Word? && GoodItem(x) && s == x.gap + (x.text + t) && t == ItemsText(rs) + t'
    requires t' == ItemsText(more) + tail
    requires GoodItems(rs) && NoWords(rs) && GoodItems(more) && (t == [] || !WordChar(t[0]))
    requires (rs == [] ==> t' == t) && (rs != [] ==> t' == [] || !WordChar(t'[0]))
    requires more != [] ==> more[0].Word? && (more[0].gap == [] ==> t' != [] && WordChar(t'[0]))
    ensures var items := [x] + (rs + more);
            && GoodItems(items) && s == ItemsText(items) + tail
            && WordsIn(items) == [x.text] + WordsIn(more) && RedirsIn(items) == RedirsIn(rs) + RedirsIn(more)
            && (x.gap == [] ==> s != [] && WordChar(s[0]))
  {
    hide Skip, ItemsText, RedirsIn, WordsIn, IsWord, GoodItems, GoodItem;
    var items := [x] + (rs + more);
    WordGood(x, t, rs, t', more);
    ItemsJoined(rs, more);
    NoWordsIn(rs);
    FirstItem(items, tail);
    assert items[0] == x && items[1..] == rs + more;
    Assoc(ItemsText(rs), ItemsText(more), tail);
    Assoc(x.gap, x.text, t);
    if x.gap == [] { assert s == x.text + t && s[0] == x.text[0]; }
  }

  lemma WordGood(x: Item, t: string, rs: seq<Item>, t': string, more: seq<Item>)
    requires x.Word? && GoodItem(x) && GoodItems(rs) && NoWords(rs) && GoodItems(more) && (t == [] || !WordChar(t[0]))
    requires (rs == [] ==> t' == t) && (rs != [] ==> t' == [] || !WordChar(t'[0]))
    requires more != [] ==> more[0].Word? && (more[0].gap == [] ==> t' != [] && WordChar(t'[0]))
    ensures GoodItems([x] + (rs + more)) && x.text != [] && WordChar(x.text[0])
  {
    GoodJoined(rs, more);
    GoodJoined([x], rs + more);
  }

  lemma AtEnd(s: string)
    requires Next(s).kind == END
    ensures Next(s).rest == Skip(s) == []
  {
  }

  lemma {:induction false} UnitFrom(s: string) returns (x: Unit, tail: string)
    requires ParseExec(s).Some?
    ensures GoodUnit(x) && s == UnitText(x) + tail && ParseExec(s).value == (UnitMeans(x), Skip(tail))
    decreases |s|, 1
  {
    hide Skip, Next, Ahead, Redirs, Args, ParseLine, Wrap, ItemsText, WordsIn, RedirsIn, UnitMeans, UnitText, GoodUnit;
    if Ahead(s, "(") {
      x, tail := BlockFrom(s);
    } else {
      var rs, t := RedirsFrom(s);
      SkipTwice(t);
      FrontBlanks(Skip(t), t, 0, Exec([]));
      ArgsWf(t, 0);
      var more;
      more, tail := ArgsFrom(t, 0);
      x := Simple(rs + more);
      SimpleFrom(s, rs, t, more, tail);
    }
  }

  lemma SimpleFrom(s: string, rs: seq<Item>, t: string, more: seq<Item>, tail: string)
    requires GoodItems(rs) && NoWords(rs) && GoodItems(more) && s == ItemsText(rs) + t && t == ItemsText(more) + tail
    requires (rs != [] ==> t == [] || !WordChar(t[0])) && |WordsIn(more)| < MAXARGS
    requires more != [] ==> more[0].Word? && (more[0].gap == [] ==> t != [] && WordChar(t[0]))
    ensures var x := Simple(rs + more);
            && GoodUnit(x) && s == UnitText(x) + tail
            && UnitMeans(x) == Wrap(Exec(WordsIn(more)), RedirsIn(rs) + RedirsIn(more))
  {
    hide Skip, ItemsText, WordsIn, RedirsIn, GoodItem, Wrap, Redirected;
    GoodJoined(rs, more);
    ItemsJoined(rs, more);
    NoWordsIn(rs);
    assert WordsIn(rs + more) == WordsIn(more);
    Unwrapped(Exec(WordsIn(more)), rs + more);
    Assoc(ItemsText(rs), ItemsText(more), tail);
  }

  lemma {:induction false} BlockFrom(s: string) returns (x: Unit, tail: string)
    requires Ahead(s, "(") && ParseBlock(s).Some?
    ensures GoodUnit(x) && s == UnitText(x) + tail && ParseBlock(s).value == (UnitMeans(x), Skip(tail))
    decreases |s|, 0
  {
    hide Skip, Next, Redirs, GoodItems, Redirected, LineText, LineMeans, GoodLine, ParseLine, Wrap;
    var g, t := SymbolFrom(s, '(');
    SkipTwice(t);
    FrontBlanksPipe(Skip(t), t);
    var l, t' := LineFrom(t);
    SkipTwice(t');
    FrontBlanks(Skip(t'), t', 0, Exec([]));
    var g', t'' := SymbolFrom(t', ')');
    SkipTwice(t'');
    FrontBlanks(Skip(t''), t'', 0, Exec([]));
    var rs;
    rs, tail := RedirsFrom(t'');
    x := Block(g, l, g', rs);
    Unwrapped(LineMeans(l), rs);
    BlockText(g, LineText(l), g', ItemsText(rs), tail);
  }

  lemma BlockText(g: string, l: string, g': string, rs: string, tail: string)
    ensures g + ("(" + (l + (g' + (")" + (rs + tail))))) == g + ("(" + (l + (g' + (")" + rs)))) + tail
  {
    Assoc(")", rs, tail);
    Assoc(g', ")" + rs, tail);
    Assoc(l, g' + (")" + rs), tail);
    Assoc("(", l + (g' + (")" + rs)), tail);
    Assoc(g, "(" + (l + (g' + (")" + rs))), tail);
  }

  lemma {:induction false} PipeFrom(s: string) returns (p: Pipeline, tail: string)
    requires ParsePipe(s).Some?
    ensures GoodPipe(p) && s == PipeText(p) + tail && ParsePipe(s).value == (PipeMeans(p), Skip(tail))
    decreases |s|, 2
  {
    hide Skip, Next, UnitText, UnitMeans, GoodUnit, ParseExec;
    var x, t := UnitFrom(s);
    SkipTwice(t);
    FrontBlanks(Skip(t), t, 0, Exec([]));
    if Ahead(t, "|") {
      var g, t' := SymbolFrom(t, '|');
      SkipTwice(t');
      FrontBlanksPipe(Skip(t'), t');
      var next;
      next, tail := PipeFrom(t');
      p := Piped(x, g, next);
      TextAfter(UnitText(x), g, "|", PipeText(next), tail);
    } else {
      p, tail := Alone(x), t;
    }
  }

  lemma TextAfter(a: string, g: string, op: string, b: string, tail: string)
    ensures a + (g + (op + (b + tail))) == a + (g + (op + b)) + tail
  {
    Assoc(op, b, tail);
    Assoc(g, op + b, tail);
    Assoc(a, g + (op + b), tail);
  }

  lemma {:induction false} AmpsFrom(c: Cmd<string>, s: string) returns (amps: seq<string>, tail: string)
    ensures (forall k :: 0 <= k < |amps| ==> IsGap(amps[k])) && s == AmpsText(amps) + tail
    ensures Backs(c, s) == (InBack(c, |amps|), Skip(tail))
    decreases |s|
  {
    hide Skip, Next;
    amps, tail := [], s;
    if Ahead(s, "&") {
      var g, t := SymbolFrom(s, '&');
      SkipTwice(t);
      FrontBlanks(Skip(t), t, 0, Back(c));
      var more;
      more, tail := AmpsFrom(Back(c), t);
      amps := [g] + more;
      assert amps[1..] == more;
      InBackFirst(c, |more|);
      TextAfter([], g, "&", AmpsText(more), tail);
      assert [] + (g + ("&" + (AmpsText(more) + tail))) == s;
      assert [] + (g + ("&" + AmpsText(more))) == AmpsText(amps);
    }
  }

  lemma {:induction false} LineFrom(s: string) returns (l: Line, tail: string)
    requires ParseLine(s).Some?
    ensures GoodLine(l) && s == LineText(l) + tail && ParseLine(s).value == (LineMeans(l), Skip(tail))
    decreases |s|, 3
  {
    hide Skip, Next, PipeText, PipeMeans, GoodPipe, ParsePipe, Backs, AmpsText, InBack;
    var p, t := PipeFrom(s);
    SkipTwice(t);
    FrontBlanks(Skip(t), t, 0, PipeMeans(p));
    var amps, t' := AmpsFrom(PipeMeans(p), t);
    SkipTwice(t');
    FrontBlanks(Skip(t'), t', 0, Exec([]));
    if Ahead(t', ";") {
      var g, t'' := SymbolFrom(t', ';');
      SkipTwice(t'');
      FrontBlanksPipe(Skip(t''), t'');
      var next;
      next, tail := LineFrom(t'');
      l := Then(p, amps, g, next);
      TextAfter(AmpsText(amps), g, ";", LineText(next), tail);
      Assoc(PipeText(p), AmpsText(amps) + (g + (";" + LineText(next))), tail);
    } else {
      l, tail := Last(p, amps), t';
      assert AmpsText(amps) + [] == AmpsText(amps);
      Assoc(PipeText(p), AmpsText(amps), tail);
    }
  }

  /** The parser accepts exactly the texts of the grammar, and makes of them the commands they stand for. */
  lemma AcceptedIff(s: string, c: Cmd<string>)
    ensures Parse(s) == Some(c) <==> Says(s, c)
  {
    hide Skip, LineText, LineMeans, GoodLine, ParseLine;
    if Parse(s) == Some(c) {
      var l, tail := LineFrom(s);
      SkipTwice(tail);
      var gap := GapOf(tail);
      assert gap + [] == gap;
      assert Denotes(l, gap, s, c);
    }
    if l, gap :| Denotes(l, gap, s, c) {
      SkipGap(gap, []);
      assert gap + [] == gap;
      SkipNone([]);
      LineParsed(l, gap);
    }
  }
}
