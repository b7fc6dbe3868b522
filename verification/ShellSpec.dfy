/**
The shell's grammar (user/sh.c), on what is left of the line: each function takes the rest of the input and
returns what it recognised together with the rest after that. None is the panic that ends the shell.
*/
module ShellSpec {
  import opened Param

  const MAXARGS := 10

  datatype Kind = In | Out // < opens for reading as 0; > and >> open for writing, with O_CREATE, as 1

  /** A command, with words of type W: positions in the line for the parser, strings for its meaning. */
  datatype Cmd<W> =
    | Exec(argv: seq<W>)
    | Redir(cmd: Cmd<W>, file: W, kind: Kind)
    | Pipe(left: Cmd<W>, right: Cmd<W>)
    | List(left: Cmd<W>, right: Cmd<W>)
    | Back(cmd: Cmd<W>)

  datatype Redirection<W> = To(file: W, kind: Kind)

  /* ---------------- tokens ---------------- */

  predicate Blank(c: char) { c == ' ' || c == '\t' || c == '\r' || c == '\n' || c == '\U{0B}' }
  predicate Symbol(c: char) { c == '<' || c == '|' || c == '>' || c == '&' || c == ';' || c == '(' || c == ')' }
  predicate WordChar(c: char) { !Blank(c) && !Symbol(c) }

  function Skip(s: string): (r: string)
    ensures |r| <= |s| && (r == [] || !Blank(r[0]))
  {
    if s != [] && Blank(s[0]) then Skip(s[1..]) else s
  }

  function WordLen(s: string): (n: nat)
    ensures n <= |s| && (s != [] && WordChar(s[0]) ==> n > 0)
  {
    if s != [] && WordChar(s[0]) then 1 + WordLen(s[1..]) else 0
  }

  /** gettoken's result: 'a' a word, '+' for >>, a symbol itself, and the null character at the end. */
  datatype Token = Token(kind: char, word: string, rest: string)

  const END := '\0'
  const WORD := 'a'
  const APPEND := '+'

  function Next(s: string): (t: Token)
    ensures |t.rest| <= |s| && (t.kind != END ==> |t.rest| < |s|)
    ensures t.kind == END <==> Skip(s) == []
  {
    var t := Skip(s);
    if t == [] then Token(END, [], [])
    else if |t| > 1 && t[0] == '>' && t[1] == '>' then Token(APPEND, t[..2], Skip(t[2..]))
    else if Symbol(t[0]) then Token(t[0], t[..1], Skip(t[1..]))
    else Token(WORD, t[..WordLen(t)], Skip(t[WordLen(t)..]))
  }

  /** peek */
  predicate Ahead(s: string, toks: string) { var t := Skip(s); t != [] && t[0] in toks }

  lemma {:induction false} SkipTwice(s: string)
    ensures Skip(Skip(s)) == Skip(s) && Next(Skip(s)) == Next(s)
  {
    if s != [] && Blank(s[0]) { SkipTwice(s[1..]); }
  }

  /* ---------------- the grammar ---------------- */

  function Wrap<W>(c: Cmd<W>, rs: seq<Redirection<W>>): (r: Cmd<W>)
    decreases |rs|
  {
    if rs == [] then c else Redir(Wrap(c, rs[..|rs| - 1]), rs[|rs| - 1].file, rs[|rs| - 1].kind)
  }

  function Redirs(s: string): (r: Option<(seq<Redirection<string>>, string)>)
    ensures r.Some? ==> |r.value.1| <= |s|
    decreases |s|
  {
    if Ahead(s, "<>") then
      var op := Next(s);
      var file := Next(op.rest);
      if file.kind != WORD then None
      else
        match Redirs(file.rest)
        case None => None
        case Some((rs, rest)) => Some(([To(file.word, if op.kind == '<' then In else Out)] + rs, rest))
    else Some(([], Skip(s)))
  }

  /** The loop of parseexec, with argc words already read. */
  function Args(s: string, argc: nat): (r: Option<((seq<string>, seq<Redirection<string>>), string)>)
    ensures r.Some? ==> |r.value.1| <= |s|
    decreases |s|
  {
    if Ahead(s, "|)&;") then Some((([], []), Skip(s)))
    else
      var t := Next(s);
      if t.kind == END then Some((([], []), t.rest))
      else if t.kind != WORD || argc + 1 >= MAXARGS then None
      else
        match Redirs(t.rest)
        case None => None
        case Some((rs, rest)) =>
          match Args(rest, argc + 1)
          case None => None
          case Some(((ws, rs'), rest')) => Some((([t.word] + ws, rs + rs'), rest'))
  }

  function ParseExec(s: string): (r: Option<(Cmd<string>, string)>)
    ensures r.Some? ==> |r.value.1| <= |s|
    decreases |s|, 1
  {
    if Ahead(s, "(") then ParseBlock(s)
    else
      match Redirs(s)
      case None => None
      case Some((rs, rest)) =>
        match Args(rest, 0)
        case None => None
        case Some(((ws, rs'), rest')) => Some((Wrap(Exec(ws), rs + rs'), rest'))
  }

  function ParseBlock(s: string): (r: Option<(Cmd<string>, string)>)
    requires Ahead(s, "(")
    ensures r.Some? ==> |r.value.1| <= |s|
    decreases |s|, 0
  {
    match ParseLine(Next(s).rest)
    case None => None
    case Some((c, rest)) =>
      if !Ahead(rest, ")") then None
      else
        match Redirs(Next(rest).rest)
        case None => None
        case Some((rs, rest')) => Some((Wrap(c, rs), rest'))
  }

  function ParsePipe(s: string): (r: Option<(Cmd<string>, string)>)
    ensures r.Some? ==> |r.value.1| <= |s|
    decreases |s|, 2
  {
    match ParseExec(s)
    case None => None
    case Some((c, rest)) =>
      if !Ahead(rest, "|") then Some((c, Skip(rest)))
      else
        match ParsePipe(Next(rest).rest)
        case None => None
        case Some((d, rest')) => Some((Pipe(c, d), rest'))
  }

  /** The & loop of parseline. */
  function Backs(c: Cmd<string>, s: string): (r: (Cmd<string>, string))
    ensures |r.1| <= |s|
    decreases |s|
  {
    if Ahead(s, "&") then Backs(Back(c), Next(s).rest) else (c, Skip(s))
  }

  function ParseLine(s: string): (r: Option<(Cmd<string>, string)>)
    ensures r.Some? ==> |r.value.1| <= |s|
    decreases |s|, 3
  {
    match ParsePipe(s)
    case None => None
    case Some((c, rest)) =>
      var (b, rest') := Backs(c, rest);
      if !Ahead(rest', ";") then Some((b, Skip(rest')))
      else
        match ParseLine(Next(rest').rest)
        case None => None
        case Some((d, rest'')) => Some((List(b, d), rest''))
  }

  function Parse(s: string): (r: Option<Cmd<string>>)
  {
    match ParseLine(s)
    case None => None
    case Some((c, rest)) => if Skip(rest) == [] then Some(c) else None
  }

  /* ---------------- the printer ---------------- */

  function Print(c: Cmd<string>): (s: string)
  {
    match c
    case Exec(argv) => Words(argv)
    case Redir(c, file, kind) => "(" + Print(c) + ")" + (if kind.In? then "<" else ">") + file
    case Pipe(l, r) => "(" + Print(l) + ")" + "|" + "(" + Print(r) + ")"
    case List(l, r) => "(" + Print(l) + ")" + ";" + "(" + Print(r) + ")"
    case Back(c) => "(" + Print(c) + ")" + "&"
  }

  function Words(ws: seq<string>): (s: string)
  {
    if ws == [] then [] else ws[0] + " " + Words(ws[1..])
  }

  predicate IsWord(w: string) { w != [] && forall k :: 0 <= k < |w| ==> WordChar(w[k]) }

  predicate AllWords(ws: seq<string>) { forall w :: w in ws ==> IsWord(w) }
  predicate AllFiles(rs: seq<Redirection<string>>) { forall r :: r in rs ==> IsWord(r.file) }

  /** Fewer than MAXARGS words per command, and every word one the line can hold. */
  predicate Wf(c: Cmd<string>)
  {
    match c
    case Exec(argv) => |argv| < MAXARGS && AllWords(argv)
    case Redir(c, file, kind) => Wf(c) && IsWord(file)
    case Pipe(l, r) => Wf(l) && Wf(r)
    case List(l, r) => Wf(l) && Wf(r)
    case Back(c) => Wf(c)
  }

  /* ---------------- the parser reads back what the printer wrote ---------------- */

  /** A rest that begins with a symbol that is no redirection, or nothing. */
  predicate Stops(u: string) { u == [] || (Symbol(u[0]) && u[0] != '<' && u[0] != '>') }

  lemma SkipNone(s: string)
    requires s == [] || !Blank(s[0])
    ensures Skip(s) == s
  {
  }

  lemma {:induction false} WordLenOf(w: string, u: string)
    requires (forall k :: 0 <= k < |w| ==> WordChar(w[k])) && (u == [] || !WordChar(u[0]))
    ensures WordLen(w + u) == |w|
  {
    if w == [] {
      assert w + u == u;
    } else {
      assert (w + u)[1..] == w[1..] + u;
      WordLenOf(w[1..], u);
    }
  }

  lemma WordNext(w: string, u: string)
    requires IsWord(w) && (u == [] || !WordChar(u[0]))
    ensures Next(w + u) == Token(WORD, w, Skip(u))
  {
    assert (w + u)[0] == w[0];
    SkipNone(w + u);
    WordLenOf(w, u);
    assert (w + u)[..|w|] == w && (w + u)[|w|..] == u;
  }

  lemma SymbolNext(c: char, u: string)
    requires Symbol(c) && (c == '>' ==> u == [] || u[0] != '>')
    ensures Next([c] + u) == Token(c, [c], Skip(u))
  {
    SkipNone([c] + u);
    assert ([c] + u)[1..] == u && ([c] + u)[..1] == [c];
  }

  lemma NoRedirs(u: string)
    requires Stops(u)
    ensures Redirs(u) == Some(([], u))
  {
    SkipNone(u);
  }

  lemma OneRedir(kind: Kind, file: string, u: string)
    requires IsWord(file) && Stops(u)
    ensures Redirs((if kind.In? then "<" else ">") + file + u) == Some(([To(file, kind)], u))
  {
    hide Skip, WordLen, Next, Ahead, Redirs, IsWord, Stops;
    WordFacts(file);
    var c := if kind.In? then '<' else '>';
    var s := [c] + (file + u);
    assert (if kind.In? then "<" else ">") + file + u == s;
    assert (file + u)[0] == file[0];
    SymbolNext(c, file + u);
    SkipNone(file + u);
    StopsFacts(u);
    WordNext(file, u);
    SkipNone(u);
    NoRedirs(u);
    SkipNone(s);
    AheadIs(s, "<>");
    assert c in "<>";
    RedirsMore(s);
    var none: seq<Redirection<string>> := [];
    assert [To(file, kind)] + none == [To(file, kind)];
  }

  lemma WordFacts(w: string)
    requires IsWord(w)
    ensures w != [] && WordChar(w[0])
  {
  }

  lemma StopsFacts(u: string)
    requires Stops(u)
    ensures u == [] || (!Blank(u[0]) && !WordChar(u[0]) && u[0] != '<' && u[0] != '>')
  {
  }

  lemma AheadIs(s: string, toks: string)
    requires s == [] || !Blank(s[0])
    ensures Ahead(s, toks) <==> s != [] && s[0] in toks
  {
    SkipNone(s);
  }

  /** One round of the loop of parseredirs. */
  lemma RedirsMore(s: string)
    requires Ahead(s, "<>") && Next(Next(s).rest).kind == WORD
    ensures var op, file := Next(s), Next(Next(s).rest);
            && (Redirs(file.rest).None? ==> Redirs(s).None?)
            && (Redirs(file.rest).Some? ==>
                  Redirs(s) == Some(([To(file.word, if op.kind == '<' then In else Out)] + Redirs(file.rest).value.0,
                                     Redirs(file.rest).value.1)))
  {
    hide Next, Skip, Ahead;
  }

  /** One word of the loop of parseexec. */
  lemma ArgsMore(s: string, argc: nat)
    requires !Ahead(s, "|)&;") && Next(s).kind == WORD && argc + 1 < MAXARGS
    requires Redirs(Next(s).rest).Some? && Args(Redirs(Next(s).rest).value.1, argc + 1).Some?
    ensures var r := Redirs(Next(s).rest).value;
            var a := Args(r.1, argc + 1).value;
            Args(s, argc) == Some((([Next(s).word] + a.0.0, r.0 + a.0.1), a.1))
  {
    hide Next, Skip, Ahead, Redirs;
  }

  lemma {:induction false} ArgsOf(ws: seq<string>, argc: nat, u: string)
    requires AllWords(ws) && argc + |ws| < MAXARGS && (u == [] || u[0] == ')')
    ensures Args(Words(ws) + u, argc) == Some(((ws, []), u))
  {
    hide Skip, WordLen, Next, Ahead, Redirs, IsWord, Args;
    if ws == [] {
      assert Words(ws) + u == u;
      ArgsNone(u, argc);
    } else {
      var more := Words(ws[1..]) + u;
      assert Words(ws) + u == ws[0] + (" " + more);
      assert ws[0] in ws && AllWords(ws[1..]);
      WordFacts(ws[0]);
      WordNext(ws[0], " " + more);
      AheadIs(ws[0] + (" " + more), "|)&;");
      SkipSpace(more);
      WordsStart(ws[1..], u);
      SkipNone(more);
      ArgsOf(ws[1..], argc + 1, u);
      ArgsMore(ws[0] + (" " + more), argc);
      var none: seq<Redirection<string>> := [];
      assert [ws[0]] + ws[1..] == ws && none + none == none;
    }
  }

  lemma ArgsNone(u: string, argc: nat)
    requires u == [] || u[0] == ')'
    ensures Args(u, argc) == Some((([], []), u))
  {
    SkipNone(u);
  }

  lemma SkipSpace(s: string)
    ensures Skip(" " + s) == Skip(s)
  {
    assert (" " + s)[1..] == s;
  }

  lemma WordsStart(ws: seq<string>, u: string)
    requires AllWords(ws) && (u == [] || u[0] == ')')
    ensures var s := Words(ws) + u; s == [] || (s[0] == ')' || WordChar(s[0]))
    ensures Redirs(Words(ws) + u) == Some(([], Words(ws) + u))
  {
    if ws != [] { assert ws[0] in ws && (Words(ws) + u)[0] == ws[0][0]; } else { assert Words(ws) + u == u; }
    SkipNone(Words(ws) + u);
  }

  lemma ExecWords(ws: seq<string>, u: string)
    requires AllWords(ws) && |ws| < MAXARGS && (u == [] || u[0] == ')')
    ensures ParseExec(Words(ws) + u) == Some((Exec(ws), u))
  {
    hide Skip, WordLen, Next, Ahead, Redirs, IsWord, Args, Words, ParseBlock;
    WordsStart(ws, u);
    AheadIs(Words(ws) + u, "(");
    ArgsOf(ws, 0, u);
    var none: seq<Redirection<string>> := [];
    assert none + none == none;
  }

  /** A parenthesised command, and the redirections after it. */
  lemma BlockOf(c: Cmd<string>, p: string, v: string, rs: seq<Redirection<string>>, u: string)
    requires ParseLine(p + (")" + v)) == Some((c, ")" + v)) && (p == [] || !Blank(p[0]))
    requires (v == [] || !Blank(v[0])) && Redirs(v) == Some((rs, u))
    ensures ParseExec("(" + (p + (")" + v))) == Some((Wrap(c, rs), u))
  {
    hide Skip, WordLen, Next, Ahead, Redirs, Args, Wrap, ParseLine;
    var inner := p + (")" + v);
    var s := "(" + inner;
    AheadIs(s, "(");
    SymbolNext('(', inner);
    SkipNone(inner);
    AheadIs(")" + v, ")");
    SymbolNext(')', v);
    SkipNone(v);
  }

  lemma PipeEnd(s: string, c: Cmd<string>, u: string)
    requires ParseExec(s) == Some((c, u)) && (u == [] || (u[0] != '|' && !Blank(u[0])))
    ensures ParsePipe(s) == Some((c, u))
  {
    hide Skip, Next, Ahead, ParseExec;
    AheadIs(u, "|");
    SkipNone(u);
  }

  lemma PipeMore(s: string, c: Cmd<string>, v: string, d: Cmd<string>, u: string)
    requires ParseExec(s) == Some((c, "|" + v)) && ParsePipe(v) == Some((d, u)) && v != [] && !Blank(v[0])
    ensures ParsePipe(s) == Some((Pipe(c, d), u))
  {
    hide Skip, Next, Ahead, ParseExec;
    AheadIs("|" + v, "|");
    SymbolNext('|', v);
    SkipNone(v);
  }

  lemma NoBacks(c: Cmd<string>, u: string)
    requires u == [] || (u[0] != '&' && !Blank(u[0]))
    ensures Backs(c, u) == (c, u)
  {
    hide Skip, Next, Ahead;
    AheadIs(u, "&");
    SkipNone(u);
  }

  lemma LineEnd(s: string, c: Cmd<string>, u: string)
    requires ParsePipe(s) == Some((c, u)) && (u == [] || u[0] == ')')
    ensures ParseLine(s) == Some((c, u))
  {
    hide Skip, Next, Ahead, ParsePipe, Backs;
    NoBacks(c, u);
    AheadIs(u, ";");
    SkipNone(u);
  }

  lemma LineBack(s: string, c: Cmd<string>, u: string)
    requires ParsePipe(s) == Some((c, "&" + u)) && (u == [] || u[0] == ')')
    ensures ParseLine(s) == Some((Back(c), u))
  {
    hide Skip, Next, Ahead, ParsePipe;
    AheadIs("&" + u, "&");
    SymbolNext('&', u);
    SkipNone(u);
    NoBacks(Back(c), u);
    AheadIs(u, ";");
  }

  lemma LineMore(s: string, c: Cmd<string>, v: string, d: Cmd<string>, u: string)
    requires ParsePipe(s) == Some((c, ";" + v)) && ParseLine(v) == Some((d, u)) && v != [] && !Blank(v[0])
    ensures ParseLine(s) == Some((List(c, d), u))
  {
    hide Skip, Next, Ahead, ParsePipe, Backs;
    NoBacks(c, ";" + v);
    AheadIs(";" + v, ";");
    SymbolNext(';', v);
    SkipNone(v);
  }

  lemma PrintStart(c: Cmd<string>)
    requires Wf(c)
    ensures var p := Print(c); p == [] || !Blank(p[0])
  {
    match c {
      case Exec(argv) => if argv != [] { assert argv[0] in argv && Print(c)[0] == argv[0][0]; }
      case Redir(d, file, kind) => assert Print(c)[0] == '(';
      case Pipe(l, r) => assert Print(c)[0] == '(';
      case List(l, r) => assert Print(c)[0] == '(';
      case Back(d) => assert Print(c)[0] == '(';
    }
  }

  /** The block a printed command stands in, followed by something that is no redirection. */
  lemma {:induction false} PrintedBlock(c: Cmd<string>, v: string)
    requires Wf(c) && Stops(v)
    ensures ParseExec("(" + (Print(c) + (")" + v))) == Some((c, v))
    decreases c, 1
  {
    hide Skip, Next, Ahead, ParseLine, ParseExec, Redirs, Print, Wf, Stops;
    PrintedLine(c, ")" + v);
    PrintStart(c);
    NoRedirs(v);
    StopsFacts(v);
    BlockOf(c, Print(c), v, [], v);
  }

  lemma {:induction false} PrintedRedir(c: Cmd<string>, file: string, kind: Kind, u: string)
    requires Wf(c) && IsWord(file) && (u == [] || u[0] == ')')
    ensures ParseExec("(" + (Print(c) + (")" + ((if kind.In? then "<" else ">") + file + u)))) ==
              Some((Redir(c, file, kind), u))
    decreases c, 1
  {
    hide Skip, Next, Ahead, ParseLine, ParseExec, Redirs, Print, Wf;
    var v := (if kind.In? then "<" else ">") + file + u;
    PrintedLine(c, ")" + v);
    PrintStart(c);
    OneRedir(kind, file, u);
    BlockOf(c, Print(c), v, [To(file, kind)], u);
    assert [To(file, kind)][..0] == [];
  }

  lemma PrintRedir(d: Cmd<string>, file: string, kind: Kind, u: string)
    ensures Print(Redir(d, file, kind)) + u == "(" + (Print(d) + (")" + ((if kind.In? then "<" else ">") + file + u)))
  {
  }

  lemma PrintTwo(c: Cmd<string>, l: Cmd<string>, r: Cmd<string>, op: string, u: string)
    requires (c == Pipe(l, r) && op == "|") || (c == List(l, r) && op == ";")
    ensures Print(c) + u == "(" + (Print(l) + (")" + (op + ("(" + (Print(r) + (")" + u))))))
  {
    var p, q := Print(l), Print(r);
    assert Print(c) == "(" + p + ")" + op + "(" + q + ")";
    Regroup("(", p, ")", op, "(", q, ")", u);
  }

  lemma Assoc(a: string, b: string, c: string)
    ensures (a + b) + c == a + (b + c)
  {
  }

  lemma Regroup(a: string, b: string, c: string, d: string, e: string, f: string, g: string, u: string)
    ensures a + b + c + d + e + f + g + u == a + (b + (c + (d + (e + (f + (g + u))))))
  {
    Assoc(a + b + c + d + e + f, g, u);
    Assoc(a + b + c + d + e, f, g + u);
    Assoc(a + b + c + d, e, f + (g + u));
    Assoc(a + b + c, d, e + (f + (g + u)));
    Assoc(a + b, c, d + (e + (f + (g + u))));
    Assoc(a, b, c + (d + (e + (f + (g + u)))));
  }

  lemma PrintExec(argv: seq<string>)
    ensures Print(Exec(argv)) == Words(argv)
  {
  }

  lemma PrintBack(d: Cmd<string>, u: string)
    ensures Print(Back(d)) + u == "(" + (Print(d) + (")" + ("&" + u)))
  {
  }

  /** parseline reads a printed command back, up to the parenthesis or the end that follows it. */
  lemma {:induction false} PrintedLine(c: Cmd<string>, u: string)
    requires Wf(c) && (u == [] || u[0] == ')')
    ensures ParseLine(Print(c) + u) == Some((c, u))
    decreases c, 0
  {
    hide Skip, Next, Ahead, ParseLine, ParseExec, ParsePipe, Redirs, Print, Words;
    match c {
      case Exec(argv) =>
        PrintExec(argv);
        ExecWords(argv, u);
        PipeEnd(Print(c) + u, c, u);
        LineEnd(Print(c) + u, c, u);
      case Redir(d, file, kind) =>
        PrintedRedir(d, file, kind, u);
        PrintRedir(d, file, kind, u);
        PipeEnd(Print(c) + u, c, u);
        LineEnd(Print(c) + u, c, u);
      case Pipe(l, r) =>
        var v := "(" + (Print(r) + (")" + u));
        PrintedBlock(r, u);
        PipeEnd(v, r, u);
        PrintedBlock(l, "|" + v);
        PrintTwo(c, l, r, "|", u);
        PipeMore(Print(c) + u, l, v, r, u);
        LineEnd(Print(c) + u, c, u);
      case List(l, r) =>
        var v := "(" + (Print(r) + (")" + u));
        PrintedBlock(r, u);
        PipeEnd(v, r, u);
        LineEnd(v, r, u);
        PrintedBlock(l, ";" + v);
        PrintTwo(c, l, r, ";", u);
        PipeEnd(Print(c) + u, l, ";" + v);
        LineMore(Print(c) + u, l, v, r, u);
      case Back(d) =>
        PrintedBlock(d, "&" + u);
        PrintBack(d, u);
        PipeEnd(Print(c) + u, d, "&" + u);
        LineBack(Print(c) + u, d, u);
    }
  }

  /** Parsing the printing of a command gives the command back. */
  lemma RoundTrip(c: Cmd<string>)
    requires Wf(c)
    ensures Parse(Print(c)) == Some(c)
  {
    hide Skip, ParseLine, Print;
    PrintedLine(c, []);
    assert Print(c) + [] == Print(c);
    SkipNone([]);
  }

  /* ---------------- whatever is accepted is well formed ---------------- */

  lemma {:induction false} WordLenIs(s: string)
    ensures var n := WordLen(s); (forall k :: 0 <= k < n ==> WordChar(s[k])) && (n == |s| || !WordChar(s[n]))
  {
    if s != [] && WordChar(s[0]) {
      var t := s[1..];
      WordLenIs(t);
      forall k | 0 <= k < WordLen(s) ensures WordChar(s[k]) { if k > 0 { assert s[k] == t[k - 1]; } }
    }
  }

  lemma NextIsWord(s: string)
    ensures Next(s).kind == WORD ==> IsWord(Next(s).word)
  {
    WordLenIs(Skip(s));
  }

  lemma {:induction false} RedirsWf(s: string)
    ensures Redirs(s).Some? ==> var rs := Redirs(s).value.0; AllFiles(rs)
    decreases |s|
  {
    hide Skip, Next, Ahead, IsWord;
    if Ahead(s, "<>") {
      NextIsWord(Next(s).rest);
      if Next(Next(s).rest).kind == WORD { RedirsWf(Next(Next(s).rest).rest); }
    }
  }

  lemma {:induction false} ArgsWf(s: string, argc: nat)
    requires argc < MAXARGS
    ensures Args(s, argc).Some? ==>
              && var (ws, rs) := Args(s, argc).value.0;
              && argc + |ws| < MAXARGS && AllWords(ws) && AllFiles(rs)
    decreases |s|
  {
    hide Skip, Next, Ahead, IsWord, Redirs;
    if !Ahead(s, "|)&;") && Next(s).kind == WORD && argc + 1 < MAXARGS {
      NextIsWord(s);
      RedirsWf(Next(s).rest);
      if Redirs(Next(s).rest).Some? { ArgsWf(Redirs(Next(s).rest).value.1, argc + 1); }
    }
  }

  lemma {:induction false} WrapWf(c: Cmd<string>, rs: seq<Redirection<string>>)
    requires Wf(c) && AllFiles(rs)
    ensures Wf(Wrap(c, rs))
    decreases |rs|
  {
    if rs != [] {
      assert rs[|rs| - 1] in rs;
      WrapWf(c, rs[..|rs| - 1]);
    }
  }

  lemma {:induction false} BacksWf(c: Cmd<string>, s: string)
    requires Wf(c)
    ensures Wf(Backs(c, s).0)
    decreases |s|
  {
    hide Skip, Next, Ahead;
    if Ahead(s, "&") {
      AheadNext(s, "&");
      BacksWf(Back(c), Next(s).rest);
    }
  }

  lemma AheadNext(s: string, toks: string)
    requires Ahead(s, toks)
    ensures |Next(s).rest| < |s|
  {
  }

  lemma {:induction false} ExecWf(s: string)
    ensures ParseExec(s).Some? ==> Wf(ParseExec(s).value.0)
    decreases |s|, 1
  {
    hide Skip, Next, Ahead, Redirs, Args, Wrap, IsWord, ParseLine;
    if Ahead(s, "(") {
      AheadNext(s, "(");
      LineWf(Next(s).rest);
      if ParseLine(Next(s).rest).Some? {
        var (c, rest) := ParseLine(Next(s).rest).value;
        if Ahead(rest, ")") {
          RedirsWf(Next(rest).rest);
          if Redirs(Next(rest).rest).Some? { WrapWf(c, Redirs(Next(rest).rest).value.0); }
        }
      }
    } else if Redirs(s).Some? {
      RedirsWf(s);
      var (rs, rest) := Redirs(s).value;
      ArgsWf(rest, 0);
      if Args(rest, 0).Some? { WrapWf(Exec(Args(rest, 0).value.0.0), rs + Args(rest, 0).value.0.1); }
    }
  }

  lemma {:induction false} PipeWf(s: string)
    ensures ParsePipe(s).Some? ==> Wf(ParsePipe(s).value.0)
    decreases |s|, 2
  {
    hide Skip, Next, Ahead, ParseExec;
    ExecWf(s);
    if ParseExec(s).Some? && Ahead(ParseExec(s).value.1, "|") {
      AheadNext(ParseExec(s).value.1, "|");
      PipeWf(Next(ParseExec(s).value.1).rest);
    }
  }

  /** Every command the parser returns has fewer than MAXARGS words to a command and proper words. */
  lemma {:induction false} LineWf(s: string)
    ensures ParseLine(s).Some? ==> Wf(ParseLine(s).value.0)
    decreases |s|, 3
  {
    hide Skip, Next, Ahead, ParsePipe, Backs;
    PipeWf(s);
    if ParsePipe(s).Some? {
      var (c, rest) := ParsePipe(s).value;
      BacksWf(c, rest);
      var rest' := Backs(c, rest).1;
      if Ahead(rest', ";") {
        AheadNext(rest', ";");
        LineWf(Next(rest').rest);
      }
    }
  }

  /** Printing what was read and reading it again changes nothing, for every line the parser accepts. */
  lemma Reparse(s: string)
    requires Parse(s).Some?
    ensures Parse(Print(Parse(s).value)) == Parse(s)
  {
    LineWf(s);
    RoundTrip(Parse(s).value);
  }
}
