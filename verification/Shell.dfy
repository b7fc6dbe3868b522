/**
The shell's parser (user/sh.c): a cursor over the line, trees whose words are pairs of positions in it, and the
pass that puts a null character after every word.
*/
module Shell {
  import opened Param
  import opened ShellSpec
  import G = ShellGrammar

  /** A word [q, eq) of the line. */
  datatype Span = Span(q: nat, eq: nat)

  function Slice(s: string, w: Span): (t: string) { if w.q <= w.eq <= |s| then s[w.q..w.eq] else [] }

  /** The span is one whole token of the line. */
  ghost predicate IsToken(s: string, w: Span)
  {
    w.q < w.eq <= |s| && (forall k :: w.q <= k < w.eq ==> WordChar(s[k])) && (w.eq == |s| || !WordChar(s[w.eq]))
  }

  function SliceAll(s: string, ws: seq<Span>): (r: seq<string>)
    ensures |r| == |ws| && forall i :: 0 <= i < |ws| ==> r[i] == Slice(s, ws[i])
  {
    seq(|ws|, i requires 0 <= i < |ws| => Slice(s, ws[i]))
  }

  function SliceFiles(s: string, rs: seq<Redirection<Span>>): (r: seq<Redirection<string>>)
    ensures |r| == |rs| && forall i :: 0 <= i < |rs| ==> r[i] == To(Slice(s, rs[i].file), rs[i].kind)
  {
    seq(|rs|, i requires 0 <= i < |rs| => To(Slice(s, rs[i].file), rs[i].kind))
  }

  /** The command with its words as strings. */
  function Text(s: string, c: Cmd<Span>): (r: Cmd<string>)
  {
    match c
    case Exec(argv) => Exec(SliceAll(s, argv))
    case Redir(d, file, kind) => Redir(Text(s, d), Slice(s, file), kind)
    case Pipe(l, r) => Pipe(Text(s, l), Text(s, r))
    case List(l, r) => List(Text(s, l), Text(s, r))
    case Back(d) => Back(Text(s, d))
  }

  ghost predicate Tokens(s: string, c: Cmd<Span>)
  {
    match c
    case Exec(argv) => forall w :: w in argv ==> IsToken(s, w)
    case Redir(d, file, kind) => Tokens(s, d) && IsToken(s, file)
    case Pipe(l, r) => Tokens(s, l) && Tokens(s, r)
    case List(l, r) => Tokens(s, l) && Tokens(s, r)
    case Back(d) => Tokens(s, d)
  }

  ghost predicate FileTokens(s: string, rs: seq<Redirection<Span>>) { forall r :: r in rs ==> IsToken(s, r.file) }

  lemma {:induction false} WrapText(s: string, c: Cmd<Span>, rs: seq<Redirection<Span>>)
    ensures Text(s, Wrap(c, rs)) == Wrap(Text(s, c), SliceFiles(s, rs))
    ensures Tokens(s, c) && FileTokens(s, rs) ==> Tokens(s, Wrap(c, rs))
    decreases |rs|
  {
    if rs != [] {
      var n := |rs| - 1;
      WrapText(s, c, rs[..n]);
      assert SliceFiles(s, rs)[..n] == SliceFiles(s, rs[..n]);
      assert rs[n] in rs;
    }
  }

  /* ---------------- tokens ---------------- */

  method GetToken(s: string, ps: nat) returns (ret: char, w: Span, next: nat)
    requires ps <= |s|
    ensures ps <= next <= |s| && Next(s[ps..]) == Token(ret, Slice(s, w), s[next..])
    ensures ret == WORD ==> IsToken(s, w)
    ensures ret != END ==> ps < next
  {
    hide Next, Skip, WordLen;
    var i := SkipBlanks(s, ps);
    var q := i;
    if i == |s| {
      ret := END;
    } else if s[i] == '|' || s[i] == '(' || s[i] == ')' || s[i] == ';' || s[i] == '&' || s[i] == '<' {
      ret := s[i];
      i := i + 1;
    } else if s[i] == '>' {
      ret := s[i];
      i := i + 1;
      if i < |s| && s[i] == '>' {
        ret := APPEND;
        i := i + 1;
      }
    } else {
      ret := WORD;
      i := SkipWord(s, i);
    }
    w := Span(q, i);
    next := SkipBlanks(s, i);
    TokenAt(s, ps, q, i, ret);
  }

  /** The token that starts at q, the first place past the blanks at ps. */
  lemma TokenAt(s: string, ps: nat, q: nat, i: nat, ret: char)
    requires ps <= |s| && q <= i <= |s| && s[q..] == Skip(s[ps..])
    requires if q == |s| then i == q && ret == END
             else if !Symbol(s[q]) then i == q + WordLen(s[q..]) && ret == WORD
             else if s[q] == '>' && q + 1 < |s| && s[q + 1] == '>' then i == q + 2 && ret == APPEND
             else i == q + 1 && ret == s[q]
    ensures Next(s[ps..]) == Token(ret, s[q..i], Skip(s[i..]))
  {
    hide Next, WordLen;
    NextAt(s[ps..], s[q..]);
    Split(s, q, i);
  }

  method SkipBlanks(s: string, ps: nat) returns (i: nat)
    requires ps <= |s|
    ensures ps <= i <= |s| && s[i..] == Skip(s[ps..]) && (i < |s| ==> !Blank(s[i]))
  {
    i := ps;
    while i < |s| && Blank(s[i])
      invariant ps <= i <= |s| && Skip(s[i..]) == Skip(s[ps..])
    {
      assert s[i..][1..] == s[i + 1..];
      i := i + 1;
    }
  }

  method SkipWord(s: string, q: nat) returns (i: nat)
    requires q < |s| && WordChar(s[q])
    ensures i == q + WordLen(s[q..]) && IsToken(s, Span(q, i))
  {
    i := q;
    while i < |s| && !Blank(s[i]) && !Symbol(s[i])
      invariant q <= i <= |s| && forall k :: q <= k < i ==> WordChar(s[k])
      invariant WordLen(s[q..]) == i - q + WordLen(s[i..])
    {
      assert s[i..][1..] == s[i + 1..];
      i := i + 1;
    }
  }

  lemma Split(s: string, q: nat, eq: nat)
    requires q <= eq <= |s|
    ensures s[q..][..eq - q] == s[q..eq] && s[q..][eq - q..] == s[eq..]
  {
  }

  lemma NextAt(s: string, t: string)
    requires t == Skip(s)
    ensures t == [] ==> Next(s) == Token(END, [], [])
    ensures t != [] && Symbol(t[0]) ==>
              Next(s) == if t[0] == '>' && |t| > 1 && t[1] == '>' then Token(APPEND, t[..2], Skip(t[2..]))
                         else Token(t[0], t[..1], Skip(t[1..]))
    ensures t != [] && !Symbol(t[0]) ==> Next(s) == Token(WORD, t[..WordLen(t)], Skip(t[WordLen(t)..]))
  {
    hide Skip, WordLen;
  }

  method Peek(s: string, ps: nat, toks: string) returns (found: bool, next: nat)
    requires ps <= |s|
    ensures found == Ahead(s[ps..], toks)
    ensures ps <= next <= |s| && s[next..] == Skip(s[ps..])
  {
    next := SkipBlanks(s, ps);
    found := next < |s| && s[next] in toks;
  }

  /* ---------------- the parse functions ---------------- */

  /** A result of the parser at ps is the one the grammar gives. */
  ghost predicate Means(s: string, ps: nat, r: Option<(Cmd<Span>, nat)>, spec: Option<(Cmd<string>, string)>)
  {
    && (r.None? <==> spec.None?)
    && (r.Some? ==> ps <= r.value.1 <= |s| && Text(s, r.value.0) == spec.value.0 && s[r.value.1..] == spec.value.1
                    && Tokens(s, r.value.0))
  }

  ghost predicate MeansFiles(s: string, ps: nat, r: Option<(seq<Redirection<Span>>, nat)>,
                             spec: Option<(seq<Redirection<string>>, string)>)
  {
    && (r.None? <==> spec.None?)
    && (r.Some? ==> ps <= r.value.1 <= |s| && SliceFiles(s, r.value.0) == spec.value.0 && s[r.value.1..] == spec.value.1
                    && FileTokens(s, r.value.0))
  }

  /** Redirections already read, in front of what is still to be read. */
  function Before(rs: seq<Redirection<string>>,
                  r: Option<(seq<Redirection<string>>, string)>): (q: Option<(seq<Redirection<string>>, string)>)
  {
    if r.None? then None else Some((rs + r.value.0, r.value.1))
  }

  /** parseredirs. The redirections are returned in order; redircmd wraps them around the command one by one. */
  method ParseRedirs(s: string, ps: nat) returns (r: Option<(seq<Redirection<Span>>, nat)>)
    requires ps <= |s|
    ensures MeansFiles(s, ps, r, Redirs(s[ps..]))
  {
    hide Next, Skip, Ahead, Redirs, IsToken;
    var rs: seq<Redirection<Span>>, i := [], ps;
    BeforeNone(Redirs(s[ps..]));
    var more: bool;
    more, i := Peek(s, i, "<>");
    RedirsSkip(s[ps..]);
    while more
      invariant ps <= i <= |s| && s[i..] == Skip(s[i..]) && more == Ahead(s[i..], "<>") && FileTokens(s, rs)
      invariant Redirs(s[ps..]) == Before(SliceFiles(s, rs), Redirs(s[i..]))
      decreases |s| - i
    {
      ghost var at := i;
      var tok, kind, w, j;
      tok, w, j := GetToken(s, i);
      AheadNext(s[i..], "<>");
      kind, w, i := GetToken(s, j);
      RedirsStep(s[at..]);
      if kind != WORD { return None; }
      BeforeMore(s, rs, To(w, if tok == '<' then In else Out), Redirs(s[i..]));
      rs := rs + [To(w, if tok == '<' then In else Out)];
      RedirsSkip(s[i..]);
      more, i := Peek(s, i, "<>");
    }
    RedirsDone(s[i..]);
    assert SliceFiles(s, rs) + [] == SliceFiles(s, rs);
    r := Some((rs, i));
  }

  lemma BeforeNone(r: Option<(seq<Redirection<string>>, string)>)
    ensures Before([], r) == r
  {
    if r.Some? { assert [] + r.value.0 == r.value.0; }
  }

  lemma BeforeMore(s: string, rs: seq<Redirection<Span>>, x: Redirection<Span>,
                   r: Option<(seq<Redirection<string>>, string)>)
    ensures Before(SliceFiles(s, rs), Before([To(Slice(s, x.file), x.kind)], r)) == Before(SliceFiles(s, rs + [x]), r)
  {
    var one := [To(Slice(s, x.file), x.kind)];
    assert SliceFiles(s, rs + [x]) == SliceFiles(s, rs) + one;
    if r.Some? { assert SliceFiles(s, rs) + one + r.value.0 == SliceFiles(s, rs) + (one + r.value.0); }
  }

  lemma RedirsSkip(s: string)
    ensures Redirs(Skip(s)) == Redirs(s) && Skip(Skip(s)) == Skip(s)
    ensures forall toks :: Ahead(Skip(s), toks) == Ahead(s, toks)
  {
    hide Next, Skip, Ahead;
    AheadSkip(s);
  }

  lemma AheadSkip(s: string)
    ensures Skip(Skip(s)) == Skip(s) && Next(Skip(s)) == Next(s)
    ensures forall toks :: Ahead(Skip(s), toks) == Ahead(s, toks)
  {
    hide Next, Skip;
    SkipTwice(s);
  }

  lemma RedirsStep(s: string)
    requires Ahead(s, "<>")
    ensures var op, file := Next(s), Next(Next(s).rest);
            Redirs(s) == if file.kind != WORD then None
                         else Before([To(file.word, if op.kind == '<' then In else Out)], Redirs(file.rest))
  {
    hide Next, Skip, Ahead;
  }

  lemma RedirsDone(s: string)
    requires !Ahead(s, "<>")
    ensures Redirs(s) == Some(([], Skip(s)))
  {
    hide Next, Skip, Ahead;
  }

  type Arguments = Option<((seq<string>, seq<Redirection<string>>), string)>

  /** Words and redirections already read, in front of what is still to be read. */
  function Onto(ws: seq<string>, rs: seq<Redirection<string>>, r: Arguments): (q: Arguments)
  {
    if r.None? then None else Some(((ws + r.value.0.0, rs + r.value.0.1), r.value.1))
  }

  /** The words and redirections of parseexec, from the first redirections (rs) on. */
  method ParseArgs(s: string, ps: nat, rs0: seq<Redirection<Span>>)
    returns (r: Option<((seq<Span>, seq<Redirection<Span>>), nat)>)
    requires ps <= |s| && FileTokens(s, rs0)
    ensures MeansArgs(s, ps, r, Onto([], SliceFiles(s, rs0), Args(s[ps..], 0)))
  {
    hide Next, Skip, Ahead, Redirs, Args, IsToken;
    ghost var target := Onto([], SliceFiles(s, rs0), Args(s[ps..], 0));
    var ws: seq<Span>, rs, i := [], rs0, ps;
    assert SliceAll(s, ws) == [];
    var stop: bool;
    stop, i := Peek(s, i, "|)&;");
    ArgsSkip(s[ps..], 0);
    while !stop
      invariant ps <= i <= |s| && s[i..] == Skip(s[i..]) && stop == Ahead(s[i..], "|)&;")
      invariant FileTokens(s, rs) && (forall w :: w in ws ==> IsToken(s, w)) && |ws| < MAXARGS
      invariant target == Onto(SliceAll(s, ws), SliceFiles(s, rs), Args(s[i..], |ws|))
      decreases |s| - i
    {
      ghost var at := i;
      var tok, w, j := GetToken(s, i);
      ArgsStep(s[at..], |ws|);
      if tok == END {
        i := j;
        OntoNothing(SliceAll(s, ws), SliceFiles(s, rs), s[i..]);
        return Some(((ws, rs), i));
      }
      if tok != WORD { return None; }
      if |ws| + 1 >= MAXARGS { return None; }
      var more := ParseRedirs(s, j);
      if more.None? { return None; }
      i := more.value.1;
      OntoMore(s, ws, w, rs, more.value.0, Args(s[i..], |ws| + 1));
      ws, rs := ws + [w], rs + more.value.0;
      ArgsSkip(s[i..], |ws|);
      stop, i := Peek(s, i, "|)&;");
    }
    ArgsDone(s[i..], |ws|);
    OntoNothing(SliceAll(s, ws), SliceFiles(s, rs), s[i..]);
    r := Some(((ws, rs), i));
  }

  ghost predicate MeansArgs(s: string, ps: nat, r: Option<((seq<Span>, seq<Redirection<Span>>), nat)>, spec: Arguments)
  {
    && (r.None? <==> spec.None?)
    && (r.Some? ==>
          && ps <= r.value.1 <= |s| && s[r.value.1..] == spec.value.1
          && SliceAll(s, r.value.0.0) == spec.value.0.0 && SliceFiles(s, r.value.0.1) == spec.value.0.1
          && FileTokens(s, r.value.0.1) && forall w :: w in r.value.0.0 ==> IsToken(s, w))
  }

  lemma OntoNothing(ws: seq<string>, rs: seq<Redirection<string>>, rest: string)
    ensures Onto(ws, rs, Some((([], []), rest))) == Some(((ws, rs), rest))
  {
    assert ws + [] == ws && rs + [] == rs;
  }

  lemma OntoMore(s: string, ws: seq<Span>, w: Span, rs: seq<Redirection<Span>>, rs': seq<Redirection<Span>>,
                 r: Arguments)
    ensures Onto(SliceAll(s, ws), SliceFiles(s, rs), Onto([Slice(s, w)], SliceFiles(s, rs'), r))
            == Onto(SliceAll(s, ws + [w]), SliceFiles(s, rs + rs'), r)
  {
    assert SliceAll(s, ws + [w]) == SliceAll(s, ws) + [Slice(s, w)];
    assert SliceFiles(s, rs + rs') == SliceFiles(s, rs) + SliceFiles(s, rs');
    if r.Some? {
      assert SliceAll(s, ws) + [Slice(s, w)] + r.value.0.0 == SliceAll(s, ws) + ([Slice(s, w)] + r.value.0.0);
      assert SliceFiles(s, rs) + SliceFiles(s, rs') + r.value.0.1 ==
               SliceFiles(s, rs) + (SliceFiles(s, rs') + r.value.0.1);
    }
  }

  lemma ArgsSkip(s: string, argc: nat)
    ensures Args(Skip(s), argc) == Args(s, argc) && Skip(Skip(s)) == Skip(s)
    ensures forall toks :: Ahead(Skip(s), toks) == Ahead(s, toks)
  {
    hide Next, Skip, Ahead, Redirs;
    AheadSkip(s);
  }

  lemma ArgsStep(s: string, argc: nat)
    requires !Ahead(s, "|)&;")
    ensures var t := Next(s);
            && (t.kind == END ==> Args(s, argc) == Some((([], []), t.rest)))
            && (t.kind != END && (t.kind != WORD || argc + 1 >= MAXARGS) ==> Args(s, argc).None?)
            && (t.kind == WORD && argc + 1 < MAXARGS ==>
                  Args(s, argc) == if Redirs(t.rest).None? then None
                                   else Onto([t.word], Redirs(t.rest).value.0, Args(Redirs(t.rest).value.1, argc + 1)))
  {
    hide Next, Skip, Ahead, Redirs;
  }

  lemma ArgsDone(s: string, argc: nat)
    requires Ahead(s, "|)&;")
    ensures Args(s, argc) == Some((([], []), Skip(s)))
  {
    hide Next, Skip, Ahead, Redirs;
  }

  /* A call of the grammar on a line whose blanks have been skipped. */
  lemma ExecSkip(s: string)
    ensures Ahead(s, "(") ==> Ahead(Skip(s), "(") && ShellSpec.ParseBlock(Skip(s)) == ShellSpec.ParseBlock(s)
    ensures Redirs(Skip(s)) == Redirs(s) && Next(Skip(s)) == Next(s)
  {
    hide Next, Skip, Ahead, Redirs, ShellSpec.ParseLine;
    AheadSkip(s);
    RedirsSkip(s);
  }

  method ParseExec(s: string, ps: nat) returns (r: Option<(Cmd<Span>, nat)>)
    requires ps <= |s|
    ensures Means(s, ps, r, ShellSpec.ParseExec(s[ps..]))
    decreases |s| - ps, 1
  {
    hide Next, Skip, Ahead, Redirs, Args, IsToken, ShellSpec.ParseBlock, Wrap;
    var block, i := Peek(s, ps, "(");
    ExecSkip(s[ps..]);
    if block {
      r := ParseBlock(s, i);
      return;
    }
    var first := ParseRedirs(s, i);
    if first.None? { return None; }
    var all := ParseArgs(s, first.value.1, first.value.0);
    if all.None? { return None; }
    var (ws, rs) := all.value.0;
    WrapText(s, Exec(ws), rs);
    OntoFiles(SliceFiles(s, first.value.0), Args(s[first.value.1..], 0));
    r := Some((Wrap(Exec(ws), rs), all.value.1));
  }

  lemma OntoFiles(rs: seq<Redirection<string>>, r: Arguments)
    ensures r.Some? ==> Onto([], rs, r).value == ((r.value.0.0, rs + r.value.0.1), r.value.1)
  {
    if r.Some? { assert [] + r.value.0.0 == r.value.0.0; }
  }

  method ParseBlock(s: string, ps: nat) returns (r: Option<(Cmd<Span>, nat)>)
    requires ps <= |s| && Ahead(s[ps..], "(")
    ensures Means(s, ps, r, ShellSpec.ParseBlock(s[ps..]))
    decreases |s| - ps, 0
  {
    hide Next, Skip, Ahead, Redirs, Args, IsToken, ShellSpec.ParseLine, Wrap;
    AheadNext(s[ps..], "(");
    var _, _, i := GetToken(s, ps);
    var inner := ParseLine(s, i);
    if inner.None? { return None; }
    var closed;
    closed, i := Peek(s, inner.value.1, ")");
    ExecSkip(s[inner.value.1..]);
    if !closed { return None; }
    var _, _, j := GetToken(s, i);
    var rs := ParseRedirs(s, j);
    if rs.None? { return None; }
    WrapText(s, inner.value.0, rs.value.0);
    r := Some((Wrap(inner.value.0, rs.value.0), rs.value.1));
  }

  method ParsePipe(s: string, ps: nat) returns (r: Option<(Cmd<Span>, nat)>)
    requires ps <= |s|
    ensures Means(s, ps, r, ShellSpec.ParsePipe(s[ps..]))
    decreases |s| - ps, 2
  {
    hide Next, Skip, Ahead, Redirs, IsToken, ShellSpec.ParseExec;
    r := ParseExec(s, ps);
    if r.None? { return; }
    var piped, i := Peek(s, r.value.1, "|");
    ExecSkip(s[r.value.1..]);
    if !piped { return Some((r.value.0, i)); }
    AheadNext(s[r.value.1..], "|");
    var _, _, j := GetToken(s, i);
    var right := ParsePipe(s, j);
    if right.None? { return None; }
    r := Some((Pipe(r.value.0, right.value.0), right.value.1));
  }

  method ParseLine(s: string, ps: nat) returns (r: Option<(Cmd<Span>, nat)>)
    requires ps <= |s|
    ensures Means(s, ps, r, ShellSpec.ParseLine(s[ps..]))
    decreases |s| - ps, 3
  {
    hide Next, Skip, Ahead, Redirs, IsToken, ShellSpec.ParsePipe, Backs;
    r := ParsePipe(s, ps);
    if r.None? { return; }
    var cmd, i := r.value.0, r.value.1;
    ghost var target := Backs(Text(s, cmd), s[i..]);
    var back: bool;
    BacksSkip(Text(s, cmd), s[i..]);
    back, i := Peek(s, i, "&");
    while back
      invariant ps <= i <= |s| && s[i..] == Skip(s[i..]) && back == Ahead(s[i..], "&") && Tokens(s, cmd)
      invariant target == Backs(Text(s, cmd), s[i..])
      decreases |s| - i
    {
      AheadNext(s[i..], "&");
      BacksStep(Text(s, cmd), s[i..]);
      var _, _, j := GetToken(s, i);
      cmd := Back(cmd);
      BacksSkip(Text(s, cmd), s[j..]);
      back, i := Peek(s, j, "&");
    }
    BacksDone(Text(s, cmd), s[i..]);
    ExecSkip(s[i..]);
    var listed, k := Peek(s, i, ";");
    if !listed { return Some((cmd, k)); }
    AheadNext(s[i..], ";");
    var _, _, j := GetToken(s, k);
    var right := ParseLine(s, j);
    if right.None? { return None; }
    r := Some((List(cmd, right.value.0), right.value.1));
  }

  lemma BacksSkip(c: Cmd<string>, s: string)
    ensures Backs(c, Skip(s)) == Backs(c, s) && Skip(Skip(s)) == Skip(s)
    ensures forall toks :: Ahead(Skip(s), toks) == Ahead(s, toks)
  {
    hide Next, Skip, Ahead;
    AheadSkip(s);
  }

  lemma BacksStep(c: Cmd<string>, s: string)
    requires Ahead(s, "&")
    ensures Backs(c, s) == Backs(Back(c), Next(s).rest)
  {
    hide Next, Skip, Ahead;
  }

  lemma BacksDone(c: Cmd<string>, s: string)
    requires !Ahead(s, "&")
    ensures Backs(c, s) == (c, Skip(s))
  {
    hide Next, Skip, Ahead;
  }

  /* ---------------- null characters ---------------- */

  /** The positions nulterminate writes to. */
  ghost function Ends(c: Cmd<Span>): (r: set<nat>)
  {
    match c
    case Exec(argv) => set w | w in argv :: w.eq
    case Redir(d, file, kind) => Ends(d) + {file.eq}
    case Pipe(l, r) => Ends(l) + Ends(r)
    case List(l, r) => Ends(l) + Ends(r)
    case Back(d) => Ends(d)
  }

  /** nulterminate: a null character after every word, and nothing else changes. */
  method Nulterminate(buf: array<char>, c: Cmd<Span>)
    requires forall e :: e in Ends(c) ==> e < buf.Length
    modifies buf
    ensures forall k :: 0 <= k < buf.Length ==> buf[k] == if k in Ends(c) then '\0' else old(buf[k])
    decreases c
  {
    match c {
      case Exec(argv) =>
        for i := 0 to |argv|
          invariant forall k :: 0 <= k < buf.Length ==>
                      buf[k] == if k in Ends(Exec(argv[..i])) then '\0' else old(buf[k])
        {
          assert argv[i] in argv && argv[i].eq in Ends(c);
          EndsMore(argv, i);
          buf[argv[i].eq] := '\0';
        }
        assert argv[..|argv|] == argv;
      case Redir(d, file, kind) =>
        assert Ends(d) <= Ends(c) && file.eq in Ends(c);
        Nulterminate(buf, d);
        buf[file.eq] := '\0';
      case Pipe(l, r) =>
        assert Ends(l) <= Ends(c) && Ends(r) <= Ends(c);
        Nulterminate(buf, l);
        Nulterminate(buf, r);
      case List(l, r) =>
        assert Ends(l) <= Ends(c) && Ends(r) <= Ends(c);
        Nulterminate(buf, l);
        Nulterminate(buf, r);
      case Back(d) =>
        assert Ends(d) <= Ends(c);
        Nulterminate(buf, d);
    }
  }

  lemma EndsMore(argv: seq<Span>, i: nat)
    requires i < |argv|
    ensures Ends(Exec(argv[..i + 1])) == Ends(Exec(argv[..i])) + {argv[i].eq}
  {
    assert argv[..i + 1] == argv[..i] + [argv[i]];
  }

  /** The C string that starts at q. */
  function CString(b: seq<char>, q: nat): (t: string)
    decreases |b| - q
  {
    if q < |b| && b[q] != '\0' then [b[q]] + CString(b, q + 1) else []
  }

  /** The command with each word read from the buffer, up to its null character. */
  function Strings(b: seq<char>, c: Cmd<Span>): (r: Cmd<string>)
  {
    match c
    case Exec(argv) => Exec(seq(|argv|, i requires 0 <= i < |argv| => CString(b, argv[i].q)))
    case Redir(d, file, kind) => Redir(Strings(b, d), CString(b, file.q), kind)
    case Pipe(l, r) => Pipe(Strings(b, l), Strings(b, r))
    case List(l, r) => List(Strings(b, l), Strings(b, r))
    case Back(d) => Back(Strings(b, d))
  }

  /** b is the line s with null characters at some ends of words, and one at the end of the line. */
  ghost predicate Ended(s: string, b: seq<char>, ends: set<nat>)
  {
    && |b| == |s| + 1 && b[|s|] == '\0' && (forall k :: 0 <= k < |s| ==> s[k] != '\0')
    && (forall k :: 0 <= k < |s| ==> b[k] == if k in ends then '\0' else s[k])
    && (forall e: nat :: e in ends ==> e <= |s| && (e < |s| ==> !WordChar(s[e])))
  }

  lemma {:induction false} TokenString(s: string, b: seq<char>, ends: set<nat>, w: Span, k: nat)
    requires Ended(s, b, ends) && IsToken(s, w) && w.eq in ends && w.q <= k <= w.eq
    ensures CString(b, k) == s[k..w.eq]
    decreases w.eq - k
  {
    if k < w.eq {
      TokenString(s, b, ends, w, k + 1);
      assert s[k..w.eq] == [s[k]] + s[k + 1..w.eq];
    }
  }

  lemma {:induction false} AllStrings(s: string, b: seq<char>, ends: set<nat>, c: Cmd<Span>)
    requires Ended(s, b, ends) && Tokens(s, c) && Ends(c) <= ends
    ensures Strings(b, c) == Text(s, c)
  {
    hide Ended, IsToken, CString;
    match c {
      case Exec(argv) =>
        forall i | 0 <= i < |argv| ensures CString(b, argv[i].q) == Slice(s, argv[i]) {
          assert argv[i] in argv && argv[i].eq in Ends(c);
          OneString(s, b, ends, argv[i]);
        }
      case Redir(d, file, kind) =>
        assert file.eq in Ends(c);
        OneString(s, b, ends, file);
        AllStrings(s, b, ends, d);
      case Pipe(l, r) =>
        AllStrings(s, b, ends, l);
        AllStrings(s, b, ends, r);
      case List(l, r) =>
        AllStrings(s, b, ends, l);
        AllStrings(s, b, ends, r);
      case Back(d) =>
        AllStrings(s, b, ends, d);
    }
  }

  lemma OneString(s: string, b: seq<char>, ends: set<nat>, w: Span)
    requires Ended(s, b, ends) && IsToken(s, w) && w.eq in ends
    ensures CString(b, w.q) == Slice(s, w)
  {
    TokenString(s, b, ends, w, w.q);
  }

  lemma {:induction false} EndsOfTokens(s: string, c: Cmd<Span>)
    requires Tokens(s, c)
    ensures forall e: nat :: e in Ends(c) ==> e <= |s| && (e < |s| ==> !WordChar(s[e]))
  {
    match c {
      case Exec(argv) =>
      case Redir(d, file, kind) => EndsOfTokens(s, d);
      case Pipe(l, r) => EndsOfTokens(s, l); EndsOfTokens(s, r);
      case List(l, r) => EndsOfTokens(s, l); EndsOfTokens(s, r);
      case Back(d) => EndsOfTokens(s, d);
    }
  }

  /** parsecmd on a line that ends with its only null character: the command the grammar gives it, with every
      argument and file name a string of its own inside the line; None if the shell panics. */
  method ParseCmd(buf: array<char>) returns (r: Option<Cmd<Span>>)
    requires buf.Length > 0 && buf[buf.Length - 1] == '\0' && forall k :: 0 <= k < buf.Length - 1 ==> buf[k] != '\0'
    modifies buf
    ensures r.None? <==> Parse(old(buf[..buf.Length - 1])).None?
    ensures r.None? ==> buf[..] == old(buf[..])
    ensures r.Some? ==> Some(Strings(buf[..], r.value)) == Parse(old(buf[..buf.Length - 1]))
    ensures r.Some? ==> G.Says(old(buf[..buf.Length - 1]), Strings(buf[..], r.value))
  {
    hide Skip, ShellSpec.ParseLine, Text, Tokens, Strings, Ends, CString, G.Says;
    var s := buf[..buf.Length - 1];
    assert s[0..] == s;
    var p := ParseLine(s, 0);
    if p.None? { return None; }
    var _, i := Peek(s, p.value.1, "");
    if i != |s| {
      assert s[i..] != [];
      return None;
    }
    var cmd := p.value.0;
    EndsOfTokens(s, cmd);
    Nulterminate(buf, cmd);
    AllStrings(s, buf[..], Ends(cmd), cmd);
    G.AcceptedIff(s, Strings(buf[..], cmd));
    r := Some(cmd);
  }

  /** Parsing a line of the grammar, however it is spaced, gives the command that it stands for, word by word. */
  method ReadsLine(ghost l: G.Line, ghost gap: string, buf: array<char>) returns (r: Option<Cmd<Span>>)
    requires G.GoodLine(l) && G.IsGap(gap) && buf[..] == G.LineText(l) + gap + "\0"
    requires forall k :: 0 <= k < |G.LineText(l)| ==> G.LineText(l)[k] != '\0'
    modifies buf
    ensures r.Some? && Strings(buf[..], r.value) == G.LineMeans(l)
  {
    hide G.LineText, G.LineMeans, G.GoodLine, Parse, Strings;
    ghost var s := G.LineText(l) + gap;
    G.AcceptedIff(s, G.LineMeans(l));
    assert G.Denotes(l, gap, s, G.LineMeans(l));
    assert buf[..buf.Length - 1] == s;
    assert forall k :: 0 <= k < buf.Length ==> buf[k] == (s + "\0")[k];
    r := ParseCmd(buf);
  }

  /** Parsing the printing of a command gives that command, word by word. */
  method ReadsBack(c: Cmd<string>, buf: array<char>) returns (r: Option<Cmd<Span>>)
    requires Wf(c) && buf.Length == |Print(c)| + 1 && buf[..] == Print(c) + "\0"
    requires forall k :: 0 <= k < |Print(c)| ==> Print(c)[k] != '\0'
    modifies buf
    ensures r.Some? && Strings(buf[..], r.value) == c
  {
    hide Print, Parse, Wf, Strings;
    RoundTrip(c);
    assert buf[..buf.Length - 1] == Print(c);
    assert forall k :: 0 <= k < buf.Length ==> buf[k] == (Print(c) + "\0")[k];
    r := ParseCmd(buf);
  }
}
