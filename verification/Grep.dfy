/**
The regular-expression matcher of user/grep.c, against the language a pattern declares. Strings stand for C
strings: what precedes their null character.
*/
module Grep {

  /** A pattern is a row of items, each a character (or any, '.') or a starred one, and may ask for the end of the
      text with a final '$'. */
  datatype Item = One(c: char) | Star(c: char)
  datatype Pattern = Pattern(items: seq<Item>, toEnd: bool)

  function Declared(re: string): (p: Pattern)
    decreases |re|
  {
    if re == [] then Pattern([], false)
    else if |re| >= 2 && re[1] == '*' then var p := Declared(re[2..]); Pattern([Star(re[0])] + p.items, p.toEnd)
    else if re == "$" then Pattern([], true)
    else var p := Declared(re[1..]); Pattern([One(re[0])] + p.items, p.toEnd)
  }

  predicate Fits(c: char, x: char) { c == '.' || c == x }

  /** The strings of one item. */
  ghost predicate OfItem(s: string, item: Item)
  {
    match item
    case One(c) => |s| == 1 && Fits(c, s[0])
    case Star(c) => forall k :: 0 <= k < |s| ==> Fits(c, s[k])
  }

  function Concat(parts: seq<string>): (s: string)
  {
    if parts == [] then [] else parts[0] + Concat(parts[1..])
  }

  ghost predicate Splits(parts: seq<string>, s: string, items: seq<Item>)
  {
    |parts| == |items| && Concat(parts) == s && forall k :: 0 <= k < |items| ==> OfItem(parts[k], items[k])
  }

  /** The language of a row of items: what can be cut into one string of each item, in order. */
  ghost predicate InLanguage(s: string, items: seq<Item>) { exists parts :: Splits(parts, s, items) }

  /** text begins with a string of the pattern, which reaches the end of the text if the pattern asks for that. */
  ghost predicate BeginsWith(text: string, p: Pattern)
  {
    exists n: nat :: n <= |text| && Cut(text, p, n)
  }

  ghost predicate Cut(text: string, p: Pattern, n: nat)
    requires n <= |text|
  {
    InLanguage(text[..n], p.items) && (p.toEnd ==> n == |text|)
  }

  /** Some substring of text is a string of the pattern: from the start of the text if the pattern begins with '^',
      up to its end if the pattern ends with '$'. */
  ghost predicate Found(text: string, re: string)
  {
    if re != [] && re[0] == '^' then BeginsWith(text, Declared(re[1..]))
    else exists i: nat :: i <= |text| && BeginsWith(text[i..], Declared(re))
  }

  /* ---------------- how a pattern is written ---------------- */

  function Written(items: seq<Item>): (s: string)
  {
    if items == [] then []
    else (match items[0] case One(c) => [c] case Star(c) => [c, '*']) + Written(items[1..])
  }

  function Text(p: Pattern): (re: string) { Written(p.items) + if p.toEnd then "$" else "" }

  /** A '*' can stand for itself only where there is nothing to repeat, and a final '$' never does. */
  predicate Canonical(p: Pattern)
  {
    && (forall k :: 0 < k < |p.items| && p.items[k - 1].One? ==> p.items[k].c != '*')
    && (p.items != [] && p.items[|p.items| - 1] == One('$') ==> p.toEnd)
  }

  lemma OneLess(p: Pattern)
    requires Canonical(p) && p.items != []
    ensures var q, item := Pattern(p.items[1..], p.toEnd), p.items[0];
            && Canonical(q) && Text(p) == (match item case One(c) => [c] case Star(c) => [c, '*']) + Text(q)
            && (item.One? && q.items != [] ==> q.items[0].c != '*') && (item == One('$') && q.items == [] ==> q.toEnd)
  {
    var q := Pattern(p.items[1..], p.toEnd);
    forall k | 0 < k < |q.items| && q.items[k - 1].One? ensures q.items[k].c != '*' {
      assert p.items[k] == q.items[k - 1] && p.items[k + 1] == q.items[k];
    }
    assert q.items != [] ==> q.items[|q.items| - 1] == p.items[|p.items| - 1];
  }

  /** Every pattern that can be written is read as it was meant. */
  lemma {:induction false} DeclaredText(p: Pattern)
    requires Canonical(p)
    ensures Declared(Text(p)) == p
    decreases |p.items|
  {
    hide Canonical, Text, Written;
    FirstWritten(p);
    if p.items != [] {
      var q, re := Pattern(p.items[1..], p.toEnd), Text(p);
      OneLess(p);
      FirstWritten(q);
      DeclaredText(q);
      assert p.items == [p.items[0]] + q.items;
      match p.items[0]
      case Star(c) => assert re[2..] == Text(q);
      case One(c) => assert re[1..] == Text(q);
    }
  }

  lemma OneMore(item: Item, q: Pattern)
    requires Canonical(q) && (item.One? && q.items != [] ==> q.items[0].c != '*')
    requires item == One('$') && q.items == [] ==> q.toEnd
    ensures var p := Pattern([item] + q.items, q.toEnd);
            Canonical(p) && Text(p) == (match item case One(c) => [c] case Star(c) => [c, '*']) + Text(q)
  {
    var p := Pattern([item] + q.items, q.toEnd);
    assert p.items[1..] == q.items;
    forall k | 0 < k < |p.items| && p.items[k - 1].One? ensures p.items[k].c != '*' {
      assert p.items[k] == q.items[k - 1] && (k > 1 ==> p.items[k - 1] == q.items[k - 2]);
    }
  }

  lemma FirstWritten(p: Pattern)
    ensures p.items != [] ==> Text(p) != [] && Text(p)[0] == p.items[0].c
    ensures p.items == [] ==> Text(p) == if p.toEnd then "$" else ""
  {
  }

  /** And every string is such a writing, of one pattern only. */
  lemma {:induction false} TextDeclared(re: string)
    ensures Canonical(Declared(re)) && Text(Declared(re)) == re
    decreases |re|
  {
    hide Canonical, Text, Written;
    if re == [] || re == "$" {
      OnlyEnd(re);
    } else if |re| >= 2 && re[1] == '*' {
      TextDeclared(re[2..]);
      OneMore(Star(re[0]), Declared(re[2..]));
      assert re == [re[0], '*'] + re[2..];
    } else {
      TextDeclared(re[1..]);
      FirstWritten(Declared(re[1..]));
      assert re == [re[0]] + re[1..];
      OneMore(One(re[0]), Declared(re[1..]));
    }
  }

  lemma OnlyEnd(re: string)
    requires re == [] || re == "$"
    ensures Canonical(Declared(re)) && Text(Declared(re)) == re
  {
  }

  /** text cut so that the middle is a string of the pattern, at the start of the text if anchored, at its end if the
      pattern asks for that. */
  ghost predicate Occurs(text: string, p: Pattern, anchored: bool, pre: string, mid: string, post: string)
  {
    && text == pre + mid + post && InLanguage(mid, p.items)
    && (anchored ==> pre == []) && (p.toEnd ==> post == [])
  }

  /** What it means for a written pattern to be found in a text. */
  lemma FoundIff(text: string, p: Pattern, anchored: bool)
    requires Canonical(p) && (!anchored && Text(p) != [] ==> Text(p)[0] != '^')
    ensures Found(text, (if anchored then "^" else "") + Text(p)) <==>
              exists pre, mid, post :: Occurs(text, p, anchored, pre, mid, post)
  {
    hide InLanguage, Canonical, Text, BeginsWith;
    DeclaredText(p);
    var re := (if anchored then "^" else "") + Text(p);
    assert if anchored then re[0] == '^' && re[1..] == Text(p) else re == Text(p);
    if Found(text, re) {
      var i: nat := if anchored then 0 else var i: nat :| i <= |text| && BeginsWith(text[i..], p); i;
      assert text[0..] == text;
      CutOut(text, p, anchored, i);
    }
    if pre, mid, post :| Occurs(text, p, anchored, pre, mid, post) {
      CutIn(text, p, anchored, pre, mid, post);
      assert text[0..] == text;
    }
  }

  lemma CutOut(text: string, p: Pattern, anchored: bool, i: nat)
    requires i <= |text| && BeginsWith(text[i..], p) && (anchored ==> i == 0)
    ensures exists pre, mid, post :: Occurs(text, p, anchored, pre, mid, post)
  {
    hide InLanguage;
    var rest := text[i..];
    var n: nat :| n <= |rest| && Cut(rest, p, n);
    assert text == text[..i] + rest[..n] + rest[n..];
    assert Occurs(text, p, anchored, text[..i], rest[..n], rest[n..]);
  }

  lemma CutIn(text: string, p: Pattern, anchored: bool, pre: string, mid: string, post: string)
    requires Occurs(text, p, anchored, pre, mid, post)
    ensures |pre| <= |text| && BeginsWith(text[|pre|..], p) && (anchored ==> |pre| == 0)
  {
    hide InLanguage;
    var rest := text[|pre|..];
    assert rest == mid + post && rest[..|mid|] == mid;
    assert Cut(rest, p, |mid|);
  }

  /* ---------------- the language, item by item ---------------- */

  lemma NoItems(s: string)
    ensures InLanguage(s, []) <==> s == []
  {
    if s == [] { assert Splits([], s, []); }
  }

  lemma FirstItem(s: string, item: Item, rest: seq<Item>)
    ensures InLanguage(s, [item] + rest) <==>
              exists k: nat :: k <= |s| && OfItem(s[..k], item) && InLanguage(s[k..], rest)
  {
    if InLanguage(s, [item] + rest) {
      var parts :| Splits(parts, s, [item] + rest);
      Peeled(parts, s, item, rest);
    }
    if k: nat :| k <= |s| && OfItem(s[..k], item) && InLanguage(s[k..], rest) {
      var parts :| Splits(parts, s[k..], rest);
      Prefixed(parts, s, item, rest, k);
    }
  }

  lemma Peeled(parts: seq<string>, s: string, item: Item, rest: seq<Item>)
    requires Splits(parts, s, [item] + rest)
    ensures |parts| > 0 && |parts[0]| <= |s|
    ensures OfItem(s[..|parts[0]|], item) && InLanguage(s[|parts[0]|..], rest)
  {
    var items, k := [item] + rest, |parts[0]|;
    assert s[..k] == parts[0] && s[k..] == Concat(parts[1..]);
    assert OfItem(parts[0], items[0]);
    forall j | 0 <= j < |rest| ensures OfItem(parts[1..][j], rest[j]) {
      assert OfItem(parts[j + 1], items[j + 1]);
    }
    assert Splits(parts[1..], s[k..], rest);
  }

  lemma Prefixed(parts: seq<string>, s: string, item: Item, rest: seq<Item>, k: nat)
    requires k <= |s| && OfItem(s[..k], item) && Splits(parts, s[k..], rest)
    ensures InLanguage(s, [item] + rest)
  {
    var items, all := [item] + rest, [s[..k]] + parts;
    assert all[1..] == parts && s[..k] + s[k..] == s;
    forall j | 0 <= j < |items| ensures OfItem(all[j], items[j]) {
      assert j == 0 || OfItem(parts[j - 1], rest[j - 1]);
    }
    assert Splits(all, s, items);
  }

  lemma BeginsEmpty(text: string)
    ensures BeginsWith(text, Pattern([], false))
    ensures BeginsWith(text, Pattern([], true)) <==> text == []
  {
    NoItems(text[..0]);
    assert Cut(text, Pattern([], false), 0);
    if text == [] { assert Cut(text, Pattern([], true), 0); }
    forall n: nat | n <= |text| ensures Cut(text, Pattern([], true), n) ==> text == [] { NoItems(text[..n]); }
  }

  /** A first item splits off a piece of the text that it generates. */
  lemma BeginsFirst(text: string, item: Item, p: Pattern)
    ensures BeginsWith(text, Pattern([item] + p.items, p.toEnd)) <==>
              exists k: nat :: k <= |text| && OfItem(text[..k], item) && BeginsWith(text[k..], p)
  {
    var q := Pattern([item] + p.items, p.toEnd);
    if BeginsWith(text, q) {
      var n: nat :| n <= |text| && Cut(text, q, n);
      FirstItem(text[..n], item, p.items);
      var k: nat :| k <= n && OfItem(text[..n][..k], item) && InLanguage(text[..n][k..], p.items);
      assert text[..n][..k] == text[..k] && text[..n][k..] == text[k..][..n - k];
      assert Cut(text[k..], p, n - k);
    }
    if k: nat :| k <= |text| && OfItem(text[..k], item) && BeginsWith(text[k..], p) {
      var m: nat :| m <= |text[k..]| && Cut(text[k..], p, m);
      assert text[..k + m][..k] == text[..k] && text[..k + m][k..] == text[k..][..m];
      FirstItem(text[..k + m], item, p.items);
      assert Cut(text, q, k + m);
    }
  }

  /* ---------------- the matcher ---------------- */

  method Match(re: string, text: string) returns (r: bool)
    ensures r <==> Found(text, re)
  {
    if re != [] && re[0] == '^' {
      r := MatchHere(re[1..], text);
      return;
    }
    var i := 0;
    while true
      invariant 0 <= i <= |text| && forall j: nat :: j < i ==> !BeginsWith(text[j..], Declared(re))
      decreases |text| - i
    {
      r := MatchHere(re, text[i..]);
      if r { return; }
      if i == |text| { return; }
      i := i + 1;
    }
  }

  method MatchHere(re: string, text: string) returns (r: bool)
    ensures r <==> BeginsWith(text, Declared(re))
    decreases |re|, 0
  {
    hide BeginsWith;
    if re == [] {
      BeginsEmpty(text);
      return true;
    }
    if |re| >= 2 && re[1] == '*' {
      r := MatchStar(re[0], re[2..], text);
      return;
    }
    if re == "$" {
      BeginsEmpty(text);
      return text == [];
    }
    BeginsOne(text, re[0], Declared(re[1..]));
    if text != [] && (re[0] == '.' || re[0] == text[0]) {
      r := MatchHere(re[1..], text[1..]);
      return;
    }
    r := false;
  }

  lemma BeginsOne(text: string, c: char, p: Pattern)
    ensures BeginsWith(text, Pattern([One(c)] + p.items, p.toEnd)) <==>
              text != [] && Fits(c, text[0]) && BeginsWith(text[1..], p)
  {
    hide BeginsWith;
    BeginsFirst(text, One(c), p);
    if text != [] && Fits(c, text[0]) && BeginsWith(text[1..], p) { assert OfItem(text[..1], One(c)); }
  }

  method MatchStar(c: char, re: string, text: string) returns (r: bool)
    ensures r <==> BeginsWith(text, Pattern([Star(c)] + Declared(re).items, Declared(re).toEnd))
    decreases |re|, 1
  {
    hide BeginsWith;
    BeginsFirst(text, Star(c), Declared(re));
    var i := 0;
    while true
      invariant 0 <= i <= |text| && OfItem(text[..i], Star(c))
      invariant forall j: nat :: j < i ==> !BeginsWith(text[j..], Declared(re))
      decreases |text| - i
    {
      r := MatchHere(re, text[i..]);
      if r { return; }
      if i == |text| || !(text[i] == c || c == '.') {
        forall k: nat | i < k <= |text| ensures !OfItem(text[..k], Star(c)) { assert text[..k][i] == text[i]; }
        return;
      }
      i := i + 1;
    }
  }
}
