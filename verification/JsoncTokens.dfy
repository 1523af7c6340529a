/**
 The tokens of a JSON text, read off the text itself: every derivation of one text has the same
 tokens, and so the scanner of JsoncScanner.dfy keeps the tokens of a text, not only those of
 one of its derivations.
 */
module JsoncTokens {
  import opened Basics
  import opened JsoncScanner
  import opened JsoncText

  // ---------------------------------------------------------------- reading tokens

  predicate IsMark(c: char) {
    c in {'{', '}', '[', ']', ',', ':'}
  }

  predicate IsWordChar(c: char) {
    !IsSpace(c) && !IsMark(c) && c != '"'
  }

  /** The longest word at the front. */
  function WordAt(s: string): (w: string)
    ensures |w| <= |s|
  {
    if s == "" || !IsWordChar(s[0]) then "" else [s[0]] + WordAt(s[1..])
  }

  /** The characters of a string literal up to its closing quote, and what follows it. */
  function CharsAt(s: string): (r: (Literal, string))
    ensures |r.1| <= |s|
    decreases |s|
  {
    if s == "" then ([], "")
    else if s[0] == '"' then ([], s[1..])
    else if s[0] != '\\' then
      var r := CharsAt(s[1..]);
      ([Plain(s[0])] + r.0, r.1)
    else if |s| >= 6 && s[1] == 'u' then
      var r := CharsAt(s[6..]);
      ([Unicode(s[2], s[3], s[4], s[5])] + r.0, r.1)
    else if |s| >= 2 then
      var r := CharsAt(s[2..]);
      ([Escaped(s[1])] + r.0, r.1)
    else ([], "")
  }

  function Lex(s: string): seq<Token>
    decreases |s|
  {
    if s == "" then []
    else if IsSpace(s[0]) then Lex(s[1..])
    else if IsMark(s[0]) then [Punctuation(s[0])] + Lex(s[1..])
    else if s[0] == '"' then
      var r := CharsAt(s[1..]);
      [StringToken(r.0)] + Lex(r.1)
    else
      var w := WordAt(s);
      [WordToken(w)] + Lex(s[|w|..])
  }

  // ---------------------------------------------------------------- reading a derivation

  /** No word goes on here. */
  predicate EndsWord(s: string) {
    s == "" || !IsWordChar(s[0])
  }

  lemma {:induction false} WordRead(t: string, rest: string)
    requires (forall c <- t :: IsWordChar(c)) && EndsWord(rest)
    ensures WordAt(t + rest) == t
  {
    if t == "" {
      assert t + rest == rest;
    } else {
      assert t[0] in t && forall c <- t[1..] :: c in t;
      assert (t + rest)[1..] == t[1..] + rest;
      WordRead(t[1..], rest);
      assert [t[0]] + t[1..] == t;
    }
  }

  lemma LexWord(t: string, rest: string)
    requires t != "" && (forall c <- t :: IsWordChar(c)) && EndsWord(rest)
    ensures Lex(t + rest) == [WordToken(t)] + Lex(rest)
  {
    WordRead(t, rest);
    assert t[0] in t && (t + rest)[0] == t[0] && (t + rest)[|t|..] == rest;
  }

  lemma LexMark(c: char, rest: string)
    requires IsMark(c)
    ensures Lex([c] + rest) == [Punctuation(c)] + Lex(rest)
  {
    assert ([c] + rest)[1..] == rest;
  }

  lemma CharRead(ch: StringChar, rest: string)
    requires CharOk(ch)
    ensures CharsAt(CharText(ch) + rest) == ([ch] + CharsAt(rest).0, CharsAt(rest).1)
  {
    assert (CharText(ch) + rest)[|CharText(ch)|..] == rest;
  }

  lemma {:induction false} CharsRead(l: Literal, rest: string)
    requires LiteralOk(l)
    ensures CharsAt(PutChars(l, ['"'] + rest)) == (l, rest)
  {
    if l == [] {
      assert (['"'] + rest)[1..] == rest;
    } else {
      assert CharOk(l[0]) && forall ch <- l[1..] :: ch in l;
      CharsRead(l[1..], rest);
      CharRead(l[0], PutChars(l[1..], ['"'] + rest));
      assert [l[0]] + l[1..] == l;
    }
  }

  lemma LexLiteral(l: Literal, rest: string)
    requires LiteralOk(l)
    ensures Lex(PutLiteral(l, rest)) == [StringToken(l)] + Lex(rest)
  {
    CharsRead(l, rest);
    assert PutLiteral(l, rest)[1..] == PutChars(l, ['"'] + rest);
  }

  lemma {:induction false} LexGap(g: Gap, rest: string)
    requires GapOk(g) && BlankGap(g)
    ensures Lex(PutGap(g, rest)) == Lex(rest)
    ensures EndsWord(rest) ==> EndsWord(PutGap(g, rest))
  {
    if g != [] {
      assert PieceOk(g[0]) && g[0].Ws?;
      LexGap(g[1..], rest);
      assert PutGap(g, rest)[1..] == PutGap(g[1..], rest);
    }
  }

  lemma NumberIsWord(n: Number)
    requires NumberOk(n)
    ensures NumberText(n) != "" && forall c <- NumberText(n) :: IsWordChar(c)
  {
    assert forall c | IsDigit(c) :: IsWordChar(c);
  }

  function LabelTokens(key: Option<Label>): seq<Token> {
    if key.Some? then [StringToken(key.value.name), Punctuation(':')] else []
  }

  lemma LexLabel(key: Option<Label>, rest: string)
    requires key.Some? ==> LiteralOk(key.value.name) && GapOk(key.value.before) && GapOk(key.value.after)
    requires key.Some? ==> BlankGap(key.value.before) && BlankGap(key.value.after)
    ensures Lex(PutLabel(key, rest)) == LabelTokens(key) + Lex(rest)
  {
    if key.Some? {
      var after := PutGap(key.value.after, rest);
      LexGap(key.value.after, rest);
      LexMark(':', after);
      LexGap(key.value.before, [':'] + after);
      LexLiteral(key.value.name, PutGap(key.value.before, [':'] + after));
    }
  }

  lemma {:induction false} LexValue(v: Value, rest: string)
    requires ValueOk(v) && PlainValue(v) && EndsWord(rest)
    ensures Lex(PutValue(v, rest)) == Tokens(v) + Lex(rest)
    decreases v, 1
  {
    match v
    case Word(t) => LexWord(t, rest);
    case Num(n) =>
      NumberIsWord(n);
      LexWord(NumberText(n), rest);
    case Text(l) => LexLiteral(l, rest);
    case Box(braces, elements, comma, tail) =>
      ElementsOkOf(v);
      LexClose(braces, tail, rest);
      LexElements(elements, braces, PutClose(braces, false, tail, rest));
      LexBox(v, rest);
  }

  lemma LexClose(braces: bool, tail: Gap, rest: string)
    requires GapOk(tail) && BlankGap(tail)
    ensures var close := PutClose(braces, false, tail, rest);
      EndsWord(close) && Lex(close) == [Punctuation(Closer(braces))] + Lex(rest)
  {
    LexMark(Closer(braces), rest);
    LexGap(tail, [Closer(braces)] + rest);
  }

  lemma LexBox(v: Value, rest: string)
    requires v.Box? && !v.comma
    requires var close := PutClose(v.braces, false, v.tail, rest);
      Lex(close) == [Punctuation(Closer(v.braces))] + Lex(rest) &&
      Lex(PutElements(v.elements, close)) == ElementTokens(v.elements) + Lex(close)
    ensures Lex(PutValue(v, rest)) == Tokens(v) + Lex(rest)
  {
    var close := PutClose(v.braces, false, v.tail, rest);
    var open := if v.braces then '{' else '[';
    LexMark(open, PutElements(v.elements, close));
    Enclosed([Punctuation(open)], ElementTokens(v.elements), [Punctuation(Closer(v.braces))], Lex(rest));
  }

  lemma Enclosed(a: seq<Token>, b: seq<Token>, c: seq<Token>, d: seq<Token>)
    ensures a + (b + (c + d)) == a + b + c + d
  {}

  function PutElement(e: Element, tail: string): string {
    PutGap(e.before, PutLabel(e.key, PutValue(e.value, PutGap(e.after, tail))))
  }

  lemma FirstElement(e: Element, es: seq<Element>, rest: string)
    ensures PutElements([e] + es, rest) == PutElement(e, if es == [] then rest else [','] + PutElements(es, rest))
    ensures ElementTokens([e] + es) ==
      LabelTokens(e.key) + Tokens(e.value) + (if es == [] then [] else [Punctuation(',')]) + ElementTokens(es)
  {
    assert ([e] + es)[1..] == es && ([e] + es)[0] == e;
  }

  predicate ElementsOk(es: seq<Element>, braces: bool) {
    forall e <- es :: ElementOk(e, braces) && PlainElement(e)
  }

  lemma ElementsOkOf(v: Value)
    requires v.Box? && ValueOk(v) && PlainValue(v)
    ensures ElementsOk(v.elements, v.braces)
  {}

  lemma ElementsOkTail(es: seq<Element>, braces: bool)
    requires ElementsOk(es, braces) && es != []
    ensures ElementOk(es[0], braces) && PlainElement(es[0]) && ElementsOk(es[1..], braces)
  {
    assert es[0] in es && forall e <- es[1..] :: e in es;
  }

  lemma {:induction false} LexElements(es: seq<Element>, braces: bool, rest: string)
    requires ElementsOk(es, braces) && EndsWord(rest)
    ensures Lex(PutElements(es, rest)) == ElementTokens(es) + Lex(rest)
    decreases es, 0
  {
    if es != [] {
      var e, others := es[0], es[1..];
      assert es == [e] + others;
      ElementsOkTail(es, braces);
      LexElements(others, braces, rest);
      LexElement(e, braces, if others == [] then rest else [','] + PutElements(others, rest));
      LexFirst(e, others, rest);
    }
  }

  lemma LexFirst(e: Element, others: seq<Element>, rest: string)
    requires Lex(PutElements(others, rest)) == ElementTokens(others) + Lex(rest)
    requires var tail := if others == [] then rest else [','] + PutElements(others, rest);
      Lex(PutElement(e, tail)) == LabelTokens(e.key) + Tokens(e.value) + Lex(tail)
    ensures Lex(PutElements([e] + others, rest)) == ElementTokens([e] + others) + Lex(rest)
  {
    FirstElement(e, others, rest);
    var own := LabelTokens(e.key) + Tokens(e.value);
    if others == [] {
      NoMore(own, ElementTokens(others));
    } else {
      var more := PutElements(others, rest);
      LexMark(',', more);
      Chain(own, [Punctuation(',')], ElementTokens(others), Lex(rest), Lex(more), Lex([','] + more));
    }
  }

  lemma NoMore(a: seq<Token>, b: seq<Token>)
    requires b == []
    ensures a + [] + b == a
  {}

  lemma Chain(a: seq<Token>, b: seq<Token>, c: seq<Token>, d: seq<Token>, cd: seq<Token>, bcd: seq<Token>)
    requires cd == c + d && bcd == b + cd
    ensures a + bcd == a + b + c + d
  {}

  lemma {:induction false} LexElement(e: Element, braces: bool, tail: string)
    requires ElementOk(e, braces) && PlainElement(e) && EndsWord(tail)
    ensures Lex(PutElement(e, tail)) == LabelTokens(e.key) + Tokens(e.value) + Lex(tail)
    decreases e, 0
  {
    var after := PutGap(e.after, tail);
    LexGap(e.after, tail);
    LexValue(e.value, after);
    var value := PutValue(e.value, after);
    LexLabel(e.key, value);
    LexGap(e.before, PutLabel(e.key, value));
    Joined(LabelTokens(e.key), Tokens(e.value), Lex(tail), Lex(value));
  }

  lemma Joined(a: seq<Token>, b: seq<Token>, c: seq<Token>, bc: seq<Token>)
    requires bc == b + c
    ensures a + bc == a + b + c
  {}

  /** The tokens of a JSON text are those of each of its derivations. */
  lemma TextHasItsTokens(p: Document)
    requires DocumentOk(p) && PlainDocument(p)
    ensures Lex(Print(p)) == Tokens(p.value)
  {
    var after := PutGap(p.after, "");
    LexGap(p.after, "");
    LexValue(p.value, after);
    LexGap(p.before, PutValue(p.value, after));
  }

  /** Two derivations of one JSON text have the same tokens. */
  lemma TokensAreUnique(p: Document, q: Document)
    requires DocumentOk(p) && PlainDocument(p) && DocumentOk(q) && PlainDocument(q)
    requires Print(p) == Print(q)
    ensures Tokens(p.value) == Tokens(q.value)
  {
    TextHasItsTokens(p);
    TextHasItsTokens(q);
  }

  /** Where the result of stripping is a JSON text, its tokens are those of the decorated text,
      whichever derivation one reads it by. */
  lemma StrippingKeepsTokens(d: Document, p: Document)
    requires DocumentOk(d) && DocumentOk(p) && PlainDocument(p)
    requires Print(p) == Strip(Print(d), false, false)
    ensures Tokens(p.value) == Tokens(d.value) == Lex(Strip(Print(d), false, false))
  {
    assert IsJsonText(Strip(Print(d), false, false));
    ResultIsJsonIff(d);
    var e := DecoratedTextStripped(d);
    TextHasItsTokens(p);
    TextHasItsTokens(e);
  }
}
