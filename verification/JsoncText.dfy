/**
 JSON texts (RFC 8259, sections 2 to 7) as derivations, with comments allowed in every gap
 between tokens and a comma allowed before every closing bracket; and what the scanner of
 JsoncScanner.dfy makes of them.

 A derivation is written in front of a `rest`, the text that follows it.
 */
module JsoncText {
  import opened Basics
  import opened JsoncScanner

  // ---------------------------------------------------------------- derivations

  /** A piece of a gap: a white-space character, a line comment with its newline, or a
      block comment. */
  datatype Piece = Ws(c: char) | Line(text: string) | Block(text: string)

  type Gap = seq<Piece>

  /** One character of a string literal. */
  datatype StringChar = Plain(c: char) | Escaped(c: char) | Unicode(a: char, b: char, c: char, d: char)

  type Literal = seq<StringChar>

  datatype Number = Number(minus: bool, whole: string, frac: Option<string>, exp: Option<Exponent>)

  datatype Exponent = Exponent(e: char, sign: Option<char>, digits: string)

  /** The name of an object member, with the gaps on both sides of its colon. */
  datatype Label = Label(name: Literal, before: Gap, after: Gap)

  datatype Element = Element(before: Gap, key: Option<Label>, value: Value, after: Gap)

  datatype Value =
    | Word(text: string)
    | Num(number: Number)
    | Text(chars: Literal)
    /** An object (`braces`) or an array: its elements, perhaps one more comma, and a gap
        before the closing bracket. */
    | Box(braces: bool, elements: seq<Element>, comma: bool, tail: Gap)

  /** `last` is a line comment that ends with the text and not with a newline. */
  datatype Document = Document(before: Gap, value: Value, after: Gap, last: Option<string>)

  // ---------------------------------------------------------------- well-formedness

  predicate IsHex(c: char) {
    IsDigit(c) || 'a' <= c <= 'f' || 'A' <= c <= 'F'
  }

  predicate Digits(s: string) {
    s != "" && forall c <- s :: IsDigit(c)
  }

  predicate NumberOk(n: Number) {
    && Digits(n.whole) && (n.whole[0] == '0' ==> n.whole == "0")
    && (n.frac.Some? ==> Digits(n.frac.value))
    && (n.exp.Some? ==>
          n.exp.value.e in {'e', 'E'} && Digits(n.exp.value.digits) &&
          (n.exp.value.sign.Some? ==> n.exp.value.sign.value in {'+', '-'}))
  }

  predicate CharOk(ch: StringChar) {
    match ch
    case Plain(c) => c >= ' ' && c != '"' && c != '\\'
    case Escaped(c) => c in {'"', '\\', '/', 'b', 'f', 'n', 'r', 't'}
    case Unicode(a, b, c, d) => IsHex(a) && IsHex(b) && IsHex(c) && IsHex(d)
  }

  predicate LiteralOk(l: Literal) {
    forall ch <- l :: CharOk(ch)
  }

  /** A block comment's text does not contain its closer. */
  predicate NoCloser(t: string) {
    forall i | 0 <= i < |t| - 1 :: !(t[i] == '*' && t[i + 1] == '/')
  }

  predicate PieceOk(p: Piece) {
    match p
    case Ws(c) => c in {' ', '\t', '\n', '\r'}
    case Line(t) => '\n' !in t
    case Block(t) => NoCloser(t)
  }

  predicate GapOk(g: Gap) {
    forall p <- g :: PieceOk(p)
  }

  predicate ElementOk(e: Element, braces: bool) {
    && GapOk(e.before) && GapOk(e.after) && ValueOk(e.value)
    && e.key.Some? == braces
    && (braces ==> LiteralOk(e.key.value.name) && GapOk(e.key.value.before) && GapOk(e.key.value.after))
  }

  predicate ValueOk(v: Value) {
    match v
    case Word(t) => t in {"true", "false", "null"}
    case Num(n) => NumberOk(n)
    case Text(l) => LiteralOk(l)
    case Box(braces, elements, _, tail) =>
      (forall e <- elements :: ElementOk(e, braces)) && GapOk(tail)
  }

  predicate DocumentOk(d: Document) {
    GapOk(d.before) && ValueOk(d.value) && GapOk(d.after) && (d.last.Some? ==> '\n' !in d.last.value)
  }

  // ---------------------------------------------------------------- the text

  function PutGap(g: Gap, rest: string): string {
    if g == [] then rest
    else
      match g[0]
      case Ws(c) => [c] + PutGap(g[1..], rest)
      case Line(t) => "//" + (t + ("\n" + PutGap(g[1..], rest)))
      case Block(t) => "/*" + (t + ("*/" + PutGap(g[1..], rest)))
  }

  function CharText(ch: StringChar): string {
    match ch
    case Plain(c) => [c]
    case Escaped(c) => ['\\', c]
    case Unicode(a, b, c, d) => ['\\', 'u', a, b, c, d]
  }

  function PutChars(l: Literal, rest: string): string {
    if l == [] then rest else CharText(l[0]) + PutChars(l[1..], rest)
  }

  function PutLiteral(l: Literal, rest: string): string {
    ['"'] + PutChars(l, ['"'] + rest)
  }

  function NumberText(n: Number): string {
    (if n.minus then "-" else "") + n.whole +
    (if n.frac.Some? then "." + n.frac.value else "") +
    (if n.exp.None? then ""
     else [n.exp.value.e] + (if n.exp.value.sign.Some? then [n.exp.value.sign.value] else "") + n.exp.value.digits)
  }

  function PutLabel(key: Option<Label>, rest: string): string {
    if key.None? then rest
    else PutLiteral(key.value.name,
           PutGap(key.value.before, [':'] + PutGap(key.value.after, rest)))
  }

  function PutElements(es: seq<Element>, rest: string): string
    decreases es, 0
  {
    if es == [] then rest
    else
      var tail := if |es| == 1 then rest else [','] + PutElements(es[1..], rest);
      PutGap(es[0].before, PutLabel(es[0].key, PutValue(es[0].value, PutGap(es[0].after, tail))))
  }

  function Closer(braces: bool): char {
    if braces then '}' else ']'
  }

  function PutClose(braces: bool, comma: bool, tail: Gap, rest: string): string {
    var close := PutGap(tail, [Closer(braces)] + rest);
    if comma then [','] + close else close
  }

  function PutValue(v: Value, rest: string): string
    decreases v, 1
  {
    match v
    case Word(t) => t + rest
    case Num(n) => NumberText(n) + rest
    case Text(l) => PutLiteral(l, rest)
    case Box(braces, elements, comma, tail) =>
      [if braces then '{' else '['] + PutElements(elements, PutClose(braces, comma, tail, rest))
  }

  function Print(d: Document): string {
    PutGap(d.before, PutValue(d.value, PutGap(d.after, if d.last.Some? then "//" + d.last.value else "")))
  }

  // ---------------------------------------------------------------- stripped derivations

  /** No comment. */
  predicate BlankGap(g: Gap) {
    forall p <- g :: p.Ws?
  }

  predicate PlainElement(e: Element) {
    && BlankGap(e.before) && BlankGap(e.after) && PlainValue(e.value)
    && (e.key.Some? ==> BlankGap(e.key.value.before) && BlankGap(e.key.value.after))
  }

  predicate PlainValue(v: Value) {
    v.Box? ==>
      (forall e <- v.elements :: PlainElement(e)) && BlankGap(v.tail) && !v.comma
  }

  /** A derivation of the RFC 8259 grammar itself: no comment and no comma before a closer. */
  predicate PlainDocument(d: Document) {
    BlankGap(d.before) && PlainValue(d.value) && BlankGap(d.after) && d.last == None
  }

  /** A line comment leaves a newline, a block comment nothing. */
  function StripGap(g: Gap): Gap {
    if g == [] then []
    else
      match g[0]
      case Ws(c) => [g[0]] + StripGap(g[1..])
      case Line(_) => [Ws('\n')] + StripGap(g[1..])
      case Block(_) => StripGap(g[1..])
  }

  function StripLabel(key: Option<Label>): Option<Label> {
    if key.None? then None
    else Some(Label(key.value.name, StripGap(key.value.before), StripGap(key.value.after)))
  }

  function StripElement(e: Element): Element {
    Element(StripGap(e.before), StripLabel(e.key), StripValue(e.value), StripGap(e.after))
  }

  function StripElements(es: seq<Element>): (r: seq<Element>)
    ensures |r| == |es|
    decreases es, 0
  {
    if es == [] then [] else [StripElement(es[0])] + StripElements(es[1..])
  }

  /** The comma goes exactly when no comment stands between it and the closer. */
  function StripValue(v: Value): Value
    decreases v, 1
  {
    match v
    case Box(braces, elements, comma, tail) =>
      Box(braces, StripElements(elements), comma && !BlankGap(tail), StripGap(tail))
    case _ => v
  }

  function StripDocument(d: Document): Document {
    Document(StripGap(d.before), StripValue(d.value),
             StripGap(d.after) + (if d.last.Some? then [Ws('\n')] else []), None)
  }

  // ---------------------------------------------------------------- the scanner on a derivation

  lemma {:induction false} LineSkipped(t: string, rest: string)
    requires '\n' !in t
    ensures AfterLine(t + ("\n" + rest)) == rest
  {
    if t == "" {
      assert t + ("\n" + rest) == "\n" + rest;
    } else {
      assert (t + ("\n" + rest))[1..] == t[1..] + ("\n" + rest);
      LineSkipped(t[1..], rest);
    }
  }

  lemma {:induction false} BlockSkipped(t: string, rest: string)
    requires NoCloser(t)
    ensures AfterBlock(t + ("*/" + rest)) == rest
  {
    var s := t + ("*/" + rest);
    if t == "" {
      assert s == "*/" + rest && s[2..] == rest;
    } else {
      assert s[1..] == t[1..] + ("*/" + rest);
      assert s[1] == if |t| > 1 then t[1] else '*';
      BlockSkipped(t[1..], rest);
    }
  }

  /** A gap is stripped on its own, whatever follows. */
  lemma {:induction false} GapStripped(g: Gap, rest: string)
    requires GapOk(g)
    ensures Strip(PutGap(g, rest), false, false) == PutGap(StripGap(g), Strip(rest, false, false))
  {
    if g != [] {
      var next := PutGap(g[1..], rest);
      GapStripped(g[1..], rest);
      assert PieceOk(g[0]);
      match g[0]
      case Ws(c) =>
        assert ([c] + next)[1..] == next;
      case Line(t) =>
        var s := "//" + (t + ("\n" + next));
        LineSkipped(t, next);
        assert s[1..][1..] == t + ("\n" + next) && s[1..][0] == '/';
        assert AfterLine(s) == next;
      case Block(t) =>
        var s := "/*" + (t + ("*/" + next));
        BlockSkipped(t, next);
        assert s[2..] == t + ("*/" + next);
    }
  }

  lemma PlainCharPasses(c: char, rest: string)
    requires c != '"' && c != '\\'
    ensures Strip([c] + rest, true, false) == [c] + Strip(rest, true, false)
  {
    assert ([c] + rest)[1..] == rest;
  }

  lemma {:induction false} PlainRun(t: string, rest: string)
    requires '"' !in t && '\\' !in t
    ensures Strip(t + rest, true, false) == t + Strip(rest, true, false)
  {
    if t == "" {
      assert t + rest == rest;
    } else {
      var c, u := t[0], t[1..];
      assert t == [c] + u;
      PlainRun(u, rest);
      PlainCharPasses(c, u + rest);
      Regroup([c], u, rest);
      Regroup([c], u, Strip(rest, true, false));
    }
  }

  lemma EscapePasses(c: char, rest: string)
    ensures Strip(['\\', c] + rest, true, false) == ['\\', c] + Strip(rest, true, false)
  {
    var s := ['\\', c] + rest;
    assert s[1..] == [c] + rest && s[1..][1..] == rest;
    assert Strip(s, true, false) == ['\\'] + ([c] + Strip(rest, true, false));
  }

  lemma UnicodePasses(hex: string, rest: string)
    requires '"' !in hex && '\\' !in hex
    ensures Strip(['\\', 'u'] + hex + rest, true, false) == ['\\', 'u'] + hex + Strip(rest, true, false)
  {
    EscapePasses('u', hex + rest);
    PlainRun(hex, rest);
    Regroup(['\\', 'u'], hex, rest);
    Regroup(['\\', 'u'], hex, Strip(rest, true, false));
  }

  lemma CharStripped(ch: StringChar, rest: string)
    requires CharOk(ch)
    ensures Strip(CharText(ch) + rest, true, false) == CharText(ch) + Strip(rest, true, false)
  {
    match ch
    case Plain(c) => PlainRun([c], rest);
    case Escaped(c) => EscapePasses(c, rest);
    case Unicode(a, b, c, d) =>
      UnicodePasses([a, b, c, d], rest);
      assert CharText(ch) == ['\\', 'u'] + [a, b, c, d];
  }

  /** A string literal passes through unchanged. */
  lemma {:induction false} CharsStripped(l: Literal, rest: string)
    requires LiteralOk(l)
    ensures Strip(PutChars(l, ['"'] + rest), true, false) == PutChars(l, ['"'] + Strip(rest, false, false))
  {
    if l == [] {
      assert (['"'] + rest)[1..] == rest;
    } else {
      CharStripped(l[0], PutChars(l[1..], ['"'] + rest));
      CharsStripped(l[1..], rest);
    }
  }

  lemma LiteralStripped(l: Literal, rest: string)
    requires LiteralOk(l)
    ensures Strip(PutLiteral(l, rest), false, false) == PutLiteral(l, Strip(rest, false, false))
  {
    CharsStripped(l, rest);
    assert PutLiteral(l, rest)[1..] == PutChars(l, ['"'] + rest);
  }

  predicate WordChar(c: char) {
    c !in {'"', '/', ',', '}', ']'} && !IsSpace(c)
  }

  lemma {:induction false} WordStripped(t: string, rest: string)
    requires forall c <- t :: WordChar(c)
    ensures Strip(t + rest, false, false) == t + Strip(rest, false, false)
  {
    if t == "" {
      assert t + rest == rest;
    } else {
      assert (t + rest)[1..] == t[1..] + rest && t[0] in t;
      assert forall c <- t[1..] :: c in t;
      WordStripped(t[1..], rest);
      assert t + Strip(rest, false, false) == [t[0]] + (t[1..] + Strip(rest, false, false));
    }
  }

  lemma CharacterPasses(c: char, rest: string)
    requires c !in {'"', '/', ','} || (c == ',' && !CloserNext(rest))
    ensures Strip([c] + rest, false, false) == [c] + Strip(rest, false, false)
  {
    assert ([c] + rest)[1..] == rest;
  }

  lemma NumberChars(n: Number)
    requires NumberOk(n)
    ensures NumberText(n) != "" && forall c <- NumberText(n) :: WordChar(c)
  {
    assert forall c | IsDigit(c) :: WordChar(c);
    assert n.whole[0] in n.whole;
  }

  // ---------------------------------------------------------------- commas

  /** What a value, a member or a comment may start with. */
  predicate StartsToken(s: string) {
    s != "" && s[0] !in {'}', ']'} && !IsSpace(s[0])
  }

  lemma {:induction false} NoCloserAfterGap(g: Gap, rest: string)
    requires GapOk(g) && (StartsToken(rest) || !BlankGap(g))
    ensures !CloserNext(PutGap(g, rest))
  {
    if g != [] {
      match g[0]
      case Ws(c) =>
        assert PieceOk(g[0]);
        assert ([c] + PutGap(g[1..], rest))[1..] == PutGap(g[1..], rest);
        NoCloserAfterGap(g[1..], rest);
      case _ =>
        assert PutGap(g, rest)[0] == '/';
    }
  }

  lemma {:induction false} CloserAfterBlank(g: Gap, braces: bool, rest: string)
    requires GapOk(g) && BlankGap(g)
    ensures CloserNext(PutGap(g, [Closer(braces)] + rest))
  {
    if g == [] {
      assert ([Closer(braces)] + rest)[0] == Closer(braces);
    } else {
      assert PieceOk(g[0]) && g[0].Ws?;
      assert ([g[0].c] + PutGap(g[1..], [Closer(braces)] + rest))[1..] == PutGap(g[1..], [Closer(braces)] + rest);
      CloserAfterBlank(g[1..], braces, rest);
    }
  }

  lemma ValueStartsToken(v: Value, rest: string)
    requires ValueOk(v)
    ensures StartsToken(PutValue(v, rest))
  {
    match v
    case Num(n) =>
      NumberChars(n);
      assert NumberText(n)[0] in NumberText(n);
    case _ =>
  }

  // ---------------------------------------------------------------- main results

  lemma LabelStripped(key: Option<Label>, rest: string)
    requires key.Some? ==> LiteralOk(key.value.name) && GapOk(key.value.before) && GapOk(key.value.after)
    ensures Strip(PutLabel(key, rest), false, false) == PutLabel(StripLabel(key), Strip(rest, false, false))
  {
    if key.Some? {
      var k := key.value;
      var colon := [':'] + PutGap(k.after, rest);
      LiteralStripped(k.name, PutGap(k.before, colon));
      GapStripped(k.before, colon);
      CharacterPasses(':', PutGap(k.after, rest));
      GapStripped(k.after, rest);
    }
  }

  lemma ElementStart(es: seq<Element>, braces: bool, rest: string)
    requires es != [] && ElementOk(es[0], braces)
    ensures !CloserNext(PutElements(es, rest))
  {
    var e := es[0];
    var tail := if |es| == 1 then rest else [','] + PutElements(es[1..], rest);
    var body := PutValue(e.value, PutGap(e.after, tail));
    ValueStartsToken(e.value, PutGap(e.after, tail));
    NoCloserAfterGap(e.before, PutLabel(e.key, body));
  }

  lemma {:induction false} ElementsStripped(es: seq<Element>, braces: bool, rest: string)
    requires forall e <- es :: ElementOk(e, braces)
    ensures Strip(PutElements(es, rest), false, false) == PutElements(StripElements(es), Strip(rest, false, false))
    decreases es, 0
  {
    if es != [] {
      var e := es[0];
      var more := PutElements(es[1..], rest);
      var tail := if |es| == 1 then rest else [','] + more;
      assert ElementOk(e, braces);
      if |es| > 1 {
        assert ElementOk(es[1], braces);
        ElementStart(es[1..], braces, rest);
        CharacterPasses(',', more);
        ElementsStripped(es[1..], braces, rest);
      }
      GapStripped(e.after, tail);
      ValueStripped(e.value, PutGap(e.after, tail));
      LabelStripped(e.key, PutValue(e.value, PutGap(e.after, tail)));
      GapStripped(e.before, PutLabel(e.key, PutValue(e.value, PutGap(e.after, tail))));
      assert StripElements(es)[1..] == StripElements(es[1..]);
    }
  }

  lemma CloseStripped(braces: bool, comma: bool, tail: Gap, rest: string)
    requires GapOk(tail)
    ensures Strip(PutClose(braces, comma, tail, rest), false, false) ==
            PutClose(braces, comma && !BlankGap(tail), StripGap(tail), Strip(rest, false, false))
  {
    var closer := [Closer(braces)] + rest;
    CharacterPasses(Closer(braces), rest);
    GapStripped(tail, closer);
    if comma {
      if BlankGap(tail) {
        CloserAfterBlank(tail, braces, rest);
        assert ([','] + PutGap(tail, closer))[1..] == PutGap(tail, closer);
      } else {
        NoCloserAfterGap(tail, closer);
        CharacterPasses(',', PutGap(tail, closer));
      }
    }
  }

  lemma {:induction false} ValueStripped(v: Value, rest: string)
    requires ValueOk(v)
    ensures Strip(PutValue(v, rest), false, false) == PutValue(StripValue(v), Strip(rest, false, false))
    decreases v, 1
  {
    match v
    case Word(t) =>
      WordStripped(t, rest);
    case Num(n) =>
      NumberChars(n);
      WordStripped(NumberText(n), rest);
    case Text(l) =>
      LiteralStripped(l, rest);
    case Box(braces, elements, comma, tail) =>
      var close := PutClose(braces, comma, tail, rest);
      CharacterPasses(if braces then '{' else '[', PutElements(elements, close));
      ElementsStripped(elements, braces, close);
      CloseStripped(braces, comma, tail, rest);
  }

  /** The scanner works on a decorated text token by token: it drops comments, drops each comma
      that stands before a closer with no comment between them, and copies the rest. */
  lemma DocumentStripped(d: Document)
    requires DocumentOk(d)
    ensures Strip(Print(d), false, false) == Print(StripDocument(d))
  {
    var end := if d.last.Some? then "//" + d.last.value else "";
    var gap := if d.last.Some? then [Ws('\n')] else [];
    GapStripped(d.before, PutValue(d.value, PutGap(d.after, end)));
    ValueStripped(d.value, PutGap(d.after, end));
    GapStripped(d.after, end);
    if d.last.Some? { LastLineStripped(d.last.value); }
    GapConcat(StripGap(d.after), gap, "");
    assert PutGap(gap, "") == Strip(end, false, false);
  }

  lemma {:induction false} GapConcat(g: Gap, h: Gap, rest: string)
    ensures PutGap(g + h, rest) == PutGap(g, PutGap(h, rest))
  {
    if g == [] {
      assert g + h == h;
    } else {
      assert (g + h)[0] == g[0] && (g + h)[1..] == g[1..] + h;
      GapConcat(g[1..], h, rest);
    }
  }

  lemma {:induction false} NoLineEnd(t: string)
    requires '\n' !in t
    ensures AfterLine(t) == ""
  {
    if t != "" { NoLineEnd(t[1..]); }
  }

  lemma LastLineStripped(t: string)
    requires '\n' !in t
    ensures Strip("//" + t, false, false) == "\n"
    ensures PutGap([Ws('\n')], "") == "\n"
  {
    NoLineEnd("//" + t);
    assert [Ws('\n')][1..] == [];
  }

  lemma BlankCons(p: Piece, g: Gap)
    ensures BlankGap([p] + g) <==> p.Ws? && BlankGap(g)
  {
    assert p in [p] + g;
    forall q <- g ensures q in [p] + g {}
  }

  lemma {:induction false} BlankGapKept(g: Gap)
    ensures BlankGap(StripGap(g))
    ensures BlankGap(g) ==> StripGap(g) == g
  {
    if g != [] {
      BlankGapKept(g[1..]);
      BlankCons(g[0], g[1..]);
      assert g == [g[0]] + g[1..];
      BlankCons(Ws('\n'), StripGap(g[1..]));
    }
  }

  lemma {:induction false} PlainValueKept(v: Value)
    requires PlainValue(v)
    ensures StripValue(v) == v
    decreases v, 1
  {
    if v.Box? {
      BlankGapKept(v.tail);
      PlainElementsKept(v.elements);
    }
  }

  lemma {:induction false} PlainElementsKept(es: seq<Element>)
    requires forall e <- es :: PlainElement(e)
    ensures StripElements(es) == es
    decreases es, 0
  {
    if es != [] {
      var e := es[0];
      assert PlainElement(e);
      BlankGapKept(e.before);
      BlankGapKept(e.after);
      if e.key.Some? {
        BlankGapKept(e.key.value.before);
        BlankGapKept(e.key.value.after);
      }
      PlainValueKept(e.value);
      PlainElementsKept(es[1..]);
    }
  }

  /** On every text of the RFC 8259 grammar the scanner is the identity. */
  lemma JsonTextUnchanged(d: Document)
    requires DocumentOk(d) && PlainDocument(d)
    ensures Strip(Print(d), false, false) == Print(d)
  {
    DocumentStripped(d);
    BlankGapKept(d.before);
    BlankGapKept(d.after);
    PlainValueKept(d.value);
    assert StripDocument(d) == d;
  }

  /** No comment stands between a comma and the closer after it. */
  predicate CommasBare(v: Value) {
    v.Box? ==> (v.comma ==> BlankGap(v.tail)) && forall e <- v.elements :: CommasBare(e.value)
  }

  lemma {:induction false} StrippedIsPlainIff(v: Value)
    ensures PlainValue(StripValue(v)) <==> CommasBare(v)
    decreases v, 1
  {
    if v.Box? {
      BlankGapKept(v.tail);
      StrippedElementsPlainIff(v.elements);
    }
  }

  lemma {:induction false} StrippedElementPlainIff(e: Element)
    ensures PlainElement(StripElement(e)) <==> CommasBare(e.value)
    decreases e, 2
  {
    StrippedIsPlainIff(e.value);
    BlankGapKept(e.before);
    BlankGapKept(e.after);
    if e.key.Some? {
      BlankGapKept(e.key.value.before);
      BlankGapKept(e.key.value.after);
    }
    var r := StripElement(e);
    assert PlainElement(r) <==> PlainValue(r.value);
  }

  lemma {:induction false} StrippedElementsPlainIff(es: seq<Element>)
    ensures (forall e <- StripElements(es) :: PlainElement(e)) <==> forall e <- es :: CommasBare(e.value)
    decreases es, 0
  {
    if es != [] {
      StrippedElementPlainIff(es[0]);
      StrippedElementsPlainIff(es[1..]);
      var rs := StripElements(es);
      assert rs == [rs[0]] + rs[1..] && rs[1..] == StripElements(es[1..]);
      assert es == [es[0]] + es[1..];
      assert (forall r <- rs :: PlainElement(r)) <==> PlainElement(rs[0]) && forall r <- rs[1..] :: PlainElement(r);
    }
  }

  datatype Token = Punctuation(c: char) | WordToken(text: string) | StringToken(chars: Literal)

  /** The tokens of a value, without the commas before closers. */
  function Tokens(v: Value): seq<Token>
    decreases v, 1
  {
    match v
    case Word(t) => [WordToken(t)]
    case Num(n) => [WordToken(NumberText(n))]
    case Text(l) => [StringToken(l)]
    case Box(braces, elements, _, _) =>
      [Punctuation(if braces then '{' else '[')] + ElementTokens(elements) + [Punctuation(Closer(braces))]
  }

  function ElementTokens(es: seq<Element>): seq<Token>
    decreases es, 0
  {
    if es == [] then []
    else
      (if es[0].key.Some? then [StringToken(es[0].key.value.name), Punctuation(':')] else []) +
      Tokens(es[0].value) +
      (if |es| > 1 then [Punctuation(',')] else []) +
      ElementTokens(es[1..])
  }

  lemma {:induction false} TokensKept(v: Value)
    ensures Tokens(StripValue(v)) == Tokens(v)
    decreases v, 1
  {
    if v.Box? { ElementTokensKept(v.elements); }
  }

  lemma {:induction false} ElementTokensKept(es: seq<Element>)
    ensures ElementTokens(StripElements(es)) == ElementTokens(es)
    decreases es, 0
  {
    if es != [] {
      TokensKept(es[0].value);
      ElementTokensKept(es[1..]);
    }
  }

  lemma {:induction false} GapOkKept(g: Gap)
    requires GapOk(g)
    ensures GapOk(StripGap(g))
  {
    if g != [] {
      assert PieceOk(g[0]);
      GapOkKept(g[1..]);
    }
  }

  lemma {:induction false} ValueOkKept(v: Value)
    requires ValueOk(v)
    ensures ValueOk(StripValue(v))
    decreases v, 1
  {
    if v.Box? {
      GapOkKept(v.tail);
      ElementsOkKept(v.elements, v.braces);
    }
  }

  lemma {:induction false} ElementsOkKept(es: seq<Element>, braces: bool)
    requires forall e <- es :: ElementOk(e, braces)
    ensures forall e <- StripElements(es) :: ElementOk(e, braces)
    decreases es, 0
  {
    if es != [] {
      var e := es[0];
      assert ElementOk(e, braces);
      GapOkKept(e.before);
      GapOkKept(e.after);
      if braces {
        GapOkKept(e.key.value.before);
        GapOkKept(e.key.value.after);
      }
      ValueOkKept(e.value);
      ElementsOkKept(es[1..], braces);
    }
  }

  // ---------------------------------------------------------------- when the result is JSON

  /** No comment anywhere; there may be commas before closers. */
  predicate BlankValue(v: Value) {
    v.Box? ==> (forall e <- v.elements :: BlankElement(e)) && BlankGap(v.tail)
  }

  predicate BlankElement(e: Element) {
    && BlankGap(e.before) && BlankGap(e.after) && BlankValue(e.value)
    && (e.key.Some? ==> BlankGap(e.key.value.before) && BlankGap(e.key.value.after))
  }

  lemma {:induction false} StrippedIsBlank(v: Value)
    ensures BlankValue(StripValue(v))
    decreases v, 1
  {
    if v.Box? {
      BlankGapKept(v.tail);
      StrippedElementsBlank(v.elements);
    }
  }

  lemma {:induction false} StrippedElementsBlank(es: seq<Element>)
    ensures forall e <- StripElements(es) :: BlankElement(e)
    decreases es, 0
  {
    if es != [] {
      var e := es[0];
      BlankGapKept(e.before);
      BlankGapKept(e.after);
      if e.key.Some? {
        BlankGapKept(e.key.value.before);
        BlankGapKept(e.key.value.after);
      }
      StrippedIsBlank(e.value);
      assert BlankElement(StripElement(e));
      StrippedElementsBlank(es[1..]);
    }
  }

  lemma {:induction false} GapLength(g: Gap, r: string, s: string)
    ensures |PutGap(g, r)| - |r| == |PutGap(g, s)| - |s| >= 0
  {
    if g != [] { GapLength(g[1..], r, s); }
  }

  lemma {:induction false} CharsLength(l: Literal, r: string, s: string)
    ensures |PutChars(l, r)| - |r| == |PutChars(l, s)| - |s|
  {
    if l != [] { CharsLength(l[1..], r, s); }
  }

  lemma LabelLength(key: Option<Label>, r: string, s: string)
    ensures |PutLabel(key, r)| - |r| == |PutLabel(key, s)| - |s|
  {
    if key.Some? {
      var a, b := key.value.before, key.value.after;
      var r1, s1 := [':'] + PutGap(b, r), [':'] + PutGap(b, s);
      GapLength(b, r, s);
      GapLength(a, r1, s1);
      CharsLength(key.value.name, ['"'] + PutGap(a, r1), ['"'] + PutGap(a, s1));
    }
  }

  lemma CloseLength(braces: bool, comma: bool, tail: Gap, r: string, s: string)
    ensures |PutClose(braces, false, tail, r)| - |r| + (if comma then 1 else 0) == |PutClose(braces, comma, tail, s)| - |s|
  {
    GapLength(tail, [Closer(braces)] + r, [Closer(braces)] + s);
  }

  /** Stripping a text without comments never makes it longer, and makes it shorter unless it is
      plain: every comma before a closer goes. */
  lemma {:induction false} StrippingShortens(v: Value, r: string, s: string)
    requires BlankValue(v)
    ensures |PutValue(StripValue(v), r)| - |r| <= |PutValue(v, s)| - |s|
    ensures !PlainValue(v) ==> |PutValue(StripValue(v), r)| - |r| < |PutValue(v, s)| - |s|
    decreases v, 1
  {
    if v.Box? {
      BlankGapKept(v.tail);
      CloseLength(v.braces, v.comma, v.tail, r, s);
      StrippingElementsShortens(v.elements, PutClose(v.braces, false, v.tail, r), PutClose(v.braces, v.comma, v.tail, s));
    } else if v.Text? {
      CharsLength(v.chars, ['"'] + r, ['"'] + s);
    }
  }

  lemma StrippedLabelKept(e: Element)
    requires BlankElement(e)
    ensures StripGap(e.before) == e.before && StripGap(e.after) == e.after && StripLabel(e.key) == e.key
  {
    BlankGapKept(e.before);
    BlankGapKept(e.after);
    if e.key.Some? {
      BlankGapKept(e.key.value.before);
      BlankGapKept(e.key.value.after);
    }
  }

  lemma {:induction false} StrippingElementsShortens(es: seq<Element>, r: string, s: string)
    requires forall e <- es :: BlankElement(e)
    ensures |PutElements(StripElements(es), r)| - |r| <= |PutElements(es, s)| - |s|
    ensures !(forall e <- es :: PlainElement(e)) ==>
              |PutElements(StripElements(es), r)| - |r| < |PutElements(es, s)| - |s|
    decreases es, 0
  {
    if es != [] {
      var e, rest := es[0], es[1..];
      assert BlankElement(e) && es == [e] + rest;
      StrippedLabelKept(e);
      StrippingElementsShortens(rest, r, s);
      var r1 := if |es| == 1 then r else [','] + PutElements(StripElements(rest), r);
      var s1 := if |es| == 1 then s else [','] + PutElements(rest, s);
      var r2, s2 := PutGap(e.after, r1), PutGap(e.after, s1);
      GapLength(e.after, r1, s1);
      StrippingShortens(e.value, r2, s2);
      var r3, s3 := PutValue(StripValue(e.value), r2), PutValue(e.value, s2);
      LabelLength(e.key, r3, s3);
      GapLength(e.before, PutLabel(e.key, r3), PutLabel(e.key, s3));
      ElementsPlainIff(e, rest);
      assert StripElements(es)[1..] == StripElements(rest);
    }
  }

  lemma ElementsPlainIff(e: Element, rest: seq<Element>)
    ensures (forall x <- [e] + rest :: PlainElement(x)) <==> PlainElement(e) && forall x <- rest :: PlainElement(x)
  {
    assert e in [e] + rest && forall x <- rest :: x in [e] + rest;
  }

  /** A stripped derivation that still has a comma before a closer: its text shrinks when stripped
      again. */
  lemma SecondStripShortens(e: Document)
    requires BlankGap(e.before) && BlankGap(e.after) && BlankValue(e.value) && e.last == None
    requires !PlainValue(e.value)
    ensures |Print(StripDocument(e))| < |Print(e)|
  {
    BlankGapKept(e.before);
    BlankGapKept(e.after);
    var r := PutGap(e.after, "");
    assert e.after + [] == e.after;
    StrippingShortens(e.value, r, r);
    GapLength(e.before, PutValue(StripValue(e.value), r), PutValue(e.value, r));
  }

  lemma StrippedDocumentOk(d: Document)
    requires DocumentOk(d)
    ensures DocumentOk(StripDocument(d))
  {
    GapOkKept(d.before);
    GapOkKept(d.after);
    ValueOkKept(d.value);
    assert PieceOk(Ws('\n'));
  }

  /** `text` is a JSON text by the grammar of RFC 8259. */
  ghost predicate IsJsonText(text: string) {
    exists p: Document :: DocumentOk(p) && PlainDocument(p) && Print(p) == text
  }

  /** Comments anywhere between tokens and commas before closers: the result is the text of a
      derivation with the same tokens. */
  lemma DecoratedTextStripped(d: Document) returns (e: Document)
    requires DocumentOk(d)
    ensures Strip(Print(d), false, false) == Print(e)
    ensures DocumentOk(e) && Tokens(e.value) == Tokens(d.value)
    ensures CommasBare(d.value) ==> PlainDocument(e)
  {
    e := StripDocument(d);
    DocumentStripped(d);
    StrippedDocumentOk(d);
    TokensKept(d.value);
    StrippedIsPlainIff(d.value);
    BlankGapKept(d.before);
    BlankGapKept(d.after);
  }

  /** The result of one pass is a JSON text, by any derivation whatever, exactly when no comment
      stands between a comma and the closer after it. */
  lemma ResultIsJsonIff(d: Document)
    requires DocumentOk(d)
    ensures IsJsonText(Strip(Print(d), false, false)) <==> CommasBare(d.value)
  {
    var text := Strip(Print(d), false, false);
    if CommasBare(d.value) {
      var e := DecoratedTextStripped(d);
    } else if p: Document :| DocumentOk(p) && PlainDocument(p) && Print(p) == text {
      var e := StripDocument(d);
      DocumentStripped(d);
      JsonTextUnchanged(p);
      StrippedDocumentOk(d);
      DocumentStripped(e);
      BlankGapKept(d.before);
      BlankGapKept(d.after);
      StrippedIsBlank(d.value);
      StrippedIsPlainIff(d.value);
      SecondStripShortens(e);
      assert false;
    }
  }
}
