/**
 A reader for printed paths that knows JSON strings by their grammar (section 7 of RFC 8259) and
 not the printer: it gives every printed path of strings and integers back.
 */
module PathReader {
  import opened Basics
  import opened IJson
  import opened FormatPath
  import JsoncText
  import JsoncTokens

  type Literal = JsoncText.Literal

  // ---------------------------------------------------------------- the value of a JSON string

  function HexValue(c: char): int {
    if '0' <= c <= '9' then c as int - '0' as int
    else if 'a' <= c <= 'f' then c as int - 'a' as int + 10
    else if 'A' <= c <= 'F' then c as int - 'A' as int + 10
    else 0
  }

  /** The code of the character that one character of a literal stands for. */
  function CodeOf(ch: JsoncText.StringChar): int {
    match ch
    case Plain(c) => c as int
    case Escaped(c) =>
      if c == 'b' then 8 else if c == 't' then 9 else if c == 'n' then 10
      else if c == 'f' then 12 else if c == 'r' then 13 else c as int
    case Unicode(a, b, c, d) => 4096 * HexValue(a) + 256 * HexValue(b) + 16 * HexValue(c) + HexValue(d)
  }

  predicate SpellsOut(l: Literal, s: string) {
    |l| == |s| && forall i | 0 <= i < |s| :: CodeOf(l[i]) == s[i] as int
  }

  /** How the printer spells one character. */
  function Spelling(c: char): JsoncText.StringChar {
    if c == '"' || c == '\\' then JsoncText.Escaped(c)
    else if c == 8 as char then JsoncText.Escaped('b')
    else if c == 12 as char then JsoncText.Escaped('f')
    else if c == '\n' then JsoncText.Escaped('n')
    else if c == '\r' then JsoncText.Escaped('r')
    else if c == '\t' then JsoncText.Escaped('t')
    else if c < ' ' then JsoncText.Unicode('0', '0', Digit(c as int / 16), Digit(c as int % 16))
    else JsoncText.Plain(c)
  }

  lemma DigitIsHex(d: nat)
    requires d < 16
    ensures HexValue(Digit(d)) == d && JsoncText.IsHex(Digit(d))
  {}

  lemma SpellingIsRight(c: char)
    ensures JsoncText.CharText(Spelling(c)) == Escape(c)
    ensures JsoncText.CharOk(Spelling(c)) && CodeOf(Spelling(c)) == c as int
  {
    if c < ' ' {
      DigitIsHex(c as int / 16);
      DigitIsHex(c as int % 16);
    }
  }

  function Spellings(s: string): Literal {
    seq(|s|, i requires 0 <= i < |s| => Spelling(s[i]))
  }

  lemma {:induction false} SpelledChars(s: string, rest: string)
    ensures JsoncText.PutChars(Spellings(s), rest) == EscapeAll(s) + rest
  {
    if s != "" {
      SpelledChars(s[1..], rest);
      SpellingIsRight(s[0]);
      OneMoreSpelled(s);
      Regroup(Escape(s[0]), EscapeAll(s[1..]), rest);
    } else {
      assert EscapeAll(s) + rest == rest;
    }
  }

  lemma OneMoreSpelled(s: string)
    requires s != ""
    ensures Spellings(s) != [] && Spellings(s)[0] == Spelling(s[0]) && Spellings(s)[1..] == Spellings(s[1..])
  {
    var u := s[1..];
    assert forall i | 0 <= i < |u| :: Spellings(s)[1..][i] == Spelling(u[i]);
  }

  /** A quoted key is a JSON string literal that stands for exactly this key. */
  lemma QuoteIsLiteral(s: string) returns (l: Literal)
    ensures JsoncText.LiteralOk(l) && SpellsOut(l, s)
    ensures forall rest :: JsoncText.PutLiteral(l, rest) == Quote(s) + rest
  {
    l := Spellings(s);
    forall i | 0 <= i < |s| ensures JsoncText.CharOk(l[i]) && CodeOf(l[i]) == s[i] as int {
      SpellingIsRight(s[i]);
    }
    forall rest ensures JsoncText.PutLiteral(l, rest) == Quote(s) + rest {
      SpelledChars(s, "\"" + rest);
      assert Quote(s) + rest == "\"" + (EscapeAll(s) + ("\"" + rest));
    }
  }

  // ---------------------------------------------------------------- the reader

  /** The longest front of the text made of such characters. */
  function Front(p: char -> bool, s: string): (f: string)
    ensures |f| <= |s|
  {
    if s == "" || !p(s[0]) then "" else [s[0]] + Front(p, s[1..])
  }

  function IntOf(s: string): int {
    if s != "" && s[0] == '-' then -Value(s[1..]) else Value(s)
  }

  /** The string a literal stands for, if it stands for one. */
  function TextOf(l: Literal): Option<string> {
    if forall ch <- l :: 0 <= CodeOf(ch) < 0xD800 || 0xE000 <= CodeOf(ch) < 0x11_0000 then
      Some(seq(|l|, i requires 0 <= i < |l| => CharOf(CodeOf(l[i]))))
    else None
  }

  function CharOf(code: int): char {
    if 0 <= code < 0xD800 || 0xE000 <= code < 0x11_0000 then code as char else ' '
  }

  /** One segment: a dot and a name, or in brackets a JSON string or an integer. */
  function ReadSegment(s: string): Option<(PathPart, string)> {
    if |s| >= 1 && s[0] == '.' then
      var name := Front(IsNameChar, s[1..]);
      Some((Key(name), s[1 + |name|..]))
    else if |s| >= 2 && s[0] == '[' && s[1] == '"' then
      var r := JsoncTokens.CharsAt(s[2..]);
      if TextOf(r.0).Some? && r.1 != "" then Some((Key(TextOf(r.0).value), r.1[1..])) else None
    else if |s| >= 1 && s[0] == '[' then
      var digits := Front(IsNumberChar, s[1..]);
      if 1 + |digits| < |s| then Some((Idx(IntOf(digits)), s[2 + |digits|..])) else None
    else None
  }

  function ReadSegments(s: string): Option<Path>
    decreases |s|
  {
    if s == "" then Some([])
    else
      match ReadSegment(s)
      case None => None
      case Some(r) =>
        if |r.1| >= |s| then None
        else match ReadSegments(r.1)
          case None => None
          case Some(others) => Some([r.0] + others)
  }

  function ReadFormat(s: string): Option<Path> {
    if s != "" && s[0] == '$' then ReadSegments(s[1..]) else None
  }

  // ---------------------------------------------------------------- it gives back what was printed

  lemma {:induction false} FrontRead(p: char -> bool, t: string, rest: string)
    requires (forall c <- t :: p(c)) && (rest == "" || !p(rest[0]))
    ensures Front(p, t + rest) == t
  {
    if t == "" {
      assert t + rest == rest;
    } else {
      assert t[0] in t && (t + rest)[1..] == t[1..] + rest;
      FrontRead(p, t[1..], rest);
      assert [t[0]] + t[1..] == t;
    }
  }

  lemma TextRead(l: Literal, s: string)
    requires SpellsOut(l, s)
    ensures TextOf(l) == Some(s)
  {
    forall ch <- l ensures 0 <= CodeOf(ch) < 0xD800 || 0xE000 <= CodeOf(ch) < 0x11_0000 {
      var i :| 0 <= i < |l| && l[i] == ch;
      assert CodeOf(ch) == s[i] as int;
    }
    assert TextOf(l).value == s;
  }

  lemma DottedRead(k: string, rest: string)
    requires IsSimple(k) && StartsSegment(rest)
    ensures ReadSegment(Segment(Key(k)) + rest) == Some((Key(k), rest))
  {
    var s := "." + k + rest;
    assert s[1..] == k + rest && s[1 + |k|..] == rest;
    FrontRead(IsNameChar, k, rest);
  }

  lemma QuotedRead(k: string, rest: string)
    requires !IsSimple(k)
    ensures ReadSegment(Segment(Key(k)) + rest) == Some((Key(k), rest))
  {
    var l := QuoteIsLiteral(k);
    var s := "[" + Quote(k) + "]" + rest;
    var after := "]" + rest;
    assert s == "[" + (Quote(k) + after);
    assert s[1..] == JsoncText.PutLiteral(l, after);
    assert s[2..] == JsoncText.PutChars(l, ['"'] + after);
    JsoncTokens.CharsRead(l, after);
    TextRead(l, k);
    assert after[1..] == rest && s[1] == '"';
  }

  lemma IndexRead(i: int, rest: string)
    ensures ReadSegment(Segment(Idx(i)) + rest) == Some((Idx(i), rest))
  {
    var text := PrintInt(i);
    PrintIntReads(i);
    var s := "[" + text + "]" + rest;
    assert s[1..] == text + ("]" + rest) && s[1] == text[0];
    FrontRead(IsNumberChar, text, "]" + rest);
    assert s[2 + |text|..] == rest;
  }

  lemma {:induction false} SegmentsRead(path: Path)
    requires forall part <- path :: Printable(part)
    ensures ReadSegments(Segments(path)) == Some(path)
  {
    if path != [] {
      var part, rest := path[0], Segments(path[1..]);
      assert Printable(part) && forall other <- path[1..] :: other in path;
      SegmentsStart(path);
      SegmentsStart(path[1..]);
      SegmentsRead(path[1..]);
      match part {
        case Key(k) => if IsSimple(k) { DottedRead(k, rest); } else { QuotedRead(k, rest); }
        case Idx(i) => IndexRead(i, rest);
      }
      assert |rest| < |Segments(path)|;
      assert [part] + path[1..] == path;
    }
  }

  /** Every printed path of strings and integers is read back. */
  lemma ReadBack(path: Path)
    requires forall part <- path :: Printable(part)
    ensures ReadFormat(Format(path)) == Some(path)
  {
    SegmentsRead(path);
    assert Format(path)[1..] == Segments(path);
  }

  /** A key is printed behind a dot exactly when it is a name: letters, digits and underscores, with no
      digit in front. */
  lemma DotIff(k: string)
    ensures Format([Key(k)]) == "$." + k <==>
      k != "" && !('0' <= k[0] <= '9') &&
      forall c <- k :: 'a' <= c <= 'z' || 'A' <= c <= 'Z' || '0' <= c <= '9' || c == '_'
  {
    assert [Key(k)][1..] == [];
    assert Segments([Key(k)]) == Segment(Key(k)) + "" == Segment(Key(k));
    if !IsSimple(k) {
      assert Format([Key(k)])[1] == '[' && ("$." + k)[1] == '.';
    }
    assert k != "" ==> k[0] in k;
  }
}
