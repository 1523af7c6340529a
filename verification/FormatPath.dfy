/**
 The path printer of frontend/util/ijson.ts: what it prints, and that two paths of
 strings and integers never print alike.
 */
module FormatPath {
  import opened Basics
  import opened IJson

  // ---------------------------------------------------------------- what is printed

  predicate IsLetterOrUnderscore(c: char) {
    'a' <= c <= 'z' || 'A' <= c <= 'Z' || c == '_'
  }

  predicate IsNameChar(c: char) {
    IsLetterOrUnderscore(c) || IsDigit(c)
  }

  predicate IsSimple(s: string) {
    s != [] && IsLetterOrUnderscore(s[0]) && forall c <- s :: IsNameChar(c)
  }

  function Digit(d: nat): char
    requires d < 16
  {
    "0123456789abcdef"[d]
  }

  function Decimal(n: nat): string {
    if n < 10 then [Digit(n)] else Decimal(n / 10) + [Digit(n % 10)]
  }

  function PrintInt(i: int): string {
    if i < 0 then "-" + Decimal(-i) else Decimal(i)
  }

  /** One character of a JSON string (section 7 of RFC 8259), as `JSON.stringify` writes it. */
  function Escape(c: char): string {
    if c == '"' then "\\\""
    else if c == '\\' then "\\\\"
    else if c == 8 as char then "\\b"
    else if c == 12 as char then "\\f"
    else if c == '\n' then "\\n"
    else if c == '\r' then "\\r"
    else if c == '\t' then "\\t"
    else if c < ' ' then "\\u00" + [Digit(c as int / 16), Digit(c as int % 16)]
    else [c]
  }

  function EscapeAll(s: string): string {
    if s == [] then "" else Escape(s[0]) + EscapeAll(s[1..])
  }

  function Quote(s: string): string {
    "\"" + EscapeAll(s) + "\""
  }

  function Segment(part: PathPart): string {
    match part
    case Key(k) => if IsSimple(k) then "." + k else "[" + Quote(k) + "]"
    case Idx(i) => "[" + PrintInt(i) + "]"
    case Frac(repr) => "[" + repr + "]"
    case Other => ".*"
  }

  function Segments(path: Path): string {
    if path == [] then "" else Segment(path[0]) + Segments(path[1..])
  }

  function Format(path: Path): string {
    "$" + Segments(path)
  }

  lemma FormatAppend(path: Path, part: PathPart)
    ensures Format(path + [part]) == Format(path) + Segment(part)
  {
    SegmentsAppend(path, part);
    Regroup("$", Segments(path), Segment(part));
  }

  lemma SegmentsAppend(path: Path, part: PathPart)
    ensures Segments(path + [part]) == Segments(path) + Segment(part)
  {
    if path == [] {
      assert [part][1..] == [];
    } else {
      assert (path + [part])[1..] == path[1..] + [part];
      SegmentsAppend(path[1..], part);
      Regroup(Segment(path[0]), Segments(path[1..]), Segment(part));
    }
  }

  method FormatPath(path: Path) returns (pathStr: string)
    ensures pathStr == Format(path)
  {
    if |path| == 0 {
      return "$";
    }
    pathStr := "$";
    for i := 0 to |path|
      invariant pathStr == Format(path[..i])
    {
      var piece: string;
      match path[i] {
        case Key(k) =>
          if IsSimple(k) {
            piece := "." + k;
          } else {
            piece := "[" + Quote(k) + "]";
          }
        case Idx(n) => piece := "[" + PrintInt(n) + "]";
        case Frac(repr) => piece := "[" + repr + "]";
        case Other => piece := ".*";
      }
      FormatAppend(path[..i], path[i]);
      assert path[..i + 1] == path[..i] + [path[i]];
      pathStr := pathStr + piece;
    }
    assert path[..|path|] == path;
  }

  // ---------------------------------------------------------------- it can be read back

  /** A run of `p` characters up to something else is determined by the text. */
  lemma {:induction false} RunUnique(p: char -> bool, a: string, x: string, b: string, y: string)
    requires forall c <- a :: p(c)
    requires forall c <- b :: p(c)
    requires x != [] ==> !p(x[0])
    requires y != [] ==> !p(y[0])
    requires a + x == b + y
    ensures a == b && x == y
  {
    assert a + x == (if a == [] then x else [a[0]] + (a[1..] + x));
    assert b + y == (if b == [] then y else [b[0]] + (b[1..] + y));
    if a != [] && b != [] {
      assert (a + x)[1..] == a[1..] + x && (b + y)[1..] == b[1..] + y;
      RunUnique(p, a[1..], x, b[1..], y);
    }
  }

  function Value(s: string): int {
    if s == [] then 0 else 10 * Value(s[..|s| - 1]) + (s[|s| - 1] as int - '0' as int)
  }

  lemma {:induction false} DecimalReads(n: nat)
    ensures Value(Decimal(n)) == n && Decimal(n) != []
    ensures forall c <- Decimal(n) :: IsDigit(c)
  {
    if n < 10 {
      assert [Digit(n)][..0] == [];
    } else {
      DecimalReads(n / 10);
      assert Decimal(n)[..|Decimal(n)| - 1] == Decimal(n / 10);
    }
  }

  predicate IsNumberChar(c: char) {
    IsDigit(c) || c == '-'
  }

  lemma PrintIntReads(i: int)
    ensures PrintInt(i) != [] && forall c <- PrintInt(i) :: IsNumberChar(c)
    ensures IsNumberChar(PrintInt(i)[0])
    ensures i == if PrintInt(i)[0] == '-' then -Value(PrintInt(i)[1..]) else Value(PrintInt(i))
  {
    DecimalReads(if i < 0 then -i else i);
    if i < 0 {
      assert PrintInt(i)[1..] == Decimal(-i);
    } else {
      assert PrintInt(i)[0] in Decimal(i);
    }
  }

  lemma IntUnique(i: int, x: string, j: int, y: string)
    requires PrintInt(i) + ("]" + x) == PrintInt(j) + ("]" + y)
    ensures i == j && x == y
  {
    PrintIntReads(i);
    PrintIntReads(j);
    RunUnique(IsNumberChar, PrintInt(i), "]" + x, PrintInt(j), "]" + y);
    assert ("]" + x)[1..] == x && ("]" + y)[1..] == y;
  }

  lemma DigitsDiffer(d: nat, e: nat)
    requires d < 16 && e < 16 && Digit(d) == Digit(e)
    ensures d == e
  {}

  lemma EscapeUnique(c: char, x: string, d: char, y: string)
    requires Escape(c) + x == Escape(d) + y
    ensures c == d && x == y
  {
    var s, t := Escape(c) + x, Escape(d) + y;
    assert s[0] == Escape(c)[0] && t[0] == Escape(d)[0];
    if s[0] == '\\' {
      assert s[1] == Escape(c)[1] && t[1] == Escape(d)[1];
      if s[1] == 'u' {
        assert s[4] == Escape(c)[4] && s[5] == Escape(c)[5];
        assert t[4] == Escape(d)[4] && t[5] == Escape(d)[5];
        DigitsDiffer(c as int / 16, d as int / 16);
        DigitsDiffer(c as int % 16, d as int % 16);
      }
    }
    assert c == d;
    assert s[|Escape(c)|..] == x && t[|Escape(c)|..] == y;
  }

  lemma EscapeFirst(a: string, z: string)
    requires a != []
    ensures EscapeAll(a) + z == Escape(a[0]) + (EscapeAll(a[1..]) + z)
    ensures (EscapeAll(a) + z)[0] != '"'
  {
    Regroup(Escape(a[0]), EscapeAll(a[1..]), z);
    EscapeStarts(a[0]);
  }

  lemma EscapeStarts(c: char)
    ensures Escape(c) != "" && Escape(c)[0] != '"'
  {}

  lemma {:induction false} QuotedUnique(a: string, x: string, b: string, y: string)
    requires EscapeAll(a) + ("\"" + x) == EscapeAll(b) + ("\"" + y)
    ensures a == b && x == y
  {
    var u, v := "\"" + x, "\"" + y;
    if a != [] { EscapeFirst(a, u); }
    if b != [] { EscapeFirst(b, v); }
    assert a == [] ==> EscapeAll(a) + u == u && u[1..] == x;
    assert b == [] ==> EscapeAll(b) + v == v && v[1..] == y;
    if a != [] && b != [] {
      EscapeUnique(a[0], EscapeAll(a[1..]) + u, b[0], EscapeAll(b[1..]) + v);
      QuotedUnique(a[1..], x, b[1..], y);
      assert a == [a[0]] + a[1..] && b == [b[0]] + b[1..];
    }
  }

  predicate Printable(part: PathPart) {
    part.Key? || part.Idx?
  }

  predicate StartsSegment(x: string) {
    x == [] || x[0] == '.' || x[0] == '['
  }

  lemma Quoted(e: string, x: string)
    ensures ("[" + ("\"" + e + "\"") + "]" + x)[1] == '"'
    ensures ("[" + ("\"" + e + "\"") + "]" + x)[2..] == e + ("\"" + ("]" + x))
  {}

  lemma Numbered(e: string, x: string)
    ensures ("[" + e + "]" + x)[1..] == e + ("]" + x)
  {}

  lemma BracketedUnique(a: PathPart, x: string, b: PathPart, y: string)
    requires Printable(a) && Printable(b) && Segment(a)[0] == '[' && Segment(b)[0] == '['
    requires Segment(a) + x == Segment(b) + y
    ensures a == b && x == y
  {
    if a.Key? { Quoted(EscapeAll(a.name), x); } else { Numbered(PrintInt(a.i), x); PrintIntReads(a.i); }
    if b.Key? { Quoted(EscapeAll(b.name), y); } else { Numbered(PrintInt(b.i), y); PrintIntReads(b.i); }
    assert ("]" + x)[1..] == x && ("]" + y)[1..] == y;
    if a.Key? && b.Key? {
      QuotedUnique(a.name, "]" + x, b.name, "]" + y);
    } else if a.Idx? && b.Idx? {
      IntUnique(a.i, x, b.i, y);
    }
  }

  lemma DottedUnique(a: string, x: string, b: string, y: string)
    requires IsSimple(a) && IsSimple(b) && StartsSegment(x) && StartsSegment(y)
    requires "." + a + x == "." + b + y
    ensures a == b && x == y
  {
    assert ("." + a + x)[1..] == a + x && ("." + b + y)[1..] == b + y;
    RunUnique(IsNameChar, a, x, b, y);
  }

  /** The text of the first segment, and where it ends, can be told from the whole text. */
  lemma SegmentUnique(a: PathPart, x: string, b: PathPart, y: string)
    requires Printable(a) && Printable(b) && StartsSegment(x) && StartsSegment(y)
    requires Segment(a) + x == Segment(b) + y
    ensures a == b && x == y
  {
    assert (Segment(a) + x)[0] == Segment(a)[0] && (Segment(b) + y)[0] == Segment(b)[0];
    if Segment(a)[0] == '.' {
      DottedUnique(a.name, x, b.name, y);
    } else {
      BracketedUnique(a, x, b, y);
    }
  }

  lemma SegmentsStart(path: Path)
    requires forall part <- path :: Printable(part)
    ensures StartsSegment(Segments(path))
    ensures path != [] ==> Segments(path) != []
  {
    if path != [] {
      assert Segments(path)[0] == Segment(path[0])[0];
    }
  }

  /** Two paths of strings and integers that print alike are the same path. */
  lemma {:induction false} FormatInjective(p: Path, q: Path)
    requires forall part <- p + q :: Printable(part)
    requires Format(p) == Format(q)
    ensures p == q
  {
    assert forall part <- p :: part in p + q;
    assert forall part <- q :: part in p + q;
    assert Format(p)[1..] == Segments(p) && Format(q)[1..] == Segments(q);
    SegmentsInjective(p, q);
  }

  lemma {:induction false} SegmentsInjective(p: Path, q: Path)
    requires forall part <- p :: Printable(part)
    requires forall part <- q :: Printable(part)
    requires Segments(p) == Segments(q)
    ensures p == q
  {
    SegmentsStart(p);
    SegmentsStart(q);
    if p != [] && q != [] {
      SegmentsStart(p[1..]);
      SegmentsStart(q[1..]);
      SegmentUnique(p[0], Segments(p[1..]), q[0], Segments(q[1..]));
      SegmentsInjective(p[1..], q[1..]);
      assert p == [p[0]] + p[1..] && q == [q[0]] + q[1..];
    }
  }
}
