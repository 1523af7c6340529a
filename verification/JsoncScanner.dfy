/**
 The scanner of emain/elevation.ts that strips comments and trailing commas, as the index
 loop of the source and as a function on the rest of the text.
 */
module JsoncScanner {
  /** The characters `\s` stands for. */
  predicate IsSpace(c: char) {
    c in {'\t', '\n', 11 as char, 12 as char, '\r', ' '} ||
    c in {'\U{00a0}', '\U{1680}', '\U{2028}', '\U{2029}', '\U{202f}', '\U{205f}', '\U{3000}', '\U{feff}'} ||
    '\U{2000}' <= c <= '\U{200a}'
  }

  predicate Starts(s: string, a: char, b: char) {
    |s| >= 2 && s[0] == a && s[1] == b
  }

  /** After the newline that ends a line comment. */
  function AfterLine(s: string): string {
    if s == "" then "" else if s[0] == '\n' then s[1..] else AfterLine(s[1..])
  }

  /** After the closer of a block comment whose opener is already gone. */
  function AfterBlock(s: string): (r: string)
    ensures |r| <= |s|
  {
    if s == "" then "" else if Starts(s, '*', '/') then s[2..] else AfterBlock(s[1..])
  }

  function SkipSpace(s: string): string {
    if s != "" && IsSpace(s[0]) then SkipSpace(s[1..]) else s
  }

  predicate CloserNext(s: string) {
    var t := SkipSpace(s);
    t != "" && t[0] in {'}', ']'}
  }

  lemma AfterLineShorter(s: string)
    ensures |AfterLine(s)| <= |s| && (s != "" && s[0] != '\n' ==> |AfterLine(s)| < |s|)
  {}

  function Strip(s: string, inString: bool, escaped: bool): string
    decreases |s|
  {
    if s == "" then ""
    else if inString then
      [s[0]] + (if escaped then Strip(s[1..], true, false)
                else Strip(s[1..], s[0] != '"', s[0] == '\\'))
    else if s[0] == '"' then [s[0]] + Strip(s[1..], true, false)
    else if Starts(s, '/', '/') then
      AfterLineShorter(s);
      "\n" + Strip(AfterLine(s), false, false)
    else if Starts(s, '/', '*') then Strip(AfterBlock(s[2..]), false, false)
    else if s[0] == ',' && CloserNext(s[1..]) then Strip(s[1..], false, false)
    else [s[0]] + Strip(s[1..], false, false)
  }

  /** The text from an index on; nothing past the end. */
  function Rest(s: string, i: nat): string {
    if i <= |s| then s[i..] else ""
  }

  /** Stops at the newline, or at the end of the text. */
  method SkipLine(input: string, start: nat) returns (i: nat)
    requires start <= |input|
    ensures start <= i <= |input| && AfterLine(input[start..]) == Rest(input, i + 1)
  {
    i := start;
    while i < |input| && input[i] != '\n'
      invariant start <= i <= |input| && AfterLine(input[i..]) == AfterLine(input[start..])
    {
      assert input[i..][1..] == input[i + 1..];
      i := i + 1;
    }
    assert i < |input| ==> input[i..][1..] == input[i + 1..];
  }

  /** Stops at the closer of the comment, or at the end of the text. */
  method SkipBlock(input: string, start: nat) returns (i: nat)
    requires start <= |input|
    ensures start <= i <= |input| && AfterBlock(input[start..]) == Rest(input, i + 2)
  {
    i := start;
    while i < |input| && !(input[i] == '*' && i + 1 < |input| && input[i + 1] == '/')
      invariant start <= i <= |input| && AfterBlock(input[i..]) == AfterBlock(input[start..])
    {
      assert input[i..][1..] == input[i + 1..];
      i := i + 1;
    }
    assert i < |input| ==> input[i..][2..] == input[i + 2..];
  }

  method IsTrailing(input: string, start: nat) returns (r: bool)
    requires start <= |input|
    ensures r <==> CloserNext(input[start..])
  {
    var j := start;
    while j < |input| && IsSpace(input[j])
      invariant start <= j <= |input| && SkipSpace(input[j..]) == SkipSpace(input[start..])
    {
      assert input[j..][1..] == input[j + 1..];
      j := j + 1;
    }
    r := j < |input| && (input[j] == '}' || input[j] == ']');
  }

  lemma OneMore(out: string, c: char, rest: string)
    ensures out + ([c] + rest) == out + [c] + rest
  {}

  method StripJsonCommentsAndTrailingCommas(input: string) returns (out: string)
    ensures out == Strip(input, false, false)
  {
    out := "";
    var inString, escaped := false, false;
    var i := 0;
    while i < |input|
      invariant i <= |input| + 2
      invariant Strip(input, false, false) == out + Strip(Rest(input, i), inString, escaped)
      invariant !inString ==> !escaped
      decreases |input| - i
    {
      var ch := input[i];
      assert input[i..][1..] == input[i + 1..];
      if inString {
        ghost var quoted := !escaped && ch == '"';
        OneMore(out, ch, Strip(input[i + 1..], !quoted, !escaped && ch == '\\'));
        out := out + [ch];
        if escaped {
          escaped := false;
        } else if ch == '\\' {
          escaped := true;
        } else if ch == '"' {
          inString := false;
        }
        i := i + 1;
        continue;
      }
      if ch == '"' {
        OneMore(out, ch, Strip(input[i + 1..], true, false));
        inString := true;
        out := out + [ch];
        i := i + 1;
        continue;
      }
      if ch == '/' && i + 1 < |input| && input[i + 1] == '/' {
        i := SkipLine(input, i);
        OneMore(out, '\n', Strip(Rest(input, i + 1), false, false));
        out := out + "\n";
        i := i + 1;
        continue;
      }
      if ch == '/' && i + 1 < |input| && input[i + 1] == '*' {
        assert input[i..][2..] == input[i + 2..];
        i := SkipBlock(input, i + 2);
        i := i + 2;
        continue;
      }
      if ch == ',' {
        var trailing := IsTrailing(input, i + 1);
        if trailing {
          i := i + 1;
          continue;
        }
      }
      OneMore(out, ch, Strip(input[i + 1..], false, false));
      out := out + [ch];
      i := i + 1;
    }
  }

  // ---------------------------------------------------------------- what is never left

  /** Read with the same notion of string, the text has no comment opener outside strings. */
  predicate CommentFree(s: string, inString: bool, escaped: bool)
    decreases |s|
  {
    s == "" ||
    if inString then
      (if escaped then CommentFree(s[1..], true, false)
       else CommentFree(s[1..], s[0] != '"', s[0] == '\\'))
    else
      !Starts(s, '/', '/') && !Starts(s, '/', '*') && CommentFree(s[1..], s[0] == '"', false)
  }

  lemma {:induction false} SpaceFirst(s: string)
    requires CloserNext(s)
    ensures Strip(s, false, false) != "" && Strip(s, false, false)[0] !in {'/', '*'}
  {}

  /** No comment opener is left outside strings, in the output for any text whatever. */
  lemma {:induction false} NoCommentLeft(s: string, inString: bool, escaped: bool)
    requires !inString ==> !escaped
    ensures CommentFree(Strip(s, inString, escaped), inString, escaped)
    decreases |s|
  {
    if s == "" {
    } else if inString {
      NoCommentLeft(s[1..], escaped || s[0] != '"', !escaped && s[0] == '\\');
      var t := Strip(s, inString, escaped);
      assert t[1..] == Strip(s[1..], escaped || s[0] != '"', !escaped && s[0] == '\\');
    } else if s[0] == '"' {
      NoCommentLeft(s[1..], true, false);
      assert Strip(s, false, false)[1..] == Strip(s[1..], true, false);
    } else if Starts(s, '/', '/') {
      AfterLineShorter(s);
      NoCommentLeft(AfterLine(s), false, false);
      assert Strip(s, false, false)[1..] == Strip(AfterLine(s), false, false);
    } else if Starts(s, '/', '*') {
      NoCommentLeft(AfterBlock(s[2..]), false, false);
    } else {
      NoCommentLeft(s[1..], false, false);
      if !(s[0] == ',' && CloserNext(s[1..])) {
        assert Strip(s, false, false)[1..] == Strip(s[1..], false, false);
        if s[0] == '/' { AfterSlash(s[1..]); }
      }
    }
  }

  /** After a slash that opens no comment the output goes on with neither a slash nor a star. */
  lemma AfterSlash(s: string)
    requires s != "" ==> s[0] !in {'/', '*'}
    ensures var t := Strip(s, false, false); t != "" ==> t[0] !in {'/', '*'}
  {
    if s != "" && s[0] == ',' && CloserNext(s[1..]) { SpaceFirst(s[1..]); }
  }

  /** One pass may leave a trailing comma: behind a second comma, or behind a comment. */
  lemma OnePassLeavesCommas()
    ensures Strip("[,,]", false, false) == "[,]"
    ensures Strip("[,/**/]", false, false) == "[,]"
    ensures Strip("[,]", false, false) == "[]"
  {
    assert "[,]"[1..] == ",]" && ",]"[1..] == "]" && "]"[1..] == "";
    assert "[,,]"[1..] == ",,]" && ",,]"[1..] == ",]";
    assert "[,/**/]"[1..] == ",/**/]" && ",/**/]"[1..] == "/**/]" && "/**/]"[2..] == "*/]" && "*/]"[2..] == "]";
    assert SkipSpace("]") == "]" && SkipSpace(",]") == ",]" && SkipSpace("/**/]") == "/**/]";
    assert Strip("]", false, false) == "]";
    assert Strip(",]", false, false) == "]";
    assert Strip("/**/]", false, false) == "]";
    assert Strip(",/**/]", false, false) == ",]";
    assert Strip(",,]", false, false) == ",]";
  }
}
