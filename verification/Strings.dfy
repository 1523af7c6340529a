/** `split` and `join` on a one-character separator. */
module Strings {
  function Split(s: string, sep: char): (parts: seq<string>)
    ensures parts != []
  {
    if s == "" then [""]
    else
      var rest := Split(s[1..], sep);
      if s[0] == sep then [""] + rest else [[s[0]] + rest[0]] + rest[1..]
  }

  function Join(parts: seq<string>, sep: char): string {
    if parts == [] then ""
    else if |parts| == 1 then parts[0]
    else parts[0] + [sep] + Join(parts[1..], sep)
  }

  /** The parts after one more character at the end. */
  function Grow(parts: seq<string>, sep: char, c: char): seq<string>
    requires parts != []
  {
    if c == sep then parts + [""] else parts[..|parts| - 1] + [parts[|parts| - 1] + [c]]
  }

  lemma {:induction false} SplitMore(s: string, sep: char, c: char)
    ensures Split(s + [c], sep) == Grow(Split(s, sep), sep, c)
  {
    if s == "" {
      assert ("" + [c])[1..] == "" && "" + [c] == [c];
      assert [c] + "" == "" + [c];
    } else {
      var rest := Split(s[1..], sep);
      assert (s + [c])[1..] == s[1..] + [c] && (s + [c])[0] == s[0];
      SplitMore(s[1..], sep, c);
      if s[0] == sep {
        GrowFront([""], rest, sep, c);
      } else if |rest| > 1 {
        GrowFront([[s[0]] + rest[0]], rest[1..], sep, c);
        GrowFront([rest[0]], rest[1..], sep, c);
        assert [rest[0]] + rest[1..] == rest;
      } else {
        assert [s[0]] + (rest[0] + [c]) == [s[0]] + rest[0] + [c];
      }
    }
  }

  lemma GrowFront(front: seq<string>, parts: seq<string>, sep: char, c: char)
    requires parts != []
    ensures Grow(front + parts, sep, c) == front + Grow(parts, sep, c)
  {}

  lemma {:induction false} JoinMore(parts: seq<string>, sep: char, last: string)
    requires parts != []
    ensures Join(parts + [last], sep) == Join(parts, sep) + [sep] + last
  {
    if |parts| == 1 {
      assert (parts + [last])[1..] == [last];
    } else {
      assert (parts + [last])[1..] == parts[1..] + [last];
      JoinMore(parts[1..], sep, last);
      assert parts[0] + [sep] + (Join(parts[1..], sep) + [sep] + last) == parts[0] + [sep] + Join(parts[1..], sep) + [sep] + last;
    }
  }

  lemma {:induction false} JoinSplit(s: string, sep: char)
    ensures Join(Split(s, sep), sep) == s
  {
    if s != "" {
      JoinSplit(s[1..], sep);
      var rest := Split(s[1..], sep);
      if s[0] == sep {
        assert ([""] + rest)[1..] == rest;
        assert "" + [sep] + s[1..] == s;
      } else {
        assert ([[s[0]] + rest[0]] + rest[1..])[1..] == rest[1..];
        assert [s[0]] + s[1..] == s;
        if |rest| > 1 {
          assert [s[0]] + rest[0] + [sep] + Join(rest[1..], sep) == [s[0]] + (rest[0] + [sep] + Join(rest[1..], sep));
        }
      }
    }
  }

  lemma {:induction false} SplitWhole(s: string, sep: char)
    requires sep !in s
    ensures Split(s, sep) == [s]
  {
    if s != "" {
      SplitWhole(s[1..], sep);
      assert [s[0]] + s[1..] == s;
    }
  }

  lemma {:induction false} SplitFirst(s: string, sep: char, rest: string)
    requires sep !in s
    ensures Split(s + [sep] + rest, sep) == [s] + Split(rest, sep)
  {
    var t := s + [sep] + rest;
    if s == "" {
      assert t[1..] == rest;
    } else {
      assert t[1..] == s[1..] + [sep] + rest && t[0] == s[0];
      SplitFirst(s[1..], sep, rest);
      assert [s[0]] + s[1..] == s;
    }
  }
}
