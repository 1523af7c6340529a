/**
 Key descriptions of frontend/util/keyutil.ts: printing a key event, parsing a description and
 matching an event against it.  A `null` key is the empty string here.
 */
module KeyUtil {
  import opened Basics
  import opened Strings

  /** What Electron reports; `mac` below says whether the platform is macOS. */
  datatype ElectronEvent = ElectronEvent(meta: bool, alt: bool, control: bool, shift: bool, key: string, code: string)

  datatype WaveEvent = WaveEvent(
    cmd: bool, option: bool, meta: bool, alt: bool, control: bool, shift: bool, key: string, code: string)

  datatype Mods = Mods(cmd: bool, option: bool, shift: bool, ctrl: bool, alt: bool, meta: bool)

  datatype KeyType = NoType | KeyText | KeyCode

  datatype KeyPress = KeyPress(key: string, keyType: KeyType, mods: Mods)

  const NOTHING := KeyPress("", NoType, Mods(false, false, false, false, false, false))

  function Adapt(mac: bool, e: ElectronEvent): WaveEvent {
    WaveEvent(if mac then e.meta else e.alt, if mac then e.alt else e.meta,
              e.meta, e.alt, e.control, e.shift, e.key, e.code)
  }

  // ---------------------------------------------------------------- printing

  function Opt(b: bool, name: string): seq<string> {
    if b then [name] else []
  }

  function ModNames(w: WaveEvent): seq<string> {
    Opt(w.cmd, "Cmd") + Opt(w.option, "Option") + Opt(w.meta, "Meta") + Opt(w.control, "Ctrl") + Opt(w.shift, "Shift")
  }

  function KeyName(w: WaveEvent): string {
    if w.key == "" then "c{" + w.code + "}" else if w.key == " " then "Space" else w.key
  }

  function Describe(w: WaveEvent): string {
    Join(ModNames(w) + [KeyName(w)], ':')
  }

  method WaveEventToKeyDesc(w: WaveEvent) returns (desc: string)
    ensures desc == Describe(w)
  {
    var keyDesc: seq<string> := [];
    if w.cmd { keyDesc := keyDesc + ["Cmd"]; }
    if w.option { keyDesc := keyDesc + ["Option"]; }
    if w.meta { keyDesc := keyDesc + ["Meta"]; }
    if w.control { keyDesc := keyDesc + ["Ctrl"]; }
    if w.shift { keyDesc := keyDesc + ["Shift"]; }
    assert keyDesc == ModNames(w);
    if w.key != "" {
      if w.key == " " {
        keyDesc := keyDesc + ["Space"];
      } else {
        keyDesc := keyDesc + [w.key];
      }
    } else {
      keyDesc := keyDesc + ["c{" + w.code + "}"];
    }
    return Join(keyDesc, ':');
  }

  // ---------------------------------------------------------------- parsing

  predicate IsLineEnd(c: char) {
    c in {'\n', '\r', '\U{2028}', '\U{2029}'}
  }

  /** The longest run before a closing brace, on one line. */
  function Group(t: string): Option<string> {
    if t == "" || IsLineEnd(t[0]) then None
    else
      match Group(t[1..])
      case Some(g) => Some([t[0]] + g)
      case None => if t[0] == '}' then Some("") else None
  }

  /** The group of the first match of `c{(.*)}`. */
  function FindCode(s: string): Option<string> {
    if s == "" then None
    else if |s| >= 2 && s[0] == 'c' && s[1] == '{' && Group(s[2..]).Some? then Group(s[2..])
    else FindCode(s[1..])
  }

  predicate IsUpper(c: char) {
    'A' <= c <= 'Z'
  }

  predicate SingleUpper(key: string) {
    |key| == 1 && IsUpper(key[0])
  }

  function WithoutParens(s: string): string {
    if s == "" then ""
    else if s[0] in {'(', ')'} then WithoutParens(s[1..])
    else [s[0]] + WithoutParens(s[1..])
  }

  function ParsePart(mac: bool, r: KeyPress, part: string): KeyPress {
    var m := r.mods;
    if part == "Cmd" then
      r.(mods := if mac then m.(meta := true, cmd := true) else m.(alt := true, cmd := true))
    else if part == "Shift" then r.(mods := m.(shift := true))
    else if part == "Ctrl" then r.(mods := m.(ctrl := true))
    else if part == "Option" then
      r.(mods := if mac then m.(alt := true, option := true) else m.(meta := true, option := true))
    else if part == "Alt" then
      r.(mods := if mac then m.(option := true, alt := true) else m.(cmd := true, alt := true))
    else if part == "Meta" then
      r.(mods := if mac then m.(cmd := true, meta := true) else m.(option := true, meta := true))
    else
      match FindCode(part)
      case Some(code) => r.(key := code, keyType := KeyCode)
      case None =>
        r.(key := if part == " " then "Space" else part, keyType := KeyText,
           mods := if SingleUpper(part) then m.(shift := true) else m)
  }

  function ParseParts(mac: bool, r: KeyPress, parts: seq<string>): KeyPress
    decreases |parts|
  {
    if parts == [] then r else ParseParts(mac, ParsePart(mac, r, parts[0]), parts[1..])
  }

  function Parse(mac: bool, desc: string): KeyPress {
    ParseParts(mac, NOTHING, Split(WithoutParens(desc), ':'))
  }

  method ParseKeyDescription(mac: bool, desc: string) returns (r: KeyPress)
    ensures r == Parse(mac, desc)
  {
    r := NOTHING;
    var keys := Split(WithoutParens(desc), ':');
    for i := 0 to |keys|
      invariant ParseParts(mac, r, keys[i..]) == Parse(mac, desc)
    {
      var key := keys[i];
      var mods := r.mods;
      assert keys[i..][1..] == keys[i + 1..];
      if key == "Cmd" {
        if mac { mods := mods.(meta := true); } else { mods := mods.(alt := true); }
        mods := mods.(cmd := true);
      } else if key == "Shift" {
        mods := mods.(shift := true);
      } else if key == "Ctrl" {
        mods := mods.(ctrl := true);
      } else if key == "Option" {
        if mac { mods := mods.(alt := true); } else { mods := mods.(meta := true); }
        mods := mods.(option := true);
      } else if key == "Alt" {
        if mac { mods := mods.(option := true); } else { mods := mods.(cmd := true); }
        mods := mods.(alt := true);
      } else if key == "Meta" {
        if mac { mods := mods.(cmd := true); } else { mods := mods.(option := true); }
        mods := mods.(meta := true);
      } else {
        match FindCode(key)
        case Some(code) =>
          r := r.(key := code, keyType := KeyCode);
        case None =>
          r := r.(key := key, keyType := KeyText);
          if |key| == 1 {
            if IsUpper(key[0]) {
              mods := mods.(shift := true);
            } else if key == " " {
              r := r.(key := "Space");
            }
          }
      }
      r := r.(mods := mods);
    }
  }

  // ---------------------------------------------------------------- matching

  function LowerChar(c: char): char {
    if IsUpper(c) then (c as int + 32) as char else c
  }

  function Lower(s: string): string {
    seq(|s|, i requires 0 <= i < |s| => LowerChar(s[i]))
  }

  predicate ModsMatch(m: Mods, w: WaveEvent) {
    m == Mods(w.cmd, w.option, w.shift, w.control, w.alt, w.meta)
  }

  predicate KeyMatches(p: KeyPress, w: WaveEvent) {
    match p.keyType
    case NoType => p.key == ""
    case KeyCode => p.key == w.code
    case KeyText =>
      if SingleUpper(w.key) then Lower(p.key) == Lower(w.key)
      else p.key == if w.key == " " then "Space" else w.key
  }

  predicate CheckKeyPressed(mac: bool, w: WaveEvent, desc: string) {
    var p := Parse(mac, desc);
    ModsMatch(p.mods, w) && KeyMatches(p, w)
  }

  // ---------------------------------------------------------------- reading a description

  /** No colon and no parenthesis. */
  predicate Clean(s: string) {
    forall c <- s :: c !in {':', '(', ')'}
  }

  lemma {:induction false} GroupOfCode(code: string)
    requires forall c <- code :: !IsLineEnd(c)
    ensures Group(code + "}") == Some(code)
  {
    if code == "" {
      assert "" + "}" == "}" && "}"[1..] == "";
    } else {
      assert (code + "}")[1..] == code[1..] + "}" && code[0] in code;
      assert forall c <- code[1..] :: c in code;
      GroupOfCode(code[1..]);
      assert [code[0]] + code[1..] == code;
    }
  }

  lemma CodeFound(code: string)
    requires forall c <- code :: !IsLineEnd(c)
    ensures FindCode("c{" + code + "}") == Some(code)
  {
    GroupOfCode(code);
    assert ("c{" + code + "}")[2..] == code + "}";
  }

  lemma {:induction false} NoParens(s: string)
    requires forall c <- s :: c !in {'(', ')'}
    ensures WithoutParens(s) == s
  {
    if s != "" {
      assert s[0] in s && forall c <- s[1..] :: c in s;
      NoParens(s[1..]);
      assert [s[0]] + s[1..] == s;
    }
  }

  lemma {:induction false} WithoutParensConcat(a: string, b: string)
    ensures WithoutParens(a + b) == WithoutParens(a) + WithoutParens(b)
  {
    if a == "" {
      assert a + b == b;
    } else {
      assert (a + b)[1..] == a[1..] + b;
      WithoutParensConcat(a[1..], b);
    }
  }

  lemma {:induction false} JoinNoParens(parts: seq<string>)
    requires forall p <- parts :: Clean(p)
    ensures forall c <- Join(parts, ':') :: c !in {'(', ')'}
  {
    if parts != [] {
      assert Clean(parts[0]);
      JoinNoParens(parts[1..]);
    }
  }

  /** Joined clean parts in front of any text. */
  lemma {:induction false} SplitBehind(names: seq<string>, s: string)
    requires names != [] && forall p <- names :: Clean(p)
    ensures Split(Join(names, ':') + ":" + s, ':') == names + Split(s, ':')
  {
    assert Clean(names[0]);
    if |names| == 1 {
      SplitFirst(names[0], ':', s);
    } else {
      SplitBehind(names[1..], s);
      SplitFirst(names[0], ':', Join(names[1..], ':') + ":" + s);
      var joined := Join(names[1..], ':');
      Regroup(names[0] + ":", joined, ":" + s);
      Regroup(names[0] + ":" + joined, ":", s);
      Regroup(joined, ":", s);
    }
  }

  lemma NamesClean(w: WaveEvent)
    ensures forall p <- ModNames(w) :: Clean(p)
  {
    forall p <- ModNames(w) ensures Clean(p) {
      assert p == "Cmd" || p == "Option" || p == "Meta" || p == "Ctrl" || p == "Shift";
    }
  }

  /** The parts that the text of a key is read as: one for most keys, the key itself. */
  function KeyParts(name: string): seq<string> {
    Split(WithoutParens(name), ':')
  }

  /** A description is read back modifier by modifier, and then the key's own parts. */
  lemma DescriptionSplits(w: WaveEvent)
    ensures KeyParts(Describe(w)) == ModNames(w) + KeyParts(KeyName(w))
  {
    var names, key := ModNames(w), KeyName(w);
    NamesClean(w);
    if names == [] {
      assert names + [key] == [key] && names + KeyParts(key) == KeyParts(key);
    } else {
      JoinMore(names, ':', key);
      JoinNoParens(names);
      NoParens(Join(names, ':') + ":");
      WithoutParensConcat(Join(names, ':') + ":", key);
      SplitBehind(names, WithoutParens(key));
    }
  }

  lemma {:induction false} ParseConcat(mac: bool, r: KeyPress, ps: seq<string>, qs: seq<string>)
    ensures ParseParts(mac, r, ps + qs) == ParseParts(mac, ParseParts(mac, r, ps), qs)
    decreases |ps|
  {
    if ps == [] {
      assert ps + qs == qs;
    } else {
      assert (ps + qs)[1..] == ps[1..] + qs;
      ParseConcat(mac, ParsePart(mac, r, ps[0]), ps[1..], qs);
    }
  }

  lemma ParseOpt(mac: bool, r: KeyPress, b: bool, name: string)
    ensures ParseParts(mac, r, Opt(b, name)) == if b then ParsePart(mac, r, name) else r
  {
    if b {
      assert [name][1..] == [];
    }
  }

  /** The modifiers of an adapted event are read back exactly. */
  lemma ModsReadBack(mac: bool, e: ElectronEvent)
    ensures var w := Adapt(mac, e);
      ParseParts(mac, NOTHING, ModNames(w)) ==
      KeyPress("", NoType, Mods(w.cmd, w.option, w.shift, w.control, w.alt, w.meta))
  {
    var w := Adapt(mac, e);
    var cmd, option, meta := Opt(w.cmd, "Cmd"), Opt(w.option, "Option"), Opt(w.meta, "Meta");
    var control, shift := Opt(w.control, "Ctrl"), Opt(w.shift, "Shift");
    ParseConcat(mac, NOTHING, cmd + option + meta + control, shift);
    ParseConcat(mac, NOTHING, cmd + option + meta, control);
    ParseConcat(mac, NOTHING, cmd + option, meta);
    ParseConcat(mac, NOTHING, cmd, option);
    ParseOpt(mac, NOTHING, w.cmd, "Cmd");
    var a := ParseParts(mac, NOTHING, cmd);
    ParseOpt(mac, a, w.option, "Option");
    var b := ParseParts(mac, a, option);
    ParseOpt(mac, b, w.meta, "Meta");
    var c := ParseParts(mac, b, meta);
    ParseOpt(mac, c, w.control, "Ctrl");
    var d := ParseParts(mac, c, control);
    ParseOpt(mac, d, w.shift, "Shift");
  }

  function AfterMods(w: WaveEvent): KeyPress {
    KeyPress("", NoType, Mods(w.cmd, w.option, w.shift, w.control, w.alt, w.meta))
  }

  lemma DescriptionRead(mac: bool, e: ElectronEvent)
    ensures var w := Adapt(mac, e); Parse(mac, Describe(w)) == ParseParts(mac, AfterMods(w), KeyParts(KeyName(w)))
  {
    var w := Adapt(mac, e);
    DescriptionSplits(w);
    ParseConcat(mac, NOTHING, ModNames(w), KeyParts(KeyName(w)));
    ModsReadBack(mac, e);
  }

  // ---------------------------------------------------------------- what a key's parts do

  predicate IsModName(part: string) {
    part == "Cmd" || part == "Shift" || part == "Ctrl" || part == "Option" || part == "Alt" || part == "Meta"
  }

  /** The event has the modifier that this part asks for, if it asks for one. */
  predicate PartAgrees(w: WaveEvent, part: string) {
    if part == "Cmd" then w.cmd
    else if part == "Shift" then w.shift
    else if part == "Ctrl" then w.control
    else if part == "Option" then w.option
    else if part == "Alt" then w.alt
    else if part == "Meta" then w.meta
    else SingleUpper(part) ==> w.shift
  }

  /** The last part that is not a modifier's name. */
  function LastKey(parts: seq<string>): Option<string> {
    if parts == [] then None
    else if LastKey(parts[1..]).Some? then LastKey(parts[1..])
    else if IsModName(parts[0]) then None
    else Some(parts[0])
  }

  predicate Covers(m: Mods, n: Mods) {
    && (n.cmd ==> m.cmd) && (n.option ==> m.option) && (n.shift ==> m.shift)
    && (n.ctrl ==> m.ctrl) && (n.alt ==> m.alt) && (n.meta ==> m.meta)
  }

  lemma ShortNoCode(s: string)
    requires |s| <= 1
    ensures FindCode(s) == None
  {}

  lemma PartCovers(mac: bool, r: KeyPress, part: string)
    ensures Covers(ParsePart(mac, r, part).mods, r.mods)
  {}

  lemma PartEffect(mac: bool, r: KeyPress, part: string)
    ensures var s := ParsePart(mac, r, part);
      (if IsModName(part) then s.key == r.key && s.keyType == r.keyType
          else match FindCode(part)
            case Some(code) => s.key == code && s.keyType == KeyCode
            case None => s.key == (if part == " " then "Space" else part) && s.keyType == KeyText)
  {}

  lemma PartMods(mac: bool, e: ElectronEvent, r: KeyPress, part: string)
    requires r.mods == AfterMods(Adapt(mac, e)).mods
    ensures ParsePart(mac, r, part).mods == r.mods <==> PartAgrees(Adapt(mac, e), part)
  {
    if SingleUpper(part) { ShortNoCode(part); }
  }

  /** Reading parts never takes a modifier away, and the last part that is not a modifier is the key. */
  lemma {:induction false} PartsEffect(mac: bool, r: KeyPress, parts: seq<string>)
    ensures var s := ParseParts(mac, r, parts);
      && Covers(s.mods, r.mods)
      && (match LastKey(parts)
          case None => s.key == r.key && s.keyType == r.keyType
          case Some(k) =>
            match FindCode(k)
            case Some(code) => s.key == code && s.keyType == KeyCode
            case None => s.key == (if k == " " then "Space" else k) && s.keyType == KeyText)
    decreases |parts|
  {
    if parts != [] {
      PartEffect(mac, r, parts[0]);
      PartCovers(mac, r, parts[0]);
      PartsEffect(mac, ParsePart(mac, r, parts[0]), parts[1..]);
    }
  }

  /** The modifiers stay those of the event exactly when every part agrees with it. */
  lemma {:induction false} PartsMods(mac: bool, e: ElectronEvent, r: KeyPress, parts: seq<string>)
    requires r.mods == AfterMods(Adapt(mac, e)).mods
    ensures ParseParts(mac, r, parts).mods == r.mods <==> forall p <- parts :: PartAgrees(Adapt(mac, e), p)
    decreases |parts|
  {
    if parts != [] {
      var s := ParsePart(mac, r, parts[0]);
      PartMods(mac, e, r, parts[0]);
      PartCovers(mac, r, parts[0]);
      PartsEffect(mac, s, parts[1..]);
      if s.mods == r.mods { PartsMods(mac, e, s, parts[1..]); }
      assert parts == [parts[0]] + parts[1..];
    }
  }

  // ---------------------------------------------------------------- characters of parts

  predicate OneLine(s: string) {
    forall c <- s :: !IsLineEnd(c)
  }

  lemma {:induction false} SplitChars(s: string)
    ensures forall p <- Split(s, ':') :: forall c <- p :: c in s && c != ':'
  {
    if s != "" {
      SplitChars(s[1..]);
      var rest := Split(s[1..], ':');
      forall p <- Split(s, ':'), c <- p ensures c in s && c != ':' {
        if p !in rest { assert p == "" || (p == [s[0]] + rest[0] && rest[0] in rest); }
      }
    }
  }

  lemma {:induction false} ParenChars(s: string)
    ensures forall c <- WithoutParens(s) :: c in s && c !in {'(', ')'}
  {
    if s != "" { ParenChars(s[1..]); }
  }

  lemma PartsClean(name: string)
    ensures forall p <- KeyParts(name) :: Clean(p)
  {
    SplitChars(WithoutParens(name));
    ParenChars(name);
  }

  lemma CleanParts(name: string)
    requires Clean(name)
    ensures KeyParts(name) == [name] && [name][1..] == []
  {
    NoParens(name);
    SplitWhole(name, ':');
  }

  lemma {:induction false} GroupChars(t: string)
    ensures Group(t).Some? ==> OneLine(Group(t).value) && forall c <- Group(t).value :: c in t
  {
    if t != "" { GroupChars(t[1..]); }
  }

  lemma {:induction false} CodeChars(s: string)
    ensures FindCode(s).Some? ==> OneLine(FindCode(s).value) && forall c <- FindCode(s).value :: c in s
  {
    if s != "" {
      if |s| >= 2 { GroupChars(s[2..]); }
      CodeChars(s[1..]);
    }
  }

  lemma {:induction false} LastKeyAtEnd(parts: seq<string>)
    requires parts != [] && !IsModName(parts[|parts| - 1])
    ensures LastKey(parts) == Some(parts[|parts| - 1])
  {
    if |parts| > 1 { LastKeyAtEnd(parts[1..]); }
  }

  // ---------------------------------------------------------------- an event matches itself

  /** What the printed key asks of the event.  A key's text that has a colon or a parenthesis is
      read as several parts, or loses characters, and then can only match by its modifiers, or by
      a part that is `c{}` text. */
  predicate KeyAgrees(w: WaveEvent) {
    if w.key == "" then Clean(w.code) && OneLine(w.code)
    else if w.key == " " then true
    else
      var parts := KeyParts(w.key);
      (forall p <- parts :: PartAgrees(w, p)) &&
      match LastKey(parts)
      case None => true
      case Some(k) => if FindCode(k).Some? then FindCode(k).value == w.code else k == w.key
  }

  predicate Matches(p: KeyPress, w: WaveEvent) {
    ModsMatch(p.mods, w) && KeyMatches(p, w)
  }

  lemma SpaceNoCode()
    ensures FindCode("Space") == None
  {
    assert "Space"[1..] == "pace" && "pace"[1..] == "ace" && "ace"[1..] == "ce" && "ce"[1..] == "e" && "e"[1..] == "";
  }

  /** The last part of the text that is printed for a code. */
  lemma CodeParts(code: string)
    ensures var parts := KeyParts("c{" + code + "}"); var last := parts[|parts| - 1];
      last != "" && LastKey(parts) == Some(last)
  {
    var parts := KeyParts("c{" + code + "}");
    LastPartEnds("c{" + code);
    LastKeyAtEnd(parts);
  }

  lemma LastPartEnds(front: string)
    ensures var parts := KeyParts(front + "}"); var last := parts[|parts| - 1];
      last != "" && last[|last| - 1] == '}'
  {
    WithoutParensConcat(front, "}");
    assert WithoutParens("}") == "}" by { assert "}"[1..] == ""; }
    SplitMore(WithoutParens(front), ':', '}');
  }

  lemma CodeAgrees(mac: bool, e: ElectronEvent)
    requires e.key == ""
    ensures var w := Adapt(mac, e); Matches(ParseParts(mac, AfterMods(w), KeyParts(KeyName(w))), w) <==> KeyAgrees(w)
  {
    var w := Adapt(mac, e);
    var parts := KeyParts(KeyName(w));
    PartsEffect(mac, AfterMods(w), parts);
    if Clean(w.code) && OneLine(w.code) {
      CleanParts(KeyName(w));
      CodeFound(w.code);
    } else {
      CodeParts(w.code);
      PartsClean(KeyName(w));
      var last := parts[|parts| - 1];
      assert last in parts;
      CodeChars(last);
    }
  }

  lemma SpaceAgrees(mac: bool, e: ElectronEvent)
    requires e.key == " "
    ensures var w := Adapt(mac, e); Matches(ParseParts(mac, AfterMods(w), KeyParts(KeyName(w))), w)
  {
    var w := Adapt(mac, e);
    SpaceNoCode();
    CleanParts("Space");
    LastKeyAtEnd(["Space"]);
    PartsEffect(mac, AfterMods(w), ["Space"]);
    PartsMods(mac, e, AfterMods(w), ["Space"]);
  }

  lemma TextMatches(p: KeyPress, w: WaveEvent, k: string)
    requires w.key != "" && w.key != " " && p.keyType == KeyText && p.key == if k == " " then "Space" else k
    requires Clean(w.key) ==> k == w.key
    ensures KeyMatches(p, w) <==> k == w.key
  {}

  lemma TextAgrees(mac: bool, e: ElectronEvent)
    requires e.key != "" && e.key != " "
    ensures var w := Adapt(mac, e); Matches(ParseParts(mac, AfterMods(w), KeyParts(KeyName(w))), w) <==> KeyAgrees(w)
  {
    var w := Adapt(mac, e);
    var parts := KeyParts(w.key);
    var p := ParseParts(mac, AfterMods(w), parts);
    PartsEffect(mac, AfterMods(w), parts);
    PartsMods(mac, e, AfterMods(w), parts);
    if Clean(w.key) { CleanParts(w.key); }
    match LastKey(parts)
    case None =>
    case Some(k) => if FindCode(k).None? { TextMatches(p, w, k); }
  }

  /** On every platform an adapted event matches the description printed from it exactly when its
      key agrees with it: whatever modifier or single capital letter the key's text reads as comes
      with that modifier or with Shift, and what is left names the key or, as `c{}` text, the
      code.  A code that is printed must be on one line and free of colons and parentheses. */
  lemma EventMatchesItsDescription(mac: bool, e: ElectronEvent)
    ensures var w := Adapt(mac, e); CheckKeyPressed(mac, w, Describe(w)) <==> KeyAgrees(w)
  {
    DescriptionRead(mac, e);
    if e.key == "" { CodeAgrees(mac, e); }
    else if e.key == " " { SpaceAgrees(mac, e); }
    else { TextAgrees(mac, e); }
  }

  /** For a key without colons and parentheses the condition is about the key as one part. */
  lemma CleanKeyAgrees(w: WaveEvent)
    requires w.key != "" && Clean(w.key)
    ensures KeyAgrees(w) <==>
      PartAgrees(w, w.key) && (FindCode(w.key).Some? ==> FindCode(w.key).value == w.code)
  {
    CleanParts(w.key);
    assert KeyParts(w.key)[1..] == [];
    assert LastKey(KeyParts(w.key)) == if IsModName(w.key) then None else Some(w.key);
    assert (forall p <- KeyParts(w.key) :: PartAgrees(w, p)) <==> PartAgrees(w, w.key);
    if w.key == " " { ShortNoCode(w.key); }
    if IsModName(w.key) { ModNamesNoCode(w.key); }
  }

  lemma {:induction false} ModNamesNoCode(name: string)
    requires '{' !in name
    ensures FindCode(name) == None
  {
    if name != "" { ModNamesNoCode(name[1..]); }
  }

  lemma NamesAreModifiers(w: WaveEvent)
    ensures var names := ModNames(w);
      (w.cmd <==> "Cmd" in names) && (w.option <==> "Option" in names) && (w.meta <==> "Meta" in names) &&
      (w.control <==> "Ctrl" in names) && (w.shift <==> "Shift" in names)
  {}

  /** The modifiers are printed first, those the event has and in a fixed order; then comes the key, with its
      own word for a blank, or in braces the code when there is no key. */
  lemma DescriptionInOrder(w: WaveEvent) returns (names: seq<string>)
    ensures Describe(w) ==
      Join(names + [if w.key == "" then "c{" + w.code + "}" else if w.key == " " then "Space" else w.key], ':')
    ensures (w.cmd <==> "Cmd" in names) && (w.option <==> "Option" in names)
    ensures (w.meta <==> "Meta" in names) && (w.control <==> "Ctrl" in names) && (w.shift <==> "Shift" in names)
    ensures w.cmd && w.option && w.meta && w.control && w.shift ==> names == ["Cmd", "Option", "Meta", "Ctrl", "Shift"]
  {
    names := ModNames(w);
    NamesAreModifiers(w);
  }

  /** The key texts that a description's key stands for: itself, a capital for a small letter, and a blank
      for the word `Space`. */
  predicate StandsFor(key: string, other: string) {
    other == key || (key == "Space" && other == " ") ||
    (|key| == 1 && |other| == 1 && 'A' <= other[0] <= 'Z' && key[0] as int == other[0] as int + 32)
  }

  /** The description of one event matches another event exactly when that one has the same modifiers,
      Shift being implied by a single capital, and its key is one that the described key stands for. */
  lemma DescriptionMatchesOther(mac: bool, e: ElectronEvent, f: ElectronEvent)
    requires e.key !in {"", " "} && Clean(e.key) && !IsModName(e.key) && FindCode(e.key) == None
    ensures CheckKeyPressed(mac, Adapt(mac, f), Describe(Adapt(mac, e))) <==>
      f.meta == e.meta && f.alt == e.alt && f.control == e.control &&
      f.shift == (e.shift || (|e.key| == 1 && 'A' <= e.key[0] <= 'Z')) && StandsFor(e.key, f.key)
  {
    var w := Adapt(mac, e);
    DescriptionRead(mac, e);
    CleanParts(e.key);
    var p := Parse(mac, Describe(w));
    assert p == ParsePart(mac, AfterMods(w), e.key);
    assert p.key == e.key && p.keyType == KeyText;
    LetterStandsFor(p, Adapt(mac, f));
  }

  lemma LetterStandsFor(p: KeyPress, w: WaveEvent)
    requires p.keyType == KeyText && p.key != " "
    ensures KeyMatches(p, w) <==> StandsFor(p.key, w.key)
  {
    if SingleUpper(w.key) {
      assert Lower(w.key) == [LowerChar(w.key[0])];
      if |p.key| == 1 {
        assert Lower(p.key) == [LowerChar(p.key[0])];
        assert p.key == [p.key[0]] && w.key == [w.key[0]];
      } else {
        assert |Lower(p.key)| != |Lower(w.key)|;
      }
    }
  }

  /** A colon or a parenthesis as the key is lost in its own description: it never matches. */
  lemma PunctuationNeverMatches(mac: bool, e: ElectronEvent)
    requires e.key in {":", "(", ")"}
    ensures var w := Adapt(mac, e); !CheckKeyPressed(mac, w, Describe(w))
  {
    EventMatchesItsDescription(mac, e);
    ShortNoCode("");
    assert e.key[1..] == "";
    assert KeyParts(e.key) == if e.key == ":" then ["", ""] else [""];
    assert ["", ""][1..] == [""] && [""][1..] == [];
  }
}
