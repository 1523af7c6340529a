/**
 Navigation history of frontend/util/historyutil.ts: two bounded lists around the current
 value, and stepping up to the parent directory when there is nothing to go back to.
 */
module HistoryUtil {
  import opened Basics
  import opened Strings

  const MAX_HISTORY := 20

  /** The metadata a call returns, or `NoChange` for `null`; a missing `history` stays as it was. */
  datatype Update = NoChange | Update(value: string, history: Option<seq<string>>, forward: seq<string>)

  // ---------------------------------------------------------------- parent directory

  function ParentDirectory(path: string): string {
    if path == "/" then "/"
    else
      var split := Split(path, '/');
      var parts := split[..|split| - 1];
      if |parts| == 1 && parts[0] == "" then "/" else Join(parts, '/')
  }

  /** The text before the last slash; nothing when there is none. */
  function BeforeLastSlash(path: string): string {
    if path == "" then ""
    else if path[|path| - 1] == '/' then path[..|path| - 1]
    else BeforeLastSlash(path[..|path| - 1])
  }

  /** The joined parts of a split text, but for its last part. */
  function Front(path: string): string {
    var ps := Split(path, '/');
    Join(ps[..|ps| - 1], '/')
  }

  lemma FrontMore(path: string, c: char)
    ensures Front(path + [c]) == if c == '/' then path else Front(path)
    ensures |Split(path + [c], '/')| == |Split(path, '/')| + if c == '/' then 1 else 0
  {
    var ps := Split(path, '/');
    SplitMore(path, '/', c);
    JoinSplit(path, '/');
    if c == '/' {
      assert (ps + [""])[..|ps|] == ps;
    } else {
      assert (ps[..|ps| - 1] + [ps[|ps| - 1] + [c]])[..|ps| - 1] == ps[..|ps| - 1];
    }
  }

  lemma {:induction false} AllButLast(path: string)
    ensures Front(path) == BeforeLastSlash(path)
    ensures |Split(path, '/')| > 1 <==> '/' in path
    ensures '/' in path ==> |BeforeLastSlash(path)| < |path|
    ensures '/' !in path ==> BeforeLastSlash(path) == ""
  {
    if path != "" {
      var n := |path| - 1;
      assert path == path[..n] + [path[n]];
      AllButLast(path[..n]);
      FrontMore(path[..n], path[n]);
    }
  }

  /** The parent is the text before the last slash, except that the root stands for an empty
      text before a slash; only the root and the empty path are their own parents. */
  lemma ParentSpec(path: string)
    ensures ParentDirectory(path) ==
      if '/' in path && BeforeLastSlash(path) == "" then "/" else BeforeLastSlash(path)
    ensures ParentDirectory(path) == path <==> path == "/" || path == ""
    ensures ParentDirectory(path) != path ==> |ParentDirectory(path)| < |path|
  {
    AllButLast(path);
    var ps := Split(path, '/');
    assert |ps| > 2 ==> ps[..|ps| - 1][0] + ['/'] + Join(ps[..|ps| - 1][1..], '/') != "";
  }

  // ---------------------------------------------------------------- the three moves

  function Trim(forward: seq<string>): seq<string> {
    if |forward| > MAX_HISTORY then forward[..MAX_HISTORY] else forward
  }

  function Pushed(history: seq<string>, value: string): seq<string> {
    var h := history + [value];
    if |h| > MAX_HISTORY then h[1..] else h
  }

  function Back(cur: string, history: seq<string>, forward: seq<string>, toParent: bool): Update {
    if history == [] then
      if toParent && ParentDirectory(cur) != cur then
        Update(ParentDirectory(cur), None, Trim([cur] + forward))
      else NoChange
    else
      Update(history[|history| - 1], Some(history[..|history| - 1]), [cur] + forward)
  }

  function Forward(cur: string, history: seq<string>, forward: seq<string>): Update {
    if forward == [] then NoChange
    else Update(forward[0], Some(Pushed(history, cur)), forward[1..])
  }

  function Go(cur: string, next: string, history: seq<string>): Update {
    Update(next, Some(Pushed(history, cur)), [])
  }

  method GoHistoryBack(cur: string, meta: Option<seq<string>>, metaForward: Option<seq<string>>, backToParent: bool)
    returns (r: Update)
    ensures r == Back(cur, OrEmpty(meta), OrEmpty(metaForward), backToParent)
  {
    var history := OrEmpty(meta);
    var historyForward := OrEmpty(metaForward);
    if |history| == 0 {
      if backToParent {
        var parentDir := ParentDirectory(cur);
        if parentDir == cur {
          return NoChange;
        }
        historyForward := [cur] + historyForward;
        ghost var all := historyForward;
        while |historyForward| > MAX_HISTORY
          invariant historyForward == all[..|historyForward|]
          invariant |historyForward| <= |all| && (|all| <= MAX_HISTORY ==> historyForward == all)
          invariant |all| > MAX_HISTORY ==> |historyForward| >= MAX_HISTORY
        {
          historyForward := historyForward[..|historyForward| - 1];
        }
        return Update(parentDir, None, historyForward);
      } else {
        return NoChange;
      }
    }
    var lastVal := history[|history| - 1];
    history := history[..|history| - 1];
    historyForward := [cur] + historyForward;
    return Update(lastVal, Some(history), historyForward);
  }

  method GoHistoryForward(cur: string, meta: Option<seq<string>>, metaForward: Option<seq<string>>)
    returns (r: Update)
    ensures r == Forward(cur, OrEmpty(meta), OrEmpty(metaForward))
  {
    var history := OrEmpty(meta);
    var historyForward := OrEmpty(metaForward);
    if |historyForward| == 0 {
      return NoChange;
    }
    var lastVal := historyForward[0];
    historyForward := historyForward[1..];
    history := history + [cur];
    if |history| > MAX_HISTORY {
      history := history[1..];
    }
    return Update(lastVal, Some(history), historyForward);
  }

  method GoHistory(cur: string, next: string, meta: Option<seq<string>>) returns (r: Update)
    ensures r == Go(cur, next, OrEmpty(meta))
  {
    var history := OrEmpty(meta);
    history := history + [cur];
    if |history| > MAX_HISTORY {
      history := history[1..];
    }
    return Update(next, Some(history), []);
  }

  function OrEmpty(list: Option<seq<string>>): seq<string> {
    if list.Some? then list.value else []
  }

  // ---------------------------------------------------------------- runs

  /** The value shown and the two lists kept in the metadata. */
  datatype Nav = Nav(current: string, history: seq<string>, forward: seq<string>)

  datatype Step = GoTo(value: string) | StepBack(toParent: bool) | StepForward

  function Store(n: Nav, u: Update): Nav {
    if u.NoChange? then n
    else Nav(u.value, if u.history.Some? then u.history.value else n.history, u.forward)
  }

  function Next(n: Nav, step: Step): Nav {
    match step
    case GoTo(v) => Store(n, Go(n.current, v, n.history))
    case StepBack(toParent) => Store(n, Back(n.current, n.history, n.forward, toParent))
    case StepForward => Store(n, Forward(n.current, n.history, n.forward))
  }

  function Run(start: string, steps: seq<Step>): Nav {
    if steps == [] then Nav(start, [], []) else Next(Run(start, steps[..|steps| - 1]), steps[|steps| - 1])
  }

  function Timeline(n: Nav): seq<string> {
    n.history + [n.current] + n.forward
  }

  /** The two lists together never exceed the bound. */
  lemma {:induction false} BothListsBounded(start: string, steps: seq<Step>)
    ensures var n := Run(start, steps); |n.history| + |n.forward| <= MAX_HISTORY
  {
    if steps != [] {
      BothListsBounded(start, steps[..|steps| - 1]);
    }
  }

  predicate Bounded(n: Nav) {
    |n.history| + |n.forward| <= MAX_HISTORY
  }

  lemma BackMoves(n: Nav, toParent: bool)
    requires Bounded(n) && n.history != []
    ensures var b := Next(n, StepBack(toParent));
      Timeline(b) == Timeline(n) && |b.history| == |n.history| - 1 && Next(b, StepForward) == n
  {
    var h := n.history;
    assert h == h[..|h| - 1] + [h[|h| - 1]];
    assert ([n.current] + n.forward)[1..] == n.forward;
    assert Timeline(Next(n, StepBack(toParent))) == h[..|h| - 1] + [h[|h| - 1]] + [n.current] + n.forward;
  }

  lemma ForwardMoves(n: Nav, toParent: bool)
    requires Bounded(n) && n.forward != []
    ensures var f := Next(n, StepForward);
      Timeline(f) == Timeline(n) && |f.history| == |n.history| + 1 && Next(f, StepBack(toParent)) == n
  {
    var f := Next(n, StepForward);
    assert n.forward == [n.forward[0]] + n.forward[1..];
    assert f.history == n.history + [n.current] && f.history[..|n.history|] == n.history;
    assert Timeline(f) == n.history + [n.current] + ([n.forward[0]] + n.forward[1..]);
  }

  /** Going back, with something to go back to, only moves the current position in the timeline,
      and going forward undoes it. */
  lemma BackThenForward(start: string, steps: seq<Step>, toParent: bool)
    requires Run(start, steps).history != []
    ensures var n := Run(start, steps); var b := Next(n, StepBack(toParent));
      Timeline(b) == Timeline(n) && |b.history| == |n.history| - 1 && Next(b, StepForward) == n
  {
    BothListsBounded(start, steps);
    BackMoves(Run(start, steps), toParent);
  }

  /** The same for forward. */
  lemma ForwardThenBack(start: string, steps: seq<Step>, toParent: bool)
    requires Run(start, steps).forward != []
    ensures var n := Run(start, steps); var f := Next(n, StepForward);
      Timeline(f) == Timeline(n) && |f.history| == |n.history| + 1 && Next(f, StepBack(toParent)) == n
  {
    BothListsBounded(start, steps);
    ForwardMoves(Run(start, steps), toParent);
  }

  /** Going somewhere ends the timeline there: of what was before, the last 20 entries stay, and
      back leads to where one was. */
  lemma GoEndsTimeline(n: Nav, value: string)
    requires Bounded(n)
    ensures var g := Next(n, GoTo(value)); var past := n.history + [n.current];
      && Timeline(g) == past[if |past| > MAX_HISTORY then |past| - MAX_HISTORY else 0..] + [value]
      && g.current == value && Next(g, StepBack(false)).current == n.current
  {
    var g := Next(n, GoTo(value));
    assert g.history + [value] + [] == g.history + [value];
  }

  function Up(n: Nav, times: nat): Nav
    decreases times
  {
    if times == 0 then n else Up(Next(n, StepBack(true)), times - 1)
  }

  /** A step up to the parent: with no history, and unless one is at the top, the text before the last
      slash is shown (the root for an empty one), the old value is the first to go forward to, and only
      the 21st value of the forward list is lost.  Going forward leads back, with the parent as history. */
  lemma UpThenForward(n: Nav)
    requires n.history == [] && |n.forward| <= MAX_HISTORY && n.current !in {"/", ""}
    ensures var up := Next(n, StepBack(true)); var back := Next(up, StepForward);
      && up.current == (if '/' in n.current && BeforeLastSlash(n.current) == "" then "/" else BeforeLastSlash(n.current))
      && up.history == []
      && up.forward == [n.current] + (if |n.forward| == MAX_HISTORY then n.forward[..MAX_HISTORY - 1] else n.forward)
      && back.current == n.current && back.history == [up.current] && back.forward == up.forward[1..]
  {
    ParentSpec(n.current);
    var all := [n.current] + n.forward;
    assert |n.forward| == MAX_HISTORY ==> all[..MAX_HISTORY] == [n.current] + n.forward[..MAX_HISTORY - 1];
    assert [] + [Next(n, StepBack(true)).current] == [Next(n, StepBack(true)).current];
  }

  /** Where there is nowhere to go, nothing changes. */
  lemma NowhereToGo(n: Nav)
    ensures n.history == [] ==> Next(n, StepBack(false)) == n
    ensures n.history == [] && n.current in {"/", ""} ==> Next(n, StepBack(true)) == n
    ensures n.forward == [] ==> Next(n, StepForward) == n
  {
    ParentSpec(n.current);
  }

  /** How many steps back to the parent are enough: first through the history, then up from its
      first entry. */
  function Steps(n: Nav): nat {
    |n.history| + if n.history == [] then |n.current| else |n.history[0]|
  }

  /** Going back to the parent again and again, from any state, ends at the root or at the empty
      path within `Steps(n)` steps, and then changes nothing any more. */
  lemma {:induction false} UpReachesFixedPoint(n: Nav, times: nat)
    requires times >= Steps(n)
    ensures var top := Up(n, times);
      top.current in {"/", ""} && top.history == [] && Next(top, StepBack(true)) == top
    decreases times
  {
    UpOnce(n);
    if Next(n, StepBack(true)) == n {
      UpStays(n, times);
    } else {
      UpReachesFixedPoint(Next(n, StepBack(true)), times - 1);
    }
  }

  lemma UpOnce(n: Nav)
    ensures var up := Next(n, StepBack(true));
      if up == n then n.history == [] && n.current in {"/", ""} else Steps(up) < Steps(n)
  {
    if n.history == [] {
      ParentSpec(n.current);
    } else {
      var h := n.history[..|n.history| - 1];
      assert Next(n, StepBack(true)).history == h;
      assert h != [] ==> h[0] == n.history[0];
    }
  }

  lemma {:induction false} UpStays(n: Nav, times: nat)
    requires Next(n, StepBack(true)) == n
    ensures Up(n, times) == n
    decreases times
  {
    if times > 0 { UpStays(n, times - 1); }
  }
}
