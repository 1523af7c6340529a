/**
 What the three commands do, told by reading the tree before and after, and which error a
 command that fails gives.
 */
module IJsonCommands {
  import opened IJson
  import opened IJsonLaws

  /** The path that a command names; without one it names the whole tree. */
  predicate Names(path: CommandPath, p: Path) {
    CheckPath(p) && (path == Parts(p) || (path.NoPath? && p == []))
  }

  /** Every path apart from this one reads the same in both trees. */
  ghost predicate SameElsewhere(t: Json, u: Json, p: Path) {
    forall q | Apart(p, q) && CheckPath(q) :: Read(u, q) == Read(t, q)
  }

  lemma ElsewhereKept(t: Json, p: Path, op: Op<Json>)
    requires Update(t, p, op).Ok?
    ensures SameElsewhere(t, Update(t, p, op).value, p)
  {
    forall q | Apart(p, q) && CheckPath(q) ensures Read(Update(t, p, op).value, q) == Read(t, q) {
      UpdateLeavesOthers(t, p, op, q);
    }
  }

  // ---------------------------------------------------------------- reading

  /** What one segment reads: a field of an object, an element of an array, else nothing; only a
      segment that is neither a string nor a number fails, and not where nothing is. */
  lemma ReadOne(t: Json, part: PathPart)
    ensures Read(t, [part]) ==
      match (t, part)
      case (Obj(m), Key(k)) => if k in m then Ok(m[k]) else Ok(Null)
      case (Arr(xs), Idx(i)) => if 0 <= i < |xs| then Ok(xs[i]) else Ok(Null)
      case (Null, _) => Ok(Null)
      case (_, Other) => Err(InvalidPart)
      case _ => Ok(Null)
  {
    assert [part][1..] == [];
  }

  /** A path is read segment by segment. */
  lemma {:induction false} ReadThrough(t: Json, p: Path, q: Path)
    requires Read(t, p).Ok?
    ensures Read(t, p + q) == Read(Read(t, p).value, q)
    decreases |p|
  {
    if p == [] {
      assert p + q == q;
    } else {
      assert (p + q)[1..] == p[1..] + q;
      if t.Null? { ReadNull(q); } else { ReadThrough(Child(t, p[0]), p[1..], q); }
    }
  }

  // ---------------------------------------------------------------- commands that succeed

  /** `set` succeeds exactly when the path is passable; then the path reads the value and nothing
      else has changed. */
  lemma SetCommand(data: Json, path: CommandPath, p: Path, value: Json)
    requires Names(path, p)
    ensures var r := Apply(data, Command(SetKind, path, value));
      && (r.Ok? <==> Passable(data, p))
      && (r.Ok? ==> Read(r.value, p) == Ok(value) && SameElsewhere(data, r.value, p))
  {
    StoreSucceedsIff(data, p, Set(value));
    if Update(data, p, Set(value)).Ok? {
      UpdateThenRead(data, p, Set(value));
      ElsewhereKept(data, p, Set(value));
    }
  }

  /** `del` succeeds exactly when the path is passable up to its end or to where nothing is; then
      the path reads nothing and nothing else has changed. */
  lemma DelCommand(data: Json, path: CommandPath, p: Path, value: Json)
    requires Names(path, p)
    ensures var r := Apply(data, Command(DelKind, path, value));
      && (r.Ok? <==> exists n: nat :: StopsAt(data, p, n))
      && (r.Ok? ==> Read(r.value, p) == Ok(Null) && SameElsewhere(data, r.value, p))
  {
    DelSucceedsIff(data, p);
    if Update(data, p, Del).Ok? {
      UpdateThenRead(data, p, Del);
      ElsewhereKept(data, p, Del);
    }
  }

  /** `append` succeeds exactly when the path is passable and reads nothing or an array; then it
      reads that array with the value behind it, and nothing else has changed. */
  lemma AppendCommand(data: Json, path: CommandPath, p: Path, value: Json)
    requires Names(path, p)
    ensures var r := Apply(data, Command(AppendKind, path, value)); var before := Read(data, p);
      && (r.Ok? <==> Passable(data, p) && before.Ok? && (before.value.Null? || before.value.Arr?))
      && (r.Ok? ==>
            && SameElsewhere(data, r.value, p)
            && Read(r.value, p) == Ok(if before.value.Arr? then Arr(before.value.items + [value]) else Arr([value])))
  {
    StoreSucceedsIff(data, p, Append(value));
    if Update(data, p, Append(value)).Ok? {
      UpdateThenRead(data, p, Append(value));
      ElsewhereKept(data, p, Append(value));
    }
  }

  // ---------------------------------------------------------------- commands that fail

  /** The walk along the path comes to its segment `i` and fails there: on the segment itself, or on
      a container of the wrong kind.  A `del` does not come past a place where nothing is. */
  ghost predicate FailsAt(t: Json, p: Path, del: bool, i: nat) {
    && i < |p| && Passable(t, p[..i])
    && (del ==> forall j | 0 <= j < i :: Read(t, p[..j]) != Ok(Null))
    && (!ValidPart(p[i]) || (Read(t, p[..i]).Ok? && !Fits(Read(t, p[..i]).value, p[i])))
  }

  /** The error at a segment: first its own kind, then the container's. */
  function SegmentError(part: PathPart): Error {
    match part
    case Key(_) => NotAnObject
    case Idx(i) => if i < 0 then InvalidPart else NotAnArray
    case _ => InvalidPart
  }

  lemma FailsAtStep(t: Json, p: Path, del: bool, i: nat)
    requires p != [] && ValidPart(p[0]) && Fits(t, p[0]) && (del ==> !t.Null?)
    ensures FailsAt(t, p, del, i + 1) <==> FailsAt(Child(t, p[0]), p[1..], del, i)
  {
    if i + 1 < |p| {
      assert p[..i + 1][1..] == p[1..][..i];
      PassableStep(t, p[..i + 1]);
      forall j | 0 <= j <= i ensures Read(t, p[..j + 1]) == Read(Child(t, p[0]), p[1..][..j]) {
        assert p[..j + 1][1..] == p[1..][..j];
        ReadNull(p[1..][..j]);
      }
      assert p[..0] == [];
      if del && forall j | 0 <= j < i :: Read(Child(t, p[0]), p[1..][..j]) != Ok(Null) {
        forall j | 0 <= j < i + 1 ensures Read(t, p[..j]) != Ok(Null) {
          if j > 0 { assert Read(t, p[..j - 1 + 1]) == Read(Child(t, p[0]), p[1..][..j - 1]); }
        }
      }
      if del && forall j | 0 <= j < i + 1 :: Read(t, p[..j]) != Ok(Null) {
        forall j | 0 <= j < i ensures Read(Child(t, p[0]), p[1..][..j]) != Ok(Null) {
          assert Read(t, p[..j + 1]) != Ok(Null);
        }
      }
    }
  }

  /** Which error an operation gives where the walk fails. */
  lemma {:induction false} ErrorWhereItFails(t: Json, p: Path, op: Op<Json>, i: nat)
    requires FailsAt(t, p, op.Del?, i)
    ensures Update(t, p, op) == Err(SegmentError(p[i]))
    decreases |p|
  {
    assert p[..0] == [];
    if i > 0 {
      PassableStep(t, p[..i]);
      assert op.Del? ==> Read(t, p[..0]) != Ok(Null);
      FailsAtStep(t, p, op.Del?, i - 1);
      ErrorWhereItFails(Child(t, p[0]), p[1..], op, i - 1);
      assert Child(Open(t, p[0]), p[0]) == Child(t, p[0]);
    }
  }

  /** An operation fails nowhere else, but for an `append` to what is no array. */
  lemma {:induction false} FailsSomewhere(t: Json, p: Path, op: Op<Json>)
    requires Update(t, p, op).Err?
    ensures (exists i: nat :: FailsAt(t, p, op.Del?, i)) || Update(t, p, op) == Err(AppendToNonArray)
    ensures Update(t, p, op) == Err(AppendToNonArray) ==>
      op.Append? && Passable(t, p) && Read(t, p).Ok? && !Read(t, p).value.Null? && !Read(t, p).value.Arr?
    decreases |p|
  {
    assert p[..0] == [];
    if p != [] {
      if !ValidPart(p[0]) || !Fits(t, p[0]) {
        assert FailsAt(t, p, op.Del?, 0);
      } else {
        var c := Child(t, p[0]);
        assert Child(Open(t, p[0]), p[0]) == c;
        FailsSomewhere(c, p[1..], op);
        if i: nat :| FailsAt(c, p[1..], op.Del?, i) {
          FailsAtStep(t, p, op.Del?, i);
        }
        PassableStep(t, p);
        ReadNull(p[1..]);
      }
    }
  }

  /** The error of a command, by the first thing that is wrong with it: the command itself, then its
      path, then its type, and only then the tree. */
  lemma CommandErrors(data: Json, command: Command<Json>)
    ensures var r := Apply(data, command);
      var noType := command.Command? ==> command.kind.MissingKind?;
      var badPath := command.Command? &&
        (command.path.NotAList? || (command.path.Parts? && exists part <- command.path.parts :: part.Other?));
      && (r == Err(InvalidCommand) <==> noType || (!badPath && command.kind.UnknownKind?))
      && (r == Err(InvalidPath) <==> !noType && badPath)
  {
    if command.Command? {
      UpdateErrors(data, PathOf(command.path), OpOf(command.kind, command.value));
    }
  }

  lemma {:induction false} UpdateErrors(t: Json, p: Path, op: Op<Json>)
    ensures Update(t, p, op) !in {Err(InvalidCommand), Err(InvalidPath)}
    decreases |p|
  {
    if p != [] { UpdateErrors(Child(Open(t, p[0]), p[0]), p[1..], op); }
  }

  /** Where a command with a good path and type fails in the tree, and with what. */
  lemma TreeErrors(data: Json, kind: CommandKind, path: CommandPath, p: Path, value: Json)
    requires Names(path, p) && kind in {SetKind, DelKind, AppendKind}
    ensures var r := Apply(data, Command(kind, path, value));
      && (forall i: nat | FailsAt(data, p, kind.DelKind?, i) :: r == Err(SegmentError(p[i])))
      && (r.Err? ==> (exists i: nat :: FailsAt(data, p, kind.DelKind?, i)) || r == Err(AppendToNonArray))
      && (r == Err(AppendToNonArray) <==>
            kind.AppendKind? && Passable(data, p) && Read(data, p).Ok? &&
            !Read(data, p).value.Null? && !Read(data, p).value.Arr?)
  {
    var op := OpOf(kind, value);
    forall i: nat | FailsAt(data, p, kind.DelKind?, i)
      ensures Apply(data, Command(kind, path, value)) == Err(SegmentError(p[i]))
    {
      ErrorWhereItFails(data, p, op, i);
    }
    if Update(data, p, op).Err? { FailsSomewhere(data, p, op); }
    if op.Append? {
      StoreSucceedsIff(data, p, op);
      if Passable(data, p) {
        forall i: nat ensures !FailsAt(data, p, false, i) {}
      }
    }
  }
}
