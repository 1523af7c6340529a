/**
 The values, paths and update operations of frontend/util/ijson.ts, as pure
 functions on JSON trees.  The in-place version of the same code is in
 IJsonHeap.dfy and is proved to compute exactly `Update`.

 `undefined`, a missing key, a hole of a sparse array and `null` are one value
 here, `Null`: the code only ever compares them with `== null`.
 */
module IJson {
  datatype Json =
    | Null
    | Bool(b: bool)
    | Num(n: real)
    | Str(s: string)
    | Arr(items: seq<Json>)
    | Obj(fields: map<string, Json>)

  /** One segment of a path.  `Frac` is a number that is not an integer, with the
      text the host prints for it; `Other` is neither a string nor a number. */
  datatype PathPart =
    | Key(name: string)
    | Idx(i: int)
    | Frac(repr: string)
    | Other

  type Path = seq<PathPart>

  datatype Error =
    | InvalidCommand
    | InvalidPath
    | InvalidPart
    | NotAnObject
    | NotAnArray
    | AppendToNonArray

  datatype Result<+T> = Ok(value: T) | Err(error: Error)

  /** What a call does at the end of its path: store a value, remove the slot, or
      push onto the array found there. */
  datatype Op<+V> = Set(v: V) | Del | Append(v: V)

  // ---------------------------------------------------------------- slots

  predicate CheckPath(path: Path) {
    forall part <- path :: !part.Other?
  }

  predicate ValidPart(part: PathPart) {
    part.Key? || (part.Idx? && part.i >= 0)
  }

  /** A missing value can become either kind of container. */
  predicate Fits(t: Json, part: PathPart) {
    t.Null? || (part.Key? && t.Obj?) || (part.Idx? && t.Arr?)
  }

  function Fresh(part: PathPart): Json {
    if part.Key? then Obj(map[]) else Arr([])
  }

  function Open(t: Json, part: PathPart): Json {
    if t.Null? then Fresh(part) else t
  }

  function Misfit(part: PathPart): Error {
    if part.Key? then NotAnObject else NotAnArray
  }

  function Child(t: Json, part: PathPart): Json {
    match part
    case Key(k) => if t.Obj? && k in t.fields then t.fields[k] else Null
    case Idx(i) => if t.Arr? && 0 <= i < |t.items| then t.items[i] else Null
    case _ => Null
  }

  function Nulls(n: nat): seq<Json> {
    seq(n, _ => Null)
  }

  /** Assigning past the end of an array leaves holes before the new element. */
  function Put(c: Json, part: PathPart, v: Json): Json
    requires ValidPart(part) && Fits(c, part) && !c.Null?
  {
    match part
    case Key(k) => Obj(c.fields[k := v])
    case Idx(i) =>
      if i < |c.items| then Arr(c.items[i := v])
      else Arr(c.items + Nulls(i - |c.items|) + [v])
  }

  function PruneObj(m: map<string, Json>): Json {
    if m == map[] then Null else Obj(m)
  }

  /** Only removing the last element shortens an array; removing any other leaves a
      hole, and an index past the end changes nothing. */
  function RemoveFromArr(items: seq<Json>, i: nat): Json {
    if i >= |items| then Arr(items)
    else if i == |items| - 1 then
      if i == 0 then Null else Arr(items[..i])
    else Arr(items[i := Null])
  }

  function Remove(c: Json, part: PathPart): Json
    requires ValidPart(part) && Fits(c, part) && !c.Null?
  {
    match part
    case Key(k) => PruneObj(c.fields - {k})
    case Idx(i) => RemoveFromArr(c.items, i)
  }

  // ---------------------------------------------------------------- operations

  function AtEnd(t: Json, op: Op<Json>): Result<Json> {
    match op
    case Set(v) => Ok(v)
    case Del => Ok(Null)
    case Append(v) =>
      match t
      case Null => Ok(Arr([v]))
      case Arr(xs) => Ok(Arr(xs + [v]))
      case _ => Err(AppendToNonArray)
  }

  function Update(t: Json, path: Path, op: Op<Json>): Result<Json>
    decreases |path|
  {
    if path == [] then AtEnd(t, op)
    else if !ValidPart(path[0]) then Err(InvalidPart)
    else if t.Null? && op.Del? then Ok(Null)
    else if !Fits(t, path[0]) then Err(Misfit(path[0]))
    else
      var c := Open(t, path[0]);
      match Update(Child(c, path[0]), path[1..], op)
      case Err(e) => Err(e)
      case Ok(v) =>
        if op.Del? && v.Null? then Ok(Remove(c, path[0])) else Ok(Put(c, path[0], v))
  }

  function Read(t: Json, path: Path): Result<Json>
    decreases |path|
  {
    if path == [] then Ok(t)
    else if t.Null? then Ok(Null)
    else if path[0].Other? then Err(InvalidPart)
    else Read(Child(t, path[0]), path[1..])
  }

  predicate Prefix(p: Path, q: Path) {
    |p| <= |q| && q[..|p|] == p
  }

  /** Neither path is a prefix of the other. */
  predicate Apart(p: Path, q: Path) {
    !Prefix(p, q) && !Prefix(q, p)
  }

  function Then(r: Result<Json>, path: Path, op: Op<Json>): Result<Json> {
    match r
    case Err(e) => Err(e)
    case Ok(t) => Update(t, path, op)
  }

  /** Equal trees, or failure on both sides. */
  predicate SameOutcome(r: Result<Json>, s: Result<Json>) {
    if r.Ok? && s.Ok? then r.value == s.value else r.Err? && s.Err?
  }

  /** No empty object and no empty array anywhere. */
  predicate Clean(t: Json) {
    match t
    case Arr(xs) => xs != [] && forall x <- xs :: Clean(x)
    case Obj(m) => m != map[] && forall k <- m :: Clean(m[k])
    case _ => true
  }

  // ---------------------------------------------------------------- commands

  /** A command as the caller passes it; any `type` that is not one of the three names is
      `UnknownKind`. */
  datatype Command<+V> =
    | NullCommand
    | NotAnObjectCommand
    | Command(kind: CommandKind, path: CommandPath, value: V)

  datatype CommandKind = MissingKind | SetKind | DelKind | AppendKind | UnknownKind

  datatype CommandPath = NoPath | NotAList | Parts(parts: Path)

  function PathOf(path: CommandPath): Path {
    if path.Parts? then path.parts else []
  }

  function OpOf<V>(kind: CommandKind, value: V): Op<V> {
    match kind
    case DelKind => Del
    case AppendKind => Append(value)
    case _ => Set(value)
  }

  /** One command of the update language. */
  function Apply(data: Json, command: Command<Json>): Result<Json> {
    if !command.Command? || command.kind.MissingKind? then Err(InvalidCommand)
    else if command.path.NotAList? || !CheckPath(PathOf(command.path)) then Err(InvalidPath)
    else if command.kind.UnknownKind? then Err(InvalidCommand)
    else Update(data, PathOf(command.path), OpOf(command.kind, command.value))
  }
}
