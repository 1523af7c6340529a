/**
 The in-place form of frontend/util/ijson.ts: containers are heap objects, and an
 update assigns, deletes, pushes and pops on them.  On trees without aliases it
 computes exactly `IJson.Update`, and a call that fails changes no object.
 */
module IJsonHeap {
  import opened IJson

  datatype Val =
    | VNull
    | VBool(b: bool)
    | VNum(n: real)
    | VStr(s: string)
    | VRef(node: Node)

  /** A JavaScript array or plain object.  `Repr` holds the containers of the tree below it. */
  class Node {
    const isArray: bool
    var items: seq<Val>
    var fields: map<string, Val>

    ghost var Repr: set<Node>
    ghost var Tree: Json

    constructor (isArray: bool)
      ensures fresh(this) && Valid() && Repr == {this}
      ensures this.isArray == isArray && Tree == if isArray then Arr([]) else Obj(map[])
    {
      this.isArray := isArray;
      items, fields := [], map[];
      Repr := {this};
      Tree := if isArray then Arr([]) else Obj(map[]);
    }

    /** The containers of `v` lie strictly below this node. */
    ghost predicate Below(v: Val)
      reads this, Repr
    {
      v.VRef? ==>
        && this in Repr && v.node in Repr
        && v.node.Repr <= Repr - {this}
    }

    /** All is well except, perhaps, in the slot `part`. */
    ghost predicate ValidBut(part: PathPart)
      reads this, Repr
      ensures ValidBut(part) ==> this in Repr && !Tree.Null?
      decreases Repr, 1
    {
      && this in Repr
      && (if isArray then
            && Tree.Arr? && |Tree.items| == |items|
            && (forall i | 0 <= i < |items| && part != Idx(i) :: Below(items[i]) && Abs(items[i]) == Tree.items[i] && (items[i].VRef? ==> items[i].node.Valid()))
            && (forall i, j | 0 <= i < j < |items| && part != Idx(i) && part != Idx(j) ::
                  Foot(items[i]) !! Foot(items[j]))
          else
            && Tree.Obj? && Tree.fields.Keys == fields.Keys
            && (forall k | k in fields && part != Key(k) :: Below(fields[k]) && Abs(fields[k]) == Tree.fields[k] && (fields[k].VRef? ==> fields[k].node.Valid()))
            && (forall k, l | k in fields && l in fields && k != l && part != Key(k) && part != Key(l) ::
                  Foot(fields[k]) !! Foot(fields[l])))
    }

    ghost predicate Valid()
      reads this, Repr
      ensures Valid() ==> this in Repr && !Tree.Null?
      decreases Repr, 2
    {
      ValidBut(Other)
    }

    /** The tree `v` shares no container with this node and its other children. */
    ghost predicate Separate(part: PathPart, v: Val)
      requires ValidBut(part)
      reads this, Repr, if v.VRef? then {v.node} else {}
    {
      && this !in Foot(v)
      && (if isArray then
            forall i | 0 <= i < |items| && part != Idx(i) :: Foot(items[i]) !! Foot(v)
          else
            forall k | k in fields && part != Key(k) :: Foot(fields[k]) !! Foot(v))
    }

    /** The value in a slot; `VNull` when there is none. */
    function At(part: PathPart): Val
      reads this
    {
      match part
      case Key(k) => if !isArray && k in fields then fields[k] else VNull
      case Idx(i) => if isArray && 0 <= i < |items| then items[i] else VNull
      case _ => VNull
    }

    /** A valid node, taken apart at one slot. */
    lemma Split(part: PathPart)
      requires Valid() && ValidPart(part)
      ensures isArray == Tree.Arr? && !isArray == Tree.Obj?
      ensures isArray ==> |items| == |Tree.items|
      ensures ValidBut(part) && Good(At(part)) && Abs(At(part)) == Child(Tree, part)
      ensures Foot(At(part)) <= Repr - {this} && Separate(part, At(part))
    {
      assert ValidBut(Other);
    }

    /** A node put together again at one slot. */
    lemma Join(part: PathPart)
      requires ValidBut(part) && Separate(part, At(part))
      requires Below(At(part)) && Good(At(part)) && Abs(At(part)) == Child(Tree, part)
      ensures Valid()
    {}

    /** Children outside the slot `part` survive a change elsewhere. */
    twostate lemma OthersKept(part: PathPart)
      requires old(ValidBut(part)) && old(Repr) <= Repr
      requires isArray ==>
        && Tree.Arr? && |Tree.items| == |items|
        && (forall i | 0 <= i < |items| && part != Idx(i) ::
              (items[i] == VNull && Tree.items[i] == Null) ||
              (i < old(|items|) && items[i] == old(items[i]) && Tree.items[i] == old(Tree.items[i])))
        && (forall i | 0 <= i < old(|items|) && part != Idx(i) && old(items[i]).VRef? ::
              forall n <- old(items[i].node.Repr) :: unchanged(n))
      requires !isArray ==>
        && Tree.Obj? && Tree.fields.Keys == fields.Keys
        && (forall k | k in fields && part != Key(k) ::
              k in old(fields) && fields[k] == old(fields[k]) && Tree.fields[k] == old(Tree.fields[k]))
        && (forall k | k in old(fields) && part != Key(k) && old(fields[k]).VRef? ::
              forall n <- old(fields[k].node.Repr) :: unchanged(n))
      ensures ValidBut(part)
    {
      if isArray {
        forall i | 0 <= i < |items| && part != Idx(i)
          ensures Below(items[i]) && Abs(items[i]) == Tree.items[i] && (items[i].VRef? ==> items[i].node.Valid())
          ensures items[i] != VNull ==> i < old(|items|) && Foot(items[i]) == old(Foot(items[i]))
        {
          if items[i].VRef? { assert old(items[i].node.Valid()); }
        }
      } else {
        forall k | k in fields && part != Key(k)
          ensures Below(fields[k]) && Abs(fields[k]) == Tree.fields[k] && (fields[k].VRef? ==> fields[k].node.Valid())
          ensures Foot(fields[k]) == old(Foot(fields[k]))
        {
          if fields[k].VRef? { assert old(fields[k].node.Valid()); }
        }
      }
    }

    /** After the subtree in one slot was replaced by `w`, built from that subtree and
        from containers outside this tree. */
    twostate lemma SlotReplaced(part: PathPart, new w: Val)
      requires unchanged(this) && old(ValidBut(part)) && old(Separate(part, At(part)))
      requires forall n <- old(Repr) - old(Foot(At(part))) :: unchanged(n)
      requires forall n <- Foot(w) :: n in old(Foot(At(part))) || n !in old(Repr)
      ensures ValidBut(part) && Separate(part, w)
    {
      if isArray {
        forall i | 0 <= i < |items| && part != Idx(i) && items[i].VRef?
          ensures forall n <- old(items[i].node.Repr) :: unchanged(n)
        {
          assert old(Below(items[i]) && Foot(items[i]) !! Foot(At(part)));
          forall n <- old(items[i].node.Repr) ensures unchanged(n) {
            assert n in old(Repr) - old(Foot(At(part)));
          }
        }
        OthersKept(part);
        forall i | 0 <= i < |items| && part != Idx(i) ensures Foot(items[i]) !! Foot(w) {
          assert old(Below(items[i]));
          assert Foot(items[i]) == old(Foot(items[i]));
        }
      } else {
        forall k | k in fields && part != Key(k) && fields[k].VRef?
          ensures forall n <- old(fields[k].node.Repr) :: unchanged(n)
        {
          assert old(Below(fields[k]) && Foot(fields[k]) !! Foot(At(part)));
          forall n <- old(fields[k].node.Repr) ensures unchanged(n) {
            assert n in old(Repr) - old(Foot(At(part)));
          }
        }
        OthersKept(part);
        forall k | k in fields && part != Key(k) ensures Foot(fields[k]) !! Foot(w) {
          assert old(Below(fields[k]));
          assert Foot(fields[k]) == old(Foot(fields[k]));
        }
      }
    }

    /** Store the updated child, or drop its slot when a `del` emptied it. */
    method FinishSlot(part: PathPart, v: Val, del: bool) returns (r: Val)
      requires ValidPart(part) && part.Idx? == isArray && ValidBut(part)
      requires Good(v) && Separate(part, v)
      modifies this
      ensures Good(r) && Repr <= old(Repr) + old(Foot(v)) && (r == VNull || r == VRef(this))
      ensures Abs(r) == if del && old(Abs(v)).Null? then Remove(old(Tree), part)
                        else Put(old(Tree), part, old(Abs(v)))
    {
      assert v.VRef? ==> !v.node.Tree.Null?;
      match part
      case Key(k) =>
        if del && v.VNull? { r := DeleteField(k); } else { SetField(k, v); r := VRef(this); }
      case Idx(i) =>
        if del && v.VNull? { r := RemoveItem(i); } else { SetItem(i, v); r := VRef(this); }
    }

    method SetField(k: string, v: Val)
      requires !isArray && ValidBut(Key(k))
      requires Good(v) && Separate(Key(k), v)
      modifies this
      ensures Valid() && Repr == old(Repr) + old(Foot(v))
      ensures Tree == Put(old(Tree), Key(k), old(Abs(v)))
    {
      fields := fields[k := v];
      Repr := Repr + Foot(v);
      Tree := Obj(Tree.fields[k := Abs(v)]);
      OthersKept(Key(k));
      forall l | l in fields && l != k ensures Foot(fields[l]) !! Foot(v) {
        assert Foot(fields[l]) == old(Foot(fields[l]));
      }
      Join(Key(k));
    }

    method DeleteField(k: string) returns (r: Val)
      requires !isArray && ValidBut(Key(k))
      modifies this
      ensures Valid() && Repr == old(Repr)
      ensures r == VNull || r == VRef(this)
      ensures Abs(r) == Remove(old(Tree), Key(k))
    {
      fields := fields - {k};
      Tree := Obj(Tree.fields - {k});
      OthersKept(Key(k));
      r := if fields == map[] then VNull else VRef(this);
    }

    method SetItem(i: nat, v: Val)
      requires isArray && ValidBut(Idx(i))
      requires Good(v) && Separate(Idx(i), v)
      modifies this
      ensures Valid() && Repr == old(Repr) + old(Foot(v))
      ensures Tree == Put(old(Tree), Idx(i), old(Abs(v)))
    {
      items := if i < |items| then items[i := v] else items + seq(i - |items|, _ => VNull) + [v];
      Repr := Repr + Foot(v);
      Tree := Put(Tree, Idx(i), Abs(v));
      OthersKept(Idx(i));
      forall j | 0 <= j < |items| && j != i ensures Foot(items[j]) !! Foot(v) {
        assert items[j] != VNull ==> Foot(items[j]) == old(Foot(items[j]));
      }
      Join(Idx(i));
    }

    method RemoveItem(i: nat) returns (r: Val)
      requires isArray && ValidBut(Idx(i))
      modifies this
      ensures Valid() && Repr == old(Repr)
      ensures r == VNull || r == VRef(this)
      ensures Abs(r) == Remove(old(Tree), Idx(i))
    {
      if i >= |items| {
        return VRef(this);
      }
      if i == |items| - 1 {
        items := items[..i];
        Tree := Arr(Tree.items[..i]);
        r := if |items| == 0 then VNull else VRef(this);
      } else {
        items := items[i := VNull];
        Tree := Arr(Tree.items[i := Null]);
        r := VRef(this);
      }
      OthersKept(Idx(i));
    }

    /** The recursive step: update one child, then store it or drop it. */
    method UpdateBelow(path: Path, op: Op<Val>) returns (r: Result<Val>)
      requires path != [] && ValidPart(path[0]) && path[0].Idx? == isArray
      requires Valid() && GoodOp(op) && Repr !! OpFoot(op)
      modifies Repr
      ensures r.Err? ==>
        Update(old(Tree), path, old(AbsOp(op))) == Err(r.error) &&
        forall n <- old(Repr) :: unchanged(n)
      ensures r.Ok? ==>
        Good(r.value) && Ok(Abs(r.value)) == Update(old(Tree), path, old(AbsOp(op)))
      ensures r.Ok? ==>
        forall n <- Foot(r.value) :: n in old(Repr) || n in old(OpFoot(op)) || fresh(n)
      decreases |path|, 0
    {
      var part := path[0];
      Split(part);
      r := SetPathInternal(At(part), path[1..], op);
      if r.Err? {
        return;
      }
      SlotReplaced(part, r.value);
      var v := FinishSlot(part, r.value, op.Del?);
      return Ok(v);
    }
  }

  /** The containers reachable from a value. */
  ghost function Foot(v: Val): set<Node>
    reads if v.VRef? then {v.node} else {}
  {
    if v.VRef? then v.node.Repr else {}
  }

  ghost predicate Good(v: Val)
    reads if v.VRef? then {v.node} else {}, Foot(v)
  {
    v.VRef? ==> v.node.Valid()
  }

  /** The tree a value stands for. */
  ghost function Abs(v: Val): Json
    reads if v.VRef? then {v.node} else {}
  {
    match v
    case VRef(n) => n.Tree
    case VNull => Null
    case VBool(b) => Bool(b)
    case VNum(x) => Num(x)
    case VStr(s) => Str(s)
  }

  ghost predicate GoodOp(op: Op<Val>)
    reads match op case Del => {} case _ => if op.v.VRef? then {op.v.node} else {},
          match op case Del => {} case _ => Foot(op.v)
  {
    op.Del? || Good(op.v)
  }

  ghost function OpFoot(op: Op<Val>): set<Node>
    reads match op case Del => {} case _ => if op.v.VRef? then {op.v.node} else {}
  {
    if op.Del? then {} else Foot(op.v)
  }

  ghost function AbsOp(op: Op<Val>): Op<Json>
    reads match op case Del => {} case _ => if op.v.VRef? then {op.v.node} else {}
  {
    match op
    case Set(v) => Set(Abs(v))
    case Del => Del
    case Append(v) => Append(Abs(v))
  }

  lemma PutFirst(v: Json)
    ensures Put(Arr([]), Idx(0), v) == Arr([v])
  {}

  method ArrayOfOne(v: Val) returns (n: Node)
    requires Good(v)
    ensures n.Valid() && n.Tree == Arr([old(Abs(v))])
    ensures forall m <- n.Repr :: m in old(Foot(v)) || fresh(m)
  {
    n := new Node(true);
    n.Split(Idx(0));
    n.SetItem(0, v);
    PutFirst(Abs(v));
  }

  method ArrayAppend(target: Val, v: Val) returns (r: Result<Val>)
    requires Good(target) && Good(v) && Foot(target) !! Foot(v)
    modifies Foot(target)
    ensures r.Err? ==>
      AtEnd(old(Abs(target)), Append(old(Abs(v)))) == Err(r.error) &&
      forall n <- old(Foot(target)) :: unchanged(n)
    ensures r.Ok? ==>
      Good(r.value) && Ok(Abs(r.value)) == AtEnd(old(Abs(target)), Append(old(Abs(v))))
    ensures r.Ok? ==>
      forall n <- Foot(r.value) :: n in old(Foot(target)) || n in old(Foot(v)) || fresh(n)
  {
    if target.VNull? {
      var n := ArrayOfOne(v);
      return Ok(VRef(n));
    }
    if target.VRef? { target.node.Split(Idx(0)); }
    if !(target.VRef? && target.node.isArray) {
      return Err(AppendToNonArray);
    }
    target.node.Split(Idx(|target.node.items|));
    assert target.node.Tree.items + Nulls(0) == target.node.Tree.items;
    target.node.SetItem(|target.node.items|, v);
    return Ok(target);
  }

  method SetPathInternal(obj: Val, path: Path, op: Op<Val>) returns (r: Result<Val>)
    requires Good(obj) && GoodOp(op) && Foot(obj) !! OpFoot(op)
    modifies Foot(obj)
    ensures r.Err? ==>
      Update(old(Abs(obj)), path, old(AbsOp(op))) == Err(r.error) &&
      forall n <- old(Foot(obj)) :: unchanged(n)
    ensures r.Ok? ==>
      Good(r.value) && Ok(Abs(r.value)) == Update(old(Abs(obj)), path, old(AbsOp(op)))
    ensures r.Ok? ==>
      forall n <- Foot(r.value) :: n in old(Foot(obj)) || n in old(OpFoot(op)) || fresh(n)
    decreases |path|, 1
  {
    if path == [] {
      match op
      case Set(v) => return Ok(v);
      case Del => return Ok(VNull);
      case Append(v) =>
        r := ArrayAppend(obj, v);
        return;
    }
    var part := path[0];
    if !ValidPart(part) {
      return Err(InvalidPart);
    }
    if obj.VRef? { obj.node.Split(part); }
    if obj.VNull? && op.Del? {
      return Ok(VNull);
    }
    var cur: Node;
    if obj.VNull? {
      cur := new Node(part.Idx?);
    } else if obj.VRef? && obj.node.isArray == part.Idx? {
      cur := obj.node;
    } else {
      return Err(Misfit(part));
    }
    cur.Split(part);
    if op.Del? && |path| == 1 {
      var left := cur.FinishSlot(part, VNull, true);
      return Ok(left);
    }
    r := cur.UpdateBelow(path, op);
  }

  /** Walks down from `obj`; `null` when the tree ends or has the wrong shape on the way. */
  method GetPath(obj: Val, path: Path) returns (r: Result<Val>)
    requires Good(obj)
    ensures r.Err? ==> Read(Abs(obj), path) == Err(r.error)
    ensures r.Ok? ==> Good(r.value) && Read(Abs(obj), path) == Ok(Abs(r.value))
    ensures r.Ok? ==> Foot(r.value) <= Foot(obj)
  {
    var cur := obj;
    for i := 0 to |path|
      invariant Good(cur) && Foot(cur) <= Foot(obj)
      invariant Read(Abs(obj), path) == Read(Abs(cur), path[i..])
    {
      var part := path[i];
      if cur.VNull? {
        return Ok(VNull);
      }
      ReadNullAfter(path[i..]);
      match part {
        case Other => return Err(InvalidPart);
        case Frac(_) => cur := VNull;
        case Key(_) =>
          if !(cur.VRef? && !cur.node.isArray) {
            if cur.VRef? { cur.node.Split(part); }
            return Ok(VNull);
          }
          cur.node.Split(part);
          cur := cur.node.At(part);
        case Idx(i) =>
          if !(cur.VRef? && cur.node.isArray) {
            if cur.VRef? { cur.node.Split(Idx(0)); }
            return Ok(VNull);
          }
          cur.node.Split(Idx(if i < 0 then 0 else i));
          cur := cur.node.At(part);
      }
      assert path[i..][1..] == path[i + 1..];
    }
    return Ok(cur);
  }

  lemma ReadNullAfter(path: Path)
    requires path != []
    ensures Read(Null, path[1..]) == Ok(Null)
  {}

  ghost function AbsCommand(command: Command<Val>): Command<Json>
    reads if command.Command? && command.value.VRef? then {command.value.node} else {}
  {
    match command
    case NullCommand => NullCommand
    case NotAnObjectCommand => NotAnObjectCommand
    case Command(kind, path, value) => Command(kind, path, Abs(value))
  }

  method SetPath(obj: Val, path: Path, op: Op<Val>) returns (r: Result<Val>)
    requires Good(obj) && GoodOp(op) && Foot(obj) !! OpFoot(op)
    modifies Foot(obj)
    ensures r.Err? ==> forall n <- old(Foot(obj)) :: unchanged(n)
    ensures r.Ok? ==> Good(r.value)
    ensures (if r.Ok? then Ok(Abs(r.value)) else Err(r.error)) ==
            if CheckPath(path) then Update(old(Abs(obj)), path, old(AbsOp(op))) else Err(InvalidPath)
    ensures r.Ok? ==>
      forall n <- Foot(r.value) :: n in old(Foot(obj)) || n in old(OpFoot(op)) || fresh(n)
  {
    if !CheckPath(path) {
      return Err(InvalidPath);
    }
    r := SetPathInternal(obj, path, op);
  }

  /** One command applied in place: the new tree is the one `Apply` computes, and a command
      that fails leaves every object of the old tree as it was. */
  method ApplyCommand(data: Val, command: Command<Val>) returns (r: Result<Val>)
    requires Good(data)
    requires command.Command? ==> Good(command.value) && Foot(data) !! Foot(command.value)
    modifies Foot(data)
    ensures r.Err? ==> forall n <- old(Foot(data)) :: unchanged(n)
    ensures r.Ok? ==> Good(r.value)
    ensures (if r.Ok? then Ok(Abs(r.value)) else Err(r.error)) ==
            Apply(old(Abs(data)), old(AbsCommand(command)))
    ensures r.Ok? ==> forall n <- Foot(r.value) ::
      n in old(Foot(data)) || (command.Command? && n in old(Foot(command.value))) || fresh(n)
  {
    if !command.Command? {
      return Err(InvalidCommand);
    }
    if command.kind.MissingKind? {
      return Err(InvalidCommand);
    }
    if command.path.NotAList? || !CheckPath(PathOf(command.path)) {
      return Err(InvalidPath);
    }
    match command.kind
    case SetKind => r := SetPath(data, PathOf(command.path), Set(command.value));
    case DelKind => r := SetPath(data, PathOf(command.path), Del);
    case AppendKind => r := SetPath(data, PathOf(command.path), Append(command.value));
    case _ => return Err(InvalidCommand);
  }
}
