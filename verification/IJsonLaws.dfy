/**
 Laws of the path operations: lenses, independence of disjoint paths, pruning,
 and when `del` undoes `set`.
 */
module IJsonLaws {
  import opened IJson

  // ---------------------------------------------------------------- slots

  lemma PutRead(c: Json, a: PathPart, v: Json)
    requires ValidPart(a) && Fits(c, a) && !c.Null?
    ensures Child(Put(c, a, v), a) == v
    ensures forall b | b != a :: Child(Put(c, a, v), b) == Child(c, b)
  {}

  lemma RemoveRead(c: Json, a: PathPart)
    requires ValidPart(a) && Fits(c, a) && !c.Null?
    ensures Child(Remove(c, a), a) == Null
    ensures forall b | b != a :: Child(Remove(c, a), b) == Child(c, b)
  {
    forall b | b != a ensures Child(Remove(c, a), b) == Child(c, b) {
      if c.Obj? && b.Key? && b.name in c.fields {
        assert b.name in c.fields - {a.name};
      }
    }
  }

  lemma PutTwice(c: Json, a: PathPart, v: Json, w: Json)
    requires ValidPart(a) && Fits(c, a) && !c.Null?
    ensures Put(Put(c, a, v), a, w) == Put(c, a, w)
  {
    if a.Key? {
      assert c.fields[a.name := v][a.name := w] == c.fields[a.name := w];
    } else {
      assert Put(Put(c, a, v), a, w).items == Put(c, a, w).items;
    }
  }

  lemma ItemsAfterPut(items: seq<Json>, i: nat, v: Json)
    ensures Put(Arr(items), Idx(i), v).items ==
            seq(if i < |items| then |items| else i + 1, k requires 0 <= k =>
              if k == i then v else if k < |items| then items[k] else Null)
  {}

  lemma PutsCommute(c: Json, a: PathPart, v: Json, b: PathPart, w: Json)
    requires a != b && !c.Null?
    requires ValidPart(a) && Fits(c, a) && ValidPart(b) && Fits(c, b)
    ensures Put(Put(c, a, v), b, w) == Put(Put(c, b, w), a, v)
  {
    if c.Obj? {
      assert c.fields[a.name := v][b.name := w] == c.fields[b.name := w][a.name := v];
    } else {
      ItemsAfterPut(c.items, a.i, v);
      ItemsAfterPut(c.items, b.i, w);
      ItemsAfterPut(Put(c, a, v).items, b.i, w);
      ItemsAfterPut(Put(c, b, w).items, a.i, v);
      assert Put(Put(c, a, v), b, w).items == Put(Put(c, b, w), a, v).items;
    }
  }

  // ---------------------------------------------------------------- lenses

  /** What the path reads after a successful operation on it. */
  function ReadAfter(before: Json, op: Op<Json>): Json {
    match op
    case Set(v) => v
    case Del => Null
    case Append(v) => if before.Arr? then Arr(before.items + [v]) else Arr([v])
  }

  lemma {:induction false} UpdateThenRead(t: Json, p: Path, op: Op<Json>)
    requires CheckPath(p) && Update(t, p, op).Ok?
    ensures Read(t, p).Ok?
    ensures Read(Update(t, p, op).value, p) == Ok(ReadAfter(Read(t, p).value, op))
    decreases |p|
  {
    if p != [] && !(t.Null? && op.Del?) {
      var c := Open(t, p[0]);
      UpdateThenRead(Child(c, p[0]), p[1..], op);
      var v := Update(Child(c, p[0]), p[1..], op).value;
      PutRead(c, p[0], v);
      RemoveRead(c, p[0]);
      if t.Null? { ReadNull(p[1..]); }
    }
  }

  lemma ReadNull(p: Path)
    ensures Read(Null, p) == Ok(Null)
  {}

  lemma ApartTails(p: Path, q: Path)
    requires Apart(p, q)
    ensures p != [] && q != []
    ensures p[0] == q[0] ==> Apart(p[1..], q[1..])
  {
    if p[0] == q[0] {
      assert p == [p[0]] + p[1..] && q == [q[0]] + q[1..];
    }
  }

  /** No operation, `del` with its pruning included, is visible on a path apart from its own. */
  lemma {:induction false} UpdateLeavesOthers(t: Json, p: Path, op: Op<Json>, q: Path)
    requires Apart(p, q) && CheckPath(q) && Update(t, p, op).Ok?
    ensures Read(Update(t, p, op).value, q) == Read(t, q)
    decreases |p|
  {
    ApartTails(p, q);
    if !(t.Null? && op.Del?) {
      var c := Open(t, p[0]);
      var r := Update(Child(c, p[0]), p[1..], op);
      PutRead(c, p[0], r.value);
      RemoveRead(c, p[0]);
      if p[0] == q[0] {
        UpdateLeavesOthers(Child(c, p[0]), p[1..], op, q[1..]);
      }
      ReadNull(q[1..]);
    }
  }

  // ---------------------------------------------------------------- success

  /** Every proper prefix of the path reads nothing, or a container of the right kind. */
  ghost predicate Passable(t: Json, p: Path) {
    forall i | 0 <= i < |p| ::
      ValidPart(p[i]) && Read(t, p[..i]).Ok? && Fits(Read(t, p[..i]).value, p[i])
  }

  lemma {:induction false} PassableStep(t: Json, p: Path)
    requires p != []
    ensures Passable(t, p) <==>
            ValidPart(p[0]) && Fits(t, p[0]) && Passable(Child(t, p[0]), p[1..])
  {
    assert p[..0] == [];
    forall i | 0 <= i < |p| - 1 && ValidPart(p[0])
      ensures Read(t, p[..i + 1]) == Read(Child(t, p[0]), p[1..][..i])
      ensures p[1..][i] == p[i + 1]
    {
      assert p[..i + 1][1..] == p[1..][..i];
      ReadNull(p[1..][..i]);
    }
    if ValidPart(p[0]) && Fits(t, p[0]) && Passable(Child(t, p[0]), p[1..]) {
      forall i | 0 <= i < |p|
        ensures ValidPart(p[i]) && Read(t, p[..i]).Ok? && Fits(Read(t, p[..i]).value, p[i])
      {
        if i > 0 { assert p[i] == p[1..][i - 1]; }
      }
    }
    if Passable(t, p) {
      forall i | 0 <= i < |p| - 1
        ensures var s := Child(t, p[0]); var q := p[1..];
                ValidPart(q[i]) && Read(s, q[..i]).Ok? && Fits(Read(s, q[..i]).value, q[i])
      {
        assert ValidPart(p[i + 1]);
      }
    }
  }

  /** Exactly when `set` and `append` succeed. */
  lemma {:induction false} StoreSucceedsIff(t: Json, p: Path, op: Op<Json>)
    requires !op.Del?
    ensures Update(t, p, op).Ok? <==>
            Passable(t, p) &&
            (op.Append? ==> Read(t, p).Ok? && (Read(t, p).value.Null? || Read(t, p).value.Arr?))
    decreases |p|
  {
    if p != [] {
      PassableStep(t, p);
      var c := Open(t, p[0]);
      assert Child(c, p[0]) == Child(t, p[0]);
      StoreSucceedsIff(Child(c, p[0]), p[1..], op);
      ReadNull(p[1..]);
    }
  }

  /** The path is passable for `n` segments and then ends or reads nothing. */
  ghost predicate StopsAt(t: Json, p: Path, n: nat) {
    && n <= |p|
    && Passable(t, p[..n])
    && (n < |p| ==> ValidPart(p[n]) && Read(t, p[..n]) == Ok(Null))
  }

  lemma StopsAtStep(t: Json, p: Path, n: nat)
    requires p != [] && ValidPart(p[0]) && Fits(t, p[0])
    ensures StopsAt(t, p, n + 1) <==> StopsAt(Child(t, p[0]), p[1..], n)
  {
    if n < |p| {
      assert p[..n + 1][1..] == p[1..][..n];
      PassableStep(t, p[..n + 1]);
      ReadNull(p[1..][..n]);
    }
  }

  /** Exactly when `del` succeeds: it stops with success where nothing is left to delete, and
      segments behind that point are not looked at. */
  lemma {:induction false} DelSucceedsIff(t: Json, p: Path)
    ensures Update(t, p, Del).Ok? <==> exists n: nat :: StopsAt(t, p, n)
    decreases |p|
  {
    assert p[..0] == [];
    if p == [] || (t.Null? && ValidPart(p[0])) {
      assert StopsAt(t, p, 0);
    } else if !ValidPart(p[0]) || !Fits(t, p[0]) {
      forall n: nat ensures !StopsAt(t, p, n) {
        if 0 < n <= |p| { PassableStep(t, p[..n]); }
      }
    } else {
      var c := Child(t, p[0]);
      DelSucceedsIff(c, p[1..]);
      if n: nat :| StopsAt(c, p[1..], n) {
        StopsAtStep(t, p, n);
      }
      if n: nat :| StopsAt(t, p, n) {
        StopsAtStep(t, p, n - 1);
      }
    }
  }

  // ---------------------------------------------------------------- commutation

  /** Two stores below the same segment are two stores in the child. */
  lemma StoresBelow(t: Json, p: Path, f: Op<Json>, q: Path, g: Op<Json>)
    requires p != [] && q != [] && p[0] == q[0] && !f.Del? && !g.Del?
    requires ValidPart(p[0]) && Fits(t, p[0])
    ensures var inner := Then(Update(Child(t, p[0]), p[1..], f), q[1..], g);
            Then(Update(t, p, f), q, g) ==
            if inner.Ok? then Ok(Put(Open(t, p[0]), p[0], inner.value)) else inner
  {
    var c := Open(t, p[0]);
    var r := Update(Child(c, p[0]), p[1..], f);
    if r.Ok? {
      PutRead(c, p[0], r.value);
      var s := Update(r.value, q[1..], g);
      if s.Ok? { PutTwice(c, p[0], r.value, s.value); }
    }
  }

  /** Two stores through different segments fill both slots, if both can be filled. */
  lemma StoresBeside(t: Json, p: Path, f: Op<Json>, q: Path, g: Op<Json>)
    requires p != [] && q != [] && p[0] != q[0] && !f.Del? && !g.Del?
    ensures
      var r, s := Update(Child(t, p[0]), p[1..], f), Update(Child(t, q[0]), q[1..], g);
      if ValidPart(p[0]) && ValidPart(q[0]) && Fits(t, p[0]) && Fits(Open(t, p[0]), q[0])
         && r.Ok? && s.Ok?
      then Then(Update(t, p, f), q, g) == Ok(Put(Put(Open(t, p[0]), p[0], r.value), q[0], s.value))
      else Then(Update(t, p, f), q, g).Err?
  {
    var c := Open(t, p[0]);
    var r := Update(Child(c, p[0]), p[1..], f);
    if ValidPart(p[0]) && Fits(t, p[0]) && r.Ok? {
      PutRead(c, p[0], r.value);
      assert Child(c, q[0]) == Child(t, q[0]);
    }
  }

  /** Operations that store or append on paths apart from each other commute: the same
      tree either way, or a failure either way. */
  lemma {:induction false} StoresCommute(t: Json, p: Path, f: Op<Json>, q: Path, g: Op<Json>)
    requires Apart(p, q) && !f.Del? && !g.Del?
    ensures SameOutcome(Then(Update(t, p, f), q, g), Then(Update(t, q, g), p, f))
    decreases |p|
  {
    ApartTails(p, q);
    if p[0] == q[0] {
      if ValidPart(p[0]) && Fits(t, p[0]) {
        StoresBelow(t, p, f, q, g);
        StoresBelow(t, q, g, p, f);
        StoresCommute(Child(t, p[0]), p[1..], f, q[1..], g);
      }
    } else {
      StoresBeside(t, p, f, q, g);
      StoresBeside(t, q, g, p, f);
      var r, s := Update(Child(t, p[0]), p[1..], f), Update(Child(t, q[0]), q[1..], g);
      if Then(Update(t, p, f), q, g).Ok? {
        PutsCommute(Open(t, p[0]), p[0], r.value, q[0], s.value);
      }
    }
  }

  /** A `set` at or above an earlier `set` hides it. */
  lemma {:induction false} LaterSetWins(t: Json, p: Path, v: Json, q: Path, w: Json)
    requires Prefix(q, p) && Update(t, p, Set(v)).Ok?
    ensures Then(Update(t, p, Set(v)), q, Set(w)) == Update(t, q, Set(w))
    decreases |p|
  {
    if q != [] {
      var c, r := Open(t, p[0]), Update(Child(Open(t, p[0]), p[0]), p[1..], Set(v));
      assert p[1..][..|q| - 1] == q[1..] by { assert p[..|q|][1..] == q[1..]; }
      assert p[..|q|][0] == q[0];
      LaterSetWins(Child(c, p[0]), p[1..], v, q[1..], w);
      PutRead(c, p[0], r.value);
      var s := Update(r.value, q[1..], Set(w));
      if s.Ok? { PutTwice(c, p[0], r.value, s.value); }
    }
  }

  /** Two `del`s need not commute: an array only shrinks from its end.  IJsonCommute.dfy says
      exactly when they do. */
  lemma DelsNeedNotCommute()
    ensures var t := Arr([Bool(true), Bool(false)]);
            var p, q := [Idx(0)], [Idx(1)];
            Apart(p, q) &&
            Then(Update(t, p, Del), q, Del) == Ok(Arr([Null])) &&
            Then(Update(t, q, Del), p, Del) == Ok(Null)
  {
    var t := Arr([Bool(true), Bool(false)]);
    var u := Arr([Null, Bool(false)]);
    var s := Arr([Bool(true)]);
    assert t.items[0 := Null] == u.items;
    assert u.items[..1] == [Null] && t.items[..1] == s.items;
    assert [Idx(0)][1..] == [] && [Idx(1)][1..] == [];
    assert Remove(t, Idx(0)) == u && Remove(u, Idx(1)) == Arr([Null]);
    assert Remove(t, Idx(1)) == s && Remove(s, Idx(0)) == Null;
    assert Update(t, [Idx(0)], Del) == Ok(u);
    assert Update(t, [Idx(1)], Del) == Ok(s);
    assert !Prefix([Idx(0)], [Idx(1)]) by { assert [Idx(1)][..1] == [Idx(1)]; assert [Idx(1)][0] == Idx(1); }
    assert !Prefix([Idx(1)], [Idx(0)]) by { assert [Idx(0)][..1] == [Idx(0)]; assert [Idx(0)][0] == Idx(0); }
  }

  // ---------------------------------------------------------------- pruning

  /** `del` brings no empty container into a tree that has none. */
  lemma {:induction false} DelKeepsClean(t: Json, p: Path)
    requires Clean(t) && Update(t, p, Del).Ok?
    ensures Clean(Update(t, p, Del).value)
    decreases |p|
  {
    if p != [] && !t.Null? {
      var child := Child(t, p[0]);
      DelKeepsClean(child, p[1..]);
      var v := Update(child, p[1..], Del).value;
      if v.Null? { RemoveKeepsClean(t, p[0]); } else { PutKeepsClean(t, p[0], v); }
    }
  }

  lemma RemoveKeepsClean(t: Json, a: PathPart)
    requires Clean(t) && !t.Null? && ValidPart(a) && Fits(t, a)
    ensures Clean(Remove(t, a))
  {
    if a.Idx? && a.i < |t.items| - 1 {
      assert forall x <- t.items[a.i := Null] :: x.Null? || x in t.items;
    }
  }

  lemma PutKeepsClean(t: Json, a: PathPart, v: Json)
    requires Clean(t) && Clean(v) && !t.Null? && ValidPart(a) && Fits(t, a)
    ensures Clean(Put(t, a, v))
  {
    if a.Idx? {
      assert forall x <- Put(t, a, v).items :: x.Null? || x == v || x in t.items;
    } else {
      assert forall k <- t.fields[a.name := v] :: k == a.name || k in t.fields;
      assert a.name in t.fields[a.name := v];
    }
  }

  lemma PutSame(c: Json, a: PathPart)
    requires ValidPart(a) && Fits(c, a) && !c.Null?
    requires if a.Key? then a.name in c.fields else a.i < |c.items|
    ensures Put(c, a, Child(c, a)) == c
  {
    if a.Key? {
      assert c.fields[a.name := c.fields[a.name]] == c.fields;
    } else {
      assert c.items[a.i := c.items[a.i]] == c.items;
    }
  }

  lemma RemoveTwice(c: Json, a: PathPart)
    requires ValidPart(a) && Fits(c, a) && !c.Null?
    requires !Remove(c, a).Null?
    ensures Remove(Remove(c, a), a) == Remove(c, a)
  {
    if a.Key? {
      assert c.fields - {a.name} - {a.name} == c.fields - {a.name};
    } else if a.i < |c.items| - 1 {
      assert c.items[a.i := Null][a.i := Null] == c.items[a.i := Null];
    }
  }

  /** Deleting again changes nothing, on arrays too. */
  lemma {:induction false} DelTwice(t: Json, p: Path)
    requires Update(t, p, Del).Ok?
    ensures Then(Update(t, p, Del), p, Del) == Update(t, p, Del)
    decreases |p|
  {
    if p != [] && !t.Null? {
      var v := Update(Child(t, p[0]), p[1..], Del).value;
      DelTwice(Child(t, p[0]), p[1..]);
      if v.Null? {
        RemoveRead(t, p[0]);
        if !Remove(t, p[0]).Null? { RemoveTwice(t, p[0]); }
      } else {
        PutRead(t, p[0], v);
        PutTwice(t, p[0], v, v);
      }
    }
  }

  // ---------------------------------------------------------------- set, then del

  /**
   Checkable before the `set`, by walking down the path: an object met on the way is not
   empty and holds no null at the segment; an array has the index, with a null there only
   before its last element, or is nonempty and exactly one too short; and below the point
   where the tree ends every index is 0.
   */
  predicate Restorable(t: Json, p: Path)
    decreases |p|
  {
    if p == [] then t.Null?
    else match p[0]
      case Key(k) =>
        if t.Null? then Restorable(Null, p[1..])
        else
          t.Obj? && t.fields != map[] &&
          (k in t.fields ==> !t.fields[k].Null?) &&
          Restorable(Child(t, p[0]), p[1..])
      case Idx(i) =>
        if t.Null? then i == 0 && Restorable(Null, p[1..])
        else
          t.Arr? &&
          (if i < |t.items| then Child(t, p[0]).Null? ==> i < |t.items| - 1
           else i == |t.items| > 0) &&
          Restorable(Child(t, p[0]), p[1..])
      case _ => false
  }

  lemma PutThenRemove(c: Json, a: PathPart, v: Json)
    requires ValidPart(a) && Fits(c, a) && !c.Null?
    ensures if a.Key? then Remove(Put(c, a, v), a) == PruneObj(c.fields - {a.name})
            else if a.i < |c.items| then Remove(Put(c, a, v), a) == Remove(c, a)
            else Remove(Put(c, a, v), a) ==
                 if a.i == 0 then Null else Arr(c.items + Nulls(a.i - |c.items|))
  {
    if a.Key? {
      assert c.fields[a.name := v] - {a.name} == c.fields - {a.name};
    } else if a.i < |c.items| {
      var w := c.items[a.i := v];
      assert a.i == |c.items| - 1 ==> w[..a.i] == c.items[..a.i];
      assert w[a.i := Null] == c.items[a.i := Null];
    } else {
      assert Put(c, a, v).items[..a.i] == c.items + Nulls(a.i - |c.items|);
    }
  }

  /** `del` after a `set` on the same path always succeeds, and gives the old tree back
      exactly when the old tree was `Restorable`. */
  lemma {:induction false} SetThenDel(t: Json, p: Path, v: Json)
    requires Update(t, p, Set(v)).Ok?
    ensures Then(Update(t, p, Set(v)), p, Del).Ok?
    ensures Then(Update(t, p, Set(v)), p, Del).value == t <==> Restorable(t, p)
    decreases |p|
  {
    if p != [] {
      var a, c := p[0], Open(t, p[0]);
      var child := Child(c, a);
      var stored := Update(child, p[1..], Set(v)).value;
      PutRead(c, a, stored);
      SetThenDel(child, p[1..], v);
      var d := Then(Ok(stored), p[1..], Del).value;
      PutTwice(c, a, stored, d);
      PutRead(c, a, d);
      PutThenRemove(c, a, stored);
      if a.Key? {
        if a.name in c.fields {
          PutSame(c, a);
          assert a.name !in c.fields - {a.name};
        } else {
          assert c.fields - {a.name} == c.fields;
        }
      } else if a.i < |c.items| {
        PutSame(c, a);
        assert c.items[a.i := Null][a.i] == Null;
      }
    }
  }

  /** A `set` that its `del` does not undo: it pads an array with holes, and they stay. */
  lemma PaddingStays(v: Json)
    ensures var p := [Idx(1)];
      Update(Null, p, Set(v)) == Ok(Arr([Null, v])) && Then(Update(Null, p, Set(v)), p, Del) == Ok(Arr([Null]))
  {
    var p := [Idx(1)];
    assert p[1..] == [];
    assert Arr([]).items + Nulls(1) + [v] == [Null, v];
    assert [Null, v][..1] == [Null];
  }

  predicate NoNullKeys(t: Json) {
    match t
    case Arr(xs) => forall x <- xs :: NoNullKeys(x)
    case Obj(m) => forall k <- m :: !m[k].Null? && NoNullKeys(m[k])
    case _ => true
  }

  predicate KeysOnly(p: Path) {
    forall part <- p :: part.Key?
  }

  /** On a path of keys that reads nothing, in a tree with no empty container and no
      null-valued key, `del` undoes `set`. */
  lemma {:induction false} DelUndoesSet(t: Json, p: Path, v: Json)
    requires KeysOnly(p) && Clean(t) && NoNullKeys(t)
    requires Read(t, p) == Ok(Null) && Update(t, p, Set(v)).Ok?
    ensures Then(Update(t, p, Set(v)), p, Del) == Ok(t)
  {
    SetThenDel(t, p, v);
    AbsentIsRestorable(t, p, v);
  }

  lemma {:induction false} AbsentIsRestorable(t: Json, p: Path, v: Json)
    requires KeysOnly(p) && Clean(t) && NoNullKeys(t)
    requires Read(t, p) == Ok(Null) && Update(t, p, Set(v)).Ok?
    ensures Restorable(t, p)
    decreases |p|
  {
    if p != [] {
      ReadNull(p[1..]);
      AbsentIsRestorable(Child(t, p[0]), p[1..], v);
    }
  }
}
