/**
 When a `del` commutes with a `del` or with a store on a path apart from its own: exact
 conditions that can be read off the tree along the common part of the two paths.
 */
module IJsonCommute {
  import opened IJson
  import opened IJsonLaws

  // ---------------------------------------------------------------- what a del leaves

  /** The container has no slot but this one. */
  predicate Only(t: Json, a: PathPart) {
    match a
    case Key(k) => t.Obj? && t.fields.Keys <= {k}
    case Idx(i) => t.Arr? && i == 0 && |t.items| == 1
    case _ => false
  }

  /** `del` would leave nothing of this tree: every container on the path has one slot. */
  predicate Vanishes(t: Json, p: Path)
    decreases |p|
  {
    p == [] ||
    (ValidPart(p[0]) && (t.Null? || (Only(t, p[0]) && Vanishes(Child(t, p[0]), p[1..]))))
  }

  /** What `del` does with the new value of a slot. */
  function Refill(c: Json, a: PathPart, v: Json): Json
    requires ValidPart(a) && Fits(c, a) && !c.Null?
  {
    if v.Null? then Remove(c, a) else Put(c, a, v)
  }

  lemma RefillNullIff(c: Json, a: PathPart, v: Json)
    requires ValidPart(a) && Fits(c, a) && !c.Null?
    ensures Refill(c, a, v).Null? <==> v.Null? && Only(c, a)
  {
    if a.Key? {
      assert c.fields - {a.name} == map[] <==> c.fields.Keys <= {a.name} by {
        forall k <- c.fields | k != a.name ensures k in c.fields - {a.name} {}
      }
    }
  }

  lemma RefillRead(c: Json, a: PathPart, v: Json)
    requires ValidPart(a) && Fits(c, a) && !c.Null?
    ensures Child(Refill(c, a, v), a) == v
    ensures forall b | b != a :: Child(Refill(c, a, v), b) == Child(c, b)
  {
    PutRead(c, a, v);
    RemoveRead(c, a);
  }

  lemma RefillFits(c: Json, a: PathPart, v: Json, b: PathPart)
    requires ValidPart(a) && Fits(c, a) && !c.Null? && !Refill(c, a, v).Null?
    ensures Fits(Refill(c, a, v), b) <==> Fits(c, b)
  {}

  /** A removed slot can be filled again as if it had not been removed. */
  lemma RemoveThenPut(c: Json, a: PathPart, w: Json)
    requires ValidPart(a) && Fits(c, a) && !c.Null?
    ensures Put(Open(Remove(c, a), a), a, w) == Put(c, a, w)
  {
    if a.Key? {
      assert (c.fields - {a.name})[a.name := w] == c.fields[a.name := w];
    } else if a.i < |c.items| - 1 {
      assert c.items[a.i := Null][a.i := w] == c.items[a.i := w];
    } else if a.i == |c.items| - 1 {
      assert c.items[..a.i] + Nulls(0) + [w] == c.items[a.i := w];
    }
  }

  lemma RefillTwice(c: Json, a: PathPart, v: Json, w: Json)
    requires ValidPart(a) && Fits(c, a) && !c.Null? && !Refill(c, a, v).Null?
    requires !v.Null? ==> !Child(c, a).Null?
    ensures Refill(Refill(c, a, v), a, w) == Refill(c, a, w)
  {
    if v.Null? {
      if w.Null? { RemoveTwice(c, a); } else { RemoveThenPut(c, a, w); }
    } else {
      if w.Null? { PutThenRemove(c, a, v); } else { PutTwice(c, a, v, w); }
    }
  }

  /** The last two slots of one array. */
  predicate LastTwo(c: Json, a: PathPart, b: PathPart) {
    c.Arr? && a.Idx? && b.Idx? && a.i >= 0 && b.i >= 0 &&
    (a.i == |c.items| - 1 == b.i + 1 || b.i == |c.items| - 1 == a.i + 1)
  }

  lemma RemovesCommuteIff(xs: seq<Json>, i: nat, j: nat)
    requires i < j && !RemoveFromArr(xs, i).Null? && !RemoveFromArr(xs, j).Null?
    ensures RemoveFromArr(RemoveFromArr(xs, i).items, j) == RemoveFromArr(RemoveFromArr(xs, j).items, i)
            <==> !(j == |xs| - 1 == i + 1)
  {
    var n := |xs|;
    if j < n - 1 {
      assert xs[i := Null][j := Null] == xs[j := Null][i := Null];
    } else if j == n - 1 {
      assert xs[i := Null][..j] == xs[..j][i := Null];
      assert |RemoveFromArr(xs[i := Null], j).items| == n - 1;
    }
  }

  lemma RefillsCommuteIff(c: Json, a: PathPart, v: Json, b: PathPart, w: Json)
    requires a != b && ValidPart(a) && ValidPart(b) && Fits(c, a) && Fits(c, b) && !c.Null?
    requires !v.Null? ==> !Child(c, a).Null?
    requires !w.Null? ==> !Child(c, b).Null?
    requires !Refill(c, a, v).Null? && !Refill(c, b, w).Null?
    ensures Refill(Refill(c, a, v), b, w) == Refill(Refill(c, b, w), a, v) <==>
            !(v.Null? && w.Null? && LastTwo(c, a, b))
  {
    if !v.Null? && !w.Null? {
      PutsCommute(c, a, v, b, w);
    } else if c.Obj? {
      if v.Null? && w.Null? {
        assert c.fields - {a.name} - {b.name} == c.fields - {b.name} - {a.name};
      } else if v.Null? {
        RemovePutFields(c.fields, a.name, b.name, w);
      } else {
        RemovePutFields(c.fields, b.name, a.name, v);
      }
    } else if v.Null? && w.Null? {
      if a.i < b.i { RemovesCommuteIff(c.items, a.i, b.i); } else { RemovesCommuteIff(c.items, b.i, a.i); }
    } else if v.Null? {
      RemovePutItems(c.items, a.i, b.i, w);
    } else {
      RemovePutItems(c.items, b.i, a.i, v);
    }
  }

  lemma RemovePutFields(m: map<string, Json>, k: string, l: string, w: Json)
    requires k != l && !PruneObj(m - {k}).Null?
    ensures PruneObj(m[l := w] - {k}) == Obj((m - {k})[l := w])
  {
    assert m[l := w] - {k} == (m - {k})[l := w];
    assert l in m[l := w] - {k};
  }

  /** Removing one element and storing another commute, with padding. */
  lemma RemovePutItems(xs: seq<Json>, i: nat, j: nat, w: Json)
    requires i != j && !RemoveFromArr(xs, i).Null?
    ensures RemoveFromArr(Put(Arr(xs), Idx(j), w).items, i) == Put(RemoveFromArr(xs, i), Idx(j), w)
  {
    var ys := Put(Arr(xs), Idx(j), w).items;
    var zs := RemoveFromArr(xs, i).items;
    var l, r := RemoveFromArr(ys, i), Put(Arr(zs), Idx(j), w);
    assert |ys| > 1 || i > 0;
    assert l.Arr? && |l.items| == |r.items|;
    forall k | 0 <= k < |l.items| ensures l.items[k] == r.items[k] {}
    assert l.items == r.items;
  }

  // ---------------------------------------------------------------- two dels

  function Inner(t: Json, p: Path): Result<Json>
    requires p != []
  {
    Update(Child(t, p[0]), p[1..], Del)
  }

  lemma DelOfNull(p: Path)
    ensures Update(Null, p, Del) == if p == [] || ValidPart(p[0]) then Ok(Null) else Err(InvalidPart)
  {}

  lemma DelOfPart(t: Json, p: Path)
    requires p != [] && ValidPart(p[0]) && Fits(t, p[0]) && !t.Null?
    ensures Update(t, p, Del) ==
            if Inner(t, p).Ok? then Ok(Refill(t, p[0], Inner(t, p).value)) else Inner(t, p)
    ensures Inner(t, p).Ok? && !Inner(t, p).value.Null? ==> !Child(t, p[0]).Null?
  {}

  lemma {:induction false} VanishesIff(t: Json, p: Path)
    ensures Update(t, p, Del) == Ok(Null) <==> Vanishes(t, p)
    decreases |p|
  {
    if p != [] && ValidPart(p[0]) && !t.Null? && Fits(t, p[0]) {
      VanishesIff(Child(t, p[0]), p[1..]);
      if Inner(t, p).Ok? { RefillNullIff(t, p[0], Inner(t, p).value); }
    }
  }

  /** Here `del p` leaves nothing, and after it `del q` succeeds because it looks no further; before
      it, `del q` fails, on the kind of the container or on a segment that is not valid. */
  predicate Strands(t: Json, p: Path, q: Path)
    requires p != [] && q != []
  {
    Vanishes(t, p) && ValidPart(q[0]) && (!Fits(t, q[0]) || (|q| > 1 && !ValidPart(q[1])))
  }

  /** Both `del`s remove the element they part at, and these are the last two of one array. */
  predicate PopsBoth(t: Json, p: Path, q: Path)
    requires p != [] && q != []
  {
    LastTwo(t, p[0], q[0]) && Vanishes(Child(t, p[0]), p[1..]) && Vanishes(Child(t, q[0]), q[1..])
  }

  /** The two orders of two `del`s differ.  Above the parting point only one thing can go wrong:
      `del p` prunes a container on the common part, and with it the place where `q` parts from
      `p` with a segment that is not valid. */
  predicate DelsClash(t: Json, p: Path, q: Path)
    requires Apart(p, q)
    decreases |p|
  {
    ApartTails(p, q);
    !t.Null? &&
    if p[0] != q[0] then
      Strands(t, p, q) || Strands(t, q, p) || PopsBoth(t, p, q)
    else
      ValidPart(p[0]) && Fits(t, p[0]) &&
      (DelsClash(Child(t, p[0]), p[1..], q[1..]) ||
       (Vanishes(t, p) && !ValidPart(q[1])) || (Vanishes(t, q) && !ValidPart(p[1])))
  }

  lemma DelAfterDel(t: Json, p: Path, q: Path)
    requires p != [] && q != [] && p[0] != q[0] && !t.Null?
    requires ValidPart(p[0]) && ValidPart(q[0])
    ensures Then(Update(t, p, Del), q, Del) ==
      if Update(t, p, Del).Err? then Update(t, p, Del)
      else if Update(t, p, Del) == Ok(Null) then Ok(Null)
      else if !Fits(t, q[0]) then Err(Misfit(q[0]))
      else if Inner(t, q).Err? then Inner(t, q)
      else Ok(Refill(Update(t, p, Del).value, q[0], Inner(t, q).value))
  {
    VanishesIff(t, p);
    if Update(t, p, Del).Ok? && !Vanishes(t, p) {
      DelOfPart(t, p);
      RefillRead(t, p[0], Inner(t, p).value);
      RefillFits(t, p[0], Inner(t, p).value, q[0]);
    }
  }

  lemma OnlyElsewhere(t: Json, a: PathPart, b: PathPart)
    requires Only(t, a) && a != b && ValidPart(a) && ValidPart(b) && Fits(t, b)
    ensures Child(t, b).Null?
    ensures !Remove(t, b).Null? ==> Only(Remove(t, b), a)
  {}

  /** The case where the first of the two leaves nothing. */
  lemma DelsBesideVanished(t: Json, p: Path, q: Path)
    requires p != [] && q != [] && p[0] != q[0] && !t.Null?
    requires ValidPart(p[0]) && ValidPart(q[0]) && Vanishes(t, p)
    ensures Then(Update(t, p, Del), q, Del) == Ok(Null)
    ensures Then(Update(t, q, Del), p, Del) == Ok(Null) <==> !Strands(t, p, q)
    ensures Strands(t, p, q) ==> Then(Update(t, q, Del), p, Del).Err?
    ensures !Strands(t, q, p)
    ensures PopsBoth(t, p, q) ==> Strands(t, p, q)
  {
    VanishesIff(t, p);
    DelAfterDel(t, p, q);
    if Fits(t, q[0]) {
      OnlyElsewhere(t, p[0], q[0]);
      DelOfNull(q[1..]);
      DelAfterDel(t, q, p);
      VanishesIff(t, q);
      VanishesIff(Child(t, p[0]), p[1..]);
      if Inner(t, q).Ok? && !Vanishes(t, q) {
        RefillNullIff(Update(t, q, Del).value, p[0], Null);
      }
    }
  }

  lemma DelsBeside(t: Json, p: Path, q: Path)
    requires p != [] && q != [] && p[0] != q[0] && !t.Null?
    ensures SameOutcome(Then(Update(t, p, Del), q, Del), Then(Update(t, q, Del), p, Del)) <==>
            !(Strands(t, p, q) || Strands(t, q, p) || PopsBoth(t, p, q))
  {
    if ValidPart(p[0]) && ValidPart(q[0]) {
      if Vanishes(t, p) {
        DelsBesideVanished(t, p, q);
      } else if Vanishes(t, q) {
        DelsBesideVanished(t, q, p);
      } else {
        DelsBesideKept(t, p, q);
      }
    }
  }

  lemma DelsBesideKept(t: Json, p: Path, q: Path)
    requires p != [] && q != [] && p[0] != q[0] && !t.Null?
    requires ValidPart(p[0]) && ValidPart(q[0]) && !Vanishes(t, p) && !Vanishes(t, q)
    ensures SameOutcome(Then(Update(t, p, Del), q, Del), Then(Update(t, q, Del), p, Del)) <==> !PopsBoth(t, p, q)
  {
    DelAfterDel(t, p, q);
    DelAfterDel(t, q, p);
    VanishesIff(t, p);
    VanishesIff(t, q);
    VanishesIff(Child(t, p[0]), p[1..]);
    VanishesIff(Child(t, q[0]), q[1..]);
    if Update(t, p, Del).Ok? && Update(t, q, Del).Ok? {
      DelOfPart(t, p);
      DelOfPart(t, q);
      RefillsCommuteIff(t, p[0], Inner(t, p).value, q[0], Inner(t, q).value);
    }
  }

  /** Two `del`s below the same segment are two `del`s in the child, but for pruning. */
  lemma DelsBelow(t: Json, p: Path, q: Path)
    requires p != [] && q != [] && p[0] == q[0] && !t.Null?
    requires ValidPart(p[0]) && Fits(t, p[0])
    ensures var inner := Then(Inner(t, p), q[1..], Del);
      Then(Update(t, p, Del), q, Del) ==
      if inner.Ok? then Ok(Refill(t, p[0], inner.value))
      else if Vanishes(t, p) then Ok(Null)
      else inner
  {
    VanishesIff(t, p);
    if Inner(t, p).Ok? {
      var v := Inner(t, p).value;
      DelOfPart(t, p);
      RefillNullIff(t, p[0], v);
      RefillRead(t, p[0], v);
      DelOfNull(q[1..]);
      var inner := Update(v, q[1..], Del);
      if !Refill(t, p[0], v).Null? {
        RefillFits(t, p[0], v, p[0]);
        DelOfPart(Refill(t, p[0], v), q);
        if inner.Ok? { RefillTwice(t, p[0], v, inner.value); }
      }
    }
  }

  /** Two `del`s on paths apart from each other commute, trees and failures alike, exactly when
      they do not clash. */
  lemma {:induction false} DelsCommuteIff(t: Json, p: Path, q: Path)
    requires Apart(p, q)
    ensures SameOutcome(Then(Update(t, p, Del), q, Del), Then(Update(t, q, Del), p, Del)) <==>
            !DelsClash(t, p, q)
    decreases |p|
  {
    ApartTails(p, q);
    if t.Null? {
      DelOfNull(p);
      DelOfNull(q);
    } else if p[0] != q[0] {
      DelsBeside(t, p, q);
    } else if ValidPart(p[0]) && Fits(t, p[0]) {
      ApartTails(p[1..], q[1..]);
      DelsCommuteIff(Child(t, p[0]), p[1..], q[1..]);
      DelsBelow(t, p, q);
      DelsBelow(t, q, p);
      DelsPruned(t, p, q);
      DelsPruned(t, q, p);
      var x, y := Then(Inner(t, p), q[1..], Del), Then(Inner(t, q), p[1..], Del);
      if x.Ok? { RefillRead(t, p[0], x.value); }
      if y.Ok? { RefillRead(t, p[0], y.value); }
    }
  }

  /** When the first order's `del`s fail in the child and yet succeed above. */
  lemma DelsPruned(t: Json, p: Path, q: Path)
    requires p != [] && q != [] && p[0] == q[0] && !t.Null? && |q| > 1
    requires ValidPart(p[0]) && Fits(t, p[0])
    ensures Then(Inner(t, p), q[1..], Del).Err? && Vanishes(t, p) <==> Vanishes(t, p) && !ValidPart(q[1])
    ensures !ValidPart(q[1]) ==> Inner(t, q).Err? && !Vanishes(t, q)
  {
    VanishesIff(t, p);
    VanishesIff(t, q);
    DelOfPart(t, p);
    DelOfPart(t, q);
    DelOfNull(q[1..]);
    if Inner(t, p).Ok? { RefillNullIff(t, p[0], Inner(t, p).value); }
  }

  predicate AllValid(p: Path) {
    forall part <- p :: ValidPart(part)
  }

  predicate PartAtKeys(p: Path, q: Path) {
    p != [] && q != [] &&
    if p[0] == q[0] then PartAtKeys(p[1..], q[1..]) else p[0].Key? && q[0].Key?
  }

  /** `del`s on paths of keys and natural numbers that part at two keys always commute. */
  lemma {:induction false} DelsAtKeysCommute(t: Json, p: Path, q: Path)
    requires Apart(p, q) && AllValid(p) && AllValid(q) && PartAtKeys(p, q)
    ensures !DelsClash(t, p, q)
    ensures SameOutcome(Then(Update(t, p, Del), q, Del), Then(Update(t, q, Del), p, Del))
    decreases |p|
  {
    ApartTails(p, q);
    assert ValidPart(p[0]) && ValidPart(q[0]);
    if p[0] == q[0] {
      ApartTails(p[1..], q[1..]);
      assert ValidPart(p[1]) && ValidPart(q[1]);
      DelsAtKeysCommute(Child(t, p[0]), p[1..], q[1..]);
    }
    DelsCommuteIff(t, p, q);
  }

  /** A container that keeps a value while another is removed: `del [k]` then `del [0]` succeeds on
      an object with the one field `k`, and fails the other way round. */
  lemma DelsClashWithoutArrays(k: string, v: Json)
    ensures var t := Obj(map[k := v]); var p, q := [Key(k)], [Idx(0)];
      Apart(p, q) && Then(Update(t, p, Del), q, Del) == Ok(Null) && Then(Update(t, q, Del), p, Del).Err?
  {
    var t := Obj(map[k := v]);
    var p, q := [Key(k)], [Idx(0)];
    assert q[..1][0] != p[0] && p[..1][0] != q[0];
    assert t.fields - {k} == map[];
    assert Vanishes(t, p);
    VanishesIff(t, p);
  }

  // ---------------------------------------------------------------- a store and a del

  lemma {:induction false} StoreOnNull(p: Path, f: Op<Json>)
    requires !f.Del?
    ensures Update(Null, p, f).Ok? <==> AllValid(p)
    decreases |p|
  {
    if p != [] {
      StoreOnNull(p[1..], f);
      assert p == [p[0]] + p[1..];
      assert AllValid(p) <==> ValidPart(p[0]) && AllValid(p[1..]) by {
        assert forall part <- p :: part == p[0] || part in p[1..];
      }
    }
  }

  predicate SameKind(a: PathPart, b: PathPart) {
    a.Key? <==> b.Key?
  }

  /** The two orders of a store on `p` and a `del` on `q` differ.  Where the tree reads nothing, the
      `del` alone succeeds and looks no further, while the store first builds containers that the
      `del` then walks into.  Where the tree has a container of the wrong kind for the store, the
      `del` may remove it first. */
  predicate StoreDelClash(t: Json, p: Path, q: Path)
    requires Apart(p, q)
    decreases |p|
  {
    ApartTails(p, q);
    if p[0] != q[0] then
      AllValid(p) && ValidPart(q[0]) &&
      if t.Null? then !SameKind(p[0], q[0]) || (|q| > 1 && !ValidPart(q[1]))
      else !Fits(t, p[0]) && Vanishes(t, q)
    else
      ValidPart(p[0]) && Fits(t, p[0]) &&
      (StoreDelClash(Child(t, p[0]), p[1..], q[1..]) ||
       (t.Null? && AllValid(p) && !ValidPart(q[1])))
  }

  /** A store fills a slot the `del` does not reach, so the `del` cannot leave nothing. */
  lemma {:induction false} StoreBlocksVanish(t: Json, p: Path, f: Op<Json>, q: Path)
    requires Apart(p, q) && !f.Del? && Update(t, p, f).Ok?
    ensures !Update(t, p, f).value.Null? && !Vanishes(Update(t, p, f).value, q)
    decreases |p|
  {
    ApartTails(p, q);
    var c := Open(t, p[0]);
    var v := Update(Child(c, p[0]), p[1..], f).value;
    PutRead(c, p[0], v);
    if p[0] == q[0] { StoreBlocksVanish(Child(c, p[0]), p[1..], f, q[1..]); }
  }

  /** Storing in one slot and refilling another commute, even when the refill empties the
      container and the store makes a new one. */
  lemma PutRefill(c: Json, a: PathPart, s: Json, b: PathPart, w: Json)
    requires a != b && ValidPart(a) && ValidPart(b) && Fits(c, a) && Fits(c, b) && !c.Null?
    requires !w.Null? ==> !Child(c, b).Null?
    ensures Refill(Put(c, a, s), b, w) == Put(Open(Refill(c, b, w), a), a, s)
  {
    if !w.Null? {
      PutsCommute(c, a, s, b, w);
    } else if c.Obj? {
      assert c.fields[a.name := s] - {b.name} == (c.fields - {b.name})[a.name := s];
      assert a.name in c.fields[a.name := s] - {b.name};
    } else if !Remove(c, b).Null? {
      RemovePutItems(c.items, b.i, a.i, s);
    } else {
      var ys := Put(c, a, s).items;
      assert ys == c.items + Nulls(a.i - 1) + [s] && |ys| == a.i + 1;
      assert ys[0 := Null] == [] + Nulls(a.i) + [s];
    }
  }

  lemma StoreThenDelBeside(t: Json, p: Path, f: Op<Json>, q: Path)
    requires p != [] && q != [] && p[0] != q[0] && ValidPart(p[0]) && ValidPart(q[0]) && !f.Del?
    ensures var c := Open(t, p[0]);
      var r, s := Update(Child(t, p[0]), p[1..], f), Inner(t, q);
      if Fits(t, p[0]) && Fits(c, q[0]) && r.Ok? && s.Ok? then
        Then(Update(t, p, f), q, Del) == Ok(Refill(Put(c, p[0], r.value), q[0], s.value))
      else Then(Update(t, p, f), q, Del).Err?
  {
    var c := Open(t, p[0]);
    var r := Update(Child(t, p[0]), p[1..], f);
    if Fits(t, p[0]) && r.Ok? {
      PutRead(c, p[0], r.value);
      assert Child(c, q[0]) == Child(t, q[0]);
    }
  }

  lemma DelThenStoreBeside(t: Json, p: Path, f: Op<Json>, q: Path)
    requires p != [] && q != [] && p[0] != q[0] && ValidPart(p[0]) && ValidPart(q[0]) && !f.Del? && !t.Null?
    ensures
      var r, s := Update(Child(t, p[0]), p[1..], f), Inner(t, q);
      if Vanishes(t, q) then Then(Update(t, q, Del), p, f) == Update(Null, p, f)
      else if Fits(t, p[0]) && Fits(t, q[0]) && r.Ok? && s.Ok? then
        !Refill(t, q[0], s.value).Null? &&
        Then(Update(t, q, Del), p, f) == Ok(Put(Refill(t, q[0], s.value), p[0], r.value))
      else Then(Update(t, q, Del), p, f).Err?
  {
    VanishesIff(t, q);
    if Fits(t, q[0]) && Inner(t, q).Ok? && !Vanishes(t, q) {
      DelOfPart(t, q);
      RefillRead(t, q[0], Inner(t, q).value);
      RefillFits(t, q[0], Inner(t, q).value, p[0]);
    }
  }

  lemma StoreDelBeside(t: Json, p: Path, f: Op<Json>, q: Path)
    requires Apart(p, q) && p != [] && q != [] && p[0] != q[0] && !f.Del?
    ensures SameOutcome(Then(Update(t, p, f), q, Del), Then(Update(t, q, Del), p, f)) <==> !StoreDelClash(t, p, q)
  {
    StoreOnNull(p, f);
    DelOfNull(q);
    if ValidPart(p[0]) && ValidPart(q[0]) {
      StoreThenDelBeside(t, p, f, q);
      var c := Open(t, p[0]);
      var r, s := Update(Child(t, p[0]), p[1..], f), Inner(t, q);
      if t.Null? {
        DelOfNull(q[1..]);
        if SameKind(p[0], q[0]) && r.Ok? && s.Ok? { PutRefill(c, p[0], r.value, q[0], Null); }
      } else {
        DelThenStoreBeside(t, p, f, q);
        if Fits(t, q[0]) && s.Ok? { DelOfPart(t, q); RefillNullIff(t, q[0], s.value); VanishesIff(t, q); }
        if Fits(t, p[0]) && Vanishes(t, q) { OnlyElsewhere(t, q[0], p[0]); }
        if Fits(t, p[0]) && Fits(t, q[0]) && r.Ok? && s.Ok? { PutRefill(t, p[0], r.value, q[0], s.value); }
      }
    } else {
      assert !ValidPart(p[0]) ==> !AllValid(p);
    }
  }

  lemma StoreThenDelBelow(t: Json, p: Path, f: Op<Json>, q: Path)
    requires p != [] && q != [] && p[0] == q[0] && ValidPart(p[0]) && Fits(t, p[0]) && !f.Del?
    requires Apart(p[1..], q[1..])
    ensures var inner := Then(Update(Child(t, p[0]), p[1..], f), q[1..], Del);
      Then(Update(t, p, f), q, Del) ==
      if inner.Ok? then Ok(Put(Open(t, p[0]), p[0], inner.value)) else inner
  {
    var c, r := Open(t, p[0]), Update(Child(t, p[0]), p[1..], f);
    assert Child(c, p[0]) == Child(t, p[0]);
    if r.Ok? {
      PutRead(c, p[0], r.value);
      StoreBlocksVanish(Child(t, p[0]), p[1..], f, q[1..]);
      VanishesIff(r.value, q[1..]);
      var s := Update(r.value, q[1..], Del);
      if s.Ok? { PutTwice(c, p[0], r.value, s.value); }
    }
  }

  lemma DelThenStoreBelow(t: Json, p: Path, f: Op<Json>, q: Path)
    requires p != [] && q != [] && p[0] == q[0] && ValidPart(p[0]) && Fits(t, p[0]) && !f.Del? && !t.Null?
    ensures var inner := Then(Inner(t, q), p[1..], f);
      Then(Update(t, q, Del), p, f) ==
      if inner.Ok? then Ok(Put(t, p[0], inner.value)) else inner
  {
    DelOfPart(t, q);
    if Inner(t, q).Ok? {
      var v := Inner(t, q).value;
      var u := Refill(t, p[0], v);
      RefillRead(t, p[0], v);
      var s := Update(v, p[1..], f);
      if s.Ok? {
        if v.Null? { RemoveThenPut(t, p[0], s.value); } else { PutTwice(t, p[0], v, s.value); }
      }
    }
  }

  /** A store and a `del` on paths apart from each other commute, padding and pruning included,
      exactly when they do not clash. */
  lemma {:induction false} StoreDelCommuteIff(t: Json, p: Path, f: Op<Json>, q: Path)
    requires Apart(p, q) && !f.Del?
    ensures SameOutcome(Then(Update(t, p, f), q, Del), Then(Update(t, q, Del), p, f)) <==> !StoreDelClash(t, p, q)
    decreases |p|
  {
    ApartTails(p, q);
    if p[0] != q[0] {
      StoreDelBeside(t, p, f, q);
    } else if ValidPart(p[0]) && Fits(t, p[0]) {
      StoreDelCommuteIff(Child(t, p[0]), p[1..], f, q[1..]);
      StoreThenDelBelow(t, p, f, q);
      ApartTails(p[1..], q[1..]);
      var c := Open(t, p[0]);
      var x, y := Then(Update(Child(t, p[0]), p[1..], f), q[1..], Del), Then(Inner(t, q), p[1..], f);
      if x.Ok? { PutRead(c, p[0], x.value); }
      if y.Ok? { PutRead(c, p[0], y.value); }
      if t.Null? {
        StoreOnNull(p, f);
        DelOfNull(q);
        DelOfNull(q[1..]);
      } else {
        DelThenStoreBelow(t, p, f, q);
      }
    }
  }

  /** A store and a `del` that clash: on nothing at all, `del [0]` after `set [k]` meets the object
      that the `set` has made, and before it finds nothing to do. */
  lemma StoreDelClashOnNothing(k: string, v: Json)
    ensures var p, q := [Key(k)], [Idx(0)];
      Apart(p, q) && Then(Update(Null, p, Set(v)), q, Del).Err? &&
      Then(Update(Null, q, Del), p, Set(v)) == Ok(Obj(map[k := v]))
  {
    var p, q := [Key(k)], [Idx(0)];
    assert q[..1][0] != p[0] && p[..1][0] != q[0];
    assert p[1..] == [];
    assert Update(Null, p, Set(v)) == Ok(Obj(map[][k := v]));
  }
}
