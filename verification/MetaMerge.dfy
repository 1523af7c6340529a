/** `mergeMeta` of frontend/util/util.ts, without its optional prefix argument.
    JSON's `null` and `undefined` are both `Null`. */
module MetaMerge {
  import opened Basics
  import opened IJson

  type Meta = map<string, Json>

  function Get(m: Meta, k: string): Option<Json> {
    if k in m then Some(m[k]) else None
  }

  predicate Truthy(v: Json) {
    match v
    case Null => false
    case Bool(b) => b
    case Num(n) => n != 0.0
    case Str(s) => s != ""
    case Arr(_) => true
    case Obj(_) => true
  }

  /** `section:*`, the key that clears a section. */
  predicate IsSection(k: string) {
    |k| >= 2 && k[|k| - 2..] == ":*"
  }

  predicate InSection(k: string, name: string) {
    k == name || name + ":" <= k
  }

  predicate Clears(u: Meta, sec: string, k: string) {
    sec in u && IsSection(sec) && Truthy(u[sec]) && sec != ":*" && InSection(k, sec[..|sec| - 2])
  }

  predicate ClearedBy(u: Meta, secs: set<string>, k: string) {
    exists sec <- secs :: Clears(u, sec, k)
  }

  predicate Cleared(u: Meta, k: string) {
    ClearedBy(u, u.Keys, k)
  }

  /** What the update asks for at one key: its own entry, else the section clear, else the old value. */
  function MergedAt(m: Meta, u: Meta, k: string): Option<Json> {
    if k in u && !IsSection(k) then
      if u[k] == Null then None else Some(u[k])
    else if Cleared(u, k) then None
    else Get(m, k)
  }

  /** The whole merged object. */
  function Merge(m: Meta, u: Meta): Meta {
    map k <- m.Keys + u.Keys | MergedAt(m, u, k).Some? :: MergedAt(m, u, k).value
  }

  lemma GetMerge(m: Meta, u: Meta, k: string)
    ensures Get(Merge(m, u), k) == MergedAt(m, u, k)
  {}

  lemma SameMeta(a: Meta, b: Meta)
    requires forall k :: Get(a, k) == Get(b, k)
    ensures a == b
  {
    forall k ensures k in a <==> k in b {
      assert Get(a, k) == Get(b, k);
    }
    forall k | k in a ensures a[k] == b[k] {
      assert Get(a, k) == Get(b, k);
    }
  }

  /** The update built with loops: the keys of each object may come in any order. */
  method MergeMeta(meta: Meta, metaUpdate: Meta) returns (rtn: Meta)
    ensures rtn == Merge(meta, metaUpdate)
  {
    rtn := map[];
    var todo := meta.Keys;
    while todo != {}
      invariant todo <= meta.Keys
      invariant forall k :: Get(rtn, k) == if k in todo then None else Get(meta, k)
    {
      var k :| k in todo;
      rtn := rtn[k := meta[k]];
      todo := todo - {k};
    }
    rtn := ClearSections(rtn, metaUpdate);
    ghost var base := rtn;
    todo := metaUpdate.Keys;
    while todo != {}
      invariant todo <= metaUpdate.Keys
      invariant forall k | k !in metaUpdate || k in todo :: Get(rtn, k) == Get(base, k)
      invariant forall k | k in metaUpdate && k !in todo :: Get(rtn, k) == MergedAt(meta, metaUpdate, k)
    {
      var k :| k in todo;
      if !IsSection(k) {
        if metaUpdate[k] == Null {
          rtn := rtn - {k};
        } else {
          rtn := rtn[k := metaUpdate[k]];
        }
      }
      todo := todo - {k};
    }
    forall k ensures Get(rtn, k) == Get(Merge(meta, metaUpdate), k) {
      GetMerge(meta, metaUpdate, k);
    }
    SameMeta(rtn, Merge(meta, metaUpdate));
  }

  method ClearSections(m: Meta, metaUpdate: Meta) returns (rtn: Meta)
    ensures forall k :: Get(rtn, k) == if Cleared(metaUpdate, k) then None else Get(m, k)
  {
    rtn := m;
    var todo := metaUpdate.Keys;
    while todo != {}
      invariant todo <= metaUpdate.Keys
      invariant forall k :: Get(rtn, k) == if ClearedBy(metaUpdate, metaUpdate.Keys - todo, k) then None else Get(m, k)
    {
      var sec :| sec in todo;
      assert metaUpdate.Keys - (todo - {sec}) == metaUpdate.Keys - todo + {sec};
      forall k
        ensures ClearedBy(metaUpdate, metaUpdate.Keys - todo + {sec}, k) <==>
                ClearedBy(metaUpdate, metaUpdate.Keys - todo, k) || Clears(metaUpdate, sec, k)
      {}
      if IsSection(sec) && Truthy(metaUpdate[sec]) && sec != ":*" {
        var kept := ClearSection(rtn, sec[..|sec| - 2]);
        rtn := kept;
      }
      todo := todo - {sec};
    }
  }

  method ClearSection(m: Meta, name: string) returns (rtn: Meta)
    ensures forall k :: Get(rtn, k) == if InSection(k, name) then None else Get(m, k)
  {
    rtn := m;
    var todo := m.Keys;
    while todo != {}
      invariant todo <= m.Keys
      invariant forall k :: Get(rtn, k) == if k !in todo && InSection(k, name) then None else Get(m, k)
    {
      var k :| k in todo;
      if InSection(k, name) {
        rtn := rtn - {k};
      }
      todo := todo - {k};
    }
  }

  // ---------------------------------------------------------------- laws

  /** Neither null nor false nor zero nor the empty string. */
  predicate AsksForClear(v: Json) {
    v != Null && v != Bool(false) && v != Num(0.0) && v != Str("")
  }

  /** One key of an update at a time: an entry of its own is stored, or with a null value removed, and no
      other key changes. */
  lemma OwnEntry(m: Meta, k: string, v: Json)
    requires |k| < 2 || k[|k| - 2] != ':' || k[|k| - 1] != '*'
    ensures Merge(m, map[k := v]) == if v == Null then m - {k} else m[k := v]
  {
    var u := map[k := v];
    forall l ensures Get(Merge(m, u), l) == if l != k then Get(m, l) else if v == Null then None else Some(v) {
      GetMerge(m, u, l);
      assert !Cleared(u, l);
    }
    forall l ensures Get(if v == Null then m - {k} else m[k := v], l) == Get(Merge(m, u), l) {}
    SameMeta(if v == Null then m - {k} else m[k := v], Merge(m, u));
  }

  /** A section key with a value that asks for it clears the section's own key and every key that goes on
      with a colon behind the section's name, and nothing else; any other value, and an empty name, do
      nothing. */
  lemma SectionEntry(m: Meta, name: string, v: Json, k: string)
    ensures Get(Merge(m, map[name + ":*" := v]), k) ==
      if name != "" && AsksForClear(v) && (k == name || exists rest :: k == name + ":" + rest) then None
      else Get(m, k)
  {
    var sec, u := name + ":*", map[name + ":*" := v];
    GetMerge(m, u, k);
    assert sec[|sec| - 2..] == ":*" && sec[..|sec| - 2] == name;
    assert Truthy(v) <==> AsksForClear(v);
    assert sec == ":*" <==> name == "" by { assert name == "" ==> sec == ":*"; }
    if name + ":" <= k {
      assert k == name + ":" + k[|name| + 1..];
    }
    assert Clears(u, sec, k) <==> Cleared(u, k);
  }

  lemma {:induction false} MergeIsIdempotent(m: Meta, u: Meta)
    ensures Merge(Merge(m, u), u) == Merge(m, u)
  {
    forall k ensures Get(Merge(Merge(m, u), u), k) == Get(Merge(m, u), k) {
      GetMerge(Merge(m, u), u, k);
      GetMerge(m, u, k);
    }
    SameMeta(Merge(Merge(m, u), u), Merge(m, u));
  }

  /** One update that does the work of `u` and then `v`: a section cleared by either stays cleared,
      and an entry of `u` survives where `v` neither has its own entry nor clears it. */
  function Both(u: Meta, v: Meta): Meta {
    map k <- u.Keys + v.Keys | BothAt(u, v, k).Some? :: BothAt(u, v, k).value
  }

  function BothAt(u: Meta, v: Meta, k: string): Option<Json> {
    if IsSection(k) then
      if k in v && Truthy(v[k]) then Some(v[k]) else Get(u, k)
    else if k in v then Some(v[k])
    else if Cleared(v, k) then None
    else Get(u, k)
  }

  lemma GetBoth(u: Meta, v: Meta, k: string)
    ensures Get(Both(u, v), k) == BothAt(u, v, k)
  {}

  lemma BothClears(u: Meta, v: Meta, k: string)
    ensures Cleared(Both(u, v), k) <==> Cleared(u, k) || Cleared(v, k)
  {
    forall sec ensures Clears(Both(u, v), sec, k) <==> Clears(u, sec, k) || Clears(v, sec, k) {
      GetBoth(u, v, sec);
    }
    if Cleared(u, k) {
      var sec :| sec in u.Keys && Clears(u, sec, k);
      assert Clears(Both(u, v), sec, k);
    }
    if Cleared(v, k) {
      var sec :| sec in v.Keys && Clears(v, sec, k);
      assert Clears(Both(u, v), sec, k);
    }
  }

  /** Two merges in a row are one merge. */
  lemma MergesCollapse(m: Meta, u: Meta, v: Meta)
    ensures Merge(Merge(m, u), v) == Merge(m, Both(u, v))
  {
    forall k ensures Get(Merge(Merge(m, u), v), k) == Get(Merge(m, Both(u, v)), k) {
      GetMerge(Merge(m, u), v, k);
      GetMerge(m, u, k);
      GetMerge(m, Both(u, v), k);
      GetBoth(u, v, k);
      BothClears(u, v, k);
    }
    SameMeta(Merge(Merge(m, u), v), Merge(m, Both(u, v)));
  }
}
