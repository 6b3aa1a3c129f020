/**
 * The flattener (`entityToPathValueList`, shown in the source as
 * `getEntityAsPathObject`) and reconstruction (`pathValueListToEntity`).
 * Flattening looks every path up in the entity and keeps the pairs whose value
 * is a string, a number or a boolean. Reconstruction assigns the pairs, in
 * order, into an empty object and then sets `id` to the caller's id.
 */
module PathValueUtils {
  import opened Wrappers
  import opened Seqs
  import opened DotProp
  import opened PrismBeamModel
  import opened Guards
  import opened PathUtils

  // ---------------------------------------------------------------------------
  // Flattening
  // ---------------------------------------------------------------------------

  /** getAsPrismBeamPathValueOrNot(entity)(path): the pair of `path` and the
      value found there when that value is a simple primitive, else undefined. */
  function GetAsPathValueOrNot(entity: Json, path: Path): (r: Option<PathValue>)
    ensures r.Some? <==> IsSimplePrimitive(Get(entity, path))
    ensures r.Some? ==> r.value.path == path && Get(entity, path) == Some(AsJson(r.value.value))
  {
    var value := Get(entity, path);
    if IsSimplePrimitive(value) then Some(PathValue(path, AsPrimitive(value))) else None
  }

  /** paths.map(getAsPrismBeamPathValueOrNot(entity)) */
  function LookupAll(entity: Json, paths: seq<Path>): (r: seq<Option<PathValue>>)
    ensures |r| == |paths|
    ensures forall i :: 0 <= i < |paths| ==> r[i] == GetAsPathValueOrNot(entity, paths[i])
  {
    seq(|paths|, i requires 0 <= i < |paths| => GetAsPathValueOrNot(entity, paths[i]))
  }

  /** .filter(isPrismBeamBaseEntity): the defined candidates, in order. */
  function KeepDefined(candidates: seq<Option<PathValue>>): (r: seq<PathValue>)
    ensures |r| <= |candidates|
    ensures forall pv :: pv in r <==> Some(pv) in candidates
  {
    if candidates == [] then []
    else
      assert candidates == [candidates[0]] + candidates[1..];
      (if IsPrismBeamBaseEntity(candidates[0]) then [candidates[0].value] else [])
      + KeepDefined(candidates[1..])
  }

  /** The filter drops exactly the undefined candidates: it keeps the whole
      list exactly when every candidate is defined. */
  lemma {:induction false} KeepDefinedDropsOnlyUndefined(candidates: seq<Option<PathValue>>)
    ensures |KeepDefined(candidates)| == |candidates| <==> forall i :: 0 <= i < |candidates| ==> candidates[i].Some?
  {
    if candidates != [] {
      KeepDefinedDropsOnlyUndefined(candidates[1..]);
      assert forall i :: 1 <= i < |candidates| ==> candidates[i] == candidates[1..][i - 1];
    }
  }

  /** entityToPathValueList(entity, paths) */
  function EntityToPathValueList(entity: Json, paths: seq<Path>): seq<PathValue>
  {
    KeepDefined(LookupAll(entity, paths))
  }

  /** The flattening of a non-empty list: the first path's pair, if any, then
      the flattening of the rest. */
  lemma {:induction false} FlattenCons(entity: Json, paths: seq<Path>)
    requires paths != []
    ensures EntityToPathValueList(entity, paths)
         == (if IsSimplePrimitive(Get(entity, paths[0])) then [GetAsPathValueOrNot(entity, paths[0]).value] else [])
            + EntityToPathValueList(entity, paths[1..])
    ensures IsSimplePrimitive(Get(entity, paths[0])) ==>
              EntityToPathValueList(entity, paths)
              == [GetAsPathValueOrNot(entity, paths[0]).value] + EntityToPathValueList(entity, paths[1..])
    ensures !IsSimplePrimitive(Get(entity, paths[0])) ==>
              EntityToPathValueList(entity, paths) == EntityToPathValueList(entity, paths[1..])
  {
    assert LookupAll(entity, paths)[1..] == LookupAll(entity, paths[1..]);
    assert [] + EntityToPathValueList(entity, paths[1..]) == EntityToPathValueList(entity, paths[1..]);
  }

  /** Each emitted pair carries an input path and the value found there, a
      string, number or boolean; a path is emitted exactly when it is an input
      path whose value is one (objects, arrays, null and undefined are dropped
      without error); the emitted paths keep input order, so there are at most
      as many pairs as paths. */
  lemma FlattenSound(entity: Json, paths: seq<Path>)
    ensures forall pv :: pv in EntityToPathValueList(entity, paths) ==>
              pv.path in paths && Get(entity, pv.path) == Some(AsJson(pv.value))
    ensures forall p :: p in PathsOf(EntityToPathValueList(entity, paths)) <==>
              p in paths && IsSimplePrimitive(Get(entity, p))
    ensures Subsequence(PathsOf(EntityToPathValueList(entity, paths)), paths)
    ensures |EntityToPathValueList(entity, paths)| <= |paths|
  {
    FlattenValues(entity, paths);
    FlattenPaths(entity, paths);
    FlattenOrder(entity, paths);
  }

  /** Duplicate-free input paths give at most one pair per path. */
  lemma {:induction false} FlattenNoDup(entity: Json, paths: seq<Path>)
    requires NoDup(paths)
    ensures NoDup(PathsOf(EntityToPathValueList(entity, paths)))
  {
    if paths != [] {
      var r, rest := EntityToPathValueList(entity, paths), EntityToPathValueList(entity, paths[1..]);
      assert NoDup(paths[1..]) by {
        assert forall i :: 0 <= i < |paths| - 1 ==> paths[1..][i] == paths[i + 1];
      }
      FlattenNoDup(entity, paths[1..]);
      FlattenCons(entity, paths);
      if IsSimplePrimitive(Get(entity, paths[0])) {
        var head := GetAsPathValueOrNot(entity, paths[0]).value;
        assert r == [head] + rest;
        assert PathsOf(r) == [paths[0]] + PathsOf(rest);
        FlattenPaths(entity, paths[1..]);
        assert paths[0] !in PathsOf(rest);
        NoDupAppend([paths[0]], PathsOf(rest));
      } else {
        assert r == rest;
      }
    }
  }

  lemma FlattenValues(entity: Json, paths: seq<Path>)
    ensures forall pv :: pv in EntityToPathValueList(entity, paths) ==>
              pv.path in paths && Get(entity, pv.path) == Some(AsJson(pv.value))
  {
    var c := LookupAll(entity, paths);
    forall pv | pv in EntityToPathValueList(entity, paths)
      ensures pv.path in paths && Get(entity, pv.path) == Some(AsJson(pv.value))
    {
      assert Some(pv) in c;
      var i :| 0 <= i < |c| && c[i] == Some(pv);
      assert GetAsPathValueOrNot(entity, paths[i]) == Some(pv);
    }
  }

  lemma FlattenPaths(entity: Json, paths: seq<Path>)
    ensures forall p :: p in PathsOf(EntityToPathValueList(entity, paths)) <==>
              p in paths && IsSimplePrimitive(Get(entity, p))
  {
    var c, r := LookupAll(entity, paths), EntityToPathValueList(entity, paths);
    forall p ensures p in PathsOf(r) <==> p in paths && IsSimplePrimitive(Get(entity, p)) {
      if p in PathsOf(r) {
        var k :| 0 <= k < |r| && PathsOf(r)[k] == p;
        assert r[k] in r;
        var i :| 0 <= i < |c| && c[i] == Some(r[k]);
        assert GetAsPathValueOrNot(entity, paths[i]) == Some(r[k]);
      }
      if p in paths && IsSimplePrimitive(Get(entity, p)) {
        var i :| 0 <= i < |paths| && paths[i] == p;
        var pv := GetAsPathValueOrNot(entity, p).value;
        assert c[i] == Some(pv);
        assert pv in r;
        var k :| 0 <= k < |r| && r[k] == pv;
        assert PathsOf(r)[k] == p;
      }
    }
  }

  lemma {:induction false} FlattenOrder(entity: Json, paths: seq<Path>)
    ensures Subsequence(PathsOf(EntityToPathValueList(entity, paths)), paths)
    ensures |EntityToPathValueList(entity, paths)| <= |paths|
  {
    var r := EntityToPathValueList(entity, paths);
    if paths == [] {
      assert r == [];
    } else {
      FlattenOrder(entity, paths[1..]);
      FlattenCons(entity, paths);
      var rest := EntityToPathValueList(entity, paths[1..]);
      assert paths == [paths[0]] + paths[1..];
      if IsSimplePrimitive(Get(entity, paths[0])) {
        PathsOfCons(GetAsPathValueOrNot(entity, paths[0]).value, rest, paths[1..]);
      } else {
        SubsequenceSkip(paths[0], PathsOf(rest), paths[1..]);
      }
    }
  }

  /** A pair in front of a list whose paths are ordered as in `tail` keeps
      the order of its path in front of `tail`. */
  lemma PathsOfCons(head: PathValue, rest: seq<PathValue>, tail: seq<Path>)
    requires Subsequence(PathsOf(rest), tail) && |rest| <= |tail|
    ensures Subsequence(PathsOf([head] + rest), [head.path] + tail) && |[head] + rest| <= |[head.path] + tail|
  {
    assert PathsOf([head] + rest) == [head.path] + PathsOf(rest);
    SubsequenceKeep(head.path, PathsOf(rest), tail);
  }

  // ---------------------------------------------------------------------------
  // Reconstruction
  // ---------------------------------------------------------------------------

  /** Assign each pair's value at its path, left to right. */
  function SetAll(v: Json, pvs: seq<PathValue>): Json
    decreases |pvs|
  {
    if pvs == [] then v else SetAll(SetPath(v, pvs[0].path, AsJson(pvs[0].value)), pvs[1..])
  }

  /** pathValueListToEntity(id, pvs): the pairs assigned into an empty object,
      then `id` set to the caller's id, so the result's id never comes from a
      pair. */
  function PathValueListToEntity(id: string, pvs: seq<PathValue>): (r: Json)
    ensures r.Obj?
    ensures Get(r, [Key("id")]) == Some(Str(id))
  {
    SetPathHit(SetAll(Obj([]), pvs), [Key("id")], Str(id));
    SetPath(SetAll(Obj([]), pvs), [Key("id")], Str(id))
  }

  /** Every non-null scalar found after the assignments was there before or
      was assigned by one of the pairs at the path where it is found. */
  lemma {:induction false} SetAllProvenance(v: Json, pvs: seq<PathValue>, q: Path, y: Json)
    requires IsScalar(y) && y != Null
    requires Get(SetAll(v, pvs), q) == Some(y)
    ensures Get(v, q) == Some(y) || exists i :: 0 <= i < |pvs| && pvs[i].path == q && AsJson(pvs[i].value) == y
    decreases |pvs|
  {
    if pvs != [] {
      var x := AsJson(pvs[0].value);
      var v1 := SetPath(v, pvs[0].path, x);
      SetAllProvenance(v1, pvs[1..], q, y);
      if Get(v1, q) == Some(y) {
        SetPathProvenance(v, pvs[0].path, x, q, y);
        if q == pvs[0].path {
          SetPathHit(v, pvs[0].path, x);
        }
      } else {
        var i :| 0 <= i < |pvs[1..]| && pvs[1..][i].path == q && AsJson(pvs[1..][i].value) == y;
        assert pvs[i + 1] == pvs[1..][i];
      }
    }
  }

  /** A value stays at `q` through assignments that either write that same
      value at `q` or go to paths independent of `q`. */
  lemma {:induction false} SetAllPreserves(v: Json, pvs: seq<PathValue>, q: Path, y: Json)
    requires Get(v, q) == Some(y)
    requires forall j :: 0 <= j < |pvs| ==>
               (pvs[j].path == q && AsJson(pvs[j].value) == y) || Independent(pvs[j].path, q)
    ensures Get(SetAll(v, pvs), q) == Some(y)
    decreases |pvs|
  {
    if pvs != [] {
      var x := AsJson(pvs[0].value);
      if pvs[0].path == q && x == y {
        SetPathHit(v, q, y);
      } else {
        SetPathPreserves(v, pvs[0].path, x, q, y);
      }
      assert forall j :: 0 <= j < |pvs[1..]| ==> pvs[1..][j] == pvs[j + 1];
      SetAllPreserves(SetPath(v, pvs[0].path, x), pvs[1..], q, y);
    }
  }

  /** Last write wins: the value of pair `i` is found at its path after all
      the assignments, when every later pair either writes the same value at
      the same path or goes to an independent path. */
  lemma SetAllLastWrite(v: Json, pvs: seq<PathValue>, i: nat)
    requires i < |pvs|
    requires forall j :: i < j < |pvs| ==>
               (pvs[j].path == pvs[i].path && pvs[j].value == pvs[i].value) || Independent(pvs[j].path, pvs[i].path)
    ensures Get(SetAll(v, pvs), pvs[i].path) == Some(AsJson(pvs[i].value))
  {
    var q, x := pvs[i].path, AsJson(pvs[i].value);
    assert pvs == pvs[..i] + pvs[i..];
    SetAllAppend(v, pvs[..i], pvs[i..]);
    var w := SetAll(v, pvs[..i]);
    assert pvs[i..][0] == pvs[i] && pvs[i..][1..] == pvs[i + 1..];
    SetPathHit(w, q, x);
    var later := pvs[i + 1..];
    assert forall j :: 0 <= j < |later| ==> later[j] == pvs[i + 1 + j];
    SetAllPreserves(SetPath(w, q, x), pvs[i + 1..], q, x);
  }

  /** Every string, number or boolean in a reconstructed entity is either the
      caller's id under `id` or the value of some pair at that very path. */
  lemma PathValueListToEntityProvenance(id: string, pvs: seq<PathValue>, q: Path, y: Json)
    requires IsScalar(y) && y != Null
    requires Get(PathValueListToEntity(id, pvs), q) == Some(y)
    ensures (q == [Key("id")] && y == Str(id))
         || exists i :: 0 <= i < |pvs| && pvs[i].path == q && AsJson(pvs[i].value) == y
  {
    var built := SetAll(Obj([]), pvs);
    SetPathProvenance(built, [Key("id")], Str(id), q, y);
    if q != [Key("id")] {
      SetAllProvenance(Obj([]), pvs, q, y);
    }
  }

  // ---------------------------------------------------------------------------
  // Round trip
  // ---------------------------------------------------------------------------

  /** Values that survive flattening and reconstruction: no null anywhere, no
      empty object or array, and distinct keys in every object. */
  predicate Rebuildable(v: Json)
    decreases v
  {
    match v
    case Obj(fields) =>
      fields != [] && DistinctKeys(fields) && forall i :: 0 <= i < |fields| ==> Rebuildable(fields[i].value)
    case Arr(items) => items != [] && forall i :: 0 <= i < |items| ==> Rebuildable(items[i])
    case Null => false
    case _ => true
  }

  lemma {:induction false} RebuildableDistinct(v: Json)
    requires Rebuildable(v)
    ensures DistinctKeysDeep(v)
    decreases v
  {
    match v
    case Obj(fields) =>
      forall i | 0 <= i < |fields| ensures DistinctKeysDeep(fields[i].value) {
        RebuildableDistinct(fields[i].value);
      }
    case Arr(items) =>
      forall i | 0 <= i < |items| ensures DistinctKeysDeep(items[i]) {
        RebuildableDistinct(items[i]);
      }
    case _ =>
  }

  /** Every pair of `pvs` with `s` put in front of its path. */
  function PrefixAll(s: Seg, pvs: seq<PathValue>): (r: seq<PathValue>)
    ensures |r| == |pvs|
    ensures forall i :: 0 <= i < |pvs| ==> r[i] == PathValue([s] + pvs[i].path, pvs[i].value)
  {
    seq(|pvs|, i requires 0 <= i < |pvs| => PathValue([s] + pvs[i].path, pvs[i].value))
  }

  /** The pairs of the primitive leaves of `v`, built by structure: the
      reference against which the flattening of a whole entity is proved. */
  function Pairs(v: Json): seq<PathValue>
    decreases v, 1
  {
    match v
    case Obj(fields) => FieldPairs(fields)
    case Arr(items) => ItemPairs(items, 0)
    case _ => if IsSimplePrimitive(Some(v)) then [PathValue([], AsPrimitive(Some(v)))] else []
  }

  function FieldPairs(fields: seq<Member>): seq<PathValue>
    decreases fields, 0
  {
    if fields == [] then []
    else PrefixAll(Key(fields[0].key), Pairs(fields[0].value)) + FieldPairs(fields[1..])
  }

  function ItemPairs(items: seq<Json>, from: nat): seq<PathValue>
    decreases items, 0
  {
    if items == [] then []
    else PrefixAll(Idx(from), Pairs(items[0])) + ItemPairs(items[1..], from + 1)
  }

  lemma {:induction false} FlattenAppend(entity: Json, a: seq<Path>, b: seq<Path>)
    ensures EntityToPathValueList(entity, a + b)
         == EntityToPathValueList(entity, a) + EntityToPathValueList(entity, b)
  {
    if a == [] {
      assert a + b == b;
    } else {
      var head := if IsSimplePrimitive(Get(entity, a[0])) then [GetAsPathValueOrNot(entity, a[0]).value] else [];
      var restA, restB := EntityToPathValueList(entity, a[1..]), EntityToPathValueList(entity, b);
      assert EntityToPathValueList(entity, a) == head + restA by {
        FlattenCons(entity, a);
      }
      assert EntityToPathValueList(entity, a + b) == head + (restA + restB) by {
        assert (a + b)[0] == a[0] && (a + b)[1..] == a[1..] + b;
        FlattenCons(entity, a + b);
        FlattenAppend(entity, a[1..], b);
      }
      AppendAssoc(head, restA, restB);
    }
  }

  /** `c` is what `entity` holds at segment `s`. */
  predicate ChildAt(entity: Json, s: Seg, c: Json)
  {
    match s
    case Key(k) => entity.Obj? && FindKey(entity.fields, k) == Some(c)
    case Idx(i) => entity.Arr? && i < |entity.items| && entity.items[i] == c
  }

  lemma GetUnder(entity: Json, s: Seg, c: Json, q: Path)
    requires ChildAt(entity, s, c)
    ensures Get(entity, [s] + q) == Get(c, q)
  {
    assert ([s] + q)[0] == s && ([s] + q)[1..] == q;
  }

  /** Flattening below a child is flattening the child, with the segment put
      in front of every path. */
  lemma {:induction false} FlattenUnder(entity: Json, s: Seg, c: Json, ps: seq<Path>)
    requires ChildAt(entity, s, c)
    ensures EntityToPathValueList(entity, Under(s, ps)) == PrefixAll(s, EntityToPathValueList(c, ps))
  {
    if ps != [] {
      var u := Under(s, ps);
      var head := FirstPair(c, ps[0]);
      var rest := EntityToPathValueList(c, ps[1..]);
      assert EntityToPathValueList(c, ps) == head + rest by {
        FlattenCons(c, ps);
      }
      assert EntityToPathValueList(entity, u)
          == FirstPair(entity, u[0]) + EntityToPathValueList(entity, u[1..]) by {
        FlattenCons(entity, u);
      }
      assert FirstPair(entity, u[0]) == PrefixAll(s, head) by {
        FirstPairUnder(entity, s, c, ps[0]);
      }
      assert EntityToPathValueList(entity, u[1..]) == PrefixAll(s, rest) by {
        assert u[1..] == Under(s, ps[1..]);
        FlattenUnder(entity, s, c, ps[1..]);
      }
      PrefixAllAppend(s, head, rest);
    }
  }

  /** The pair a single path contributes, if any. */
  function FirstPair(entity: Json, path: Path): (r: seq<PathValue>)
    ensures r == EntityToPathValueList(entity, [path])
  {
    FlattenCons(entity, [path]);
    assert [path][1..] == [];
    if IsSimplePrimitive(Get(entity, path)) then [GetAsPathValueOrNot(entity, path).value] else []
  }

  lemma FirstPairUnder(entity: Json, s: Seg, c: Json, q: Path)
    requires ChildAt(entity, s, c)
    ensures FirstPair(entity, [s] + q) == PrefixAll(s, FirstPair(c, q))
  {
    GetUnder(entity, s, c, q);
  }

  lemma PrefixAllAppend(s: Seg, a: seq<PathValue>, b: seq<PathValue>)
    ensures PrefixAll(s, a + b) == PrefixAll(s, a) + PrefixAll(s, b)
  {
  }

  /** Flattening a value over its leaf paths gives its structural pairs. */
  lemma {:induction false} FlattenLeaves(v: Json)
    requires DistinctKeysDeep(v)
    ensures EntityToPathValueList(v, Leaves(v)) == Pairs(v)
    decreases v, 1
  {
    match v
    case Obj(fields) =>
      assert fields[0..] == fields;
      FlattenFieldLeaves(fields, 0);
    case Arr(items) =>
      assert items[0..] == items;
      FlattenItemLeaves(items, 0);
    case _ =>
      var leaves: seq<Path> := [[]];
      FlattenCons(v, leaves);
      assert leaves[1..] == [];
  }

  lemma {:induction false} FlattenFieldLeaves(all: seq<Member>, j: nat)
    requires DistinctKeysDeep(Obj(all)) && j <= |all|
    ensures EntityToPathValueList(Obj(all), FieldLeaves(all[j..])) == FieldPairs(all[j..])
    decreases all[j..], 0
  {
    if j < |all| {
      var m := all[j];
      assert all[j..][0] == m && all[j..][1..] == all[j + 1..];
      FlattenAppend(Obj(all), Under(Key(m.key), Leaves(m.value)), FieldLeaves(all[j + 1..]));
      FindKeyAt(all, j);
      FlattenUnder(Obj(all), Key(m.key), m.value, Leaves(m.value));
      FlattenLeaves(m.value);
      FlattenFieldLeaves(all, j + 1);
    }
  }

  lemma {:induction false} FlattenItemLeaves(all: seq<Json>, j: nat)
    requires DistinctKeysDeep(Arr(all)) && j <= |all|
    ensures EntityToPathValueList(Arr(all), ItemLeaves(all[j..], j)) == ItemPairs(all[j..], j)
    decreases all[j..], 0
  {
    if j < |all| {
      var c := all[j];
      assert all[j..][0] == c && all[j..][1..] == all[j + 1..];
      FlattenAppend(Arr(all), Under(Idx(j), Leaves(c)), ItemLeaves(all[j + 1..], j + 1));
      FlattenUnder(Arr(all), Idx(j), c, Leaves(c));
      FlattenLeaves(c);
      FlattenItemLeaves(all, j + 1);
    }
  }

  lemma {:induction false} SetAllAppend(v: Json, a: seq<PathValue>, b: seq<PathValue>)
    ensures SetAll(v, a + b) == SetAll(SetAll(v, a), b)
    decreases |a|
  {
    if a == [] {
      assert a + b == b;
    } else {
      assert (a + b)[0] == a[0] && (a + b)[1..] == a[1..] + b;
      SetAllAppend(SetPath(v, a[0].path, AsJson(a[0].value)), a[1..], b);
    }
  }

  /** Assigning pairs below key `k` rebuilds the member `k` from its current
      value, leaving the other members alone. */
  lemma {:induction false} SetAllUnderKey(v: Json, k: string, pvs: seq<PathValue>)
    requires pvs != []
    ensures SetAll(v, PrefixAll(Key(k), pvs)) == Obj(PutField(FieldsOf(v), k, SetAll(ChildOf(v, k), pvs)))
    decreases |pvs|
  {
    var u := PrefixAll(Key(k), pvs);
    var x := AsJson(pvs[0].value);
    var p := u[0].path;
    assert p[0] == Key(k) && p[1..] == pvs[0].path;
    var c1 := SetPath(ChildOf(v, k), pvs[0].path, x);
    var v1 := SetPath(v, p, x);
    assert v1 == Obj(PutField(FieldsOf(v), k, c1));
    assert u[1..] == PrefixAll(Key(k), pvs[1..]);
    if |pvs| > 1 {
      SetAllUnderKey(v1, k, pvs[1..]);
      assert ChildOf(v1, k) == c1;
      PutFieldTwice(FieldsOf(v), k, c1, SetAll(c1, pvs[1..]));
    }
  }

  /** Assigning pairs below index `i` rebuilds item `i` from its current
      value in the padded items, leaving the other items alone. */
  lemma {:induction false} SetAllUnderIdx(v: Json, i: nat, pvs: seq<PathValue>)
    requires pvs != []
    ensures SetAll(v, PrefixAll(Idx(i), pvs)) == Arr(Padded(v, i)[i := SetAll(Padded(v, i)[i], pvs)])
    decreases |pvs|
  {
    var u := PrefixAll(Idx(i), pvs);
    var x := AsJson(pvs[0].value);
    var p := u[0].path;
    assert p[0] == Idx(i) && p[1..] == pvs[0].path;
    var c1 := SetPath(Padded(v, i)[i], pvs[0].path, x);
    var v1 := SetPath(v, p, x);
    assert v1 == Arr(Padded(v, i)[i := c1]);
    assert u[1..] == PrefixAll(Idx(i), pvs[1..]);
    if |pvs| > 1 {
      SetAllUnderIdx(v1, i, pvs[1..]);
      assert Padded(v1, i) == Padded(v, i)[i := c1];
      assert Padded(v1, i)[i := SetAll(c1, pvs[1..])] == Padded(v, i)[i := SetAll(c1, pvs[1..])];
    }
  }

  lemma {:induction false} PairsNonEmpty(v: Json)
    requires Rebuildable(v)
    ensures Pairs(v) != []
    decreases v
  {
    match v
    case Obj(fields) => PairsNonEmpty(fields[0].value);
    case Arr(items) => PairsNonEmpty(items[0]);
    case _ =>
  }

  /** Assigning the pairs of a value into null rebuilds the value. */
  lemma {:induction false} SetAllPairs(v: Json)
    requires Rebuildable(v)
    ensures SetAll(Null, Pairs(v)) == v
    decreases v, 3
  {
    match v
    case Obj(fields) =>
      SetAllFields(Null, fields);
      assert [] + fields == fields;
    case Arr(items) =>
      SetAllItems(Null, items, 0);
      assert [] + items == items;
    case _ =>
  }

  /** Assigning the pairs of the first member, whose key is new, appends it. */
  lemma {:induction false} SetAllNewMember(w: Json, fields: seq<Member>)
    requires fields != [] && Rebuildable(fields[0].value) && FindKey(FieldsOf(w), fields[0].key).None?
    ensures SetAll(w, PrefixAll(Key(fields[0].key), Pairs(fields[0].value))) == Obj(FieldsOf(w) + [fields[0]])
    decreases fields, 0
  {
    var m := fields[0];
    PairsNonEmpty(m.value);
    SetAllUnderKey(w, m.key, Pairs(m.value));
    SetAllPairs(m.value);
    PutFieldNew(FieldsOf(w), m.key, m.value);
  }

  /** Once the first member is appended, the remaining members still have
      new, distinct keys. */
  lemma {:induction false} RestKeysNew(w: Json, fields: seq<Member>)
    requires fields != [] && DistinctKeys(fields)
    requires forall i :: 0 <= i < |fields| ==> FindKey(FieldsOf(w), fields[i].key).None?
    ensures DistinctKeys(fields[1..])
    ensures forall i :: 0 <= i < |fields[1..]| ==> FindKey(FieldsOf(w) + [fields[0]], fields[1..][i].key).None?
  {
    var m := fields[0];
    PutFieldNew(FieldsOf(w), m.key, m.value);
    forall i | 0 <= i < |fields[1..]| ensures FindKey(FieldsOf(w) + [m], fields[1..][i].key).None? {
      assert fields[1..][i] == fields[i + 1];
    }
    forall a, b | 0 <= a < b < |fields[1..]| ensures fields[1..][a].key != fields[1..][b].key {
      assert fields[1..][a] == fields[a + 1] && fields[1..][b] == fields[b + 1];
    }
  }

  lemma {:induction false} SetAllFirstMember(w: Json, fields: seq<Member>)
    requires fields != [] && Rebuildable(fields[0].value) && FindKey(FieldsOf(w), fields[0].key).None?
    ensures SetAll(w, FieldPairs(fields)) == SetAll(Obj(FieldsOf(w) + [fields[0]]), FieldPairs(fields[1..]))
    decreases fields, 1
  {
    var m := fields[0];
    var head := PrefixAll(Key(m.key), Pairs(m.value));
    SetAllAppend(w, head, FieldPairs(fields[1..]));
    SetAllNewMember(w, fields);
  }

  /** Assigning the pairs of members with new, distinct keys appends those
      members to the object in order. */
  lemma {:induction false} SetAllFields(w: Json, fields: seq<Member>)
    requires fields != [] && DistinctKeys(fields)
    requires forall i :: 0 <= i < |fields| ==> Rebuildable(fields[i].value)
    requires forall i :: 0 <= i < |fields| ==> FindKey(FieldsOf(w), fields[i].key).None?
    ensures SetAll(w, FieldPairs(fields)) == Obj(FieldsOf(w) + fields)
    decreases fields, 2
  {
    var m := fields[0];
    var w1 := Obj(FieldsOf(w) + [m]);
    SetAllFirstMember(w, fields);
    if |fields| == 1 {
      assert fields == [m];
    } else {
      var rest := fields[1..];
      assert DistinctKeys(rest) && forall i :: 0 <= i < |rest| ==> FindKey(FieldsOf(w1), rest[i].key).None? by {
        assert FieldsOf(w1) == FieldsOf(w) + [m];
        RestKeysNew(w, fields);
      }
      assert forall i :: 0 <= i < |rest| ==> Rebuildable(rest[i].value) by {
        assert forall i :: 0 <= i < |rest| ==> rest[i] == fields[i + 1];
      }
      SetAllFields(w1, rest);
      assert FieldsOf(w1) == FieldsOf(w) + [m];
      AppendFirst(FieldsOf(w), fields);
    }
  }

  /** Assigning the pairs of the first item at index `|ItemsOf(w)|` appends it. */
  lemma {:induction false} SetAllNewItem(w: Json, items: seq<Json>)
    requires items != [] && Rebuildable(items[0])
    ensures SetAll(w, PrefixAll(Idx(|ItemsOf(w)|), Pairs(items[0]))) == Arr(ItemsOf(w) + [items[0]])
    decreases items, 0
  {
    var c := items[0];
    var from := |ItemsOf(w)|;
    PairsNonEmpty(c);
    SetAllUnderIdx(w, from, Pairs(c));
    assert Padded(w, from)[from] == Null;
    SetAllPairs(c);
    assert Padded(w, from)[from := c] == ItemsOf(w) + [c];
  }

  lemma {:induction false} SetAllFirstItem(w: Json, items: seq<Json>, from: nat)
    requires items != [] && from == |ItemsOf(w)| && Rebuildable(items[0])
    ensures SetAll(w, ItemPairs(items, from)) == SetAll(Arr(ItemsOf(w) + [items[0]]), ItemPairs(items[1..], from + 1))
    decreases items, 1
  {
    var head := PrefixAll(Idx(from), Pairs(items[0]));
    SetAllAppend(w, head, ItemPairs(items[1..], from + 1));
    SetAllNewItem(w, items);
  }

  /** Assigning the pairs of items from index `from`, the current length,
      appends those items to the array in order. */
  lemma {:induction false} SetAllItems(w: Json, items: seq<Json>, from: nat)
    requires items != [] && from == |ItemsOf(w)|
    requires forall i :: 0 <= i < |items| ==> Rebuildable(items[i])
    ensures SetAll(w, ItemPairs(items, from)) == Arr(ItemsOf(w) + items)
    decreases items, 2
  {
    assert SetAll(w, ItemPairs(items, from)) == SetAll(Arr(ItemsOf(w) + [items[0]]), ItemPairs(items[1..], from + 1)) by {
      SetAllFirstItem(w, items, from);
    }
    if |items| == 1 {
      assert items == [items[0]];
    } else {
      SetAllLaterItems(w, items, from);
    }
  }

  /** Once the first item is appended, the pairs of the others append them. */
  lemma {:induction false} SetAllLaterItems(w: Json, items: seq<Json>, from: nat)
    requires |items| > 1 && from == |ItemsOf(w)|
    requires forall i :: 0 <= i < |items| ==> Rebuildable(items[i])
    ensures SetAll(Arr(ItemsOf(w) + [items[0]]), ItemPairs(items[1..], from + 1)) == Arr(ItemsOf(w) + items)
    decreases items, 1
  {
    var w1 := Arr(ItemsOf(w) + [items[0]]);
    var rest := items[1..];
    assert forall i :: 0 <= i < |rest| ==> Rebuildable(rest[i]) by {
      assert forall i :: 0 <= i < |rest| ==> rest[i] == items[i + 1];
    }
    SetAllItems(w1, rest, from + 1);
    assert ItemsOf(w1) + rest == ItemsOf(w) + items by {
      AppendFirst(ItemsOf(w), items);
    }
  }

  /** Round trip: rebuilding, under a caller's id, the flattening of an
      object over all its leaf paths gives back the object with its `id`
      member set to that id (appended when it has none); when its `id` already
      is that string, the object itself comes back. The object must have no
      null, no empty object or array, and distinct keys. */
  lemma RoundTrip(entity: Json, id: string)
    requires entity.Obj? && Rebuildable(entity)
    ensures PathValueListToEntity(id, EntityToPathValueList(entity, DeepKeys(entity)))
         == Obj(PutField(entity.fields, "id", Str(id)))
    ensures FindKey(entity.fields, "id") == Some(Str(id)) ==>
              PathValueListToEntity(id, EntityToPathValueList(entity, DeepKeys(entity))) == entity
  {
    var fields := entity.fields;
    var pvs := EntityToPathValueList(entity, DeepKeys(entity));
    assert pvs == Pairs(entity) by {
      RebuildableDistinct(entity);
      FlattenLeaves(entity);
    }
    assert SetAll(Obj([]), pvs) == entity by {
      SetAllFields(Obj([]), fields);
      assert [] + fields == fields;
    }
    assert [Key("id")][1..] == [];
    if FindKey(fields, "id") == Some(Str(id)) {
      PutFieldSame(fields, "id", Str(id));
    }
  }

  /** The entity of the round-trip test. */
  function TestEntity(): Json
  {
    Obj([
      Member("id", Str("id123")),
      Member("name", Str("name123")),
      Member("address", Obj([Member("street", Str("123 street"))])),
      Member("active", Bool(true)),
      Member("age", Num(21)),
      Member("phones", Arr([Str("phone1"), Str("phone2"), Str("phone3")]))])
  }

  /** The round-trip test: flattening the test entity over its own paths and
      rebuilding under `id123` gives the entity back. */
  lemma TestRoundTrip()
    ensures PathValueListToEntity("id123", EntityToPathValueList(TestEntity(), GetEntityPaths(TestEntity())))
         == TestEntity()
  {
    TestEntityRebuildable();
    assert FindKey(TestEntity().fields, "id") == Some(Str("id123"));
    RoundTrip(TestEntity(), "id123");
  }

  lemma TestEntityRebuildable()
    ensures Rebuildable(TestEntity())
  {
    var e := TestEntity();
    TestEntityKeys();
    assert Rebuildable(e.fields[2].value);
    assert Rebuildable(e.fields[5].value);
  }

  lemma TestEntityKeys()
    ensures DistinctKeys(TestEntity().fields)
  {
    var e := TestEntity();
    var keys := ["id", "name", "address", "active", "age", "phones"];
    assert forall i :: 0 <= i < |e.fields| ==> e.fields[i].key == keys[i];
    assert keys[0][0] == 'i' && keys[1][0] == 'n' && keys[2][1] == 'd' && keys[3][1] == 'c';
    assert keys[4][1] == 'g' && keys[5][0] == 'p' && keys[2][0] == 'a' && keys[3][0] == 'a' && keys[4][0] == 'a';
  }

  /** `{id: "x", note: null}` */
  function NullLeafEntity(): Json
  {
    Obj([Member("id", Str("x")), Member("note", Null)])
  }

  /** A null leaf has no primitive value, so it is dropped by flattening and
      cannot be rebuilt: the round trip needs an entity without nulls. */
  lemma NullLeafIsLost()
    ensures var e := NullLeafEntity();
            PathValueListToEntity("x", EntityToPathValueList(e, GetEntityPaths(e))) != e
  {
    var e := NullLeafEntity();
    var pv := PathValue([Key("id")], PStr("x"));
    NullLeafFlatten();
    var only := Obj([Member("id", Str("x"))]);
    assert SetAll(Obj([]), [pv]) == only by {
      assert [pv][1..] == [];
      assert [Key("id")][1..] == [];
    }
    assert PathValueListToEntity("x", [pv]) == only by {
      assert [Key("id")][1..] == [];
      PutFieldSame(only.fields, "id", Str("x"));
    }
    assert |only.fields| != |e.fields|;
  }

  lemma UnderScalar(s: Seg)
    ensures Under(s, [[]]) == [[s]]
  {
    var r := Under(s, [[]]);
    assert r[0] == [s] + [] == [s];
  }

  /** Flattening `{id: "x", note: null}` keeps only the id. */
  lemma NullLeafFlatten()
    ensures var e := NullLeafEntity();
            EntityToPathValueList(e, GetEntityPaths(e)) == [PathValue([Key("id")], PStr("x"))]
  {
    var e := NullLeafEntity();
    var paths: seq<Path> := [[Key("id")], [Key("note")]];
    assert GetEntityPaths(e) == paths by {
      var leaf: seq<Path> := [[]];
      assert e.fields[1..][1..] == [];
      assert FieldLeaves(e.fields[1..]) == Under(Key("note"), leaf) + [];
      UnderScalar(Key("note"));
      UnderScalar(Key("id"));
    }
    assert EntityToPathValueList(e, paths[1..]) == [] by {
      FlattenCons(e, paths[1..]);
      assert paths[1..][1..] == [];
      assert Get(e, [Key("note")]) == Some(Null);
    }
    FlattenCons(e, paths);
    assert Get(e, [Key("id")]) == Some(Str("x"));
  }
}
