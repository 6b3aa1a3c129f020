/**
 * The parts of the dot-prop library that the core calls, stated over a
 * segment representation of paths: property lookup (`getProperty`), leaf
 * enumeration (`deepKeys`), the string form of a path that `deepKeys` emits,
 * and property assignment (`setProperty`). These model the library's
 * behaviour; its string parsing and escaping rules are not transcribed.
 */
module DotProp {
  import opened Wrappers
  import opened Seqs

  /** A JSON-like value. Object members are kept in enumeration order. */
  datatype Json =
    | Obj(fields: seq<Member>)
    | Arr(items: seq<Json>)
    | Str(s: string)
    | Num(n: int)
    | Bool(b: bool)
    | Null

  /** An object member: a key and its value. */
  datatype Member = Member(key: string, value: Json)

  /** One step of a path: an object key or an array index. */
  datatype Seg = Key(name: string) | Idx(index: nat)

  type Path = seq<Seg>

  predicate IsScalar(v: Json) { !v.Obj? && !v.Arr? }

  /** No key occurs twice in one member list (true of every JavaScript object). */
  predicate DistinctKeys(fields: seq<Member>)
  {
    forall i, j :: 0 <= i < j < |fields| ==> fields[i].key != fields[j].key
  }

  /** Every object nested in `v` has distinct keys. */
  predicate DistinctKeysDeep(v: Json)
    decreases v
  {
    match v
    case Obj(fields) =>
      DistinctKeys(fields) && forall i :: 0 <= i < |fields| ==> DistinctKeysDeep(fields[i].value)
    case Arr(items) => forall i :: 0 <= i < |items| ==> DistinctKeysDeep(items[i])
    case _ => true
  }

  // ---------------------------------------------------------------------------
  // Lookup (getProperty)
  // ---------------------------------------------------------------------------

  /** The value of the first member named `k`, if any. */
  function FindKey(fields: seq<Member>, k: string): (r: Option<Json>)
    ensures r.None? <==> forall i :: 0 <= i < |fields| ==> fields[i].key != k
    ensures r.Some? ==> exists i :: 0 <= i < |fields| && fields[i] == Member(k, r.value)
  {
    if fields == [] then None
    else if fields[0].key == k then Some(fields[0].value)
    else FindKey(fields[1..], k)
  }

  lemma {:induction false} FindKeyAt(fields: seq<Member>, i: nat)
    requires DistinctKeys(fields) && i < |fields|
    ensures FindKey(fields, fields[i].key) == Some(fields[i].value)
  {
    if i > 0 {
      assert DistinctKeys(fields[1..]) by {
        forall a, b | 0 <= a < b < |fields| - 1 ensures fields[1..][a].key != fields[1..][b].key {
          assert fields[1..][a] == fields[a + 1] && fields[1..][b] == fields[b + 1];
        }
      }
      FindKeyAt(fields[1..], i - 1);
      assert fields[0].key != fields[i].key;
    }
  }

  /** The value at path `p` in `v`, or None (JavaScript `undefined`) when the
      path leaves the value. */
  function Get(v: Json, p: Path): Option<Json>
    decreases p
  {
    if p == [] then Some(v)
    else match p[0]
      case Key(k) =>
        var found := if v.Obj? then FindKey(v.fields, k) else None;
        if found.Some? then Get(found.value, p[1..]) else None
      case Idx(i) =>
        if v.Arr? && i < |v.items| then Get(v.items[i], p[1..]) else None
  }

  /** A lookup along `p + q` is the lookup of `q` in what `p` finds, and
      fails whenever the lookup of `p` does. */
  lemma {:induction false} GetAppend(v: Json, p: Path, q: Path)
    ensures Get(v, p + q) == if Get(v, p).Some? then Get(Get(v, p).value, q) else None
    decreases p
  {
    if p == [] {
      assert p + q == q;
    } else {
      assert (p + q)[0] == p[0] && (p + q)[1..] == p[1..] + q;
      match p[0]
      case Key(k) =>
        var found := if v.Obj? then FindKey(v.fields, k) else None;
        if found.Some? { GetAppend(found.value, p[1..], q); }
      case Idx(i) =>
        if v.Arr? && i < |v.items| { GetAppend(v.items[i], p[1..], q); }
    }
  }

  // ---------------------------------------------------------------------------
  // Leaf enumeration (deepKeys)
  // ---------------------------------------------------------------------------

  /** Every path of `ps` with `s` put in front. */
  function Under(s: Seg, ps: seq<Path>): (r: seq<Path>)
    ensures |r| == |ps| && forall i :: 0 <= i < |ps| ==> r[i] == [s] + ps[i]
  {
    seq(|ps|, i requires 0 <= i < |ps| => [s] + ps[i])
  }

  /** The leaf paths of `v`, depth first, members and items in order; a scalar
      is its own (empty) leaf path, an empty object or array has none. */
  function Leaves(v: Json): seq<Path>
    decreases v, 1
  {
    match v
    case Obj(fields) => FieldLeaves(fields)
    case Arr(items) => ItemLeaves(items, 0)
    case _ => [[]]
  }

  function FieldLeaves(fields: seq<Member>): seq<Path>
    decreases fields, 0
  {
    if fields == [] then []
    else Under(Key(fields[0].key), Leaves(fields[0].value)) + FieldLeaves(fields[1..])
  }

  /** The leaf paths of `items`, the first of which sits at index `from`. */
  function ItemLeaves(items: seq<Json>, from: nat): seq<Path>
    decreases items, 0
  {
    if items == [] then []
    else Under(Idx(from), Leaves(items[0])) + ItemLeaves(items[1..], from + 1)
  }

  /** deepKeys: the leaf paths of an object or array; a bare scalar has none. */
  function DeepKeys(v: Json): seq<Path>
  {
    if IsScalar(v) then [] else Leaves(v)
  }

  lemma {:induction false} FieldLeavesMember(fields: seq<Member>, p: Path) returns (i: nat, q: Path)
    requires p in FieldLeaves(fields)
    ensures i < |fields| && p == [Key(fields[i].key)] + q && q in Leaves(fields[i].value)
  {
    var head := Under(Key(fields[0].key), Leaves(fields[0].value));
    if p in head {
      var j :| 0 <= j < |head| && head[j] == p;
      i, q := 0, Leaves(fields[0].value)[j];
    } else {
      i, q := FieldLeavesMember(fields[1..], p);
      i := i + 1;
    }
  }

  lemma {:induction false} ItemLeavesMember(items: seq<Json>, from: nat, p: Path) returns (i: nat, q: Path)
    requires p in ItemLeaves(items, from)
    ensures i < |items| && p == [Idx(from + i)] + q && q in Leaves(items[i])
  {
    var head := Under(Idx(from), Leaves(items[0]));
    if p in head {
      var j :| 0 <= j < |head| && head[j] == p;
      i, q := 0, Leaves(items[0])[j];
    } else {
      i, q := ItemLeavesMember(items[1..], from + 1, p);
      i := i + 1;
    }
  }

  lemma {:induction false} FieldLeavesContain(fields: seq<Member>, i: nat, q: Path)
    requires i < |fields| && q in Leaves(fields[i].value)
    ensures [Key(fields[i].key)] + q in FieldLeaves(fields)
  {
    if i == 0 {
      var j :| 0 <= j < |Leaves(fields[0].value)| && Leaves(fields[0].value)[j] == q;
      assert Under(Key(fields[0].key), Leaves(fields[0].value))[j] == [Key(fields[0].key)] + q;
    } else {
      FieldLeavesContain(fields[1..], i - 1, q);
    }
  }

  lemma {:induction false} ItemLeavesContain(items: seq<Json>, from: nat, i: nat, q: Path)
    requires i < |items| && q in Leaves(items[i])
    ensures [Idx(from + i)] + q in ItemLeaves(items, from)
  {
    if i == 0 {
      var j :| 0 <= j < |Leaves(items[0])| && Leaves(items[0])[j] == q;
      assert Under(Idx(from), Leaves(items[0]))[j] == [Idx(from)] + q;
    } else {
      ItemLeavesContain(items[1..], from + 1, i - 1, q);
    }
  }

  /** Every enumerated path resolves to a scalar. */
  lemma {:induction false} LeavesResolve(v: Json, p: Path)
    requires DistinctKeysDeep(v) && p in Leaves(v)
    ensures Get(v, p).Some? && IsScalar(Get(v, p).value)
    decreases v
  {
    match v
    case Obj(fields) =>
      var i, q := FieldLeavesMember(fields, p);
      FindKeyAt(fields, i);
      assert p[1..] == q;
      LeavesResolve(fields[i].value, q);
    case Arr(items) =>
      var i, q := ItemLeavesMember(items, 0, p);
      assert p[1..] == q;
      LeavesResolve(items[i], q);
    case _ =>
  }

  /** Every path that resolves to a scalar is enumerated. */
  lemma {:induction false} LeavesComplete(v: Json, p: Path)
    requires Get(v, p).Some? && IsScalar(Get(v, p).value)
    ensures p in Leaves(v)
    decreases p
  {
    if p != [] {
      match p[0]
      case Key(k) =>
        var c := FindKey(v.fields, k).value;
        var i :| 0 <= i < |v.fields| && v.fields[i] == Member(k, c);
        LeavesComplete(c, p[1..]);
        FieldLeavesContain(v.fields, i, p[1..]);
        assert [Key(k)] + p[1..] == p;
      case Idx(i) =>
        LeavesComplete(v.items[i], p[1..]);
        ItemLeavesContain(v.items, 0, i, p[1..]);
        assert [Idx(i)] + p[1..] == p;
    }
  }

  /** Putting one segment in front keeps a list duplicate-free. */
  lemma UnderNoDup(s: Seg, ps: seq<Path>)
    requires NoDup(ps)
    ensures NoDup(Under(s, ps))
  {
    forall i, j | 0 <= i < j < |ps| ensures Under(s, ps)[i] != Under(s, ps)[j] {
      assert ([s] + ps[i])[1..] == ps[i] && ([s] + ps[j])[1..] == ps[j];
    }
  }

  /** No leaf path is enumerated twice. */
  lemma {:induction false} LeavesNoDup(v: Json)
    requires DistinctKeysDeep(v)
    ensures NoDup(Leaves(v))
    decreases v, 1
  {
    match v
    case Obj(fields) => FieldLeavesNoDup(fields);
    case Arr(items) => ItemLeavesNoDup(items, 0);
    case _ =>
  }

  lemma {:induction false} FieldLeavesNoDup(fields: seq<Member>)
    requires DistinctKeys(fields) && forall i :: 0 <= i < |fields| ==> DistinctKeysDeep(fields[i].value)
    ensures NoDup(FieldLeaves(fields))
    decreases fields, 0
  {
    if fields != [] {
      var k := fields[0].key;
      var head, rest := Under(Key(k), Leaves(fields[0].value)), FieldLeaves(fields[1..]);
      LeavesNoDup(fields[0].value);
      UnderNoDup(Key(k), Leaves(fields[0].value));
      assert forall i :: 0 <= i < |fields| - 1 ==> fields[1..][i] == fields[i + 1];
      FieldLeavesNoDup(fields[1..]);
      forall x | x in head ensures |x| > 0 && x[0] == Key(k) {
        var j :| 0 <= j < |head| && head[j] == x;
      }
      forall x | x in rest ensures |x| > 0 && x[0] != Key(k) {
        var i, q := FieldLeavesMember(fields[1..], x);
        assert fields[1..][i].key == fields[i + 1].key != k;
      }
      NoDupAppend(head, rest);
    }
  }

  lemma {:induction false} ItemLeavesNoDup(items: seq<Json>, from: nat)
    requires forall i :: 0 <= i < |items| ==> DistinctKeysDeep(items[i])
    ensures NoDup(ItemLeaves(items, from))
    decreases items, 0
  {
    if items != [] {
      var head, rest := Under(Idx(from), Leaves(items[0])), ItemLeaves(items[1..], from + 1);
      LeavesNoDup(items[0]);
      UnderNoDup(Idx(from), Leaves(items[0]));
      assert forall i :: 0 <= i < |items| - 1 ==> items[1..][i] == items[i + 1];
      ItemLeavesNoDup(items[1..], from + 1);
      forall x | x in head ensures |x| > 0 && x[0] == Idx(from) {
        var j :| 0 <= j < |head| && head[j] == x;
      }
      forall x | x in rest ensures |x| > 0 && x[0] != Idx(from) {
        var i, q := ItemLeavesMember(items[1..], from + 1, x);
      }
      NoDupAppend(head, rest);
    }
  }

  /** deepKeys lists each leaf path once. */
  lemma DeepKeysNoDup(v: Json)
    requires DistinctKeysDeep(v)
    ensures NoDup(DeepKeys(v))
  {
    if !IsScalar(v) {
      LeavesNoDup(v);
    }
  }

  /** deepKeys lists exactly the non-empty paths of `v` that end at a scalar. */
  lemma DeepKeysAreLeaves(v: Json, p: Path)
    requires DistinctKeysDeep(v)
    ensures p in DeepKeys(v) <==> p != [] && Get(v, p).Some? && IsScalar(Get(v, p).value)
  {
    if p in DeepKeys(v) {
      LeavesResolve(v, p);
    }
    if p != [] && Get(v, p).Some? && IsScalar(Get(v, p).value) {
      LeavesComplete(v, p);
    }
  }

  // ---------------------------------------------------------------------------
  // Assignment (setProperty)
  // ---------------------------------------------------------------------------

  /** `fields` with the first member named `k` given the value `c`, or with
      that member appended when there is none. */
  function PutField(fields: seq<Member>, k: string, c: Json): (r: seq<Member>)
    ensures FindKey(r, k) == Some(c)
    ensures forall k' :: k' != k ==> FindKey(r, k') == FindKey(fields, k')
  {
    if fields == [] then [Member(k, c)]
    else if fields[0].key == k then [Member(k, c)] + fields[1..]
    else [fields[0]] + PutField(fields[1..], k, c)
  }

  /** Assigning a member its current value changes nothing. */
  lemma {:induction false} PutFieldSame(fields: seq<Member>, k: string, c: Json)
    requires FindKey(fields, k) == Some(c)
    ensures PutField(fields, k, c) == fields
  {
    if fields[0].key != k {
      assert FindKey(fields[1..], k) == Some(c);
      PutFieldSame(fields[1..], k, c);
      assert [fields[0]] + fields[1..] == fields;
    } else {
      assert fields[0] == Member(k, c);
      assert [fields[0]] + fields[1..] == fields;
    }
  }

  /** Assigning a key the object does not have appends a member at the end. */
  lemma {:induction false} PutFieldNew(fields: seq<Member>, k: string, c: Json)
    requires FindKey(fields, k).None?
    ensures PutField(fields, k, c) == fields + [Member(k, c)]
  {
    if fields != [] {
      assert fields[0].key != k;
      assert FindKey(fields[1..], k) == FindKey(fields, k);
      PutFieldNew(fields[1..], k, c);
      calc {
        PutField(fields, k, c);
        [fields[0]] + PutField(fields[1..], k, c);
        [fields[0]] + (fields[1..] + [Member(k, c)]);
        ([fields[0]] + fields[1..]) + [Member(k, c)];
        { assert [fields[0]] + fields[1..] == fields; }
        fields + [Member(k, c)];
      }
    }
  }

  /** A second assignment to the same key overrides the first in place. */
  lemma {:induction false} PutFieldTwice(fields: seq<Member>, k: string, c1: Json, c2: Json)
    ensures PutField(PutField(fields, k, c1), k, c2) == PutField(fields, k, c2)
  {
    if fields != [] && fields[0].key != k {
      PutFieldTwice(fields[1..], k, c1, c2);
    }
  }

  /** The members of `v` when it is an object; none otherwise. */
  function FieldsOf(v: Json): seq<Member>
  {
    if v.Obj? then v.fields else []
  }

  /** The items of `v` when it is an array; none otherwise. */
  function ItemsOf(v: Json): seq<Json>
  {
    if v.Arr? then v.items else []
  }

  /** The value assignment descends into under key `k`: the member's value,
      or null when `v` has no such member. */
  function ChildOf(v: Json, k: string): Json
  {
    var found := FindKey(FieldsOf(v), k);
    if found.Some? then found.value else Null
  }

  /** The items of `v`, padded with nulls so that index `i` exists. */
  function Padded(v: Json, i: nat): (r: seq<Json>)
    ensures i < |r| && |r| == if i < |ItemsOf(v)| then |ItemsOf(v)| else i + 1
    ensures forall j :: 0 <= j < |r| ==> r[j] == if j < |ItemsOf(v)| then ItemsOf(v)[j] else Null
  {
    var items := ItemsOf(v);
    if i < |items| then items else items + seq(i + 1 - |items|, _ => Null)
  }

  /** `v` with the value at `p` replaced by `x`. Missing or scalar nodes on the
      way become an empty object or array, as the next segment demands; an
      array is padded with nulls up to the index. A container of the other
      kind is replaced too, and its contents are lost: an index step over an
      object, or a key step over an array, starts from nothing. */
  function SetPath(v: Json, p: Path, x: Json): Json
    decreases p
  {
    if p == [] then x
    else match p[0]
      case Key(k) => Obj(PutField(FieldsOf(v), k, SetPath(ChildOf(v, k), p[1..], x)))
      case Idx(i) => Arr(Padded(v, i)[i := SetPath(Padded(v, i)[i], p[1..], x)])
  }

  /** An index step over an object discards the object: after `a.b` is
      assigned, assigning `a[0]` leaves no `a.b`. */
  lemma IndexOverObjectDiscards(x: Json, y: Json)
    ensures var v := SetPath(Obj([]), [Key("a"), Key("b")], x);
            Get(v, [Key("a"), Key("b")]) == Some(x)
            && Get(SetPath(v, [Key("a"), Idx(0)], y), [Key("a"), Key("b")]).None?
  {
    var ab: Path, a0: Path := [Key("a"), Key("b")], [Key("a"), Idx(0)];
    assert ab[1..] == [Key("b")] && ab[1..][1..] == [];
    assert a0[1..] == [Idx(0)] && a0[1..][1..] == [];
  }

  /** After assigning `x` at `p`, the lookup of `p` gives `x`. */
  lemma {:induction false} SetPathHit(v: Json, p: Path, x: Json)
    ensures Get(SetPath(v, p, x), p) == Some(x)
    decreases p
  {
    if p != [] {
      match p[0]
      case Key(k) => SetPathHit(ChildOf(v, k), p[1..], x);
      case Idx(i) => SetPathHit(Padded(v, i)[i], p[1..], x);
    }
  }

  /** A non-null scalar found after assigning a scalar at `p` is either the
      assigned one (at `p` itself) or was already there. */
  lemma {:induction false} SetPathProvenance(v: Json, p: Path, x: Json, q: Path, y: Json)
    requires IsScalar(x) && IsScalar(y) && y != Null
    requires Get(SetPath(v, p, x), q) == Some(y)
    ensures q == p || Get(v, q) == Some(y)
    decreases p, 1
  {
    if p != [] && q != [] {
      if q[0] != p[0] {
        SetPathElsewhere(v, p, x, q);
      } else {
        if p[0].Key? {
          SetPathProvenanceKey(v, p, x, q, y);
        } else {
          SetPathProvenanceIdx(v, p, x, q, y);
        }
      }
    }
  }

  /** The same, when both paths start with the same key. */
  lemma {:induction false} SetPathProvenanceKey(v: Json, p: Path, x: Json, q: Path, y: Json)
    requires p != [] && q != [] && p[0] == q[0] && p[0].Key?
    requires IsScalar(x) && IsScalar(y) && y != Null
    requires Get(SetPath(v, p, x), q) == Some(y)
    ensures q == p || Get(v, q) == Some(y)
    decreases p, 0
  {
    SetPathProvenance(ChildOf(v, p[0].name), p[1..], x, q[1..], y);
    if q[1..] == p[1..] {
      assert q == [q[0]] + q[1..] && p == [p[0]] + p[1..];
    }
  }

  /** The same, when both paths start with the same index. */
  lemma {:induction false} SetPathProvenanceIdx(v: Json, p: Path, x: Json, q: Path, y: Json)
    requires p != [] && q != [] && p[0] == q[0] && p[0].Idx?
    requires IsScalar(x) && IsScalar(y) && y != Null
    requires Get(SetPath(v, p, x), q) == Some(y)
    ensures q == p || Get(v, q) == Some(y)
    decreases p, 0
  {
    SetPathProvenance(Padded(v, p[0].index)[p[0].index], p[1..], x, q[1..], y);
    if q[1..] == p[1..] {
      assert q == [q[0]] + q[1..] && p == [p[0]] + p[1..];
    }
  }

  /** An assignment under another first segment leaves what is found at `q`
      as it was, or makes it absent, or makes it a null that pads an array. */
  lemma SetPathElsewhere(v: Json, p: Path, x: Json, q: Path)
    requires p != [] && q != [] && p[0] != q[0]
    ensures var r := Get(SetPath(v, p, x), q); r == Get(v, q) || r.None? || r == Some(Null)
  {
  }

  /** Two paths that lead to different places of one structure: neither is
      a prefix of the other, and where they first differ both name a key or
      both name an index. */
  predicate Independent(p: Path, q: Path)
    decreases |p|
  {
    p != [] && q != [] &&
    if p[0] == q[0] then Independent(p[1..], q[1..]) else p[0].Key? == q[0].Key?
  }

  /** Assigning at a path leaves whatever is at an independent path alone. */
  lemma {:induction false} SetPathPreserves(v: Json, p: Path, x: Json, q: Path, y: Json)
    requires Independent(p, q) && Get(v, q) == Some(y)
    ensures Get(SetPath(v, p, x), q) == Some(y)
    decreases |p|
  {
    match p[0]
    case Key(k) =>
      if p[0] == q[0] {
        SetPathPreserves(ChildOf(v, k), p[1..], x, q[1..], y);
      }
    case Idx(i) =>
      if p[0] == q[0] {
        SetPathPreserves(Padded(v, i)[i], p[1..], x, q[1..], y);
      }
  }

  /** Two different paths that both lead to a scalar of `v` are independent. */
  lemma {:induction false} ScalarPathsIndependent(v: Json, p: Path, q: Path)
    requires p != q
    requires Get(v, p).Some? && IsScalar(Get(v, p).value)
    requires Get(v, q).Some? && IsScalar(Get(v, q).value)
    ensures Independent(p, q)
    decreases |p|
  {
    assert p != [] && q != [];
    if p[0] == q[0] {
      assert p[1..] != q[1..] by {
        assert p == [p[0]] + p[1..] && q == [q[0]] + q[1..];
      }
      match p[0]
      case Key(k) => ScalarPathsIndependent(FindKey(v.fields, k).value, p[1..], q[1..]);
      case Idx(i) => ScalarPathsIndependent(v.items[i], p[1..], q[1..]);
    }
  }

  // ---------------------------------------------------------------------------
  // The string form of a path, as deepKeys emits it
  // ---------------------------------------------------------------------------

  /** A key with each backslash, dot and opening bracket escaped by a backslash. */
  function Escape(k: string): (r: string)
    ensures forall c :: c in k ==> c in r
    ensures ('.' in k || '[' in k || '\\' in k) ==> '\\' in r
    ensures ('.' !in k && '[' !in k && '\\' !in k) ==> r == k
  {
    if k == [] then []
    else (if k[0] == '\\' || k[0] == '.' || k[0] == '[' then ['\\', k[0]] else [k[0]]) + Escape(k[1..])
  }

  /** The number the decimal digit `c` stands for. */
  function DigitValue(c: char): int
  {
    c as int - '0' as int
  }

  /** The number a string of decimal digits denotes, most significant first. */
  function DecimalValue(s: string): int
  {
    if s == [] then 0 else 10 * DecimalValue(s[..|s| - 1]) + DigitValue(s[|s| - 1])
  }

  function Digit(d: nat): (c: char)
    requires d < 10
    ensures '0' <= c <= '9' && DigitValue(c) == d
  {
    "0123456789"[d]
  }

  /** The decimal numeral of `n`, without leading zeros. */
  function NatToString(n: nat): (r: string)
    ensures 0 < |r| && forall c :: c in r ==> '0' <= c <= '9'
    ensures n < 10 ==> |r| == 1
    ensures n < 100 ==> |r| <= 2
    ensures n < 1000 ==> |r| <= 3
    ensures n < 10000 ==> |r| <= 4
  {
    if n < 10 then [Digit(n)]
    else
      var s := NatToString(n / 10);
      assert (s + [Digit(n % 10)])[..|s|] == s;
      s + [Digit(n % 10)]
  }

  /** The numeral of `n` reads back as `n` and has no leading zero. */
  lemma {:induction false} NatToStringValue(n: nat)
    ensures DecimalValue(NatToString(n)) == n
    ensures |NatToString(n)| > 1 ==> NatToString(n)[0] != '0'
    decreases n
  {
    if n >= 10 {
      var s := NatToString(n / 10);
      NatToStringValue(n / 10);
      assert NatToString(n)[..|s|] == s;
    }
  }

  /** One segment: `[i]` for an index, the escaped key for a key, preceded by
      a dot unless it is the first segment. */
  function RenderSeg(s: Seg, first: bool): string
  {
    match s
    case Idx(i) => "[" + NatToString(i) + "]"
    case Key(k) => if first then Escape(k) else "." + Escape(k)
  }

  /** The string form of a path, e.g. `phones[2]` or `address.street`. */
  function Render(p: Path): string
  {
    if p == [] then "" else RenderSeg(p[0], true) + RenderRest(p[1..])
  }

  /** The segments of a path that are not the first. */
  function RenderRest(p: Path): string
  {
    if p == [] then "" else RenderSeg(p[0], false) + RenderRest(p[1..])
  }

  function RenderAll(ps: seq<Path>): (r: seq<string>)
    ensures |r| == |ps| && forall i :: 0 <= i < |ps| ==> r[i] == Render(ps[i])
  {
    seq(|ps|, i requires 0 <= i < |ps| => Render(ps[i]))
  }

  /** Every character of every key of `p` appears in its string form. */
  lemma {:induction false} RenderKeepsKeyChars(p: Path, j: nat, c: char)
    requires j < |p| && p[j].Key? && c in Escape(p[j].name)
    ensures c in Render(p)
  {
    var head, rest := RenderSeg(p[0], true), RenderRest(p[1..]);
    assert Render(p) == head + rest;
    if j == 0 {
      assert p[0] == Key(p[0].name);
      assert c in head;
    } else {
      assert p[1..][j - 1] == p[j];
      RestKeepsKeyChars(p[1..], j - 1, c);
      assert c in rest;
    }
  }

  lemma {:induction false} RestKeepsKeyChars(p: Path, j: nat, c: char)
    requires j < |p| && p[j].Key? && c in Escape(p[j].name)
    ensures c in RenderRest(p)
  {
    var head := RenderSeg(p[0], false);
    assert RenderRest(p) == head + RenderRest(p[1..]);
    if j == 0 {
      assert head == "." + Escape(p[0].name);
    } else {
      RestKeepsKeyChars(p[1..], j - 1, c);
    }
  }
}
