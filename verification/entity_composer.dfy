/**
 * composeEntity: merges one, two or three masked source entities into a new
 * entity under a caller-given id. For each slot, in order, the entity's leaf
 * paths are checked against the slot's optional `supported` list (the first
 * slot that fails ends the call with that slot's error); then every slot's
 * paths are filtered through its `allowed` list, flattened to path/value
 * pairs, concatenated in slot order and rebuilt.
 */
module EntityComposer {
  import opened Wrappers
  import opened Seqs
  import opened DotProp
  import opened PrismBeamModel
  import opened Guards
  import opened PathUtils
  import opened PathValueUtils

  /** A slot's allow-lists: `supported` is optional, `allowed` is not. */
  datatype SlotPaths = SlotPaths(supported: Option<set<string>>, allowed: set<string>)

  /** A source entity with the allow-lists that govern it. */
  datatype MaskedEntity = MaskedEntity(entity: Json, paths: SlotPaths)

  /** A `kind` string that none of the composers handles. */
  type UnknownKind = k: string | k != "single" && k != "pair" && k != "triple" witness ""

  /** The request, tagged by arity. `Unknown` stands for a request whose
      `kind` is none of `single`, `pair` and `triple`, which an untyped caller
      can send. */
  datatype ComposeEntityOpts =
    | Single(id: string, first: MaskedEntity)
    | Pair(id: string, first: MaskedEntity, second: MaskedEntity)
    | Triple(id: string, first: MaskedEntity, second: MaskedEntity, third: MaskedEntity)
    | Unknown(kind: UnknownKind)

  // ---------------------------------------------------------------------------
  // One slot
  // ---------------------------------------------------------------------------

  /** The supported check of a slot fails: a supported list is given and
      some path of the entity is not kept by it. */
  predicate FailsSupported(m: MaskedEntity)
  {
    m.paths.supported.Some?
    && !ArePathsInAllowList(m.paths.supported.value, RenderAll(GetEntityPaths(m.entity)))
  }

  /** paths.filter(keepPathInAllowList(allowed)) */
  function FilterAllowed(allowed: set<string>, paths: seq<Path>): (r: seq<Path>)
    ensures forall p :: p in r <==> p in paths && KeepPathInAllowList(allowed, Render(p))
    ensures Subsequence(r, paths)
  {
    if paths == [] then []
    else
      var rest := FilterAllowed(allowed, paths[1..]);
      assert paths == [paths[0]] + paths[1..];
      if KeepPathInAllowList(allowed, Render(paths[0])) then
        assert ([paths[0]] + rest)[1..] == rest;
        [paths[0]] + rest
      else rest
  }

  /** A slot's contribution: its entity flattened over its allowed paths. */
  function SlotPathValues(m: MaskedEntity): seq<PathValue>
  {
    var paths := GetEntityPaths(m.entity);
    EntityToPathValueList(m.entity, FilterAllowed(m.paths.allowed, paths))
  }

  /** Every pair of a slot comes from a path of the slot's entity that the
      slot's `allowed` list keeps, and carries the string, number or boolean
      found there; conversely every such path yields a pair; the pairs follow
      the entity's path order. */
  lemma SlotPathValuesAllowed(m: MaskedEntity)
    ensures forall pv :: pv in SlotPathValues(m) ==>
              pv.path in GetEntityPaths(m.entity)
              && KeepPathInAllowList(m.paths.allowed, Render(pv.path))
              && Get(m.entity, pv.path) == Some(AsJson(pv.value))
    ensures forall p :: p in PathsOf(SlotPathValues(m)) <==>
              p in GetEntityPaths(m.entity)
              && KeepPathInAllowList(m.paths.allowed, Render(p))
              && IsSimplePrimitive(Get(m.entity, p))
    ensures Subsequence(PathsOf(SlotPathValues(m)), GetEntityPaths(m.entity))
  {
    var paths := GetEntityPaths(m.entity);
    var allowedPaths := FilterAllowed(m.paths.allowed, paths);
    FlattenSound(m.entity, allowedPaths);
    SubsequenceTrans(PathsOf(SlotPathValues(m)), allowedPaths, paths);
  }

  // ---------------------------------------------------------------------------
  // The composers
  // ---------------------------------------------------------------------------

  /** composeEntity: dispatch on the arity tag. */
  function ComposeEntity(opts: ComposeEntityOpts): (r: Result<Json, PrismBeamError>)
    ensures r.Failure? ==> r.error.ComposeFailure?
    ensures r == Failure(ComposeFailure(Compose)) <==> opts.Unknown?
    ensures !opts.Unknown? && r.Success? ==> r.value.Obj? && Get(r.value, [Key("id")]) == Some(Str(opts.id))
  {
    match opts
    case Single(id, first) => ComposeSingleEntity(id, first)
    case Pair(id, first, second) => ComposePairEntity(id, first, second)
    case Triple(id, first, second, third) => ComposeTripleEntity(id, first, second, third)
    case Unknown(_) => Failure(ComposeFailure(Compose))
  }

  /** composeSingleEntity: fails only when the slot's supported check fails;
      otherwise an object whose id is the caller's. */
  function ComposeSingleEntity(id: string, first: MaskedEntity): (r: Result<Json, PrismBeamError>)
    ensures r.Failure? <==> FailsSupported(first)
    ensures r.Failure? ==> r.error == ComposeFailure(FirstSupported)
    ensures r.Success? ==> r.value.Obj? && Get(r.value, [Key("id")]) == Some(Str(id))
  {
    if FailsSupported(first) then Failure(ComposeFailure(FirstSupported))
    else Success(PathValueListToEntity(id, SlotPathValues(first)))
  }

  /** composePairEntity: the first slot is checked before the second, and a
      success is an object whose id is the caller's. */
  function ComposePairEntity(id: string, first: MaskedEntity, second: MaskedEntity): (r: Result<Json, PrismBeamError>)
    ensures r.Failure? <==> FailsSupported(first) || FailsSupported(second)
    ensures FailsSupported(first) ==> r == Failure(ComposeFailure(FirstSupported))
    ensures !FailsSupported(first) && FailsSupported(second) ==> r == Failure(ComposeFailure(SecondSupported))
    ensures r.Success? ==> r.value.Obj? && Get(r.value, [Key("id")]) == Some(Str(id))
  {
    if FailsSupported(first) then Failure(ComposeFailure(FirstSupported))
    else if FailsSupported(second) then Failure(ComposeFailure(SecondSupported))
    else Success(PathValueListToEntity(id, SlotPathValues(first) + SlotPathValues(second)))
  }

  /** composeTripleEntity: the slots are checked first to third, the
      earliest failure is reported, and a success is an object whose id is
      the caller's. */
  function ComposeTripleEntity(id: string, first: MaskedEntity, second: MaskedEntity, third: MaskedEntity)
    : (r: Result<Json, PrismBeamError>)
    ensures r.Failure? <==> FailsSupported(first) || FailsSupported(second) || FailsSupported(third)
    ensures FailsSupported(first) ==> r == Failure(ComposeFailure(FirstSupported))
    ensures !FailsSupported(first) && FailsSupported(second) ==> r == Failure(ComposeFailure(SecondSupported))
    ensures !FailsSupported(first) && !FailsSupported(second) && FailsSupported(third)
            ==> r == Failure(ComposeFailure(ThirdSupported))
    ensures r.Success? ==> r.value.Obj? && Get(r.value, [Key("id")]) == Some(Str(id))
  {
    if FailsSupported(first) then Failure(ComposeFailure(FirstSupported))
    else if FailsSupported(second) then Failure(ComposeFailure(SecondSupported))
    else if FailsSupported(third) then Failure(ComposeFailure(ThirdSupported))
    else Success(PathValueListToEntity(id, SlotPathValues(first) + SlotPathValues(second) + SlotPathValues(third)))
  }

  // ---------------------------------------------------------------------------
  // The same pipeline stated once for any number of slots
  // ---------------------------------------------------------------------------

  /** The slots of a request, in order. */
  function Slots(opts: ComposeEntityOpts): (r: seq<MaskedEntity>)
    ensures |r| <= 3 && (r == [] <==> opts.Unknown?)
    ensures opts.Single? ==> r == [opts.first]
    ensures opts.Pair? ==> r == [opts.first, opts.second]
    ensures opts.Triple? ==> r == [opts.first, opts.second, opts.third]
  {
    match opts
    case Single(_, first) => [first]
    case Pair(_, first, second) => [first, second]
    case Triple(_, first, second, third) => [first, second, third]
    case Unknown(_) => []
  }

  /** The error step of the slot at position `k`. */
  function SlotStep(k: nat): (r: ComposeStep)
    requires k < 3
    ensures r != Compose
    ensures k == 0 ==> r == FirstSupported
    ensures k == 1 ==> r == SecondSupported
    ensures k == 2 ==> r == ThirdSupported
  {
    if k == 0 then FirstSupported else if k == 1 then SecondSupported else ThirdSupported
  }

  /** The position of the first slot whose supported check fails, if any. */
  function FirstFailingSlot(slots: seq<MaskedEntity>): (r: Option<nat>)
    ensures r.Some? ==> r.value < |slots| && FailsSupported(slots[r.value])
                        && forall j :: 0 <= j < r.value ==> !FailsSupported(slots[j])
    ensures r.None? <==> forall j :: 0 <= j < |slots| ==> !FailsSupported(slots[j])
  {
    var checks := SlotChecks(slots);
    var r := FirstTrue(checks);
    assert forall j :: 0 <= j < |slots| ==> (checks[j] <==> FailsSupported(slots[j]));
    r
  }

  /** The outcome of each slot's supported check, in slot order. */
  function SlotChecks(slots: seq<MaskedEntity>): (r: seq<bool>)
    ensures |r| == |slots| && forall j :: 0 <= j < |slots| ==> r[j] == FailsSupported(slots[j])
  {
    seq(|slots|, j requires 0 <= j < |slots| => FailsSupported(slots[j]))
  }

  /** The position of the first `true`, if any. */
  function FirstTrue(flags: seq<bool>): (r: Option<nat>)
    ensures r.Some? ==> r.value < |flags| && flags[r.value] && forall j :: 0 <= j < r.value ==> !flags[j]
    ensures r.None? <==> forall j :: 0 <= j < |flags| ==> !flags[j]
  {
    if flags == [] then None
    else if flags[0] then Some(0)
    else
      var rest := FirstTrue(flags[1..]);
      assert forall j :: 1 <= j < |flags| ==> flags[j] == flags[1..][j - 1];
      if rest.Some? then Some(rest.value + 1) else None
  }

  /** Each slot's pairs, in slot order. */
  function SlotLists(slots: seq<MaskedEntity>): (r: seq<seq<PathValue>>)
    ensures |r| == |slots| && forall k :: 0 <= k < |slots| ==> r[k] == SlotPathValues(slots[k])
  {
    seq(|slots|, k requires 0 <= k < |slots| => SlotPathValues(slots[k]))
  }

  /** The pairs of all slots, first slot's first, each slot in its own order. */
  function MergedPathValues(slots: seq<MaskedEntity>): seq<PathValue>
  {
    Concat(SlotLists(slots))
  }

  /** The merged list of a request is its slots' pairs in slot order. */
  lemma MergedPathValuesOfSlots(opts: ComposeEntityOpts)
    ensures opts.Single? ==> MergedPathValues(Slots(opts)) == SlotPathValues(opts.first)
    ensures opts.Pair? ==> MergedPathValues(Slots(opts)) == SlotPathValues(opts.first) + SlotPathValues(opts.second)
    ensures opts.Triple? ==> MergedPathValues(Slots(opts))
                             == SlotPathValues(opts.first) + SlotPathValues(opts.second) + SlotPathValues(opts.third)
  {
    match opts
    case Single(_, first) =>
      assert SlotLists([first]) == [SlotPathValues(first)];
      ConcatOne(SlotPathValues(first));
    case Pair(_, first, second) =>
      var a, b := SlotPathValues(first), SlotPathValues(second);
      assert SlotLists([first, second]) == [a, b];
      ConcatThree(a, b, []);
    case Triple(_, first, second, third) =>
      var a, b, c := SlotPathValues(first), SlotPathValues(second), SlotPathValues(third);
      assert SlotLists([first, second, third]) == [a, b, c];
      ConcatThree(a, b, c);
    case Unknown(_) =>
  }

  lemma FirstFailingOne(a: MaskedEntity)
    ensures FirstFailingSlot([a]) == if FailsSupported(a) then Some(0) else None
  {
    assert SlotChecks([a]) == [FailsSupported(a)];
  }

  lemma FirstFailingTwo(a: MaskedEntity, b: MaskedEntity)
    ensures FirstFailingSlot([a, b])
         == if FailsSupported(a) then Some(0) else if FailsSupported(b) then Some(1) else None
  {
    var x, y := FailsSupported(a), FailsSupported(b);
    assert SlotChecks([a, b]) == [x, y];
    FirstTrueSmall(x, y, false);
  }

  lemma FirstFailingThree(a: MaskedEntity, b: MaskedEntity, c: MaskedEntity)
    ensures FirstFailingSlot([a, b, c])
         == if FailsSupported(a) then Some(0) else if FailsSupported(b) then Some(1)
            else if FailsSupported(c) then Some(2) else None
  {
    var x, y, z := FailsSupported(a), FailsSupported(b), FailsSupported(c);
    assert SlotChecks([a, b, c]) == [x, y, z];
    FirstTrueSmall(x, y, z);
  }

  lemma FirstTrueSmall(x: bool, y: bool, z: bool)
    ensures FirstTrue([z]) == if z then Some(0) else None
    ensures FirstTrue([y, z]) == if y then Some(0) else if z then Some(1) else None
    ensures FirstTrue([x, y, z]) == if x then Some(0) else if y then Some(1) else if z then Some(2) else None
  {
    assert [z][1..] == [];
    assert [y, z][1..] == [z];
    assert [x, y, z][1..] == [y, z];
  }

  /** composeEntity fails with step `compose` for an unknown kind; otherwise
      it fails with the step of the first slot whose supported check fails,
      and when none fails it rebuilds the merged pairs under the request's
      id. */
  lemma ComposeEntityMatchesSpec(opts: ComposeEntityOpts)
    ensures opts.Unknown? ==> ComposeEntity(opts) == Failure(ComposeFailure(Compose))
    ensures !opts.Unknown? && FirstFailingSlot(Slots(opts)).Some? ==>
              ComposeEntity(opts) == Failure(ComposeFailure(SlotStep(FirstFailingSlot(Slots(opts)).value)))
    ensures !opts.Unknown? && FirstFailingSlot(Slots(opts)).None? ==>
              ComposeEntity(opts) == Success(PathValueListToEntity(opts.id, MergedPathValues(Slots(opts))))
  {
    MergedPathValuesOfSlots(opts);
    match opts
    case Single(_, first) => FirstFailingOne(first);
    case Pair(_, first, second) => FirstFailingTwo(first, second);
    case Triple(_, first, second, third) => FirstFailingThree(first, second, third);
    case Unknown(_) =>
  }

  // ---------------------------------------------------------------------------
  // Properties
  // ---------------------------------------------------------------------------

  /** A known request succeeds exactly when no slot's supported check fails;
      in particular a request whose slots carry no supported list always
      succeeds. */
  lemma ComposeSucceedsIffChecksPass(opts: ComposeEntityOpts)
    requires !opts.Unknown?
    ensures ComposeEntity(opts).Success? <==> forall k :: 0 <= k < |Slots(opts)| ==> !FailsSupported(Slots(opts)[k])
    ensures (forall k :: 0 <= k < |Slots(opts)| ==> Slots(opts)[k].paths.supported.None?) ==> ComposeEntity(opts).Success?
  {
    ComposeEntityMatchesSpec(opts);
  }

  /** Fail fast: once the first slot fails its check, the later slots do not
      matter; once the second fails, the third does not. */
  lemma FailFastIgnoresLaterSlots(id: string, first: MaskedEntity, second: MaskedEntity, third: MaskedEntity,
                                  second': MaskedEntity, third': MaskedEntity)
    ensures FailsSupported(first) ==>
              ComposeEntity(Pair(id, first, second)) == ComposeEntity(Pair(id, first, second'))
              == ComposeEntity(Triple(id, first, second, third)) == ComposeEntity(Triple(id, first, second', third'))
              == Failure(ComposeFailure(FirstSupported))
    ensures !FailsSupported(first) && FailsSupported(second) ==>
              ComposeEntity(Triple(id, first, second, third)) == ComposeEntity(Triple(id, first, second, third'))
              == Failure(ComposeFailure(SecondSupported))
  {
  }

  /** A pair of the merged list comes from one of the slots. */
  lemma MergedMember(slots: seq<MaskedEntity>, pv: PathValue) returns (k: nat)
    requires pv in MergedPathValues(slots)
    ensures k < |slots| && pv in SlotPathValues(slots[k])
  {
    k := ConcatMember(SlotLists(slots), pv);
  }

  /** Nothing leaks: every string, number or boolean in a composed entity is
      the request's id under `id`, or sits at a path of some slot's entity
      that the slot's own `allowed` list keeps, with the same value. */
  lemma ComposedValuesAreAllowed(opts: ComposeEntityOpts, q: Path, y: Json)
    requires ComposeEntity(opts).Success?
    requires IsScalar(y) && y != Null && Get(ComposeEntity(opts).value, q) == Some(y)
    ensures !opts.Unknown?
    ensures (q == [Key("id")] && y == Str(opts.id))
         || exists k :: 0 <= k < |Slots(opts)|
              && q in GetEntityPaths(Slots(opts)[k].entity)
              && KeepPathInAllowList(Slots(opts)[k].paths.allowed, Render(q))
              && Get(Slots(opts)[k].entity, q) == Some(y)
  {
    ComposeEntityMatchesSpec(opts);
    var slots := Slots(opts);
    var pvs := MergedPathValues(slots);
    PathValueListToEntityProvenance(opts.id, pvs, q, y);
    if !(q == [Key("id")] && y == Str(opts.id)) {
      var i :| 0 <= i < |pvs| && pvs[i].path == q && AsJson(pvs[i].value) == y;
      var k := MergedMember(slots, pvs[i]);
      SlotPathValuesAllowed(slots[k]);
    }
  }

  /** Two pairs of one slot at the same path carry the same value; pairs at
      different paths of one slot are at independent paths. */
  lemma SlotPairsCompatible(m: MaskedEntity, a: PathValue, b: PathValue)
    requires a in SlotPathValues(m) && b in SlotPathValues(m)
    ensures (a.path == b.path && a.value == b.value) || Independent(a.path, b.path)
  {
    SlotPathValuesAllowed(m);
    if a.path != b.path {
      ScalarPathsIndependent(m.entity, a.path, b.path);
    }
  }

  /** In a merged list that ends with one slot's pairs, every pair after one
      of that slot's pairs is compatible with it. */
  lemma LaterPairsCompatible(earlier: seq<PathValue>, m: MaskedEntity, i: nat)
    requires i < |SlotPathValues(m)|
    ensures var pvs, at := earlier + SlotPathValues(m), |earlier| + i;
            forall j :: at < j < |pvs| ==>
              (pvs[j].path == pvs[at].path && pvs[j].value == pvs[at].value) || Independent(pvs[j].path, pvs[at].path)
  {
    var last := SlotPathValues(m);
    var pvs, at := earlier + last, |earlier| + i;
    forall j | at < j < |pvs|
      ensures (pvs[j].path == pvs[at].path && pvs[j].value == pvs[at].value) || Independent(pvs[j].path, pvs[at].path)
    {
      assert pvs[j] == last[j - |earlier|] && pvs[at] == last[i];
      SlotPairsCompatible(m, last[j - |earlier|], last[i]);
    }
  }

  /** Last write wins by slot order: a value the last slot contributes at a
      path that starts with a key other than `id` is what the composed
      entity holds there, whatever the earlier slots hold at that path. */
  lemma LastSlotWins(opts: ComposeEntityOpts, q: Path)
    requires ComposeEntity(opts).Success? && !opts.Unknown?
    requires q in PathsOf(SlotPathValues(Slots(opts)[|Slots(opts)| - 1]))
    requires Independent([Key("id")], q)
    ensures Get(ComposeEntity(opts).value, q) == Get(Slots(opts)[|Slots(opts)| - 1].entity, q)
  {
    var slots := Slots(opts);
    var n := |slots| - 1;
    ComposeEntityMatchesSpec(opts);
    MergedLast(slots);
    RebuiltKeepsLastSlot(opts.id, MergedPathValues(slots[..n]), slots[n], q);
  }

  /** Rebuilding a list that ends with a slot's pairs keeps that slot's
      values at its paths that start with a key other than `id`. */
  lemma RebuiltKeepsLastSlot(id: string, earlier: seq<PathValue>, m: MaskedEntity, q: Path)
    requires q in PathsOf(SlotPathValues(m))
    requires Independent([Key("id")], q)
    ensures Get(PathValueListToEntity(id, earlier + SlotPathValues(m)), q) == Get(m.entity, q)
  {
    var last := SlotPathValues(m);
    var pvs := earlier + last;
    var i :| 0 <= i < |last| && last[i].path == q;
    var y := AsJson(last[i].value);
    assert Get(m.entity, q) == Some(y) by {
      SlotPathValuesAllowed(m);
      assert last[i] in last;
    }
    assert Get(SetAll(Obj([]), pvs), q) == Some(y) by {
      LaterPairsCompatible(earlier, m, i);
      assert pvs[|earlier| + i] == last[i];
      SetAllLastWrite(Obj([]), pvs, |earlier| + i);
    }
    SetPathPreserves(SetAll(Obj([]), pvs), [Key("id")], Str(id), q, y);
  }


  /** The merged list is the pairs of every slot but the last, then the
      last slot's pairs. */
  lemma MergedLast(slots: seq<MaskedEntity>)
    requires slots != []
    ensures MergedPathValues(slots)
            == MergedPathValues(slots[..|slots| - 1]) + SlotPathValues(slots[|slots| - 1])
  {
    var n, lists := |slots| - 1, SlotLists(slots);
    ConcatLast(lists);
    assert lists[..n] == SlotLists(slots[..n]);
  }

  // ---------------------------------------------------------------------------
  // Worked example: one slot whose allowed list is narrower than its
  // supported list
  // ---------------------------------------------------------------------------

  /** `{f: {g: {h: 1}}, a: {b: {c: 2}}}` */
  function ExampleEntity(): Json
  {
    Obj([Member("f", Obj([Member("g", Obj([Member("h", Num(1))]))])),
         Member("a", Obj([Member("b", Obj([Member("c", Num(2))]))]))])
  }

  const FGH: Path := [Key("f"), Key("g"), Key("h")]
  const ABC: Path := [Key("a"), Key("b"), Key("c")]

  /** The leaf paths of a one-member object whose value has one leaf path. */
  lemma OneMemberLeaves(k: string, v: Json, q: Path)
    requires Leaves(v) == [q]
    ensures Leaves(Obj([Member(k, v)])) == [[Key(k)] + q]
  {
    var fields := [Member(k, v)];
    assert fields[1..] == [];
    assert FieldLeaves(fields) == Under(Key(k), [q]) + FieldLeaves([]);
  }

  lemma ExampleEntityPaths()
    ensures GetEntityPaths(ExampleEntity()) == [FGH, ABC]
  {
    var h, c := Obj([Member("h", Num(1))]), Obj([Member("c", Num(2))]);
    OneMemberLeaves("h", Num(1), []);
    OneMemberLeaves("c", Num(2), []);
    assert [Key("h")] + [] == [Key("h")] && [Key("c")] + [] == [Key("c")];
    OneMemberLeaves("g", h, [Key("h")]);
    OneMemberLeaves("b", c, [Key("c")]);
    var g, b := Obj([Member("g", h)]), Obj([Member("b", c)]);
    assert [Key("g")] + [Key("h")] == [Key("g"), Key("h")];
    assert [Key("b")] + [Key("c")] == [Key("b"), Key("c")];
    var fields := ExampleEntity().fields;
    assert fields[1..][1..] == [];
    assert [Key("a")] + [Key("b"), Key("c")] == ABC;
    assert [Key("f")] + [Key("g"), Key("h")] == FGH;
    assert FieldLeaves(fields[1..]) == Under(Key("a"), [[Key("b"), Key("c")]]) + FieldLeaves([]);
    assert FieldLeaves(fields[1..]) == [ABC];
    assert FieldLeaves(fields) == Under(Key("f"), [[Key("g"), Key("h")]]) + [ABC];
  }

  lemma ExampleRenders()
    ensures Render(FGH) == "f.g.h" && Render(ABC) == "a.b.c"
    ensures ShapeOk(FGH) && ShapeOk(ABC)
  {
    ExampleLiterals();
    assert Render(FGH) == "f.g.h" && ShapeOk(FGH) by {
      ExampleRender("f", "g", "h");
    }
    assert Render(ABC) == "a.b.c" && ShapeOk(ABC) by {
      ExampleRender("a", "b", "c");
    }
  }

  lemma ExampleLiterals()
    ensures "f" + "." + "g" + "." + "h" == "f.g.h" && "a" + "." + "b" + "." + "c" == "a.b.c"
  {
  }

  lemma ExampleRender(k1: string, k2: string, k3: string)
    requires |k1| == |k2| == |k3| == 1 && IsNameChar(k1[0]) && IsNameChar(k2[0]) && IsNameChar(k3[0])
    ensures Render([Key(k1), Key(k2), Key(k3)]) == k1 + "." + k2 + "." + k3
    ensures ShapeOk([Key(k1), Key(k2), Key(k3)])
  {
    PlainRender(k1, k2, k3);
    PlainShape(k1, k2, k3);
  }

  lemma ExampleKept(allowList: set<string>)
    ensures KeepPathInAllowList(allowList, Render(FGH)) <==> "f.g.h" in allowList
    ensures KeepPathInAllowList(allowList, Render(ABC)) <==> "a.b.c" in allowList
  {
    ExampleRenders();
    PlainPathKept(allowList, FGH);
    PlainPathKept(allowList, ABC);
  }

  const ExampleSlotPaths := SlotPaths(Some({"f.g.h", "a.b.c"}), {"a.b.c"})

  /** Every path of the example entity is on the supported list. */
  lemma ExampleSupported()
    ensures !FailsSupported(MaskedEntity(ExampleEntity(), ExampleSlotPaths))
  {
    var supported := {"f.g.h", "a.b.c"};
    ExampleRendered();
    assert KeepPathInAllowList(supported, Render(FGH)) && KeepPathInAllowList(supported, Render(ABC)) by {
      ExampleKept(supported);
    }
    TwoKept(supported, Render(FGH), Render(ABC));
  }

  lemma ExampleRendered()
    ensures RenderAll(GetEntityPaths(ExampleEntity())) == [Render(FGH), Render(ABC)]
  {
    ExampleEntityPaths();
  }

  lemma TwoKept(allowList: set<string>, a: string, b: string)
    requires KeepPathInAllowList(allowList, a) && KeepPathInAllowList(allowList, b)
    ensures ArePathsInAllowList(allowList, [a, b])
  {
    var l := [a, b];
    assert l[0] == a && l[1] == b;
  }

  /** Only `a.b.c` is on the allowed list. */
  lemma ExampleFilter()
    ensures FilterAllowed({"a.b.c"}, [FGH, ABC]) == [ABC]
  {
    ExampleKept({"a.b.c"});
    var paths := [FGH, ABC];
    assert paths[1..] == [ABC] && paths[1..][1..] == [];
    assert FilterAllowed({"a.b.c"}, paths[1..]) == [ABC] + FilterAllowed({"a.b.c"}, []);
  }

  /** With supported `{f.g.h, a.b.c}` and allowed `{a.b.c}`, the slot passes
      its check and contributes only the pair for `a.b.c`. */
  lemma ExampleSlot()
    ensures var m := MaskedEntity(ExampleEntity(), ExampleSlotPaths);
            !FailsSupported(m) && SlotPathValues(m) == [PathValue(ABC, PNum(2))]
  {
    ExampleSupported();
    ExampleEntityPaths();
    ExampleFilter();
    ExampleFlatten();
  }

  lemma ExampleFlatten()
    ensures EntityToPathValueList(ExampleEntity(), [ABC]) == [PathValue(ABC, PNum(2))]
  {
    var e, abc: seq<Path> := ExampleEntity(), [ABC];
    assert Get(e, ABC) == Some(Num(2));
    FlattenCons(e, abc);
    assert abc[1..] == [];
  }

  /** Rebuilding the pair for `a.b.c` nests it under fresh objects and adds
      the id after it. */
  lemma ExampleRebuild(id: string)
    ensures PathValueListToEntity(id, [PathValue(ABC, PNum(2))])
         == Obj([Member("a", Obj([Member("b", Obj([Member("c", Num(2))]))])), Member("id", Str(id))])
  {
    var pv := PathValue(ABC, PNum(2));
    var built := Obj([Member("a", Obj([Member("b", Obj([Member("c", Num(2))]))]))]);
    assert SetAll(Obj([]), [pv]) == built by {
      ExampleSetPath();
      assert [pv][1..] == [];
    }
    assert PathValueListToEntity(id, [pv]) == Obj(PutField(built.fields, "id", Str(id))) by {
      assert [Key("id")][1..] == [];
    }
    TwoElements(built.fields[0], Member("id", Str(id)));
    assert FindKey(built.fields, "id").None? by {
      assert "a" != "id";
      assert built.fields[1..] == [];
    }
    PutFieldNew(built.fields, "id", Str(id));
  }

  lemma TwoElements<T>(x: T, y: T)
    ensures [x] + [y] == [x, y]
  {
  }

  lemma ExampleSetPath()
    ensures SetPath(Obj([]), ABC, Num(2)) == Obj([Member("a", Obj([Member("b", Obj([Member("c", Num(2))]))]))])
  {
    assert ABC[1..] == [Key("b"), Key("c")] && ABC[1..][1..] == [Key("c")] && ABC[1..][1..][1..] == [];
    assert SetPath(Null, [Key("c")], Num(2)) == Obj([Member("c", Num(2))]);
    assert SetPath(Null, [Key("b"), Key("c")], Num(2)) == Obj([Member("b", Obj([Member("c", Num(2))]))]);
  }

  /** The worked example: the single-slot composition succeeds and its output
      holds only `a.b.c` (value 2) and the id; `f.g.h` passed the supported
      check but is dropped by the allowed list. */
  lemma ExampleSingleSlotCompose(id: string)
    ensures ComposeEntity(Single(id, MaskedEntity(ExampleEntity(), ExampleSlotPaths)))
            == Success(Obj([Member("a", Obj([Member("b", Obj([Member("c", Num(2))]))])), Member("id", Str(id))]))
  {
    ExampleSlot();
    ExampleRebuild(id);
  }

  // ---------------------------------------------------------------------------
  // The supported check as the composers call it
  // ---------------------------------------------------------------------------

  /** The JavaScript values the composers' supported check can see: a
      boolean, or a function value, which is always truthy. */
  datatype JsValue = JsBoolean(b: bool) | JsFunction

  predicate Truthy(v: JsValue)
  {
    v.JsFunction? || v.b
  }

  /** arePathsInAllowList is curried: given the allow-list it returns the
      predicate over path lists. The composers pass the list and the paths
      in one call, so the paths are an ignored extra argument and the call
      yields that predicate, a function value. */
  function CallWithTwoArguments(allowList: set<string>, paths: seq<string>): JsValue
  {
    JsFunction
  }

  /** The supported check as the composers write it:
      `supported && !arePathsInAllowList(supported, paths)`. */
  predicate FailsSupportedAsWritten(m: MaskedEntity)
  {
    m.paths.supported.Some?
    && !Truthy(CallWithTwoArguments(m.paths.supported.value, RenderAll(GetEntityPaths(m.entity))))
  }

  /** composeEntity with the supported check as written; everything else is
      as in ComposeEntity. */
  function ComposeEntityAsWritten(opts: ComposeEntityOpts): Result<Json, PrismBeamError>
  {
    match opts
    case Single(id, first) =>
      if FailsSupportedAsWritten(first) then Failure(ComposeFailure(FirstSupported))
      else Success(PathValueListToEntity(id, SlotPathValues(first)))
    case Pair(id, first, second) =>
      if FailsSupportedAsWritten(first) then Failure(ComposeFailure(FirstSupported))
      else if FailsSupportedAsWritten(second) then Failure(ComposeFailure(SecondSupported))
      else Success(PathValueListToEntity(id, SlotPathValues(first) + SlotPathValues(second)))
    case Triple(id, first, second, third) =>
      if FailsSupportedAsWritten(first) then Failure(ComposeFailure(FirstSupported))
      else if FailsSupportedAsWritten(second) then Failure(ComposeFailure(SecondSupported))
      else if FailsSupportedAsWritten(third) then Failure(ComposeFailure(ThirdSupported))
      else Success(PathValueListToEntity(id, SlotPathValues(first) + SlotPathValues(second) + SlotPathValues(third)))
    case Unknown(_) => Failure(ComposeFailure(Compose))
  }

  /** As written, the supported lists never refuse anything: every known
      request succeeds with the merged pairs of its slots, whatever paths its
      entities have. */
  lemma AsWrittenNeverRefuses(opts: ComposeEntityOpts)
    ensures ComposeEntityAsWritten(opts).Failure? <==> opts.Unknown?
    ensures !opts.Unknown? ==>
              ComposeEntityAsWritten(opts) == Success(PathValueListToEntity(opts.id, MergedPathValues(Slots(opts))))
  {
    MergedPathValuesOfSlots(opts);
    match opts
    case Single(_, first) =>
      assert !FailsSupportedAsWritten(first);
    case Pair(_, first, second) =>
      assert !FailsSupportedAsWritten(first) && !FailsSupportedAsWritten(second);
    case Triple(_, first, second, third) =>
      assert !FailsSupportedAsWritten(first) && !FailsSupportedAsWritten(second) && !FailsSupportedAsWritten(third);
    case Unknown(_) =>
  }

  /** A slot whose entity has `a.b.c`, under a supported list holding only
      `f.g.h`. */
  function UnsupportedSlot(): MaskedEntity
  {
    MaskedEntity(ExampleEntity(), SlotPaths(Some({"f.g.h"}), {"a.b.c"}))
  }

  /** The input that shows the difference: the evaluated check refuses the
      slot with step `compose/first/supported`, while the check as written
      lets it through. */
  lemma UnsupportedSlotAsWritten(id: string)
    ensures ComposeEntity(Single(id, UnsupportedSlot())) == Failure(ComposeFailure(FirstSupported))
    ensures ComposeEntityAsWritten(Single(id, UnsupportedSlot())).Success?
  {
    UnsupportedSlotFails();
  }

  lemma UnsupportedSlotFails()
    ensures FailsSupported(UnsupportedSlot())
  {
    var rendered := RenderAll(GetEntityPaths(ExampleEntity()));
    ExampleRendered();
    ExampleKept({"f.g.h"});
    assert rendered[1] == Render(ABC);
  }
}
