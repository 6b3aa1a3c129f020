# lunar-multiple-prism-beam: the entity composer, in Dafny

This project models the composition pipeline of lunar-multiple-prism-beam.
`composeEntity` merges one, two or three *masked* source entities into a new
entity under an id the caller gives. Each source comes with two allow-lists:

- `supported`, optional: every leaf path the source may contain;
- `allowed`: the leaf paths actually copied.

For each slot, in order, the pipeline does the following:

1. Enumerate the entity's leaf paths (`getEntityPaths`, which is dot-prop
   `deepKeys`).
2. When a `supported` list is given, check the paths against it. The first
   slot that fails ends the call with that slot's error step.
3. Filter the paths through the slot's `allowed` list
   (`keepPathInAllowList`).
4. Flatten the entity over the kept paths to path/value pairs whose values
   are strings, numbers or booleans (`entityToPathValueList`).

The pair lists are then concatenated in slot order and rebuilt into a nested
object. Finally `id` is set to the caller's id (`pathValueListToEntity`).

Modules:

- `DotProp`: the dot-prop functions the core calls, over a JSON datatype and
  paths as key/index segment sequences. It covers lookup (`getProperty`),
  leaf enumeration (`deepKeys`), the string form of a path (`a.b[3].c`) and
  assignment.
- `PrismBeamModel`: the path/value pair and the error record with its step
  tags.
- `Guards`: `isSimplePrimitive` and `isPrismBeamBaseEntity`.
- `PathUtils`: `getEntityPaths` and the allow-list checks. A candidate is kept
  only when it is well formed and its normalised form is listed. Normalising
  writes each `[digits]` subscript as `*`.
- `PathValueUtils`: the flattener, reconstruction and the round trip.
- `EntityComposer`: `composeEntity` and its three composers. They are also
  restated once over a list of slots; the properties are proved over that
  list.
- `Seqs`, `Wrappers`: subsequences, list concatenation, `Option` and `Result`.

The allow-list functions are known here only through their tests, and two
choices follow from those tests:

- A malformed candidate fails the check. A candidate with a space or a `*`
  makes `arePathsInAllowList` false (test/path-utils.test.ts:19-20).
- The wildcard is a bare `*`. The candidate `f.i[9999].a.b` is accepted
  against the entry `f.i*.a.b` (test/path-utils.test.ts:12).

The tests call `arePathsInAllowList` curried: `arePathsInAllowList(list)`
returns the predicate over path lists (test/path-utils.test.ts:5). The
composers call it with both arguments at once
(src/entity-composer.ts:73, 102, 113, 155, 166, 177). Read that way, the call
returns a function value, which is truthy, so no supported check ever fails.
`ComposeEntity` models the evidently intended reading, in which the predicate
is applied to the paths. The reading as written is under "## Findings".

## Model

| member | source | states |
|---|---|---|
| `Guards.AsPrimitive` | src/guards.ts:3-8 | a value that passes `isSimplePrimitive` narrows to a string, number or boolean and is exactly that primitive |
| `Guards.IsSimplePrimitiveExactly` | src/guards.ts:3-8 | `isSimplePrimitive` holds exactly of defined strings, numbers and booleans; undefined, null, objects and arrays fail it |
| `PrismBeamModel.ComposeStepTagsDistinct` | src/prism-beam-model.ts:84-88 | the four composition step tags are pairwise different, so the tag identifies the failing slot |
| `DotProp.FindKey` | src/path-value-utils.ts:12 | a member lookup is absent exactly when no member has the key, and otherwise returns the value of a member with that key |
| `DotProp.GetAppend` | src/path-value-utils.ts:12 | `getProperty` along a longer path is the lookup of the rest in what the prefix finds, and is undefined whenever the prefix lookup is |
| `DotProp.DeepKeysAreLeaves` | src/path-utils.ts:4 | a path is listed by `getEntityPaths` (dot-prop `deepKeys`) of an entity with distinct keys exactly when it is non-empty and its lookup gives a string, number, boolean or null |
| `DotProp.DeepKeysNoDup` | src/path-utils.ts:4 | `getEntityPaths` of an entity with distinct keys lists each leaf path once |
| `DotProp.LeavesResolve` | src/path-utils.ts:4 | every enumerated leaf path resolves to a scalar |
| `DotProp.LeavesComplete` | src/path-utils.ts:4 | every path that resolves to a scalar is enumerated |
| `DotProp.PutField` | src/entity-composer.ts:90 | after assigning key `k`, lookup of `k` gives the new value and lookup of every other key is unchanged |
| `DotProp.PutFieldSame` | test/path-value-utils.test.ts:20-21 | assigning a member the value it already has leaves the member list unchanged |
| `DotProp.PutFieldNew` | src/entity-composer.ts:90 | assigning a key the object lacks appends one member at the end |
| `DotProp.PutFieldTwice` | src/entity-composer.ts:139-142 | a second assignment to the same key replaces the first in place |
| `DotProp.SetPathHit` | src/entity-composer.ts:90 | after dot-prop assignment of a value at a path, lookup at that path gives the value |
| `DotProp.SetPathProvenance` | src/entity-composer.ts:90 | after assigning a scalar at `p`, a non-null scalar found at `q` was either assigned (`q == p`) or was already at `q` |
| `DotProp.SetPathPreserves` | src/entity-composer.ts:139-142 | assigning at a path leaves the value at every independent path unchanged |
| `DotProp.IndexOverObjectDiscards` | src/entity-composer.ts:139-142 | assignment replaces a container of the wrong kind: once `a.b` is set, setting `a[0]` leaves no `a.b` |
| `DotProp.ScalarPathsIndependent` | src/entity-composer.ts:139-142 | two different paths that both lead to scalars of one entity are independent |
| `DotProp.Escape` | src/path-utils.ts:4 | escaping keeps every character of the key; a key without `\`, `.` and `[` is its own escape, and one with any of them gains a backslash |
| `DotProp.NatToString` | src/path-utils.ts:4 | an index renders as a non-empty run of decimal digits, with at most four digits below 10000 |
| `DotProp.NatToStringValue` | src/path-utils.ts:4 | the digits an index renders as read back as that index, with no leading zero |
| `DotProp.RenderKeepsKeyChars` | src/path-utils.ts:4 | every character of every escaped key appears in the path's string form |
| `PathUtils.SplitOnCovers` | test/path-utils.test.ts:19 | every character other than the separator lies in one of the pieces of a split |
| `PathUtils.WellFormedChars` | test/path-utils.test.ts:19-20 | a candidate that passes the well-formedness test holds only letters, digits, `_`, `.`, `[` and `]` |
| `PathUtils.KeptPathsAreClean` | test/path-utils.test.ts:30-32 | a candidate `keepPathInAllowList` keeps contains no space, no `*` and no character outside the path alphabet, whatever the allow-list |
| `PathUtils.ForeignKeyNeverKept` | test/path-utils.test.ts:31 | a leaf whose key holds a space, `*`, `.`, `[`, `\` or any other character outside ASCII letters, digits, `_` and `]` is never kept, whatever the allow-list; a key holding `]` is not covered by this lemma |
| `PathUtils.NormalizeRender` | test/path-utils.test.ts:12 | normalising the string form of a path whose keys are names gives its shape, with every index written `*` |
| `PathUtils.NormalizeIdempotent` | test/path-utils.test.ts:11-14 | the normalised form used for matching is stable: normalising any string twice gives the same as normalising it once, so no subscript survives and none is formed |
| `PathUtils.WellFormedRender` | test/path-utils.test.ts:12 | every path of plain name keys, each followed by at most one index below 10000, renders to a well-formed string |
| `PathUtils.IndexBlind` | test/path-utils.test.ts:11-14 | `keepPathInAllowList` keeps or refuses together two admitted paths that differ only in their indices |
| `PathUtils.ArePathsInAllowListSplit` | test/path-utils.test.ts:9-20 | `arePathsInAllowList` accepts the empty list, accepts a list exactly when `keepPathInAllowList` keeps its head and it accepts the rest, and splits over concatenation, so one refused candidate refuses every list holding it |
| `PathUtils.PlainPathKept` | test/path-utils.test.ts:24-25 | `keepPathInAllowList` keeps a path of plain keys exactly when its string form is listed |
| `PathUtils.IndexedTestPathKept` | test/path-utils.test.ts:26 | `f.i[n].a.b` is kept by the test allow-list for every index `n` below 10000 |
| `PathUtils.TestIndexedPathsKept` | test/path-utils.test.ts:26 | `f.i[6].a.b`, `f.i[999].a.b` and `f.i[9999].a.b` are kept |
| `PathUtils.TestListedPathsKept` | test/path-utils.test.ts:24-25 | `f.g.h` and `a.b.c` are kept |
| `PathUtils.TestWrongPathRefused` | test/path-utils.test.ts:30 | `wrong.path` is not kept |
| `PathUtils.TestUnsafePaths` | test/path-utils.test.ts:31-32 | `unsafe path` and `f.i*.a.b` are not kept, although the latter is itself listed |
| `PathUtils.TestGoodPathLists` | test/path-utils.test.ts:9-10 | the lists `[f.g.h]` and `[f.g.h, a.b.c]` pass `arePathsInAllowList` |
| `PathUtils.TestGoodIndexedPathList` | test/path-utils.test.ts:11-14 | the list of `a.b.c` and the three indexed candidates passes `arePathsInAllowList` |
| `PathUtils.TestBadPathLists` | test/path-utils.test.ts:18-20 | one unlisted, spaced or starred candidate makes the whole list fail |
| `PathValueUtils.GetAsPathValueOrNot` | src/path-value-utils.ts:8-14 | a pair is returned exactly when the lookup is a string, number or boolean; it carries the input path and the value found there |
| `PathValueUtils.KeepDefined` | src/path-value-utils.ts:20 | the filter keeps exactly the defined candidates and never lengthens the list |
| `PathValueUtils.KeepDefinedDropsOnlyUndefined` | src/guards.ts:9-12 | filtering with `isPrismBeamBaseEntity` keeps the whole list exactly when every candidate is defined |
| `PathValueUtils.FlattenSound` | src/path-value-utils.ts:16-20 | `entityToPathValueList`: each pair carries an input path and its value; a path is emitted exactly when its value is a string, number or boolean; emitted paths keep input order, with at most one pair per input entry |
| `PathValueUtils.FlattenNoDup` | src/path-value-utils.ts:16-20 | over duplicate-free paths, such as an entity's own `getEntityPaths`, `entityToPathValueList` gives at most one pair per path |
| `PathValueUtils.FlattenLeaves` | src/path-value-utils.ts:16-20 | flattening an entity over its own leaf paths gives its pairs built by structure |
| `PathValueUtils.PathValueListToEntity` | src/entity-composer.ts:90 | the rebuilt entity is an object whose `id` is the caller's id |
| `PathValueUtils.SetAllProvenance` | src/entity-composer.ts:139-142 | every non-null scalar after the assignments was there before or was assigned by some pair at that very path |
| `PathValueUtils.SetAllLastWrite` | src/entity-composer.ts:139-142 | a pair's value survives all later assignments that are to the same path with the same value or to independent paths |
| `PathValueUtils.PathValueListToEntityProvenance` | src/entity-composer.ts:90 | every non-null scalar of a rebuilt entity is the caller's id under `id` or the value of some pair at that path |
| `PathValueUtils.SetAllFields` | test/path-value-utils.test.ts:20-21 | assigning the pairs of members with new, distinct keys appends those members in order |
| `PathValueUtils.SetAllItems` | test/path-value-utils.test.ts:16 | assigning the pairs of items from the current length appends those items in order |
| `PathValueUtils.RoundTrip` | test/path-value-utils.test.ts:9-21 | for any object without nulls or empty containers and with distinct keys, flattening over all its `deepKeys` paths and rebuilding under an id gives the object back with `id` set to that id: replaced in place when present, appended otherwise; an object whose `id` already is that id comes back unchanged |
| `PathValueUtils.TestRoundTrip` | test/path-value-utils.test.ts:10-21 | the round-trip test's entity comes back unchanged |
| `PathValueUtils.NullLeafIsLost` | src/path-value-utils.ts:13 | a null leaf is dropped by flattening, so `{id: "x", note: null}` does not come back |
| `EntityComposer.FilterAllowed` | src/entity-composer.ts:82-84 | the filter keeps exactly the paths whose string form the `allowed` list keeps, as a subsequence of the input |
| `EntityComposer.SlotPathValuesAllowed` | src/entity-composer.ts:82-89 | every pair of a slot has a path of the slot's entity that the slot's own `allowed` list keeps, with the value found there; every such path with a primitive value yields a pair; pairs follow path order |
| `EntityComposer.ComposeEntity` | src/entity-composer.ts:44-64 | failures are composition failures; the step is `compose` exactly for an unknown kind; a success is an object whose `id` is `opts.id` |
| `EntityComposer.ComposeSingleEntity` | src/entity-composer.ts:66-92 | fails exactly when the slot's supported check fails, with step `compose/first/supported`; a success is an object whose `id` is the caller's |
| `EntityComposer.ComposePairEntity` | src/entity-composer.ts:94-144 | fails exactly when a slot's supported check fails, reporting the first slot before the second; a success is an object whose `id` is the caller's |
| `EntityComposer.ComposeTripleEntity` | src/entity-composer.ts:146-216 | fails exactly when a slot's supported check fails, reporting the earliest failing slot's step; a success is an object whose `id` is the caller's |
| `EntityComposer.Slots` | src/entity-composer.ts:24-42 | a `single` request has its one slot, a `pair` its two and a `triple` its three, in order; a request has no slot exactly when its kind is unknown |
| `EntityComposer.SlotStep` | src/prism-beam-model.ts:84-88 | the first, second and third slots report `compose/first/supported`, `compose/second/supported` and `compose/third/supported`, never the generic `compose` |
| `EntityComposer.FirstFailingSlot` | src/entity-composer.ts:153-184 | the first slot whose supported check fails, with every earlier slot passing; none exactly when every slot passes |
| `EntityComposer.MergedPathValuesOfSlots` | src/entity-composer.ts:139-142 | the merged list is the first slot's pairs, then the second's, then the third's |
| `EntityComposer.ComposeEntityMatchesSpec` | src/entity-composer.ts:66-216 | an unknown kind fails with `compose`; otherwise the first failing slot's step is returned; with no failure the merged pairs are rebuilt under `opts.id` |
| `EntityComposer.ComposeSucceedsIffChecksPass` | src/entity-composer.ts:153-215 | a known request succeeds exactly when every slot passes its supported check; slots without a supported list always pass |
| `EntityComposer.FailFastIgnoresLaterSlots` | src/entity-composer.ts:100-120 | once the first slot fails, the later slots do not change the result; once the second fails, the third does not |
| `EntityComposer.MergedMember` | src/entity-composer.ts:210-214 | every merged pair comes from one of the slots |
| `EntityComposer.ComposedValuesAreAllowed` | src/entity-composer.ts:186-215 | every non-null scalar of a composed entity is `opts.id` under `id`, or sits at a path of some slot's entity that the slot's `allowed` list keeps, with the same value |
| `EntityComposer.SlotPairsCompatible` | src/entity-composer.ts:82-89 | two pairs of one slot at the same path carry the same value; at different paths they are independent |
| `EntityComposer.LastSlotWins` | src/entity-composer.ts:139-142 | at a path the last slot contributes, the composed entity holds the last slot's value, whatever the earlier slots hold there |
| `EntityComposer.RebuiltKeepsLastSlot` | src/entity-composer.ts:210-214 | rebuilding a list that ends with a slot's pairs keeps that slot's values at its paths that start with a key other than `id` |
| `EntityComposer.MergedLast` | src/entity-composer.ts:210-214 | the merged list is the pairs of every slot but the last, then the last slot's pairs |
| `EntityComposer.ExampleSlot` | src/entity-composer.ts:71-89 | with supported `{f.g.h, a.b.c}` and allowed `{a.b.c}`, the example slot passes its check and contributes only the pair for `a.b.c` |
| `EntityComposer.ExampleSingleSlotCompose` | src/entity-composer.ts:66-92 | the single-slot composition of the example gives `{a: {b: {c: 2}}, id}` |
| `EntityComposer.AsWrittenNeverRefuses` | src/entity-composer.ts:71-80 | with the supported check evaluated as the composers write it, every known request succeeds with its merged pairs, whatever its entities' paths |
| `EntityComposer.UnsupportedSlotAsWritten` | src/entity-composer.ts:71-80 | an entity with `a.b.c` under supported list `{f.g.h}` is refused with `compose/first/supported` by the evaluated check, and passes the check as written |

## Left out

- The zod schemas and faora-kai string validators of src/prism-beam-model.ts
  are library validation. Only the pair, the entity and the error steps are
  modelled.
- Schema validation of the output: the `*/validate-output` and
  `*/validate-entity` steps have their datatype, but no code produces them.
- Error message strings and `finalMessage`: only the step tag is modelled.
- JavaScript numbers are only copied, never computed on. An `int` stands for
  them, with no floating-point behaviour.
- dot-prop is modelled, not transcribed. Lookup, leaf enumeration and
  assignment work on segment paths, so the library's parsing of path strings
  is not part of this model. The string form is used only for allow-list
  matching.
- `arePathsInAllowList` and `keepPathInAllowList` are known only from
  test/path-utils.test.ts, so their grammar here is an assumption. A
  well-formed path is dot-separated segments. Each segment is a name of
  letters, digits and `_`, optionally followed by one subscript of one to four
  digits.
- `pathValueListToEntity` and `entityToPathValueList` are not shown. They are
  defined here:
  - reconstruction assigns the pairs in order into an empty object, then sets
    `id`;
  - the flattener is `getEntityAsPathObject` (src/path-value-utils.ts:16-20).
- `deepKeys` on an empty object or array yields no path here. This is an
  assumption about dot-prop, not taken from the library: dot-prop's own
  `deepKeys` may list an empty object or array as a path of its own. So here
  an empty container is never checked against a `supported` list:
  `{id, secret: {}}` passes a list that names only `id`, where the library
  could report `secret` and fail the check.
- `DotProp.SetPath`, the model of dot-prop assignment, has three behaviours
  of its own:
  - a scalar node on the way becomes an empty object or array;
  - an array is padded with nulls up to the index;
  - a container of the wrong kind is replaced by an empty one of the right
    kind, losing its contents (`IndexOverObjectDiscards`). So when one slot
    contributes `a.b` and a later slot contributes `a[0]`, the composed
    entity has no `a.b`. How dot-prop itself treats such a container is not
    part of this model.
- An unknown `kind` is the `Unknown` request variant, because an untyped
  caller can send one. Its payload is an `UnknownKind`, a string other than
  `single`, `pair` and `triple`, which the source routes to their composers.
- `PathValueUtils.RoundTrip` is proved only for objects without null leaves
  and without empty objects or arrays:
  - the flattener drops nulls (`NullLeafIsLost`);
  - empty containers have no leaf path.
- `EntityComposer.LastSlotWins` and `EntityComposer.RebuiltKeepsLastSlot` are
  stated for the last slot only, and for paths that start with a key other
  than `id` (both require `Independent([Key("id")], q)`):
  - setting `id` last overrides any `id` a slot contributes;
  - a root path through an index is wiped when `id` turns the root into an
    object.

## Findings

| source | as written | input that shows it | evidently intended | confidence | as-written member | corrected member |
|---|---|---|---|---|---|---|
| src/entity-composer.ts:71-80 (and 100-120, 153-184) | `!arePathsInAllowList(supported, paths)` passes both arguments to a curried function, so the call yields a function value and the negation is always false | an entity `{f: {g: {h: 1}}, a: {b: {c: 2}}}` under supported list `{f.g.h}`: it is composed, although `a.b.c` is not supported | `!arePathsInAllowList(supported)(paths)`: refuse the slot when one of its paths is not supported | not executed; medium, since the composers' call with two arguments also contradicts the one-parameter signature the tests use | `EntityComposer.ComposeEntityAsWritten`, `EntityComposer.AsWrittenNeverRefuses`, `EntityComposer.UnsupportedSlotAsWritten` | `EntityComposer.ComposeEntity`, `EntityComposer.ComposeSucceedsIffChecksPass` |
