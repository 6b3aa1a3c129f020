/**
 * Path enumeration and the allow-list checks. A candidate path string is kept
 * only when it is well formed and its normalised form (every `[digits]`
 * subscript replaced by `*`) is a member of the allow-list.
 *
 * The grammar of well-formed paths is this model's assumption: dot-separated
 * segments, each a non-empty name of letters, digits and `_`, optionally
 * followed by one subscript of one to four digits.
 */
module PathUtils {
  import opened Seqs
  import opened DotProp

  /** getEntityPaths: the leaf paths of an entity (deepKeys). */
  function GetEntityPaths(entity: Json): seq<Path>
  {
    DeepKeys(entity)
  }

  // ---------------------------------------------------------------------------
  // Characters and segments
  // ---------------------------------------------------------------------------

  predicate IsDigit(c: char) { '0' <= c <= '9' }

  predicate IsNameChar(c: char)
  {
    'a' <= c <= 'z' || 'A' <= c <= 'Z' || IsDigit(c) || c == '_'
  }

  /** The only characters a well-formed path can contain. */
  predicate IsPathChar(c: char)
  {
    IsNameChar(c) || c == '.' || c == '[' || c == ']'
  }

  predicate AllDigits(s: string) { forall i :: 0 <= i < |s| ==> IsDigit(s[i]) }

  predicate IsName(s: string) { |s| > 0 && forall i :: 0 <= i < |s| ==> IsNameChar(s[i]) }

  /** The pieces of `s` between occurrences of `sep`. */
  function SplitOn(s: string, sep: char): (r: seq<string>)
    ensures |r| >= 1
    decreases |s|
  {
    if s == [] then [""]
    else
      var rest := SplitOn(s[1..], sep);
      if s[0] == sep then [""] + rest else [[s[0]] + rest[0]] + rest[1..]
  }

  /** The number of leading name characters of `s`. */
  function NameLength(s: string): (n: nat)
    ensures n <= |s|
    ensures forall i :: 0 <= i < n ==> IsNameChar(s[i])
    ensures n < |s| ==> !IsNameChar(s[n])
  {
    if s != [] && IsNameChar(s[0]) then 1 + NameLength(s[1..]) else 0
  }

  /** One dot-separated segment: a name, then at most one `[d]`, `[dd]`,
      `[ddd]` or `[dddd]`. */
  predicate SegmentOk(seg: string)
  {
    var n := NameLength(seg);
    0 < n &&
    (n == |seg| ||
     (n + 3 <= |seg| <= n + 6 && seg[n] == '[' && seg[|seg| - 1] == ']' &&
      AllDigits(seg[n + 1..|seg| - 1])))
  }

  predicate WellFormed(path: string)
  {
    forall seg :: seg in SplitOn(path, '.') ==> SegmentOk(seg)
  }

  // ---------------------------------------------------------------------------
  // Normalisation and the allow-list checks
  // ---------------------------------------------------------------------------

  /** The number of leading digits of `s`. */
  function DigitRun(s: string): (n: nat)
    ensures n <= |s| && forall i :: 0 <= i < n ==> IsDigit(s[i])
  {
    if s != [] && IsDigit(s[0]) then 1 + DigitRun(s[1..]) else 0
  }

  /** `s` with every `[digits]` subscript, left to right, replaced by `*`. */
  function Normalize(s: string): string
    decreases |s|
  {
    if s == [] then []
    else if s[0] == '[' && 0 < DigitRun(s[1..]) < |s| - 1 && s[DigitRun(s[1..]) + 1] == ']' then
      "*" + Normalize(s[DigitRun(s[1..]) + 2..])
    else [s[0]] + Normalize(s[1..])
  }

  /** keepPathInAllowList(allowList)(path), uncurried. */
  predicate KeepPathInAllowList(allowList: set<string>, path: string)
  {
    WellFormed(path) && Normalize(path) in allowList
  }

  /** arePathsInAllowList(allowList)(paths), uncurried: every path is kept. */
  predicate ArePathsInAllowList(allowList: set<string>, paths: seq<string>)
  {
    forall i :: 0 <= i < |paths| ==> KeepPathInAllowList(allowList, paths[i])
  }

  /** The list check holds of the empty list, holds of a list exactly when it
      holds of its head candidate and of the rest, and so splits over
      concatenation: one refused candidate refuses every list holding it. */
  lemma {:induction false} ArePathsInAllowListSplit(allowList: set<string>, a: seq<string>, b: seq<string>)
    ensures ArePathsInAllowList(allowList, [])
    ensures a != [] ==> (ArePathsInAllowList(allowList, a)
                         <==> KeepPathInAllowList(allowList, a[0]) && ArePathsInAllowList(allowList, a[1..]))
    ensures ArePathsInAllowList(allowList, a + b)
            <==> ArePathsInAllowList(allowList, a) && ArePathsInAllowList(allowList, b)
  {
    if a != [] {
      assert forall i :: 0 < i < |a| ==> a[i] == a[1..][i - 1];
    }
    assert forall i :: 0 <= i < |a| ==> (a + b)[i] == a[i];
    assert forall i :: 0 <= i < |b| ==> (a + b)[|a| + i] == b[i];
  }

  // ---------------------------------------------------------------------------
  // Splitting
  // ---------------------------------------------------------------------------

  lemma {:induction false} SplitOnNoSep(a: string, sep: char)
    requires sep !in a
    ensures SplitOn(a, sep) == [a]
  {
    if a != [] {
      SplitOnNoSep(a[1..], sep);
      assert [a[0]] + a[1..] == a;
    }
  }

  lemma {:induction false} SplitOnCons(a: string, sep: char, b: string)
    requires sep !in a
    ensures SplitOn(a + [sep] + b, sep) == [a] + SplitOn(b, sep)
  {
    var s := a + [sep] + b;
    if a == [] {
      assert s[1..] == b;
    } else {
      assert s[1..] == a[1..] + [sep] + b;
      SplitOnCons(a[1..], sep, b);
      assert [a[0]] + a[1..] == a;
    }
  }

  /** Every character of `s` other than `sep` lies in one of its pieces. */
  lemma {:induction false} SplitOnCovers(s: string, sep: char, i: nat) returns (seg: string)
    requires i < |s| && s[i] != sep
    ensures seg in SplitOn(s, sep) && s[i] in seg
  {
    var rest := SplitOn(s[1..], sep);
    if i == 0 {
      seg := [s[0]] + rest[0];
    } else {
      var inner := SplitOnCovers(s[1..], sep, i - 1);
      if s[0] != sep && inner == rest[0] {
        seg := [s[0]] + rest[0];
      } else {
        seg := inner;
      }
    }
  }

  lemma {:induction false} WellFormedCons(a: string, b: string)
    requires '.' !in a
    ensures WellFormed(a + "." + b) <==> SegmentOk(a) && WellFormed(b)
  {
    SplitOnCons(a, '.', b);
  }

  lemma {:induction false} WellFormedSingle(a: string)
    requires '.' !in a
    ensures WellFormed(a) <==> SegmentOk(a)
  {
    SplitOnNoSep(a, '.');
  }

  // ---------------------------------------------------------------------------
  // Fail-closed: what a kept path cannot contain
  // ---------------------------------------------------------------------------

  lemma {:induction false} SegmentChars(seg: string, i: nat)
    requires SegmentOk(seg) && i < |seg|
    ensures IsPathChar(seg[i])
  {
    var n := NameLength(seg);
    if n < i < |seg| - 1 {
      assert seg[n + 1..|seg| - 1][i - n - 1] == seg[i];
    }
  }

  /** A well-formed path holds only letters, digits, `_`, `.`, `[` and `]`. */
  lemma {:induction false} WellFormedChars(path: string)
    ensures WellFormed(path) ==> forall c :: c in path ==> IsPathChar(c)
  {
    forall c | WellFormed(path) && c in path ensures IsPathChar(c) {
      var i :| 0 <= i < |path| && path[i] == c;
      if c != '.' {
        var seg := SplitOnCovers(path, '.', i);
        var j :| 0 <= j < |seg| && seg[j] == c;
        SegmentChars(seg, j);
      }
    }
  }

  /** Fail closed: a candidate holding any other character (a space, a `*`,
      a backslash, ...) is never kept, whatever the allow-list contains. */
  lemma {:induction false} KeptPathsAreClean(allowList: set<string>, path: string)
    requires KeepPathInAllowList(allowList, path)
    ensures forall c :: c in path ==> IsPathChar(c)
    ensures ' ' !in path && '*' !in path
  {
    WellFormedChars(path);
  }

  /** A leaf whose key holds a character that is neither a name character nor
      `]` (a space, a `*`, a dot, ...) is never kept, whatever the allow-list. */
  lemma {:induction false} ForeignKeyNeverKept(allowList: set<string>, p: Path, j: nat, c: char)
    requires j < |p| && p[j].Key? && c in p[j].name && !IsNameChar(c) && c != ']'
    ensures !KeepPathInAllowList(allowList, Render(p))
  {
    var bad := if c == '.' || c == '[' then '\\' else c;
    assert bad in Escape(p[j].name);
    assert !IsPathChar(bad);
    RenderKeepsKeyChars(p, j, bad);
    var r := Render(p);
    WellFormedChars(r);
    assert !WellFormed(r);
  }

  // ---------------------------------------------------------------------------
  // Rendered paths: normalisation and well-formedness
  // ---------------------------------------------------------------------------

  /** Every key of the path is a name. */
  predicate NameKeys(p: Path)
  {
    forall j :: 0 <= j < |p| ==> p[j].Key? ==> IsName(p[j].name)
  }

  /** The string form with every index written `*`: what an allow-list entry
      for this leaf looks like. */
  function RenderShape(p: Path): string
  {
    if p == [] then "" else ShapeSeg(p[0], true) + RenderShapeRest(p[1..])
  }

  function RenderShapeRest(p: Path): string
  {
    if p == [] then "" else ShapeSeg(p[0], false) + RenderShapeRest(p[1..])
  }

  function ShapeSeg(s: Seg, first: bool): string
  {
    match s
    case Idx(_) => "*"
    case Key(k) => if first then k else "." + k
  }

  lemma {:induction false} NormalizePlain(a: string, b: string)
    requires '[' !in a
    ensures Normalize(a + b) == a + Normalize(b)
  {
    if a != [] {
      var s := a + b;
      assert s[0] == a[0] && a[0] != '[';
      assert Normalize(s) == [s[0]] + Normalize(s[1..]);
      assert s[1..] == a[1..] + b;
      assert '[' !in a[1..];
      NormalizePlain(a[1..], b);
      assert [a[0]] + (a[1..] + Normalize(b)) == a + Normalize(b);
    } else {
      assert a + b == b;
    }
  }

  lemma {:induction false} DigitRunPrefix(ds: string, t: string)
    requires AllDigits(ds) && (t == [] || !IsDigit(t[0]))
    ensures DigitRun(ds + t) == |ds|
  {
    if ds != [] {
      assert (ds + t)[1..] == ds[1..] + t;
      DigitRunPrefix(ds[1..], t);
    }
  }

  lemma {:induction false} NormalizeIndex(ds: string, b: string)
    requires ds != [] && AllDigits(ds)
    ensures Normalize("[" + ds + "]" + b) == "*" + Normalize(b)
  {
    var s := "[" + ds + "]" + b;
    assert s[1..] == ds + ("]" + b);
    DigitRunPrefix(ds, "]" + b);
    assert s[|ds| + 1] == ']';
    assert s[|ds| + 2..] == b;
  }

  /** Normalising keeps the leading digits of `u` and whether a `]` follows
      them, so a `[` in front of `u` opens a subscript exactly when it opens
      one in front of the normalised `u`. */
  lemma {:induction false} NormalizeKeepsDigitRun(u: string)
    ensures DigitRun(Normalize(u)) == DigitRun(u)
    ensures var k, n := DigitRun(u), Normalize(u);
            (k < |n| && n[k] == ']') <==> (k < |u| && u[k] == ']')
    decreases |u|
  {
    if u != [] && IsDigit(u[0]) {
      NormalizeKeepsDigitRun(u[1..]);
      assert Normalize(u) == [u[0]] + Normalize(u[1..]);
    }
  }

  /** Normalising twice is normalising once: no subscript survives, and no
      new one is formed. */
  lemma {:induction false} NormalizeIdempotent(s: string)
    ensures Normalize(Normalize(s)) == Normalize(s)
    decreases |s|
  {
    if s != [] {
      var k := DigitRun(s[1..]);
      if s[0] == '[' && 0 < k < |s| - 1 && s[k + 1] == ']' {
        var t := Normalize(s[k + 2..]);
        NormalizeIdempotent(s[k + 2..]);
        assert ("*" + t)[1..] == t;
      } else {
        var t := Normalize(s[1..]);
        NormalizeIdempotent(s[1..]);
        NormalizeKeepsDigitRun(s[1..]);
        assert ([s[0]] + t)[1..] == t;
      }
    }
  }

  lemma {:induction false} DigitsOf(i: nat)
    ensures NatToString(i) != [] && AllDigits(NatToString(i))
    ensures i < 10000 ==> |NatToString(i)| <= 4
  {
    var ds := NatToString(i);
    forall j | 0 <= j < |ds| ensures IsDigit(ds[j]) {
      assert ds[j] in ds;
    }
  }

  lemma {:induction false} NameHasNoPunctuation(k: string)
    requires IsName(k)
    ensures '.' !in k && '[' !in k && '\\' !in k && ']' !in k
    ensures Escape(k) == k
  {
  }

  lemma {:induction false} NormalizeRenderRest(p: Path)
    requires NameKeys(p)
    ensures Normalize(RenderRest(p)) == RenderShapeRest(p)
  {
    if p != [] {
      assert NameKeys(p[1..]) by {
        forall j | 0 <= j < |p| - 1 ensures p[1..][j].Key? ==> IsName(p[1..][j].name) {
          assert p[1..][j] == p[j + 1];
        }
      }
      NormalizeRenderRest(p[1..]);
      match p[0]
      case Key(k) =>
        NameHasNoPunctuation(k);
        NormalizePlain("." + k, RenderRest(p[1..]));
      case Idx(i) =>
        DigitsOf(i);
        NormalizeIndex(NatToString(i), RenderRest(p[1..]));
    }
  }

  /** Normalising a rendered path whose keys are names gives its shape: each
      `[n]` becomes `*`, nothing else changes. */
  lemma {:induction false} NormalizeRender(p: Path)
    requires NameKeys(p)
    ensures Normalize(Render(p)) == RenderShape(p)
  {
    if p != [] {
      assert NameKeys(p[1..]) by {
        forall j | 0 <= j < |p| - 1 ensures p[1..][j].Key? ==> IsName(p[1..][j].name) {
          assert p[1..][j] == p[j + 1];
        }
      }
      NormalizeRenderRest(p[1..]);
      match p[0]
      case Key(k) =>
        NameHasNoPunctuation(k);
        NormalizePlain(k, RenderRest(p[1..]));
      case Idx(i) =>
        DigitsOf(i);
        NormalizeIndex(NatToString(i), RenderRest(p[1..]));
    }
  }

  /** The paths the grammar admits: keys that are names, each followed by at
      most one index below 10000, and a key first. */
  predicate ShapeOk(p: Path)
    decreases |p|
  {
    |p| > 0 && p[0].Key? && IsName(p[0].name) &&
    (|p| == 1 ||
     (if p[1].Idx? then p[1].index < 10000 && (|p| == 2 || ShapeOk(p[2..]))
      else ShapeOk(p[1..])))
  }

  lemma {:induction false} RestIsDotRender(q: Path)
    requires q != [] && q[0].Key?
    ensures RenderRest(q) == "." + Render(q)
  {
    var key, rest := Escape(q[0].name), RenderRest(q[1..]);
    assert RenderSeg(q[0], false) == "." + key && RenderSeg(q[0], true) == key;
    AppendAssoc(".", key, rest);
  }

  lemma {:induction false} NameLengthPrefix(k: string, t: string)
    requires forall i :: 0 <= i < |k| ==> IsNameChar(k[i])
    requires t == [] || !IsNameChar(t[0])
    ensures NameLength(k + t) == |k|
  {
    if k != [] {
      assert (k + t)[1..] == k[1..] + t;
      NameLengthPrefix(k[1..], t);
    }
  }

  lemma {:induction false} IndexedSegmentOk(k: string, i: nat)
    requires IsName(k) && i < 10000
    ensures SegmentOk(k + "[" + NatToString(i) + "]")
    ensures '.' !in k + "[" + NatToString(i) + "]"
  {
    var ds := NatToString(i);
    var t := "[" + ds + "]";
    assert k + t == k + "[" + ds + "]" by {
      AppendAssoc(k, "[" + ds, "]");
      AppendAssoc(k, "[", ds);
    }
    DigitsOf(i);
    IndexedSegmentShape(k, ds);
    IndexedSegmentNoDot(k, ds);
  }

  lemma {:induction false} IndexedSegmentShape(k: string, ds: string)
    requires IsName(k) && ds != [] && |ds| <= 4 && AllDigits(ds)
    ensures SegmentOk(k + ("[" + ds + "]"))
  {
    var t := "[" + ds + "]";
    var g := k + t;
    assert NameLength(g) == |k| by {
      NameLengthPrefix(k, t);
    }
    assert g[|k|] == '[' && g[|g| - 1] == ']';
    assert g[|k| + 1..|g| - 1] == ds;
  }

  lemma {:induction false} IndexedSegmentNoDot(k: string, ds: string)
    requires IsName(k) && AllDigits(ds)
    ensures '.' !in k + ("[" + ds + "]")
  {
    var g := k + ("[" + ds + "]");
    forall j | 0 <= j < |g| ensures g[j] != '.' {
      if j < |k| {
        assert g[j] == k[j];
      } else if |k| < j < |g| - 1 {
        assert g[j] == ds[j - |k| - 1];
      }
    }
  }

  lemma {:induction false} RenderKeyFirst(p: Path)
    requires p != [] && p[0].Key? && IsName(p[0].name)
    ensures Render(p) == p[0].name + RenderRest(p[1..])
  {
    NameHasNoPunctuation(p[0].name);
    assert RenderSeg(p[0], true) == p[0].name;
  }

  lemma {:induction false} RenderRestIndexFirst(q: Path)
    requires q != [] && q[0].Idx?
    ensures RenderRest(q) == "[" + NatToString(q[0].index) + "]" + RenderRest(q[1..])
  {
  }

  /** The string form of a key followed by one index is a single segment. */
  lemma {:induction false} RenderKeyIndex(p: Path)
    requires |p| >= 2 && p[0].Key? && IsName(p[0].name) && p[1].Idx?
    ensures Render(p) == p[0].name + "[" + NatToString(p[1].index) + "]" + RenderRest(p[2..])
  {
    var k, ds, rest := p[0].name, NatToString(p[1].index), RenderRest(p[2..]);
    assert Render(p) == k + RenderRest(p[1..]) by {
      RenderKeyFirst(p);
    }
    assert RenderRest(p[1..]) == "[" + ds + "]" + rest by {
      assert p[1..][0] == p[1] && p[1..][1..] == p[2..];
      RenderRestIndexFirst(p[1..]);
    }
    AppendAssoc(k, "[" + ds + "]", rest);
    AppendAssoc(k, "[" + ds, "]");
    AppendAssoc(k, "[", ds);
  }

  /** A name alone, or a name with one index, is a well-formed segment that
      can head a longer well-formed path. */
  lemma {:induction false} HeadSegment(g: string, tail: string)
    requires SegmentOk(g) && '.' !in g
    ensures WellFormed(g)
    ensures WellFormed(tail) ==> WellFormed(g + "." + tail)
  {
    WellFormedSingle(g);
    WellFormedCons(g, tail);
  }

  lemma {:induction false} NameSegmentOk(k: string)
    requires IsName(k)
    ensures SegmentOk(k) && '.' !in k
  {
    NameHasNoPunctuation(k);
    NameLengthPrefix(k, "");
    assert k + "" == k;
  }

  /** Every path the grammar admits renders to a well-formed string. */
  lemma {:induction false} WellFormedRender(p: Path)
    requires ShapeOk(p)
    ensures WellFormed(Render(p))
    decreases |p|, 1
  {
    if |p| == 1 {
      var k := p[0].name;
      NameSegmentOk(k);
      RenderKeyFirst(p);
      assert RenderRest(p[1..]) == "" && k + "" == k;
      HeadSegment(k, "");
    } else if p[1].Idx? {
      WellFormedRenderIndexed(p);
    } else {
      WellFormedRenderKeyed(p);
    }
  }

  lemma {:induction false} WellFormedRenderIndexed(p: Path)
    requires ShapeOk(p) && |p| >= 2 && p[1].Idx?
    ensures WellFormed(Render(p))
    decreases |p|, 0
  {
    var k := p[0].name;
    var g := k + "[" + NatToString(p[1].index) + "]";
    IndexedSegmentOk(k, p[1].index);
    RenderKeyIndex(p);
    if |p| == 2 {
      HeadSegment(g, "");
      assert Render(p) == g + "";
      assert g + "" == g;
    } else {
      WellFormedRender(p[2..]);
      RestIsDotRender(p[2..]);
      assert g + ("." + Render(p[2..])) == g + "." + Render(p[2..]);
      HeadSegment(g, Render(p[2..]));
    }
  }

  lemma {:induction false} WellFormedRenderKeyed(p: Path)
    requires ShapeOk(p) && |p| >= 2 && p[1].Key?
    ensures WellFormed(Render(p))
    decreases |p|, 0
  {
    var k := p[0].name;
    NameSegmentOk(k);
    RenderKeyFirst(p);
    WellFormedRender(p[1..]);
    RestIsDotRender(p[1..]);
    assert k + ("." + Render(p[1..])) == k + "." + Render(p[1..]);
    HeadSegment(k, Render(p[1..]));
  }

  // ---------------------------------------------------------------------------
  // Array indices do not matter to the allow-list
  // ---------------------------------------------------------------------------

  /** Two paths that differ at most in their array indices. */
  predicate SameShape(p: Path, q: Path)
  {
    |p| == |q| &&
    forall j :: 0 <= j < |p| ==> (p[j].Key? <==> q[j].Key?) && (p[j].Key? ==> p[j] == q[j])
  }

  lemma {:induction false} ShapeOkNameKeys(p: Path)
    requires ShapeOk(p)
    ensures NameKeys(p)
    decreases |p|
  {
    if |p| > 1 {
      if p[1].Idx? {
        if |p| > 2 {
          ShapeOkNameKeys(p[2..]);
          forall j | 2 <= j < |p| ensures p[j].Key? ==> IsName(p[j].name) {
            assert p[j] == p[2..][j - 2];
          }
        }
      } else {
        ShapeOkNameKeys(p[1..]);
        forall j | 1 <= j < |p| ensures p[j].Key? ==> IsName(p[j].name) {
          assert p[j] == p[1..][j - 1];
        }
      }
    }
  }

  lemma {:induction false} SameShapeRest(p: Path, q: Path)
    requires SameShape(p, q)
    ensures RenderShapeRest(p) == RenderShapeRest(q)
  {
    if p != [] {
      assert SameShape(p[1..], q[1..]) by {
        forall j | 0 <= j < |p| - 1
          ensures (p[1..][j].Key? <==> q[1..][j].Key?) && (p[1..][j].Key? ==> p[1..][j] == q[1..][j])
        {
          assert p[1..][j] == p[j + 1] && q[1..][j] == q[j + 1];
        }
      }
      SameShapeRest(p[1..], q[1..]);
    }
  }

  /** Paths that differ only in their indices are kept or refused together:
      `f.i[6].a.b`, `f.i[999].a.b` and `f.i[9999].a.b` all meet the entry
      `f.i*.a.b`. */
  lemma {:induction false} IndexBlind(allowList: set<string>, p: Path, q: Path)
    requires ShapeOk(p) && ShapeOk(q) && SameShape(p, q)
    ensures KeepPathInAllowList(allowList, Render(p)) == KeepPathInAllowList(allowList, Render(q))
  {
    WellFormedRender(p);
    WellFormedRender(q);
    ShapeOkNameKeys(p);
    ShapeOkNameKeys(q);
    NormalizeRender(p);
    NormalizeRender(q);
    if p != [] {
      SameShapeRest(p[1..], q[1..]) by {
        forall j | 0 <= j < |p| - 1
          ensures (p[1..][j].Key? <==> q[1..][j].Key?) && (p[1..][j].Key? ==> p[1..][j] == q[1..][j])
        {
          assert p[1..][j] == p[j + 1] && q[1..][j] == q[j + 1];
        }
      }
      assert p[0] == q[0];
    }
  }

  // ---------------------------------------------------------------------------
  // The allow-list cases of the test suite, over {a.b.c, f.g.h, f.i*.a.b}
  // ---------------------------------------------------------------------------

  const TestAllowList: set<string> := {"a.b.c", "f.g.h", "f.i*.a.b"}

  lemma {:induction false} PlainShapeRest(p: Path)
    requires NameKeys(p) && forall j :: 0 <= j < |p| ==> p[j].Key?
    ensures RenderShapeRest(p) == RenderRest(p)
  {
    if p != [] {
      NameHasNoPunctuation(p[0].name);
      PlainShapeRest(p[1..]);
    }
  }

  /** A path of plain keys is kept exactly when its string form is listed. */
  lemma {:induction false} PlainPathKept(allowList: set<string>, p: Path)
    requires ShapeOk(p) && forall j :: 0 <= j < |p| ==> p[j].Key?
    ensures KeepPathInAllowList(allowList, Render(p)) <==> Render(p) in allowList
  {
    WellFormedRender(p);
    ShapeOkNameKeys(p);
    NormalizeRender(p);
    NameHasNoPunctuation(p[0].name);
    PlainShapeRest(p[1..]);
  }

  function IndexedTestPath(n: nat): Path
  {
    [Key("f"), Key("i"), Idx(n), Key("a"), Key("b")]
  }

  lemma {:induction false} IndexedTestPathRender(n: nat)
    ensures Render(IndexedTestPath(n)) == "f.i[" + NatToString(n) + "].a.b"
  {
    var p, digits := IndexedTestPath(n), NatToString(n);
    RenderLiterals();
    var tail := RenderRest(p[3..]);
    assert tail == ".a.b" by {
      assert p[3..] == [Key("a"), Key("b")];
      PlainRest("a", "b");
    }
    var r1, r2 := RenderRest(p[1..]), RenderRest(p[2..]);
    assert r2 == "[" + digits + "]" + tail by {
      assert p[2..][0] == Idx(n) && p[2..][1..] == p[3..];
      RenderRestIndexFirst(p[2..]);
    }
    assert r1 == ".i" + r2 by {
      assert p[1..][0] == Key("i") && p[1..][1..] == p[2..];
      RenderRestKey(p[1..]);
    }
    assert Render(p) == "f" + r1 by {
      RenderKeyFirst(p);
    }
    AppendAssoc("f", ".i", "[" + digits + "]" + tail);
    AppendAssoc("f.i", "[" + digits + "]", tail);
    AppendAssoc("f.i", "[" + digits, "]");
    AppendAssoc("f.i", "[", digits);
    AppendAssoc("f.i[" + digits, "]", ".a.b");
  }

  lemma RenderLiterals()
    ensures "f" + ".i" == "f.i" && "f.i" + "[" == "f.i[" && "]" + ".a.b" == "].a.b"
    ensures "." + "a" + "." + "b" == ".a.b"
    ensures IsName("a") && IsName("b") && IsName("f") && IsName("i")
  {
  }

  lemma {:induction false} RenderRestKey(q: Path)
    requires q != [] && q[0].Key? && IsName(q[0].name)
    ensures RenderRest(q) == "." + q[0].name + RenderRest(q[1..])
  {
    NameHasNoPunctuation(q[0].name);
  }

  /** Two plain keys after the first render as `.k1.k2`. */
  lemma {:induction false} PlainRest(k1: string, k2: string)
    requires IsName(k1) && IsName(k2)
    ensures RenderRest([Key(k1), Key(k2)]) == "." + k1 + "." + k2
  {
    var q := [Key(k1), Key(k2)];
    RenderRestKey(q);
    assert q[1..] == [Key(k2)];
    RenderRestKey(q[1..]);
    assert q[1..][1..] == [];
    calc {
      RenderRest(q);
      "." + k1 + ("." + k2 + "");
      "." + k1 + "." + k2;
    }
  }

  lemma {:induction false} IndexedTestPathShape(n: nat)
    ensures NameKeys(IndexedTestPath(n))
    ensures RenderShape(IndexedTestPath(n)) == "f.i*.a.b"
    ensures n < 10000 ==> ShapeOk(IndexedTestPath(n))
  {
    var p := IndexedTestPath(n);
    RenderLiterals();
    assert NameKeys(p) by {
      forall j | 0 <= j < |p| && p[j].Key? ensures IsName(p[j].name) {
      }
    }
    assert RenderShapeRest(p[3..]) == ".a.b" by {
      assert RenderShapeRest(p[4..]) == ".b";
    }
    assert RenderShapeRest(p[1..]) == ".i" + ("*" + ".a.b") by {
      assert RenderShapeRest(p[2..]) == "*" + ".a.b";
    }
    ShapeLiterals();
    if n < 10000 {
      assert ShapeOk(p[3..]) by {
        assert p[3..][1..] == [Key("b")];
      }
      assert p[2..] == [Idx(n)] + p[3..];
    }
  }

  lemma ShapeLiterals()
    ensures "f" + (".i" + ("*" + ".a.b")) == "f.i*.a.b"
  {
  }

  /** `f.i[n].a.b` is kept for every index below 10000. */
  lemma {:induction false} IndexedTestPathKept(n: nat)
    requires n < 10000
    ensures KeepPathInAllowList(TestAllowList, "f.i[" + NatToString(n) + "].a.b")
  {
    IndexedTestPathRender(n);
    IndexedTestPathShape(n);
    WellFormedRender(IndexedTestPath(n));
    NormalizeRender(IndexedTestPath(n));
  }

  /** The test suite's indexed candidates are kept. */
  lemma TestIndexedPathsKept()
    ensures KeepPathInAllowList(TestAllowList, "f.i[6].a.b")
    ensures KeepPathInAllowList(TestAllowList, "f.i[999].a.b")
    ensures KeepPathInAllowList(TestAllowList, "f.i[9999].a.b")
  {
    assert KeepPathInAllowList(TestAllowList, "f.i[6].a.b") by {
      Numerals();
      IndexedLiterals();
      IndexedLiteralKept(6, "6", "f.i[6].a.b");
    }
    assert KeepPathInAllowList(TestAllowList, "f.i[999].a.b") by {
      Numerals();
      IndexedLiterals();
      IndexedLiteralKept(999, "999", "f.i[999].a.b");
    }
    assert KeepPathInAllowList(TestAllowList, "f.i[9999].a.b") by {
      Numerals();
      IndexedLiterals();
      IndexedLiteralKept(9999, "9999", "f.i[9999].a.b");
    }
  }

  lemma IndexedLiterals()
    ensures "f.i[6].a.b" == "f.i[" + "6" + "].a.b"
    ensures "f.i[999].a.b" == "f.i[" + "999" + "].a.b"
    ensures "f.i[9999].a.b" == "f.i[" + "9999" + "].a.b"
  {
  }

  lemma IndexedLiteralKept(n: nat, digits: string, path: string)
    requires n < 10000
    requires NatToString(n) == digits
    requires path == "f.i[" + digits + "].a.b"
    ensures KeepPathInAllowList(TestAllowList, path)
  {
    IndexedTestPathKept(n);
  }

  lemma Numerals()
    ensures NatToString(6) == "6" && NatToString(999) == "999" && NatToString(9999) == "9999"
  {
    assert Digit(6) == '6';
    assert Digit(9) == '9';
    assert NatToString(9) == "9";
    assert NatToString(99) == NatToString(9) + "9";
    assert NatToString(999) == NatToString(99) + "9";
    assert NatToString(9999) == NatToString(999) + "9";
  }

  /** A path of three plain keys renders with dots between them. */
  lemma {:induction false} PlainRender(k1: string, k2: string, k3: string)
    requires IsName(k1) && IsName(k2) && IsName(k3)
    ensures Render([Key(k1), Key(k2), Key(k3)]) == k1 + "." + k2 + "." + k3
  {
    var p := [Key(k1), Key(k2), Key(k3)];
    var rest := RenderRest(p[1..]);
    assert rest == "." + k2 + "." + k3 by {
      assert p[1..] == [Key(k2), Key(k3)];
      PlainRest(k2, k3);
    }
    assert Render(p) == k1 + rest by {
      RenderKeyFirst(p);
    }
    AppendAssoc(k1, "." + k2 + ".", k3);
    AppendAssoc(k1, "." + k2, ".");
    AppendAssoc(k1, ".", k2);
  }

  /** Three plain keys make a path the grammar admits. */
  lemma {:induction false} PlainShape(k1: string, k2: string, k3: string)
    requires IsName(k1) && IsName(k2) && IsName(k3)
    ensures ShapeOk([Key(k1), Key(k2), Key(k3)])
  {
    var p := [Key(k1), Key(k2), Key(k3)];
    assert ShapeOk(p[2..]);
    assert p[1..][1..] == p[2..];
    assert ShapeOk(p[1..]);
  }

  /** The test suite's plain candidates: listed ones are kept. */
  lemma TestListedPathsKept()
    ensures KeepPathInAllowList(TestAllowList, "f.g.h")
    ensures KeepPathInAllowList(TestAllowList, "a.b.c")
  {
    assert KeepPathInAllowList(TestAllowList, "f.g.h") by {
      assert "f" + "." + "g" + "." + "h" == "f.g.h";
      ListedPathKept("f", "g", "h");
    }
    assert KeepPathInAllowList(TestAllowList, "a.b.c") by {
      assert "a" + "." + "b" + "." + "c" == "a.b.c";
      ListedPathKept("a", "b", "c");
    }
  }

  lemma {:induction false} ListedPathKept(k1: string, k2: string, k3: string)
    requires IsName(k1) && IsName(k2) && IsName(k3)
    requires k1 + "." + k2 + "." + k3 in TestAllowList
    ensures KeepPathInAllowList(TestAllowList, k1 + "." + k2 + "." + k3)
  {
    PlainRender(k1, k2, k3);
    PlainShape(k1, k2, k3);
    PlainPathKept(TestAllowList, [Key(k1), Key(k2), Key(k3)]);
  }

  /** The test suite's unlisted candidate `wrong.path` is refused: it has no
      index to normalise and is not itself listed. */
  lemma TestWrongPathRefused()
    ensures !KeepPathInAllowList(TestAllowList, "wrong.path")
  {
    NormalizePlain("wrong.path", "");
    assert "wrong.path" + "" == "wrong.path";
    assert "wrong.path" != "a.b.c" && "wrong.path" != "f.g.h" && "wrong.path" != "f.i*.a.b";
  }

  /** The test suite's unsafe candidates are refused although `f.i*.a.b` is
      itself an allow-list entry: a space or a `*` is never kept. */
  lemma TestUnsafePaths()
    ensures !KeepPathInAllowList(TestAllowList, "unsafe path")
    ensures !KeepPathInAllowList(TestAllowList, "f.i*.a.b")
  {
    assert "unsafe path"[6] == ' ';
    assert "f.i*.a.b"[3] == '*';
    if KeepPathInAllowList(TestAllowList, "unsafe path") {
      KeptPathsAreClean(TestAllowList, "unsafe path");
    }
    if KeepPathInAllowList(TestAllowList, "f.i*.a.b") {
      KeptPathsAreClean(TestAllowList, "f.i*.a.b");
    }
  }

  /** arePathsInAllowList accepts the test suite's good candidate lists. */
  lemma TestGoodPathLists()
    ensures ArePathsInAllowList(TestAllowList, ["f.g.h"])
    ensures ArePathsInAllowList(TestAllowList, ["f.g.h", "a.b.c"])
  {
    TestListedPathsKept();
    assert ["f.g.h"][0] == "f.g.h";
    var l := ["f.g.h", "a.b.c"];
    assert l[0] == "f.g.h" && l[1] == "a.b.c";
  }

  /** arePathsInAllowList accepts the test suite's list of indexed candidates. */
  lemma TestGoodIndexedPathList()
    ensures ArePathsInAllowList(TestAllowList, ["a.b.c", "f.i[6].a.b", "f.i[999].a.b", "f.i[9999].a.b"])
  {
    TestListedPathsKept();
    TestIndexedPathsKept();
    FourKept(TestAllowList, "a.b.c", "f.i[6].a.b", "f.i[999].a.b", "f.i[9999].a.b");
  }

  lemma FourKept(allowList: set<string>, a: string, b: string, c: string, d: string)
    requires KeepPathInAllowList(allowList, a) && KeepPathInAllowList(allowList, b)
    requires KeepPathInAllowList(allowList, c) && KeepPathInAllowList(allowList, d)
    ensures ArePathsInAllowList(allowList, [a, b, c, d])
  {
    var l := [a, b, c, d];
    assert l[0] == a && l[1] == b && l[2] == c && l[3] == d;
  }

  /** One bad candidate makes arePathsInAllowList refuse the whole list. */
  lemma TestBadPathLists()
    ensures !ArePathsInAllowList(TestAllowList, ["a.b.c", "wrong.path"])
    ensures !ArePathsInAllowList(TestAllowList, ["a.b.c", "unsafe path"])
    ensures !ArePathsInAllowList(TestAllowList, ["a.b.c", "f.i*.a.b"])
  {
    TestWrongPathRefused();
    TestUnsafePaths();
    assert ["a.b.c", "wrong.path"][1] == "wrong.path";
    assert ["a.b.c", "unsafe path"][1] == "unsafe path";
    assert ["a.b.c", "f.i*.a.b"][1] == "f.i*.a.b";
  }
}
