/** Order facts about sequences shared by the filters of the pipeline. */
module Seqs {

  /** `a` is `b` with some elements removed, the rest kept in order. */
  ghost predicate Subsequence<T>(a: seq<T>, b: seq<T>)
    decreases |b|
  {
    if a == [] then true
    else if b == [] then false
    else (a[0] == b[0] && Subsequence(a[1..], b[1..])) || Subsequence(a, b[1..])
  }

  lemma {:induction false} SubsequenceLength<T>(a: seq<T>, b: seq<T>)
    requires Subsequence(a, b)
    ensures |a| <= |b|
    decreases |b|
  {
    if a != [] {
      if a[0] == b[0] && Subsequence(a[1..], b[1..]) {
        SubsequenceLength(a[1..], b[1..]);
      } else {
        SubsequenceLength(a, b[1..]);
      }
    }
  }

  /** Keeping the first element of `b` as the first of `a`. */
  lemma SubsequenceKeep<T>(x: T, a: seq<T>, b: seq<T>)
    requires Subsequence(a, b)
    ensures Subsequence([x] + a, [x] + b)
  {
    assert ([x] + a)[1..] == a && ([x] + b)[1..] == b;
  }

  /** Dropping the first element of `b`. */
  lemma SubsequenceSkip<T>(x: T, a: seq<T>, b: seq<T>)
    requires Subsequence(a, b)
    ensures Subsequence(a, [x] + b)
  {
    assert ([x] + b)[1..] == b;
  }

  lemma {:induction false} SubsequenceTrans<T>(a: seq<T>, b: seq<T>, c: seq<T>)
    requires Subsequence(a, b) && Subsequence(b, c)
    ensures Subsequence(a, c)
    decreases |c|
  {
    if a != [] {
      if b[0] == c[0] && Subsequence(b[1..], c[1..]) {
        if a[0] == b[0] && Subsequence(a[1..], b[1..]) {
          SubsequenceTrans(a[1..], b[1..], c[1..]);
        } else {
          SubsequenceTrans(a, b[1..], c[1..]);
        }
      } else {
        SubsequenceTrans(a, b, c[1..]);
      }
    }
  }

  /** No element occurs twice. */
  ghost predicate NoDup<T>(s: seq<T>)
  {
    forall i, j :: 0 <= i < j < |s| ==> s[i] != s[j]
  }

  /** Two duplicate-free lists with no element in common concatenate to a
      duplicate-free list. */
  lemma NoDupAppend<T>(a: seq<T>, b: seq<T>)
    requires NoDup(a) && NoDup(b) && forall x :: x in a ==> x !in b
    ensures NoDup(a + b)
  {
    forall i, j | 0 <= i < j < |a + b| ensures (a + b)[i] != (a + b)[j] {
      if i < |a| && |a| <= j {
        assert (a + b)[i] in a && (a + b)[j] == b[j - |a|];
      }
    }
  }

  /** Concatenation is associative. */
  lemma AppendAssoc<T>(a: seq<T>, b: seq<T>, c: seq<T>)
    ensures a + (b + c) == a + b + c
  {
  }

  /** Moving the first element of `s` onto the end of `pre`. */
  lemma AppendFirst<T>(pre: seq<T>, s: seq<T>)
    requires s != []
    ensures (pre + [s[0]]) + s[1..] == pre + s
  {
    assert [s[0]] + s[1..] == s;
  }

  /** The lists one after the other. */
  function Concat<T>(lists: seq<seq<T>>): seq<T>
  {
    if lists == [] then [] else lists[0] + Concat(lists[1..])
  }

  lemma {:induction false} ConcatAppend<T>(a: seq<seq<T>>, b: seq<seq<T>>)
    ensures Concat(a + b) == Concat(a) + Concat(b)
  {
    if a == [] {
      assert a + b == b;
    } else {
      assert (a + b)[0] == a[0] && (a + b)[1..] == a[1..] + b;
      ConcatAppend(a[1..], b);
      AppendAssoc(a[0], Concat(a[1..]), Concat(b));
    }
  }

  lemma ConcatOne<T>(x: seq<T>)
    ensures Concat([x]) == x
  {
    assert [x][1..] == [];
    assert x + [] == x;
  }

  lemma ConcatThree<T>(x: seq<T>, y: seq<T>, z: seq<T>)
    ensures Concat([x, y]) == x + y
    ensures Concat([x, y, z]) == x + y + z
  {
    ConcatOne(y);
    ConcatOne(z);
    assert [x, y][1..] == [y];
    assert [x, y, z][1..] == [y, z] && [y, z][1..] == [z];
    AppendAssoc(x, y, z);
  }

  /** The last list comes last. */
  lemma ConcatLast<T>(lists: seq<seq<T>>)
    requires lists != []
    ensures Concat(lists) == Concat(lists[..|lists| - 1]) + lists[|lists| - 1]
  {
    var n := |lists| - 1;
    assert lists == lists[..n] + [lists[n]];
    ConcatAppend(lists[..n], [lists[n]]);
    ConcatOne(lists[n]);
  }

  /** Every element of the concatenation is in one of the lists. */
  lemma {:induction false} ConcatMember<T>(lists: seq<seq<T>>, x: T) returns (k: nat)
    requires x in Concat(lists)
    ensures k < |lists| && x in lists[k]
  {
    if x in lists[0] {
      k := 0;
    } else {
      var k' := ConcatMember(lists[1..], x);
      k := k' + 1;
    }
  }
}
