/** Order-preserving filtering, reversal and key-ordering of sequences: the
    building blocks of the `WHERE … ORDER BY RowId DESC` queries of both tables. */
module Seqs {

  /** `n` copies of `x`: a run of identical samples. */
  function Repeat<T>(x: T, n: nat): (s: seq<T>)
    ensures |s| == n
    ensures forall i | 0 <= i < n :: s[i] == x
  {
    if n == 0 then [] else [x] + Repeat(x, n - 1)
  }

  /** The elements of `s` that satisfy `keep`, in their original order. */
  function Filter<T>(s: seq<T>, keep: T -> bool): (r: seq<T>)
    ensures |r| <= |s|
    ensures forall i :: 0 <= i < |r| ==> r[i] in s && keep(r[i])
    ensures forall i :: 0 <= i < |s| && keep(s[i]) ==> s[i] in r
  {
    if |s| == 0 then []
    else (if keep(s[0]) then [s[0]] else []) + Filter(s[1..], keep)
  }

  /** `s` read from its last element to its first. */
  function Reverse<T>(s: seq<T>): (r: seq<T>)
    ensures |r| == |s|
    ensures forall i :: 0 <= i < |s| ==> r[i] == s[|s| - 1 - i]
    ensures forall i :: 0 <= i < |r| ==> r[i] in s
    ensures forall i :: 0 <= i < |s| ==> s[i] in r
  {
    if |s| == 0 then [] else [s[|s| - 1]] + Reverse(s[..|s| - 1])
  }

  /** The elements of `s` that satisfy `keep`, last element first: the shape of
      a `WHERE keep ORDER BY RowId DESC` query over a table kept in RowId order. */
  function NewestFirst<T>(s: seq<T>, keep: T -> bool): (r: seq<T>)
    ensures |r| <= |s|
    ensures forall k :: 0 <= k < |r| ==> r[k] in s && keep(r[k])
    ensures forall i :: 0 <= i < |s| && keep(s[i]) ==> s[i] in r
  {
    Filter(Reverse(s), keep)
  }

  /** Appending an element puts it in front of the newest-first selection when it is kept. */
  lemma NewestFirstAppend<T>(s: seq<T>, x: T, keep: T -> bool)
    ensures NewestFirst(s + [x], keep) == (if keep(x) then [x] else []) + NewestFirst(s, keep)
  {
    assert (s + [x])[..|s|] == s;
    assert Reverse(s + [x]) == [x] + Reverse(s);
    FilterAppend([x], Reverse(s), keep);
  }

  /** Keys strictly increase along `s`. */
  predicate IncreasingBy<T>(s: seq<T>, key: T -> int) {
    forall i, j :: 0 <= i < j < |s| ==> key(s[i]) < key(s[j])
  }

  /** Keys strictly decrease along `s`. */
  predicate DecreasingBy<T>(s: seq<T>, key: T -> int) {
    forall i, j :: 0 <= i < j < |s| ==> key(s[i]) > key(s[j])
  }

  lemma ReverseIncreasing<T>(s: seq<T>, key: T -> int)
    requires IncreasingBy(s, key)
    ensures DecreasingBy(Reverse(s), key)
  {
    var r := Reverse(s);
    forall i, j | 0 <= i < j < |r| ensures key(r[i]) > key(r[j]) {
      assert r[i] == s[|s| - 1 - i] && r[j] == s[|s| - 1 - j];
    }
  }

  /** Dropping the first element keeps a sequence strictly decreasing. */
  lemma DecreasingTail<T>(s: seq<T>, key: T -> int)
    requires |s| > 0 && DecreasingBy(s, key)
    ensures DecreasingBy(s[1..], key)
    ensures forall i :: 0 <= i < |s[1..]| ==> key(s[1..][i]) < key(s[0])
  {
    forall i, j | 0 <= i < j < |s[1..]| ensures key(s[1..][i]) > key(s[1..][j]) {
      assert s[1..][i] == s[i + 1] && s[1..][j] == s[j + 1];
    }
  }

  /** Over a sequence with increasing keys, a newest-first selection has strictly decreasing keys. */
  lemma NewestFirstDecreasing<T>(s: seq<T>, keep: T -> bool, key: T -> int)
    requires IncreasingBy(s, key)
    ensures DecreasingBy(NewestFirst(s, keep), key)
  {
    ReverseIncreasing(s, key);
    FilterDecreasing(Reverse(s), keep, key);
  }

  /** Filtering keeps a strictly decreasing sequence strictly decreasing, and
      never brings in a key above the first one. */
  lemma {:induction false} FilterDecreasing<T>(s: seq<T>, keep: T -> bool, key: T -> int)
    requires DecreasingBy(s, key)
    ensures DecreasingBy(Filter(s, keep), key)
    ensures forall i :: 0 < |s| && 0 <= i < |Filter(s, keep)| ==> key(Filter(s, keep)[i]) <= key(s[0])
  {
    if |s| > 0 {
      DecreasingTail(s, key);
      FilterDecreasing(s[1..], keep, key);
      var tail := Filter(s[1..], keep);
      assert forall i :: 0 <= i < |tail| ==> key(tail[i]) < key(s[0]) by {
        if 1 < |s| {
          assert forall i :: 0 <= i < |tail| ==> key(tail[i]) <= key(s[1..][0]);
        }
      }
      if keep(s[0]) {
        assert Filter(s, keep) == [s[0]] + tail;
        ConsDecreasing(s[0], tail, key);
      } else {
        assert Filter(s, keep) == tail;
      }
    }
  }

  /** A key above every key of a strictly decreasing sequence can go in front of it. */
  lemma ConsDecreasing<T>(x: T, s: seq<T>, key: T -> int)
    requires DecreasingBy(s, key)
    requires forall i :: 0 <= i < |s| ==> key(s[i]) < key(x)
    ensures DecreasingBy([x] + s, key)
    ensures forall i :: 0 <= i < |[x] + s| ==> key(([x] + s)[i]) <= key(x)
  {
    var r := [x] + s;
    forall i, j | 0 <= i < j < |r| ensures key(r[i]) > key(r[j]) {
      assert r[j] == s[j - 1];
      if i > 0 {
        assert r[i] == s[i - 1];
      }
    }
  }

  /** Filtering distributes over concatenation. */
  lemma {:induction false} FilterAppend<T>(a: seq<T>, b: seq<T>, keep: T -> bool)
    ensures Filter(a + b, keep) == Filter(a, keep) + Filter(b, keep)
  {
    if |a| == 0 {
      assert a + b == b;
    } else {
      assert (a + b)[0] == a[0];
      assert (a + b)[1..] == a[1..] + b;
      FilterAppend(a[1..], b, keep);
    }
  }

  /** A keep-everything filter is the identity. */
  lemma {:induction false} FilterAll<T>(s: seq<T>, keep: T -> bool)
    requires forall i :: 0 <= i < |s| ==> keep(s[i])
    ensures Filter(s, keep) == s
  {
    if |s| > 0 {
      FilterAll(s[1..], keep);
      assert s == [s[0]] + s[1..];
    }
  }

  /** A filter that rejects every element yields nothing. */
  lemma {:induction false} FilterNone<T>(s: seq<T>, keep: T -> bool)
    requires forall i :: 0 <= i < |s| ==> !keep(s[i])
    ensures Filter(s, keep) == []
  {
    if |s| > 0 {
      FilterNone(s[1..], keep);
    }
  }

  /** On a strictly decreasing sequence, "key above `hi`" keeps a prefix of what
      "key above `lo`" keeps whenever `lo <= hi`: raising a poll threshold only
      drops the oldest entries. */
  lemma {:induction false} FilterThresholdPrefix<T>(s: seq<T>, key: T -> int,
                                                     keepHi: T -> bool, keepLo: T -> bool,
                                                     hi: int, lo: int)
    requires DecreasingBy(s, key)
    requires lo <= hi
    requires forall x :: keepHi(x) <==> key(x) > hi
    requires forall x :: keepLo(x) <==> key(x) > lo
    ensures Filter(s, keepHi) <= Filter(s, keepLo)
  {
    if |s| > 0 {
      DecreasingTail(s, key);
      if keepHi(s[0]) {
        FilterThresholdPrefix(s[1..], key, keepHi, keepLo, hi, lo);
      } else {
        FilterNone(s[1..], keepHi);
      }
    }
  }

  /** Raising the threshold of a newest-first selection over increasing keys
      keeps a prefix of it. */
  lemma NewestFirstThresholdPrefix<T>(s: seq<T>, key: T -> int,
                                      keepHi: T -> bool, keepLo: T -> bool,
                                      hi: int, lo: int)
    requires IncreasingBy(s, key)
    requires lo <= hi
    requires forall x :: keepHi(x) <==> key(x) > hi
    requires forall x :: keepLo(x) <==> key(x) > lo
    ensures NewestFirst(s, keepHi) <= NewestFirst(s, keepLo)
  {
    ReverseIncreasing(s, key);
    FilterThresholdPrefix(Reverse(s), key, keepHi, keepLo, hi, lo);
  }

  /** A newest-first selection that keeps every element is the reversal. */
  lemma NewestFirstAll<T>(s: seq<T>, keep: T -> bool)
    requires forall i :: 0 <= i < |s| ==> keep(s[i])
    ensures NewestFirst(s, keep) == Reverse(s)
  {
    FilterAll(Reverse(s), keep);
  }
}
