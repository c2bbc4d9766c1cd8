/**
 Lists of records identified by a string key, as the application keeps its
 users, sessions and vote options: JavaScript `find`/`findIndex` (first match),
 replace-or-append, and `filter` by key.
 */
module KeyedSeq {
  import opened Basics

  /** `i` is the position of the first element of `xs` whose key is `k`. */
  ghost predicate IsFirst<T>(xs: seq<T>, key: T -> string, k: string, i: int) {
    && 0 <= i < |xs|
    && key(xs[i]) == k
    && forall j :: 0 <= j < i ==> key(xs[j]) != k
  }

  /** No element of `xs` has key `k`. */
  ghost predicate Absent<T>(xs: seq<T>, key: T -> string, k: string) {
    forall j :: 0 <= j < |xs| ==> key(xs[j]) != k
  }

  /** There is at most one first match. */
  lemma FirstUnique<T>(xs: seq<T>, key: T -> string, k: string, i: int, i': int)
    requires IsFirst(xs, key, k, i) && IsFirst(xs, key, k, i')
    ensures i == i'
  {
  }

  /** `findIndex(x => key(x) === k)`: the first position whose key is `k`, if any. */
  function IndexOf<T>(xs: seq<T>, key: T -> string, k: string): (r: Option<nat>)
    ensures r.Some? ==> IsFirst(xs, key, k, r.value)
    ensures r.None? <==> Absent(xs, key, k)
  {
    if |xs| == 0 then None
    else if key(xs[0]) == k then Some(0)
    else
      match IndexOf(xs[1..], key, k)
      case None => None
      case Some(i) => Some(i + 1)
  }

  /**
   Replace-or-append: the first element with the key of `x` is replaced, at
   the same position, by `merge(old, x)`; without such an element `x` is
   appended at the end.
   */
  function Upsert<T>(xs: seq<T>, key: T -> string, x: T, merge: (T, T) -> T): (r: seq<T>)
    ensures forall i :: IsFirst(xs, key, key(x), i) ==> r == xs[i := merge(xs[i], x)]
    ensures Absent(xs, key, key(x)) ==> r == xs + [x]
  {
    match IndexOf(xs, key, key(x))
    case Some(i) =>
      assert forall i' :: IsFirst(xs, key, key(x), i') ==> i' == i by {
        forall i' | IsFirst(xs, key, key(x), i') {
          FirstUnique(xs, key, key(x), i, i');
        }
      }
      xs[i := merge(xs[i], x)]
    case None => xs + [x]
  }

  /** The merge of a plain replace: the record as sent, discarding what was stored. */
  function Overwrite<T>(stored: T, incoming: T): T {
    incoming
  }

  /** An upsert never shrinks the list, grows it by at most one, and touches at most one old position. */
  lemma UpsertShape<T>(xs: seq<T>, key: T -> string, x: T, merge: (T, T) -> T)
    ensures var r := Upsert(xs, key, x, merge);
      && |xs| <= |r| <= |xs| + 1
      && (|r| == |xs| + 1 <==> Absent(xs, key, key(x)))
      && forall j, j' :: 0 <= j < j' < |xs| ==> r[j] == xs[j] || r[j'] == xs[j']
  {
    var r := Upsert(xs, key, x, merge);
    match IndexOf(xs, key, key(x))
    case Some(i) =>
      assert r == xs[i := merge(xs[i], x)];
    case None =>
      assert r == xs + [x];
  }

  /** `filter(x => key(x) !== k)`: drop every element whose key is `k`, keeping the others in order. */
  function RemoveKey<T(==)>(xs: seq<T>, key: T -> string, k: string): (r: seq<T>)
    ensures Absent(r, key, k)
    ensures forall j :: 0 <= j < |r| ==> r[j] in xs
    ensures forall j :: 0 <= j < |xs| && key(xs[j]) != k ==> xs[j] in r
    ensures |r| <= |xs|
  {
    if |xs| == 0 then []
    else
      var rest := RemoveKey(xs[1..], key, k);
      assert forall j :: 1 <= j < |xs| ==> xs[j] == xs[1..][j - 1];
      if key(xs[0]) == k then rest else [xs[0]] + rest
  }

  /** Filtering distributes over concatenation, so the kept elements stay in their original order. */
  lemma {:induction false} RemoveKeyAppend<T>(a: seq<T>, b: seq<T>, key: T -> string, k: string)
    ensures RemoveKey(a + b, key, k) == RemoveKey(a, key, k) + RemoveKey(b, key, k)
    decreases |a|
  {
    if |a| == 0 {
      assert a + b == b;
    } else {
      assert (a + b)[0] == a[0];
      assert (a + b)[1..] == a[1..] + b;
      RemoveKeyAppend(a[1..], b, key, k);
    }
  }

  /** Removing a key that no element carries changes nothing. */
  lemma {:induction false} RemoveKeyAbsent<T>(xs: seq<T>, key: T -> string, k: string)
    requires Absent(xs, key, k)
    ensures RemoveKey(xs, key, k) == xs
    decreases |xs|
  {
    if |xs| > 0 {
      RemoveKeyAbsent(xs[1..], key, k);
      assert [xs[0]] + xs[1..] == xs;
    }
  }

  /** Removing the same key twice is the same as removing it once. */
  lemma RemoveKeyIdempotent<T>(xs: seq<T>, key: T -> string, k: string)
    ensures RemoveKey(RemoveKey(xs, key, k), key, k) == RemoveKey(xs, key, k)
  {
    RemoveKeyAbsent(RemoveKey(xs, key, k), key, k);
  }

  /** The list shrinks exactly when some element carried the key. */
  lemma {:induction false} RemoveKeyShrinks<T>(xs: seq<T>, key: T -> string, k: string)
    ensures |RemoveKey(xs, key, k)| < |xs| <==> !Absent(xs, key, k)
    decreases |xs|
  {
    if |xs| > 0 {
      RemoveKeyShrinks(xs[1..], key, k);
      if Absent(xs, key, k) {
        assert Absent(xs[1..], key, k) by {
          forall j | 0 <= j < |xs[1..]| ensures key(xs[1..][j]) != k {
            assert xs[1..][j] == xs[j + 1];
          }
        }
      } else if key(xs[0]) != k {
        var j :| 0 <= j < |xs| && key(xs[j]) == k;
        assert xs[1..][j - 1] == xs[j];
      }
    }
  }
}
