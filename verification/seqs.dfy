/** Sequence operations standing in for the compiler's containers: the
    growable vector `Vec` (with `add_exclusive`) and the statement lists of
    blocks (`remove`, `insertAtTail`). */
module Seqs {

  /** No element occurs twice. */
  predicate NoDup<T(==)>(s: seq<T>) {
    forall i, j :: 0 <= i < j < |s| ==> s[i] != s[j]
  }

  /** `Vec::add_exclusive`: append `x` unless it is already present. Earlier
      elements keep their positions and the vector grows exactly when `x` is
      new. */
  function AddExclusive<T(==)>(v: seq<T>, x: T): (r: seq<T>)
    ensures x in r
    ensures |v| <= |r| <= |v| + 1 && r[..|v|] == v
    ensures |r| == |v| <==> x in v
    ensures NoDup(v) ==> NoDup(r)
  {
    if x in v then v else v + [x]
  }

  /** Position of the first occurrence of `x` in `s`. */
  function IndexOf<T(==)>(s: seq<T>, x: T): (i: nat)
    requires x in s
    ensures i < |s| && s[i] == x && x !in s[..i]
  {
    if s[0] == x then 0 else 1 + IndexOf(s[1..], x)
  }

  /** The elements of `s` that do not occur in `drop`, in their original order. */
  function Keep<T(==)>(s: seq<T>, drop: seq<T>): seq<T> {
    if s == [] then []
    else (if s[0] in drop then [] else [s[0]]) + Keep(s[1..], drop)
  }

  /** Filtering keeps exactly the elements not dropped. */
  lemma {:induction false} KeepMember<T>(s: seq<T>, drop: seq<T>, y: T)
    ensures y in Keep(s, drop) <==> y in s && y !in drop
  {
    if s != [] {
      KeepMember(s[1..], drop, y);
      assert s == [s[0]] + s[1..];
    }
  }

  /** Filtering a duplicate-free sequence leaves it duplicate-free. */
  lemma {:induction false} KeepNoDup<T>(s: seq<T>, drop: seq<T>)
    requires NoDup(s)
    ensures NoDup(Keep(s, drop))
  {
    if s != [] {
      var t := s[1..];
      assert NoDup(t) by {
        assert forall k :: 0 <= k < |t| ==> t[k] == s[k + 1];
      }
      KeepNoDup(t, drop);
      KeepMember(t, drop, s[0]);
      assert s[0] !in t by {
        assert forall k :: 0 <= k < |t| ==> t[k] == s[k + 1];
      }
    }
  }

  /** Filtering distributes over concatenation. */
  lemma {:induction false} KeepAppend<T>(a: seq<T>, b: seq<T>, drop: seq<T>)
    ensures Keep(a + b, drop) == Keep(a, drop) + Keep(b, drop)
  {
    if a == [] {
      assert a + b == b;
    } else {
      assert (a + b)[0] == a[0] && (a + b)[1..] == a[1..] + b;
      KeepAppend(a[1..], b, drop);
    }
  }

  /** Filtering out elements that do not occur changes nothing. */
  lemma {:induction false} KeepNothing<T>(s: seq<T>, drop: seq<T>)
    requires forall y :: y in s ==> y !in drop
    ensures Keep(s, drop) == s
  {
    if s != [] {
      KeepNothing(s[1..], drop);
    }
  }

  /** Filtering twice is filtering once by both lists. */
  lemma {:induction false} KeepKeep<T>(s: seq<T>, d: seq<T>, e: seq<T>)
    ensures Keep(Keep(s, d), e) == Keep(s, d + e)
  {
    if s != [] {
      KeepKeep(s[1..], d, e);
      var head := if s[0] in d then [] else [s[0]];
      KeepAppend(head, Keep(s[1..], d), e);
    }
  }

  /** In a duplicate-free sequence, dropping the element at position `i`
      leaves the elements before and after it contiguous and in order. */
  lemma {:induction false} KeepOneIsDelete<T>(s: seq<T>, i: nat)
    requires NoDup(s) && i < |s|
    ensures Keep(s, [s[i]]) == s[..i] + s[i + 1..]
  {
    var t := s[1..];
    assert forall k :: 0 <= k < |t| ==> t[k] == s[k + 1];
    if i == 0 {
      assert forall y :: y in t ==> y !in [s[0]];
      KeepNothing(t, [s[0]]);
    } else {
      assert s[0] !in [s[i]];
      assert t[i - 1] == s[i];
      assert NoDup(t);
      KeepOneIsDelete(t, i - 1);
      assert s[..i] == [s[0]] + t[..i - 1];
      assert s[i + 1..] == t[i..];
    }
  }
}
