/** A two-case optional value, for JavaScript's `undefined`/`null` fields. */
module Options {
  datatype Option<T> = None | Some(value: T)
}

/**
 * The list helpers the game adds to JavaScript arrays (`Array.prototype.remove`,
 * `Array.prototype.filterOutValue`) and the filtering that its list comprehensions perform.
 * A JavaScript array that the game edits in place is a `seq` field that its owner reassigns.
 */
module Lists {

  /** No element occurs twice. */
  ghost predicate Distinct<T>(s: seq<T>) {
    forall i, j :: 0 <= i < j < |s| ==> s[i] != s[j]
  }

  /** The elements of `s` for which `keep` holds, in their original order: a comprehension with a guard. */
  function Filter<T>(s: seq<T>, keep: T -> bool): (r: seq<T>)
    ensures |r| <= |s|
    ensures forall i :: 0 <= i < |r| ==> keep(r[i])
  {
    if s == [] then [] else (if keep(s[0]) then [s[0]] else []) + Filter(s[1..], keep)
  }

  /** An element is in the filtered list exactly when it is in the list and passes the guard. */
  lemma {:induction false} FilterMembers<T>(s: seq<T>, keep: T -> bool)
    ensures forall x :: x in Filter(s, keep) <==> x in s && keep(x)
  {
    if s != [] {
      FilterMembers(s[1..], keep);
      assert s == [s[0]] + s[1..];
    }
  }

  /** Filtering keeps every kept element as often as it occurs and drops every other one. */
  lemma {:induction false} FilterCounts<T>(s: seq<T>, keep: T -> bool, x: T)
    ensures multiset(Filter(s, keep))[x] == if keep(x) then multiset(s)[x] else 0
  {
    if s != [] {
      FilterCounts(s[1..], keep, x);
      assert s == [s[0]] + s[1..];
      assert multiset(s) == multiset{s[0]} + multiset(s[1..]);
    }
  }

  /** A filter keeps the list unchanged when every element passes, and drops it when none does. */
  lemma {:induction false} FilterAllOrNone<T>(s: seq<T>, keep: T -> bool)
    ensures (forall x :: x in s ==> keep(x)) ==> Filter(s, keep) == s
    ensures (forall x :: x in s ==> !keep(x)) ==> Filter(s, keep) == []
  {
    if s != [] {
      FilterAllOrNone(s[1..], keep);
      assert forall x :: x in s[1..] ==> x in s;
    }
  }

  /** A filter of a list without repetitions has none either. */
  lemma {:induction false} FilterDistinct<T>(s: seq<T>, keep: T -> bool)
    requires Distinct(s)
    ensures Distinct(Filter(s, keep))
  {
    if s != [] {
      assert Distinct(s[1..]) by {
        forall i, j | 0 <= i < j < |s[1..]| ensures s[1..][i] != s[1..][j] {
          assert s[1..][i] == s[i + 1] && s[1..][j] == s[j + 1];
        }
      }
      FilterDistinct(s[1..], keep);
      forall k | 0 <= k < |s[1..]| ensures s[1..][k] != s[0] {
        assert s[1..][k] == s[k + 1];
      }
      FilterMembers(s[1..], keep);
    }
  }

  /**
   * Position of the first occurrence of `e` in `s`, or -1 when there is none
   * (`Array.prototype.indexOf`, or the `__indexOf` fallback the compiled file defines).
   */
  function IndexOf<T(==)>(s: seq<T>, e: T): (i: int)
    ensures -1 <= i < |s|
    ensures i == -1 <==> e !in s
    ensures 0 <= i ==> s[i] == e && e !in s[..i]
  {
    if s == [] then -1
    else if s[0] == e then 0
    else
      var j := IndexOf(s[1..], e);
      assert s[1..][..if j < 0 then 0 else j] == s[1..if j < 0 then 1 else j + 1];
      if j == -1 then -1 else j + 1
  }

  /**
   * `Array.prototype.remove`: splice out the first occurrence of `e`, if any,
   * keeping the other elements in their order.
   */
  function RemoveFirst<T(==)>(s: seq<T>, e: T): (r: seq<T>)
    ensures e !in s ==> r == s
    ensures e in s ==> r == s[..IndexOf(s, e)] + s[IndexOf(s, e) + 1..]
    ensures forall i :: 0 <= i < |r| ==> r[i] in s
    ensures forall i :: 0 <= i < |s| && s[i] != e ==> s[i] in r
  {
    var i := IndexOf(s, e);
    if i < 0 then s
    else
      assert s == s[..i] + [e] + s[i + 1..];
      s[..i] + s[i + 1..]
  }

  /** `remove` takes out exactly one occurrence of an element that is there. */
  lemma RemoveFirstCounts<T>(s: seq<T>, e: T)
    requires e in s
    ensures |RemoveFirst(s, e)| == |s| - 1
    ensures multiset(RemoveFirst(s, e)) == multiset(s) - multiset{e}
  {
    var i := IndexOf(s, e);
    assert s == s[..i] + [e] + s[i + 1..];
  }

  /** Removing an element from a list without repetitions leaves none, and no copy of the element. */
  lemma RemoveFirstDistinct<T>(s: seq<T>, e: T)
    requires Distinct(s)
    ensures Distinct(RemoveFirst(s, e))
    ensures e !in RemoveFirst(s, e)
  {
    if e in s {
      var i := IndexOf(s, e);
      var r := s[..i] + s[i + 1..];
      assert RemoveFirst(s, e) == r;
      assert forall k :: 0 <= k < |r| ==> r[k] == s[if k < i then k else k + 1];
    }
  }

  /** Removing an element other than the head removes it from the tail. */
  lemma RemoveFirstCons<T>(s: seq<T>, e: T)
    requires s != [] && s[0] != e
    ensures RemoveFirst(s, e) == [s[0]] + RemoveFirst(s[1..], e)
  {
    var j := IndexOf(s[1..], e);
    assert IndexOf(s, e) == if j < 0 then -1 else j + 1;
    if j < 0 {
      assert s == [s[0]] + s[1..];
    } else {
      assert s[..j + 1] == [s[0]] + s[1..][..j];
      assert s[j + 2..] == s[1..][j + 1..];
    }
  }

  /** On a list without repetitions, `remove` and `filterOutValue` agree. */
  lemma {:induction false} RemoveFirstIsFilterOut<T>(s: seq<T>, e: T)
    requires Distinct(s)
    ensures RemoveFirst(s, e) == Filter(s, x => x != e)
  {
    if s != [] {
      assert Distinct(s[1..]) by {
        forall i, j | 0 <= i < j < |s[1..]| ensures s[1..][i] != s[1..][j] {
          assert s[1..][i] == s[i + 1] && s[1..][j] == s[j + 1];
        }
      }
      if s[0] == e {
        forall k | 0 <= k < |s[1..]| ensures s[1..][k] != e {
          assert s[1..][k] == s[k + 1];
        }
        FilterAllOrNone(s[1..], x => x != e);
        assert RemoveFirst(s, e) == s[1..];
      } else {
        RemoveFirstIsFilterOut(s[1..], e);
        RemoveFirstCons(s, e);
      }
    }
  }

  /** Filtering out `v` drops exactly its occurrences. */
  lemma {:induction false} FilterOutLength<T>(s: seq<T>, v: T)
    ensures v !in Filter(s, x => x != v)
    ensures |Filter(s, x => x != v)| == |s| - multiset(s)[v]
  {
    if s != [] {
      FilterOutLength(s[1..], v);
      assert s == [s[0]] + s[1..];
      assert multiset(s) == multiset{s[0]} + multiset(s[1..]);
    }
  }

  /** `Array.prototype.filterOutValue`: a fresh list of the elements different from `v`. */
  method FilterOutValue<T(==)>(s: seq<T>, v: T) returns (r: seq<T>)
    ensures r == Filter(s, x => x != v)
    ensures v !in r && |r| == |s| - multiset(s)[v]
  {
    r := [];
    for i := 0 to |s|
      invariant r + Filter(s[i..], x => x != v) == Filter(s, x => x != v)
    {
      assert s[i..] == [s[i]] + s[i + 1..];
      assert Filter(s[i..], x => x != v) == (if s[i] != v then [s[i]] else []) + Filter(s[i + 1..], x => x != v);
      if s[i] != v {
        r := r + [s[i]];
      }
    }
    assert s[|s|..] == [];
    FilterOutLength(s, v);
  }
}
