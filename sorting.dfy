/** The stable sort that Array.prototype.sort performs, by an integer rank:
    used for the notes of a prompt (newest first) and for the array-index
    keys that Object.entries lists first. */
module Sorting {
  predicate SortedBy<T>(s: seq<T>, rank: T -> int)
  {
    forall i, j :: 0 <= i < j < |s| ==> rank(s[i]) <= rank(s[j])
  }

  /** Every element ranks at least `lo`. */
  predicate AtLeast<T>(lo: int, s: seq<T>, rank: T -> int)
  {
    forall i :: 0 <= i < |s| ==> lo <= rank(s[i])
  }

  /** Places `x` before the first element that does not rank below it. */
  function InsertBy<T>(x: T, s: seq<T>, rank: T -> int): seq<T>
  {
    if s == [] then [x]
    else if rank(x) <= rank(s[0]) then [x] + s
    else [s[0]] + InsertBy(x, s[1..], rank)
  }

  /** Insertion sort: sorts the tail, then inserts the head. */
  function SortBy<T>(s: seq<T>, rank: T -> int): seq<T>
  {
    if s == [] then [] else InsertBy(s[0], SortBy(s[1..], rank), rank)
  }

  /** The elements of `s` with rank `v`, in their order in `s`. */
  function RankedAt<T>(s: seq<T>, rank: T -> int, v: int): seq<T>
  {
    if s == [] then []
    else (if rank(s[0]) == v then [s[0]] else []) + RankedAt(s[1..], rank, v)
  }

  lemma {:induction false} InsertPerm<T>(x: T, s: seq<T>, rank: T -> int)
    ensures multiset(InsertBy(x, s, rank)) == multiset(s) + multiset{x}
    decreases |s|
  {
    if s != [] && rank(x) > rank(s[0]) {
      InsertPerm(x, s[1..], rank);
      assert s == [s[0]] + s[1..];
    }
  }

  lemma {:induction false} InsertAtLeast<T>(lo: int, x: T, s: seq<T>, rank: T -> int)
    requires AtLeast(lo, s, rank) && lo <= rank(x)
    ensures AtLeast(lo, InsertBy(x, s, rank), rank)
    decreases |s|
  {
    if s != [] && rank(x) > rank(s[0]) {
      InsertAtLeast(lo, x, s[1..], rank);
      var rest := InsertBy(x, s[1..], rank);
      assert forall i :: 0 < i < |rest| + 1 ==> ([s[0]] + rest)[i] == rest[i - 1];
    }
  }

  lemma {:induction false} InsertSorted<T>(x: T, s: seq<T>, rank: T -> int)
    requires SortedBy(s, rank)
    ensures SortedBy(InsertBy(x, s, rank), rank)
    decreases |s|
  {
    if s != [] {
      if rank(x) <= rank(s[0]) {
        var r := [x] + s;
        forall i, j | 0 <= i < j < |r| ensures rank(r[i]) <= rank(r[j]) {
          if i > 0 {
            assert r[i] == s[i - 1] && r[j] == s[j - 1];
          } else {
            assert r[j] == s[j - 1];
            assert rank(s[0]) <= rank(s[j - 1]);
          }
        }
      } else {
        var tail := s[1..];
        assert SortedBy(tail, rank) by {
          forall i, j | 0 <= i < j < |tail| ensures rank(tail[i]) <= rank(tail[j]) {
            assert tail[i] == s[i + 1] && tail[j] == s[j + 1];
          }
        }
        assert AtLeast(rank(s[0]), tail, rank) by {
          forall i | 0 <= i < |tail| ensures rank(s[0]) <= rank(tail[i]) {
            assert tail[i] == s[i + 1];
          }
        }
        InsertSorted(x, tail, rank);
        InsertAtLeast(rank(s[0]), x, tail, rank);
        var rest := InsertBy(x, tail, rank);
        var r := [s[0]] + rest;
        forall i, j | 0 <= i < j < |r| ensures rank(r[i]) <= rank(r[j]) {
          assert r[j] == rest[j - 1];
          if i > 0 {
            assert r[i] == rest[i - 1];
          }
        }
      }
    }
  }

  /** The sort returns its input reordered, in rank order. */
  lemma {:induction false} SortBySpec<T>(s: seq<T>, rank: T -> int)
    ensures SortedBy(SortBy(s, rank), rank)
    ensures multiset(SortBy(s, rank)) == multiset(s)
    decreases |s|
  {
    if s != [] {
      SortBySpec(s[1..], rank);
      InsertSorted(s[0], SortBy(s[1..], rank), rank);
      InsertPerm(s[0], SortBy(s[1..], rank), rank);
      assert s == [s[0]] + s[1..];
    }
  }

  lemma {:induction false} RankedAtInsert<T>(x: T, s: seq<T>, rank: T -> int, v: int)
    ensures RankedAt(InsertBy(x, s, rank), rank, v) == (if rank(x) == v then [x] else []) + RankedAt(s, rank, v)
    decreases |s|
  {
    if s == [] {
    } else if rank(x) <= rank(s[0]) {
      assert ([x] + s)[1..] == s;
    } else {
      var rest := InsertBy(x, s[1..], rank);
      var r := [s[0]] + rest;
      assert r[0] == s[0] && r[1..] == rest;
      RankedAtInsert(x, s[1..], rank, v);
      var h0: seq<T> := if rank(s[0]) == v then [s[0]] else [];
      var hx: seq<T> := if rank(x) == v then [x] else [];
      var tail := RankedAt(s[1..], rank, v);
      assert RankedAt(r, rank, v) == h0 + RankedAt(rest, rank, v);
      assert RankedAt(s, rank, v) == h0 + tail;
      SwapEmpty(h0, hx, tail);
    }
  }

  lemma SwapEmpty<T>(a: seq<T>, b: seq<T>, c: seq<T>)
    requires a == [] || b == []
    ensures a + (b + c) == b + (a + c)
  {
    if a == [] {
      assert a + (b + c) == b + c;
      assert a + c == c;
    } else {
      assert b + c == c;
      assert b + (a + c) == a + c;
    }
  }

  /** The sort is stable: elements of equal rank keep their order. */
  lemma {:induction false} SortIsStable<T>(s: seq<T>, rank: T -> int, v: int)
    ensures RankedAt(SortBy(s, rank), rank, v) == RankedAt(s, rank, v)
    decreases |s|
  {
    if s != [] {
      SortIsStable(s[1..], rank, v);
      RankedAtInsert(s[0], SortBy(s[1..], rank), rank, v);
    }
  }
}
