/** The engine's sorts are the platform's stable sort with a comparator that
    ranks by one or two integer keys, best first.  Stability is captured by
    inserting the elements left to right, each one after every element that
    ranks at least as high. */
module Sorting {

  /** A sort key: `primary` decides, `secondary` breaks ties; higher is better. */
  datatype Rank = Rank(primary: int, secondary: int)

  /** `a` must come strictly before `b`. */
  predicate Outranks(a: Rank, b: Rank) {
    a.primary > b.primary || (a.primary == b.primary && a.secondary > b.secondary)
  }

  /** Best first, and no element is outranked by one that comes after it. */
  predicate SortedByRank<T>(s: seq<T>, rank: T -> Rank) {
    forall i, j :: 0 <= i < j < |s| ==> !Outranks(rank(s[j]), rank(s[i]))
  }

  function Insert<T>(x: T, s: seq<T>, rank: T -> Rank): (r: seq<T>)
    ensures multiset(r) == multiset(s) + multiset{x}
    ensures |r| == |s| + 1
  {
    if s == [] then [x]
    else if Outranks(rank(x), rank(s[0])) then [x] + s
    else
      assert s == [s[0]] + s[1..];
      [s[0]] + Insert(x, s[1..], rank)
  }

  /** The stable sort, best rank first. */
  function SortByRank<T>(s: seq<T>, rank: T -> Rank): seq<T>
  {
    if s == [] then [] else Insert(s[|s| - 1], SortByRank(s[..|s| - 1], rank), rank)
  }

  lemma {:induction false} InsertKeepsSorted<T>(x: T, s: seq<T>, rank: T -> Rank)
    requires SortedByRank(s, rank)
    ensures SortedByRank(Insert(x, s, rank), rank)
  {
    if s != [] && !Outranks(rank(x), rank(s[0])) {
      InsertKeepsSorted(x, s[1..], rank);
      var r := Insert(x, s, rank);
      assert r == [s[0]] + Insert(x, s[1..], rank);
      forall j | 0 < j < |r| ensures !Outranks(rank(r[j]), rank(r[0])) {
        assert r[j] in multiset(Insert(x, s[1..], rank));
        assert r[j] == x || r[j] in multiset(s[1..]);
        if r[j] != x {
          var k :| 0 <= k < |s[1..]| && s[1..][k] == r[j];
          assert s[k + 1] == r[j];
        }
      }
    }
  }

  /** The sort returns a rearrangement of its input... */
  lemma {:induction false} SortPermutes<T>(s: seq<T>, rank: T -> Rank)
    ensures multiset(SortByRank(s, rank)) == multiset(s)
    ensures |SortByRank(s, rank)| == |s|
  {
    if s != [] {
      SortPermutes(s[..|s| - 1], rank);
      assert s == s[..|s| - 1] + [s[|s| - 1]];
    }
  }

  /** ...in which no element is outranked by a later one. */
  lemma {:induction false} SortSorts<T>(s: seq<T>, rank: T -> Rank)
    ensures SortedByRank(SortByRank(s, rank), rank)
  {
    if s != [] {
      SortSorts(s[..|s| - 1], rank);
      InsertKeepsSorted(s[|s| - 1], SortByRank(s[..|s| - 1], rank), rank);
    }
  }

  /** The position of the first element of best rank. */
  function FirstBest<T>(s: seq<T>, rank: T -> Rank): (k: nat)
    requires s != []
    ensures k < |s|
    ensures forall j :: 0 <= j < |s| ==> !Outranks(rank(s[j]), rank(s[k]))
    ensures forall j :: 0 <= j < k ==> Outranks(rank(s[k]), rank(s[j]))
  {
    if |s| == 1 then 0
    else
      var k := FirstBest(s[..|s| - 1], rank);
      assert forall j :: 0 <= j < |s| - 1 ==> s[..|s| - 1][j] == s[j];
      if Outranks(rank(s[|s| - 1]), rank(s[k])) then |s| - 1 else k
  }

  /** Stability made concrete: the head of the sorted sequence is the first
      element of the input among those of best rank. */
  lemma {:induction false} SortHeadIsFirstBest<T>(s: seq<T>, rank: T -> Rank)
    requires s != []
    ensures SortByRank(s, rank) != [] && SortByRank(s, rank)[0] == s[FirstBest(s, rank)]
  {
    var x := s[|s| - 1];
    var front := s[..|s| - 1];
    if front == [] {
      assert SortByRank(s, rank) == Insert(x, [], rank) == [x];
    } else {
      SortHeadIsFirstBest(front, rank);
      SortPermutes(front, rank);
      var r := SortByRank(front, rank);
      assert r != [];
      assert SortByRank(s, rank) == Insert(x, r, rank);
    }
  }

  /** The elements of rank `q`, in their order in `s`. */
  function OfRank<T>(s: seq<T>, rank: T -> Rank, q: Rank): seq<T>
  {
    if s == [] then [] else (if rank(s[0]) == q then [s[0]] else []) + OfRank(s[1..], rank, q)
  }

  lemma {:induction false} OfRankAppend<T>(a: seq<T>, b: seq<T>, rank: T -> Rank, q: Rank)
    ensures OfRank(a + b, rank, q) == OfRank(a, rank, q) + OfRank(b, rank, q)
  {
    if a != [] {
      OfRankAppend(a[1..], b, rank, q);
      assert (a + b)[1..] == a[1..] + b;
    } else {
      assert a + b == b;
    }
  }

  /** A sorted sequence whose head is outranked by `q` has no element of rank `q`. */
  lemma {:induction false} NoneOfHigherRank<T>(s: seq<T>, rank: T -> Rank, q: Rank)
    requires SortedByRank(s, rank) && s != [] && Outranks(q, rank(s[0]))
    ensures OfRank(s, rank, q) == []
  {
    if |s| > 1 {
      assert !Outranks(rank(s[1]), rank(s[0]));
      SortedTail(s, rank);
      NoneOfHigherRank(s[1..], rank, q);
    }
  }

  /** Inserting into a sorted sequence puts `x` after every element of its own rank. */
  lemma {:induction false} InsertOfRank<T>(x: T, s: seq<T>, rank: T -> Rank, q: Rank)
    requires SortedByRank(s, rank)
    ensures OfRank(Insert(x, s, rank), rank, q) == OfRank(s, rank, q) + (if rank(x) == q then [x] else [])
  {
    if s == [] || Outranks(rank(x), rank(s[0])) {
      InsertFirstOfRank(x, s, rank, q);
    } else {
      SortedTail(s, rank);
      InsertOfRank(x, s[1..], rank, q);
      InsertLaterOfRank(x, s, rank, q);
    }
  }

  /** When `x` goes first, it is the last of its rank: none of its rank can follow a better head. */
  lemma InsertFirstOfRank<T>(x: T, s: seq<T>, rank: T -> Rank, q: Rank)
    requires SortedByRank(s, rank) && (s == [] || Outranks(rank(x), rank(s[0])))
    ensures OfRank(Insert(x, s, rank), rank, q) == OfRank(s, rank, q) + (if rank(x) == q then [x] else [])
  {
    assert Insert(x, s, rank) == [x] + s;
    OfRankCons(x, s, rank, q);
    if rank(x) == q && s != [] {
      NoneOfHigherRank(s, rank, q);
    }
  }

  /** When `x` goes past the head, the head keeps its place in front of the rest. */
  lemma InsertLaterOfRank<T>(x: T, s: seq<T>, rank: T -> Rank, q: Rank)
    requires s != [] && !Outranks(rank(x), rank(s[0]))
    requires OfRank(Insert(x, s[1..], rank), rank, q) == OfRank(s[1..], rank, q) + (if rank(x) == q then [x] else [])
    ensures OfRank(Insert(x, s, rank), rank, q) == OfRank(s, rank, q) + (if rank(x) == q then [x] else [])
  {
    var own := if rank(s[0]) == q then [s[0]] else [];
    var ownX := if rank(x) == q then [x] else [];
    assert Insert(x, s, rank) == [s[0]] + Insert(x, s[1..], rank);
    OfRankCons(s[0], Insert(x, s[1..], rank), rank, q);
    AppendAssoc(own, OfRank(s[1..], rank, q), ownX);
  }

  lemma AppendAssoc<T>(a: seq<T>, b: seq<T>, c: seq<T>)
    ensures a + (b + c) == (a + b) + c
  {
  }

  lemma OfRankCons<T>(a: T, t: seq<T>, rank: T -> Rank, q: Rank)
    ensures OfRank([a] + t, rank, q) == (if rank(a) == q then [a] else []) + OfRank(t, rank, q)
  {
    assert ([a] + t)[0] == a && ([a] + t)[1..] == t;
  }

  lemma SortedTail<T>(s: seq<T>, rank: T -> Rank)
    requires SortedByRank(s, rank) && s != []
    ensures SortedByRank(s[1..], rank)
  {
    forall i, j | 0 <= i < j < |s[1..]| ensures !Outranks(rank(s[1..][j]), rank(s[1..][i])) {
      assert s[1..][i] == s[i + 1] && s[1..][j] == s[j + 1];
    }
  }

  /** Stability: the elements of any one rank come out in their input order. */
  lemma {:induction false} SortStable<T>(s: seq<T>, rank: T -> Rank, q: Rank)
    ensures OfRank(SortByRank(s, rank), rank, q) == OfRank(s, rank, q)
  {
    if s != [] {
      var front := s[..|s| - 1];
      var last := s[|s| - 1];
      var own := if rank(last) == q then [last] else [];
      assert OfRank([last], rank, q) == own + OfRank([last][1..], rank, q);
      assert s == front + [last];
      calc {
        OfRank(SortByRank(s, rank), rank, q);
        OfRank(Insert(last, SortByRank(front, rank), rank), rank, q);
        { SortSorts(front, rank); InsertOfRank(last, SortByRank(front, rank), rank, q); }
        OfRank(SortByRank(front, rank), rank, q) + own;
        { SortStable(front, rank, q); }
        OfRank(front, rank, q) + own;
        { OfRankAppend(front, [last], rank, q); }
        OfRank(s, rank, q);
      }
    }
  }

  /** Every element of the sorted sequence comes from the input. */
  lemma SortedMember<T>(s: seq<T>, rank: T -> Rank, i: nat)
    requires i < |SortByRank(s, rank)|
    ensures SortByRank(s, rank)[i] in s
  {
    SortPermutes(s, rank);
    assert SortByRank(s, rank)[i] in multiset(SortByRank(s, rank));
  }
}
