/** Python's `sorted`: a stable sort by a key, here given as the total preorder
    `leq` that comparing the keys induces. */
module StableSort {

  ghost predicate TotalPreorder<T(!new)>(leq: (T, T) -> bool) {
    && (forall x, y :: leq(x, y) || leq(y, x))
    && (forall x, y, z :: leq(x, y) && leq(y, z) ==> leq(x, z))
  }

  ghost predicate SortedBy<T(!new)>(leq: (T, T) -> bool, xs: seq<T>) {
    forall i, j :: 0 <= i < j < |xs| ==> leq(xs[i], xs[j])
  }

  function Insert<T>(leq: (T, T) -> bool, x: T, xs: seq<T>): (r: seq<T>)
    ensures multiset(r) == multiset{x} + multiset(xs)
    ensures |r| == |xs| + 1
  {
    if xs == [] || leq(x, xs[0]) then [x] + xs
    else
      assert xs == [xs[0]] + xs[1..];
      [xs[0]] + Insert(leq, x, xs[1..])
  }

  function Sort<T>(leq: (T, T) -> bool, xs: seq<T>): (r: seq<T>)
    ensures multiset(r) == multiset(xs)
    ensures |r| == |xs|
  {
    if xs == [] then []
    else
      assert xs == [xs[0]] + xs[1..];
      Insert(leq, xs[0], Sort(leq, xs[1..]))
  }

  lemma {:induction false} SameElements<T>(leq: (T, T) -> bool, xs: seq<T>, x: T)
    ensures x in Sort(leq, xs) <==> x in xs
  {
    assert x in multiset(Sort(leq, xs)) <==> x in multiset(xs);
  }

  lemma {:induction false} InsertSorted<T(!new)>(leq: (T, T) -> bool, x: T, xs: seq<T>)
    requires TotalPreorder(leq) && SortedBy(leq, xs)
    ensures SortedBy(leq, Insert(leq, x, xs))
  {
    if xs == [] {
    } else if leq(x, xs[0]) {
      assert forall j :: 0 <= j < |xs| ==> leq(xs[0], xs[j]);
    } else {
      InsertSorted(leq, x, xs[1..]);
      var tail := Insert(leq, x, xs[1..]);
      forall j | 0 <= j < |tail| ensures leq(xs[0], tail[j]) {
        assert tail[j] in multiset(tail);
        assert tail[j] == x || tail[j] in xs[1..];
      }
    }
  }

  lemma {:induction false} Sorted<T(!new)>(leq: (T, T) -> bool, xs: seq<T>)
    requires TotalPreorder(leq)
    ensures SortedBy(leq, Sort(leq, xs))
  {
    if xs != [] {
      Sorted(leq, xs[1..]);
      InsertSorted(leq, xs[0], Sort(leq, xs[1..]));
    }
  }

  /** The elements of `xs` whose key ties with that of `e`, in order. */
  function Ties<T>(leq: (T, T) -> bool, e: T, xs: seq<T>): (r: seq<T>)
    ensures forall x :: x in r ==> x in xs && leq(e, x) && leq(x, e)
  {
    if xs == [] then []
    else if leq(e, xs[0]) && leq(xs[0], e) then [xs[0]] + Ties(leq, e, xs[1..])
    else Ties(leq, e, xs[1..])
  }

  lemma {:induction false} TiesComplete<T(!new)>(leq: (T, T) -> bool, e: T, xs: seq<T>)
    requires e in xs && leq(e, e)
    ensures e in Ties(leq, e, xs)
  {
    if e != xs[0] {
      TiesComplete(leq, e, xs[1..]);
    }
  }

  lemma {:induction false} TiesOfInsert<T(!new)>(leq: (T, T) -> bool, e: T, x: T, xs: seq<T>)
    requires TotalPreorder(leq)
    ensures Ties(leq, e, Insert(leq, x, xs)) == Ties(leq, e, [x] + xs)
  {
    assert ([x] + xs)[1..] == xs;
    if xs == [] || leq(x, xs[0]) {
    } else {
      TiesOfInsert(leq, e, x, xs[1..]);
      assert ([x] + xs[1..])[1..] == xs[1..];
      var ins := Insert(leq, x, xs[1..]);
      assert ([xs[0]] + ins)[1..] == ins;
    }
  }

  /** Stability: tied elements keep the order they came in. */
  lemma {:induction false} Stable<T(!new)>(leq: (T, T) -> bool, e: T, xs: seq<T>)
    requires TotalPreorder(leq)
    ensures Ties(leq, e, Sort(leq, xs)) == Ties(leq, e, xs)
  {
    if xs != [] {
      Stable(leq, e, xs[1..]);
      var rest := Sort(leq, xs[1..]);
      TiesOfInsert(leq, e, xs[0], rest);
      assert ([xs[0]] + rest)[1..] == rest;
    }
  }

  /** A sorted sequence is determined by its runs of ties. */
  lemma {:induction false} SortedUnique<T(!new)>(leq: (T, T) -> bool, a: seq<T>, b: seq<T>)
    requires TotalPreorder(leq) && SortedBy(leq, a) && SortedBy(leq, b)
    requires forall e :: Ties(leq, e, a) == Ties(leq, e, b)
    ensures a == b
  {
    if a == [] {
    } else {
      TiesComplete(leq, a[0], a);
      assert a[0] in Ties(leq, a[0], b);
      assert a[0] in b && leq(b[0], a[0]);
      TiesComplete(leq, b[0], b);
      assert b[0] in Ties(leq, b[0], a);
      assert leq(a[0], b[0]);
      assert a[0] == Ties(leq, a[0], a)[0] == Ties(leq, a[0], b)[0] == b[0];
      forall e ensures Ties(leq, e, a[1..]) == Ties(leq, e, b[1..]) {
        var ta, tb := Ties(leq, e, a[1..]), Ties(leq, e, b[1..]);
        assert ta == ([a[0]] + ta)[1..] && tb == ([b[0]] + tb)[1..];
        assert Ties(leq, e, a) == Ties(leq, e, b);
      }
      SortedUnique(leq, a[1..], b[1..]);
      assert a == [a[0]] + a[1..] && b == [b[0]] + b[1..];
    }
  }

  /** Sorting forgets everything but the order inside each run of ties. */
  lemma {:induction false} SortEqualIff<T(!new)>(leq: (T, T) -> bool, a: seq<T>, b: seq<T>)
    requires TotalPreorder(leq)
    ensures (forall e :: Ties(leq, e, a) == Ties(leq, e, b)) ==> Sort(leq, a) == Sort(leq, b)
    ensures Sort(leq, a) == Sort(leq, b) ==> forall e :: Ties(leq, e, a) == Ties(leq, e, b)
  {
    var sa, sb := Sort(leq, a), Sort(leq, b);
    forall e ensures Ties(leq, e, sa) == Ties(leq, e, a) && Ties(leq, e, sb) == Ties(leq, e, b) {
      Stable(leq, e, a);
      Stable(leq, e, b);
    }
    if forall e :: Ties(leq, e, a) == Ties(leq, e, b) {
      Sorted(leq, a);
      Sorted(leq, b);
      SortedUnique(leq, sa, sb);
    } else {
      var e :| Ties(leq, e, a) != Ties(leq, e, b);
      assert Ties(leq, e, sa) != Ties(leq, e, sb);
      assert sa != sb;
    }
  }
}
