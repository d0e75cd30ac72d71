/** Python's `sorted(..., key=...)`: by key, and stable. */
module Sorting {
  import opened Text

  /** Behind everything whose key does not come after that of `x`. */
  function Insert<T>(key: T -> string, x: T, xs: seq<T>): seq<T> {
    if xs == [] || Before(key(x), key(xs[0])) then [x] + xs
    else [xs[0]] + Insert(key, x, xs[1..])
  }

  function Sorted<T>(key: T -> string, xs: seq<T>): seq<T> {
    if xs == [] then [] else Insert(key, xs[|xs| - 1], Sorted(key, xs[..|xs| - 1]))
  }

  /** No key comes before one that stands earlier. */
  ghost predicate InOrder<T>(key: T -> string, xs: seq<T>) {
    forall i, j | 0 <= i < j < |xs| :: !Before(key(xs[j]), key(xs[i]))
  }

  /** Every key comes before those that stand later. */
  ghost predicate InStrictOrder<T>(key: T -> string, xs: seq<T>) {
    forall i, j | 0 <= i < j < |xs| :: Before(key(xs[i]), key(xs[j]))
  }

  /** The elements with one key, in the order they have. */
  function WithKey<T>(key: T -> string, k: string, xs: seq<T>): seq<T> {
    if xs == [] then []
    else if key(xs[0]) == k then [xs[0]] + WithKey(key, k, xs[1..])
    else WithKey(key, k, xs[1..])
  }

  lemma {:induction false} InsertContents<T>(key: T -> string, x: T, xs: seq<T>)
    ensures multiset(Insert(key, x, xs)) == multiset(xs) + multiset{x}
  {
    hide Before;
    if xs != [] {
      InsertContents(key, x, xs[1..]);
      assert xs == [xs[0]] + xs[1..];
    }
  }

  lemma {:induction false} InsertHolds<T>(key: T -> string, x: T, xs: seq<T>)
    ensures x in Insert(key, x, xs) && forall y | y in xs :: y in Insert(key, x, xs)
    ensures forall y | y in Insert(key, x, xs) :: y == x || y in xs
  {
    hide Before;
    if xs != [] {
      InsertHolds(key, x, xs[1..]);
      assert xs == [xs[0]] + xs[1..];
    }
  }

  lemma OrderBehind<T>(key: T -> string, head: T, rest: seq<T>)
    requires InOrder(key, rest) && forall x | x in rest :: !Before(key(x), key(head))
    ensures InOrder(key, [head] + rest)
  {
    hide Before;
    var all := [head] + rest;
    assert forall k | 1 <= k < |all| :: all[k] == rest[k - 1] && all[k] in rest;
  }

  lemma {:induction false} InsertKeepsOrder<T>(key: T -> string, x: T, xs: seq<T>)
    requires InOrder(key, xs)
    ensures InOrder(key, Insert(key, x, xs))
  {
    hide Before;
    if xs == [] || Before(key(x), key(xs[0])) {
      forall y | y in xs ensures !Before(key(y), key(x)) {
        BeforeIsStrictOrder(key(y), key(x), key(xs[0]));
        BeforeIsStrictOrder(key(xs[0]), key(x), key(xs[0]));
      }
      OrderBehind(key, x, xs);
    } else {
      InsertKeepsOrder(key, x, xs[1..]);
      InsertHolds(key, x, xs[1..]);
      forall y | y in Insert(key, x, xs[1..]) ensures !Before(key(y), key(xs[0])) {
        if y != x { var i :| 0 <= i < |xs| - 1 && xs[1..][i] == y; }
      }
      OrderBehind(key, xs[0], Insert(key, x, xs[1..]));
    }
  }

  lemma StrictBehind<T>(key: T -> string, head: T, rest: seq<T>)
    requires InStrictOrder(key, rest) && forall x | x in rest :: Before(key(head), key(x))
    ensures InStrictOrder(key, [head] + rest)
  {
    hide Before;
    var all := [head] + rest;
    assert forall k | 1 <= k < |all| :: all[k] == rest[k - 1] && all[k] in rest;
  }

  /** Inserting a new key keeps all keys distinct and in order. */
  lemma {:induction false} InsertKeepsStrictOrder<T>(key: T -> string, x: T, xs: seq<T>)
    requires InStrictOrder(key, xs) && forall y | y in xs :: key(y) != key(x)
    ensures InStrictOrder(key, Insert(key, x, xs))
  {
    hide Before;
    if xs == [] || Before(key(x), key(xs[0])) {
      forall y | y in xs ensures Before(key(x), key(y)) {
        BeforeIsStrictOrder(key(x), key(xs[0]), key(y));
      }
      StrictBehind(key, x, xs);
    } else {
      InsertKeepsStrictOrder(key, x, xs[1..]);
      InsertHolds(key, x, xs[1..]);
      BeforeIsStrictOrder(key(x), key(xs[0]), key(x));
      forall y | y in Insert(key, x, xs[1..]) ensures Before(key(xs[0]), key(y)) {
        if y != x { var i :| 0 <= i < |xs| - 1 && xs[1..][i] == y; }
      }
      StrictBehind(key, xs[0], Insert(key, x, xs[1..]));
    }
  }

  lemma {:induction false} InsertLast<T>(key: T -> string, x: T, xs: seq<T>)
    requires InOrder(key, xs + [x])
    ensures Insert(key, x, xs) == xs + [x]
  {
    hide Before;
    if xs != [] {
      var all := xs + [x];
      assert !Before(key(all[|xs|]), key(all[0]));
      assert xs[1..] + [x] == all[1..];
      InsertLast(key, x, xs[1..]);
    }
  }

  lemma {:induction false} InsertIsStable<T>(key: T -> string, x: T, xs: seq<T>, k: string)
    requires InOrder(key, xs)
    ensures WithKey(key, k, Insert(key, x, xs)) == WithKey(key, k, xs) + if key(x) == k then [x] else []
  {
    hide Before;
    if xs == [] || Before(key(x), key(xs[0])) {
      assert ([x] + xs)[1..] == xs;
      if key(x) == k {
        forall j | 0 <= j < |xs| ensures key(xs[j]) != k {
          BeforeIsStrictOrder(k, key(xs[0]), k);
        }
        NoneWithKey(key, k, xs);
      }
    } else {
      InsertIsStable(key, x, xs[1..], k);
      hide InOrder;
      assert Insert(key, x, xs)[1..] == Insert(key, x, xs[1..]);
    }
  }

  lemma {:induction false} NoneWithKey<T>(key: T -> string, k: string, xs: seq<T>)
    requires forall j | 0 <= j < |xs| :: key(xs[j]) != k
    ensures WithKey(key, k, xs) == []
  {
    if xs != [] {
      NoneWithKey(key, k, xs[1..]);
    }
  }

  lemma WithKeyFirst<T>(key: T -> string, k: string, xs: seq<T>)
    requires xs != []
    ensures WithKey(key, k, xs) == (if key(xs[0]) == k then [xs[0]] else []) + WithKey(key, k, xs[1..])
  {
  }

  lemma {:induction false} WithKeyConcat<T>(key: T -> string, k: string, xs: seq<T>, ys: seq<T>)
    ensures WithKey(key, k, xs + ys) == WithKey(key, k, xs) + WithKey(key, k, ys)
  {
    if xs == [] {
      assert xs + ys == ys;
    } else {
      WithKeyConcat(key, k, xs[1..], ys);
      WithKeyFirst(key, k, xs + ys);
      WithKeyFirst(key, k, xs);
      hide WithKey;
      assert (xs + ys)[0] == xs[0] && (xs + ys)[1..] == xs[1..] + ys;
    }
  }

  /** Sorting permutes and orders. */
  lemma {:induction false} SortedOrders<T>(key: T -> string, xs: seq<T>)
    ensures multiset(Sorted(key, xs)) == multiset(xs) && InOrder(key, Sorted(key, xs))
  {
    if xs != [] {
      var n := |xs| - 1;
      SortedOrders(key, xs[..n]);
      assert xs == xs[..n] + [xs[n]];
      InsertContents(key, xs[n], Sorted(key, xs[..n]));
      InsertKeepsOrder(key, xs[n], Sorted(key, xs[..n]));
    }
  }

  /** Elements with equal keys keep the order they had. */
  lemma {:induction false} SortedIsStable<T>(key: T -> string, xs: seq<T>, k: string)
    ensures WithKey(key, k, Sorted(key, xs)) == WithKey(key, k, xs)
  {
    if xs != [] {
      hide WithKey; hide Insert; hide InOrder;
      var n := |xs| - 1;
      SortedIsStable(key, xs[..n], k);
      SortedOrders(key, xs[..n]);
      InsertIsStable(key, xs[n], Sorted(key, xs[..n]), k);
      WithKeyConcat(key, k, xs[..n], [xs[n]]);
      WithKeyOfOne(key, k, xs[n]);
      assert xs == xs[..n] + [xs[n]];
    }
  }

  lemma WithKeyOfOne<T>(key: T -> string, k: string, x: T)
    ensures WithKey(key, k, [x]) == if key(x) == k then [x] else []
  {
    assert [x][1..] == [];
  }

  /** What is in order already stays as it is. */
  lemma {:induction false} SortedFixes<T>(key: T -> string, xs: seq<T>)
    requires InOrder(key, xs)
    ensures Sorted(key, xs) == xs
  {
    if xs != [] {
      var n := |xs| - 1;
      SortedFixes(key, xs[..n]);
      assert xs == xs[..n] + [xs[n]];
      InsertLast(key, xs[n], xs[..n]);
    }
  }

  lemma StrictIsOrder<T>(key: T -> string, xs: seq<T>)
    requires InStrictOrder(key, xs)
    ensures InOrder(key, xs)
  {
    hide Before;
    forall i, j | 0 <= i < j < |xs| ensures !Before(key(xs[j]), key(xs[i])) {
      BeforeIsStrictOrder(key(xs[j]), key(xs[i]), key(xs[j]));
    }
  }

  /** `sorted(xs, key=key)`. */
  method Sort<T>(key: T -> string, xs: seq<T>) returns (sorted: seq<T>)
    ensures multiset(sorted) == multiset(xs) && InOrder(key, sorted)
    ensures forall k :: WithKey(key, k, sorted) == WithKey(key, k, xs)
    ensures sorted == Sorted(key, xs)
  {
    hide Insert; hide InOrder; hide WithKey;
    sorted := [];
    for i := 0 to |xs|
      invariant sorted == Sorted(key, xs[..i])
    {
      assert xs[..i + 1][..i] == xs[..i];
      sorted := Insert(key, xs[i], sorted);
    }
    assert xs[..|xs|] == xs;
    SortedOrders(key, xs);
    forall k ensures WithKey(key, k, sorted) == WithKey(key, k, xs) {
      SortedIsStable(key, xs, k);
    }
  }
}
