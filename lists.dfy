/** Sequence facts shared by the server and the client scripts: duplicate-free
    lists and the `xs.filter(x => ys.includes(x)).length` count. */
module Lists {

  predicate NoDup<T(==)>(xs: seq<T>)
  {
    forall i, j :: 0 <= i < j < |xs| ==> xs[i] != xs[j]
  }

  /** Position of the first occurrence of `x` (JavaScript `indexOf` when found). */
  function IndexOf<T(==)>(xs: seq<T>, x: T): (i: nat)
    requires x in xs
    ensures i < |xs| && xs[i] == x && x !in xs[..i]
  {
    if xs[0] == x then 0 else 1 + IndexOf(xs[1..], x)
  }

  /** `xs.filter(x => ys.includes(x)).length`: the positions of `xs` whose
      element occurs in `ys`, duplicates in `xs` counted each time. */
  function CountIn<T(==)>(xs: seq<T>, ys: seq<T>): (n: nat)
    ensures n <= |xs|
    ensures (forall i :: 0 <= i < |xs| ==> xs[i] in ys) ==> n == |xs|
    ensures (forall i :: 0 <= i < |xs| ==> xs[i] !in ys) ==> n == 0
  {
    if xs == [] then 0 else (if xs[0] in ys then 1 else 0) + CountIn(xs[1..], ys)
  }

  /** Membership in `ys` is all that CountIn looks at. */
  lemma {:induction false} CountInSameMembers<T>(xs: seq<T>, ys: seq<T>, zs: seq<T>)
    requires forall i :: 0 <= i < |xs| ==> (xs[i] in ys <==> xs[i] in zs)
    ensures CountIn(xs, ys) == CountIn(xs, zs)
  {
    if xs != [] {
      CountInSameMembers(xs[1..], ys, zs);
    }
  }

  /** A duplicate-free list has at most |ys| of its elements in `ys`. */
  lemma {:induction false} CountInBound<T>(xs: seq<T>, ys: seq<T>)
    requires NoDup(xs)
    ensures CountIn(xs, ys) <= |ys|
    decreases |xs|
  {
    if xs != [] {
      var rest := xs[1..];
      assert NoDup(rest);
      if xs[0] in ys {
        var k := IndexOf(ys, xs[0]);
        var ys' := ys[..k] + ys[k + 1..];
        forall i | 0 <= i < |rest|
          ensures rest[i] in ys <==> rest[i] in ys'
        {
          assert rest[i] != xs[0];
          if rest[i] in ys {
            var j :| 0 <= j < |ys| && ys[j] == rest[i];
            if j < k { assert ys'[j] == rest[i]; } else { assert ys'[j - 1] == rest[i]; }
          }
        }
        CountInSameMembers(rest, ys, ys');
        CountInBound(rest, ys');
      } else {
        CountInBound(rest, ys);
      }
    }
  }

  /** A subset is no larger than its superset. */
  lemma {:induction false} SubsetCardinality<T>(a: set<T>, b: set<T>)
    requires a <= b
    ensures |a| <= |b|
    decreases a
  {
    if a != {} {
      var x :| x in a;
      SubsetCardinality(a - {x}, b - {x});
    }
  }
}
