/**
 * Lexicographic order on strings, character by character.
 *
 * Dafny's own `<` on sequences means "proper prefix", so the order in which
 * the ledger lists SKU codes is defined here and proved to be a strict
 * total order.
 */
module Lex {

  /** `a` sorts strictly before `b`: the first differing character is smaller,
      or `a` is a proper prefix of `b`. */
  predicate Less(a: string, b: string)
  {
    if a == [] then b != []
    else if b == [] then false
    else a[0] < b[0] || (a[0] == b[0] && Less(a[1..], b[1..]))
  }

  lemma {:induction false} LessIrreflexive(a: string)
    ensures !Less(a, a)
  {
    if a != [] {
      LessIrreflexive(a[1..]);
    }
  }

  lemma {:induction false} LessAsymmetric(a: string, b: string)
    requires Less(a, b)
    ensures !Less(b, a)
  {
    if a != [] && b != [] && a[0] == b[0] {
      LessAsymmetric(a[1..], b[1..]);
    }
  }

  lemma {:induction false} LessTransitive(a: string, b: string, c: string)
    requires Less(a, b) && Less(b, c)
    ensures Less(a, c)
  {
    if a != [] && a[0] == b[0] && b[0] == c[0] {
      LessTransitive(a[1..], b[1..], c[1..]);
    }
  }

  /** Any two distinct strings are ordered one way or the other. */
  lemma {:induction false} LessTotal(a: string, b: string)
    ensures a == b || Less(a, b) || Less(b, a)
  {
    if a != [] && b != [] && a[0] == b[0] {
      LessTotal(a[1..], b[1..]);
      if a[1..] == b[1..] {
        assert a == [a[0]] + a[1..] && b == [b[0]] + b[1..];
      }
    }
  }

  /** Every non-empty finite set of strings has a least element. */
  lemma {:induction false} LeastExists(xs: set<string>)
    requires xs != {}
    ensures exists m :: m in xs && forall x :: x in xs ==> !Less(x, m)
  {
    var y :| y in xs;
    var rest := xs - {y};
    if rest == {} {
      assert xs == {y};
      LessIrreflexive(y);
      assert forall x :: x in xs ==> !Less(x, y);
    } else {
      LeastExists(rest);
      var m :| m in rest && forall x :: x in rest ==> !Less(x, m);
      if Less(y, m) {
        forall x | x in xs
          ensures !Less(x, y)
        {
          if x == y {
            LessIrreflexive(y);
          } else if Less(x, y) {
            LessTransitive(x, y, m);
          }
        }
      } else {
        assert forall x :: x in xs ==> !Less(x, m);
      }
    }
  }

  /** Strictly ascending order of a sequence of strings. */
  predicate StrictlyAscending(xs: seq<string>)
  {
    forall i, j :: 0 <= i < j < |xs| ==> Less(xs[i], xs[j])
  }

  lemma SharedElement(xs: seq<string>, ys: seq<string>)
    requires xs != [] && forall z :: z in xs <==> z in ys
    ensures ys != [] && xs[0] in ys
  {
    assert xs[0] in xs;
  }

  /** A strictly ascending sequence is determined by its elements: there is
      only one way to list a set of strings in order. */
  lemma {:induction false} AscendingUnique(xs: seq<string>, ys: seq<string>)
    requires StrictlyAscending(xs) && StrictlyAscending(ys)
    requires forall z :: z in xs <==> z in ys
    ensures xs == ys
  {
    if xs == [] {
      if ys != [] {
        SharedElement(ys, xs);
      }
    } else {
      SharedElement(xs, ys);
      // The first element of each is the least of the common elements.
      assert xs[0] == ys[0] by {
        assert ys[0] in xs;
        if xs[0] != ys[0] {
          var i :| 0 <= i < |ys| && ys[i] == xs[0];
          var j :| 0 <= j < |xs| && xs[j] == ys[0];
          assert Less(ys[0], xs[0]) && Less(xs[0], ys[0]);
          LessAsymmetric(ys[0], xs[0]);
        }
      }
      forall z
        ensures z in xs[1..] <==> z in ys[1..]
      {
        if z in xs[1..] {
          var i :| 1 <= i < |xs| && xs[i] == z;
          assert z in ys;
          var j :| 0 <= j < |ys| && ys[j] == z;
          if j == 0 {
            LessIrreflexive(z);
          }
        }
        if z in ys[1..] {
          var j :| 1 <= j < |ys| && ys[j] == z;
          assert z in xs;
          var i :| 0 <= i < |xs| && xs[i] == z;
          if i == 0 {
            LessIrreflexive(z);
          }
        }
      }
      AscendingUnique(xs[1..], ys[1..]);
      assert xs == [xs[0]] + xs[1..] && ys == [ys[0]] + ys[1..];
    }
  }

  /** A strictly ascending sequence has no repeated element: it has as many
      distinct elements as it has positions. */
  lemma {:induction false} AscendingDistinct(xs: seq<string>)
    requires StrictlyAscending(xs)
    ensures |set x | x in xs| == |xs|
    decreases |xs|
  {
    if xs != [] {
      var rest := xs[1..];
      assert StrictlyAscending(rest) by {
        forall i, j | 0 <= i < j < |rest|
          ensures Less(rest[i], rest[j])
        {
          assert rest[i] == xs[i + 1] && rest[j] == xs[j + 1];
        }
      }
      AscendingDistinct(rest);
      assert xs[0] !in rest by {
        forall j | 0 <= j < |rest|
          ensures rest[j] != xs[0]
        {
          assert Less(xs[0], xs[j + 1]);
          LessIrreflexive(xs[0]);
        }
      }
      assert (set x | x in xs) == (set x | x in rest) + {xs[0]} by {
        assert xs == [xs[0]] + rest;
      }
    }
  }
}
