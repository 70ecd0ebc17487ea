/** Three-way comparisons, and the lexicographic one that strings and identifier lists both use. */
module Ordering {

  /** On the values that satisfy ok, cmp is a strict total order and 0 means equality. */
  ghost predicate Total<T(!new)>(cmp: (T, T) -> int, ok: T -> bool) {
    && (forall x, y :: ok(x) && ok(y) ==> (cmp(x, y) == 0 <==> x == y))
    && (forall x, y :: ok(x) && ok(y) ==> (cmp(x, y) < 0 <==> cmp(y, x) > 0))
    && (forall x, y, z :: ok(x) && ok(y) && ok(z) && cmp(x, y) < 0 && cmp(y, z) < 0 ==> cmp(x, z) < 0)
  }

  ghost predicate AllOk<T>(ok: T -> bool, a: seq<T>) {
    forall i :: 0 <= i < |a| ==> ok(a[i])
  }

  /** The first difference decides; a proper prefix comes first. */
  function Lex<T>(cmp: (T, T) -> int, a: seq<T>, b: seq<T>): int {
    if a == [] && b == [] then 0
    else if a == [] then -1
    else if b == [] then 1
    else if cmp(a[0], b[0]) != 0 then cmp(a[0], b[0])
    else Lex(cmp, a[1..], b[1..])
  }

  lemma {:induction false} LexZero<T(!new)>(cmp: (T, T) -> int, ok: T -> bool, a: seq<T>, b: seq<T>)
    requires Total(cmp, ok) && AllOk(ok, a) && AllOk(ok, b)
    ensures Lex(cmp, a, b) == 0 <==> a == b
  {
    if a == [] || b == [] {
    } else {
      assert a == [a[0]] + a[1..] && b == [b[0]] + b[1..];
      assert ok(a[0]) && ok(b[0]);
      if cmp(a[0], b[0]) == 0 {
        LexZero(cmp, ok, a[1..], b[1..]);
      }
    }
  }

  lemma {:induction false} LexSwap<T(!new)>(cmp: (T, T) -> int, ok: T -> bool, a: seq<T>, b: seq<T>)
    requires Total(cmp, ok) && AllOk(ok, a) && AllOk(ok, b)
    ensures Lex(cmp, a, b) < 0 <==> Lex(cmp, b, a) > 0
  {
    if a == [] || b == [] {
    } else {
      assert ok(a[0]) && ok(b[0]);
      assert cmp(a[0], b[0]) < 0 <==> cmp(b[0], a[0]) > 0;
      assert cmp(a[0], b[0]) > 0 <==> cmp(b[0], a[0]) < 0;
      LexSwap(cmp, ok, a[1..], b[1..]);
    }
  }

  lemma {:induction false} LexTransitive<T(!new)>(
    cmp: (T, T) -> int, ok: T -> bool, a: seq<T>, b: seq<T>, c: seq<T>)
    requires Total(cmp, ok) && AllOk(ok, a) && AllOk(ok, b) && AllOk(ok, c)
    requires Lex(cmp, a, b) < 0 && Lex(cmp, b, c) < 0
    ensures Lex(cmp, a, c) < 0
  {
    if a == [] || b == [] || c == [] {
    } else {
      var x, y, z := a[0], b[0], c[0];
      assert ok(x) && ok(y) && ok(z);
      if cmp(x, y) == 0 && cmp(y, z) == 0 {
        LexTransitive(cmp, ok, a[1..], b[1..], c[1..]);
      } else if cmp(x, y) == 0 {
        assert cmp(x, z) < 0;
      } else if cmp(y, z) == 0 {
        assert cmp(x, z) < 0;
      } else {
        assert cmp(x, y) < 0 && cmp(y, z) < 0;
      }
    }
  }

  /** What less means: at the first difference the element is less, or the list ends there. */
  ghost predicate FirstDifferenceLess<T>(cmp: (T, T) -> int, a: seq<T>, b: seq<T>, i: nat) {
    && i <= |a| && i < |b| && a[..i] == b[..i]
    && (i == |a| || cmp(a[i], b[i]) < 0)
  }

  lemma FirstDifferenceCons<T>(cmp: (T, T) -> int, a: seq<T>, b: seq<T>, j: nat)
    requires a != [] && b != [] && a[0] == b[0] && FirstDifferenceLess(cmp, a[1..], b[1..], j)
    ensures FirstDifferenceLess(cmp, a, b, j + 1)
  {
    assert a[..j + 1] == [a[0]] + a[1..][..j];
    assert b[..j + 1] == [b[0]] + b[1..][..j];
  }

  lemma {:induction false} LexFirstDifference<T(!new)>(
    cmp: (T, T) -> int, ok: T -> bool, a: seq<T>, b: seq<T>) returns (i: nat)
    requires Total(cmp, ok) && AllOk(ok, a) && AllOk(ok, b) && Lex(cmp, a, b) < 0
    ensures FirstDifferenceLess(cmp, a, b, i)
  {
    if a == [] || cmp(a[0], b[0]) != 0 {
      i := 0;
    } else {
      assert ok(a[0]) && ok(b[0]);
      var j := LexFirstDifference(cmp, ok, a[1..], b[1..]);
      FirstDifferenceCons(cmp, a, b, j);
      i := j + 1;
    }
  }

  lemma {:induction false} FirstDifferenceLex<T(!new)>(
    cmp: (T, T) -> int, ok: T -> bool, a: seq<T>, b: seq<T>, i: nat)
    requires Total(cmp, ok) && AllOk(ok, a) && AllOk(ok, b) && FirstDifferenceLess(cmp, a, b, i)
    ensures Lex(cmp, a, b) < 0
  {
    if i == 0 {
    } else {
      assert a[0] == a[..i][0] == b[..i][0] == b[0] && ok(a[0]);
      assert a[1..][..i - 1] == a[..i][1..] && b[1..][..i - 1] == b[..i][1..];
      FirstDifferenceLex(cmp, ok, a[1..], b[1..], i - 1);
    }
  }
}
