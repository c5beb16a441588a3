/** Python's ordering of `str` values and the sorted listing of a set of
    names. `dir()` lists an object's attribute names in this order, which is
    the order in which a handler class's commands are tried; the model also
    uses it as the (otherwise unspecified) iteration order of Python 2 dicts. */
module Names {

  /** `a < b` on Python strings: lexicographic by code point, a proper
      prefix coming first. */
  predicate Below(a: string, b: string)
    decreases |a|
  {
    if |a| == 0 then |b| > 0
    else if |b| == 0 then false
    else if a[0] != b[0] then a[0] < b[0]
    else Below(a[1..], b[1..])
  }

  predicate AtMost(a: string, b: string) {
    a == b || Below(a, b)
  }

  lemma {:induction false} BelowIrreflexive(a: string)
    ensures !Below(a, a)
    decreases |a|
  {
    if |a| > 0 {
      BelowIrreflexive(a[1..]);
    }
  }

  lemma {:induction false} BelowTransitive(a: string, b: string, c: string)
    requires Below(a, b) && Below(b, c)
    ensures Below(a, c)
    decreases |a|
  {
    if |a| > 0 && a[0] == b[0] && b[0] == c[0] {
      BelowTransitive(a[1..], b[1..], c[1..]);
    }
  }

  lemma {:induction false} BelowTotal(a: string, b: string)
    requires a != b
    ensures Below(a, b) || Below(b, a)
    decreases |a|
  {
    if |a| > 0 && |b| > 0 && a[0] == b[0] {
      assert a == [a[0]] + a[1..] && b == [b[0]] + b[1..];
      BelowTotal(a[1..], b[1..]);
    }
  }

  lemma {:induction false} BelowAsymmetric(a: string, b: string)
    requires Below(a, b)
    ensures !Below(b, a)
    decreases |a|
  {
    if |a| > 0 && |b| > 0 && a[0] == b[0] {
      BelowAsymmetric(a[1..], b[1..]);
    }
  }

  predicate StrictlySorted(xs: seq<string>) {
    forall i, j :: 0 <= i < j < |xs| ==> Below(xs[i], xs[j])
  }

  /** Two strings that agree before position `k` are ordered by their
      characters at `k`. */
  lemma {:induction false} BelowAt(a: string, b: string, k: nat)
    requires k < |a| && k < |b| && a[..k] == b[..k] && a[k] < b[k]
    ensures Below(a, b)
    decreases k
  {
    if k > 0 {
      assert a[0] == a[..k][0] == b[..k][0] == b[0];
      assert a[1..][..k - 1] == a[..k][1..] == b[..k][1..] == b[1..][..k - 1];
      BelowAt(a[1..], b[1..], k - 1);
    }
  }

  /** A list whose neighbours are in order is strictly sorted. */
  lemma ChainSorted(xs: seq<string>)
    requires forall i :: 0 <= i < |xs| - 1 ==> Below(xs[i], xs[i + 1])
    ensures StrictlySorted(xs)
  {
    forall i, j | 0 <= i < j < |xs|
      ensures Below(xs[i], xs[j])
    {
      ChainBelow(xs, i, j);
    }
  }

  lemma {:induction false} ChainBelow(xs: seq<string>, i: nat, j: nat)
    requires forall i :: 0 <= i < |xs| - 1 ==> Below(xs[i], xs[i + 1])
    requires i < j < |xs|
    ensures Below(xs[i], xs[j])
    decreases j - i
  {
    if j > i + 1 {
      ChainBelow(xs, i + 1, j);
      BelowTransitive(xs[i], xs[i + 1], xs[j]);
    }
  }

  predicate IsLeast(m: string, s: set<string>) {
    m in s && forall y :: y in s ==> AtMost(m, y)
  }

  lemma {:induction false} LeastExists(s: set<string>)
    requires s != {}
    ensures exists m :: IsLeast(m, s)
    decreases |s|
  {
    var x :| x in s;
    if s == {x} {
      assert IsLeast(x, s);
    } else {
      LeastExists(s - {x});
      var m :| IsLeast(m, s - {x});
      if Below(x, m) {
        forall y | y in s
          ensures AtMost(x, y)
        {
          if y != x && y != m {
            assert y in s - {x};
            BelowTransitive(x, m, y);
          }
        }
        assert IsLeast(x, s);
      } else {
        BelowTotal(x, m);
        assert IsLeast(m, s);
      }
    }
  }

  lemma LeastUnique(s: set<string>)
    ensures forall m1, m2 :: IsLeast(m1, s) && IsLeast(m2, s) ==> m1 == m2
  {
    forall m1, m2 | IsLeast(m1, s) && IsLeast(m2, s)
      ensures m1 == m2
    {
      if m1 != m2 {
        BelowAsymmetric(m1, m2);
      }
    }
  }

  /** The least name of a non-empty set. */
  function Least(s: set<string>): (m: string)
    requires s != {}
    ensures m in s
    ensures forall y :: y in s && y != m ==> Below(m, y)
  {
    LeastExists(s);
    LeastUnique(s);
    var m :| IsLeast(m, s);
    m
  }

  /** The names of `s`, each once, in ascending order: what `dir()` lists. */
  function Sorted(s: set<string>): (r: seq<string>)
    ensures StrictlySorted(r)
    ensures |r| == |s|
    ensures forall x :: x in r <==> x in s
    decreases |s|
  {
    if s == {} then []
    else
      var m := Least(s);
      var rest := Sorted(s - {m});
      assert forall j :: 0 <= j < |rest| ==> rest[j] in s - {m};
      [m] + rest
  }

  /** Without its head, a strictly ascending listing of `s` lists the rest of `s`. */
  lemma TailHoldsRest(xs: seq<string>, s: set<string>)
    requires xs != [] && StrictlySorted(xs)
    requires forall x :: x in xs <==> x in s
    ensures forall x :: x in xs[1..] <==> x in s - {xs[0]}
  {
    forall x
      ensures x in xs[1..] <==> x in s - {xs[0]}
    {
      if x in xs[1..] {
        var k :| 1 <= k < |xs| && xs[k] == x;
        assert Below(xs[0], xs[k]);
        BelowIrreflexive(x);
      }
      if x in s && x != xs[0] {
        assert x in xs;
        var k :| 0 <= k < |xs| && xs[k] == x;
        assert xs[1..][k - 1] == x;
      }
    }
  }

  /** The head of a strictly ascending listing of `s` is the least name of `s`. */
  lemma HeadIsLeast(xs: seq<string>, s: set<string>)
    requires xs != [] && StrictlySorted(xs)
    requires forall x :: x in xs <==> x in s
    ensures xs[0] in s && xs[0] == Least(s)
  {
    assert xs[0] in s;
    var m := Least(s);
    if xs[0] != m {
      var k :| 0 <= k < |xs| && xs[k] == m;
      assert k > 0;
      BelowAsymmetric(xs[0], m);
    }
  }

  lemma TailSorted(xs: seq<string>)
    requires xs != [] && StrictlySorted(xs)
    ensures StrictlySorted(xs[1..])
  {
    var tail := xs[1..];
    forall i, j | 0 <= i < j < |tail|
      ensures Below(tail[i], tail[j])
    {
      assert tail[i] == xs[i + 1] && tail[j] == xs[j + 1];
    }
  }

  /** There is only one ascending listing of a set: any strictly sorted
      sequence holding exactly the names of `s` is `Sorted(s)`. */
  lemma {:induction false} SortedUnique(xs: seq<string>, s: set<string>)
    requires StrictlySorted(xs)
    requires forall x :: x in xs <==> x in s
    ensures xs == Sorted(s)
    decreases |xs|
  {
    if xs == [] {
      assert s == {};
    } else {
      assert xs[0] in s;
      var m := Least(s);
      HeadIsLeast(xs, s);
      TailHoldsRest(xs, s);
      TailSorted(xs);
      var tail := xs[1..];
      SortedUnique(tail, s - {m});
      assert Sorted(s) == [m] + Sorted(s - {m});
      assert xs == [xs[0]] + tail;
    }
  }
}
