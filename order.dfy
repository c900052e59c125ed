/** Key order of the world state: a range scan yields keys in ascending
    lexicographic order of their bytes. Keys are strings of Unicode scalar
    values here, and comparing code points one by one orders strings exactly
    as comparing their UTF-8 bytes does. */
module Order {

  /** `a` sorts strictly before `b`: a proper prefix comes first, otherwise the
      first differing character decides. */
  predicate Below(a: string, b: string)
    decreases |a|
  {
    if |a| == 0 then |b| > 0
    else if |b| == 0 then false
    else if a[0] != b[0] then a[0] < b[0]
    else Below(a[1..], b[1..])
  }

  lemma {:induction false} BelowIrreflexive(a: string)
    ensures !Below(a, a)
    decreases |a|
  {
    if |a| > 0 {
      BelowIrreflexive(a[1..]);
    }
  }

  lemma {:induction false} BelowTransitive(a: string, b: string, c: string)
    requires Below(a, b) && Below(b, c)
    ensures Below(a, c)
    decreases |a|
  {
    if |a| > 0 && |b| > 0 && |c| > 0 && a[0] == b[0] && b[0] == c[0] {
      BelowTransitive(a[1..], b[1..], c[1..]);
    }
  }

  lemma {:induction false} BelowTotal(a: string, b: string)
    requires a != b
    ensures Below(a, b) || Below(b, a)
    decreases |a|
  {
    if |a| > 0 && |b| > 0 && a[0] == b[0] {
      assert a == [a[0]] + a[1..] && b == [b[0]] + b[1..];
      BelowTotal(a[1..], b[1..]);
    }
  }

  lemma BelowAsymmetric(a: string, b: string)
    ensures !(Below(a, b) && Below(b, a))
  {
    BelowIrreflexive(a);
    if Below(a, b) && Below(b, a) {
      BelowTransitive(a, b, a);
      BelowIrreflexive(a);
    }
  }

  /** Strictly ascending, hence also free of repetitions. */
  ghost predicate Increasing(s: seq<string>) {
    forall i, j :: 0 <= i < j < |s| ==> Below(s[i], s[j])
  }

  ghost predicate IsLeast(m: string, ks: set<string>) {
    m in ks && forall x :: x in ks && x != m ==> Below(m, x)
  }

  lemma {:induction false} LeastExists(ks: set<string>)
    requires ks != {}
    ensures exists m :: IsLeast(m, ks)
    decreases |ks|
  {
    var x :| x in ks;
    if ks == {x} {
      assert IsLeast(x, ks);
    } else {
      LeastExists(ks - {x});
      var m :| IsLeast(m, ks - {x});
      if Below(m, x) {
        assert IsLeast(m, ks);
      } else {
        BelowTotal(m, x);
        forall y | y in ks && y != x
          ensures Below(x, y)
        {
          if y != m {
            BelowTransitive(x, m, y);
          }
        }
        assert IsLeast(x, ks);
      }
    }
  }

  /** The keys of `ks` listed in ascending order: what a full range scan
      enumerates. */
  ghost function Ascending(ks: set<string>): (r: seq<string>)
    ensures Increasing(r)
    ensures forall x :: x in r <==> x in ks
    ensures |r| == |ks|
    decreases |ks|
  {
    if ks == {} then []
    else
      LeastExists(ks);
      var m :| IsLeast(m, ks);
      var rest := Ascending(ks - {m});
      LeastPrecedes(m, ks, rest);
      [m] + rest
  }

  /** The least key, put in front of an ascending listing of the others,
      keeps the listing ascending. */
  lemma LeastPrecedes(m: string, ks: set<string>, rest: seq<string>)
    requires IsLeast(m, ks) && Increasing(rest)
    requires forall x :: x in rest <==> x in ks - {m}
    ensures Increasing([m] + rest)
  {
    forall j | 0 <= j < |rest|
      ensures Below(m, rest[j])
    {
      assert rest[j] in rest;
    }
    forall i, j | 0 <= i < j < |rest| + 1
      ensures Below(([m] + rest)[i], ([m] + rest)[j])
    {
      if i > 0 {
        assert ([m] + rest)[i] == rest[i - 1];
      }
      assert ([m] + rest)[j] == rest[j - 1];
    }
  }

  /** Ascending order is unique: two increasing listings of the same keys are
      the same listing. */
  lemma {:induction false} IncreasingUnique(a: seq<string>, b: seq<string>)
    requires Increasing(a) && Increasing(b)
    requires forall x :: x in a <==> x in b
    ensures a == b
    decreases |a|
  {
    assert a != [] ==> a[0] in b;
    assert b != [] ==> b[0] in a;
    if a != [] && b != [] {
      // both heads are the least key, so they coincide
      var j :| 0 <= j < |b| && b[j] == a[0];
      var i :| 0 <= i < |a| && a[i] == b[0];
      assert i > 0 ==> Below(a[0], b[0]);
      assert j > 0 ==> Below(b[0], a[0]);
      BelowAsymmetric(a[0], b[0]);
      assert a[0] == b[0];
      forall x
        ensures x in a[1..] <==> x in b[1..]
      {
        if x in a[1..] {
          var i :| 1 <= i < |a| && a[i] == x;
          assert Below(a[0], x);
          BelowIrreflexive(x);
          assert x in b;
          var j :| 0 <= j < |b| && b[j] == x;
          assert j != 0;
          assert b[1..][j - 1] == x;
        }
        if x in b[1..] {
          var j :| 1 <= j < |b| && b[j] == x;
          assert Below(b[0], x);
          BelowIrreflexive(x);
          assert x in a;
          var i :| 0 <= i < |a| && a[i] == x;
          assert i != 0;
          assert a[1..][i - 1] == x;
        }
      }
      IncreasingUnique(a[1..], b[1..]);
      assert a == [a[0]] + a[1..] && b == [b[0]] + b[1..];
    }
  }

  /** The least key of a non-empty set, found by one pass over it. */
  method Least(ks: set<string>) returns (m: string)
    requires ks != {}
    ensures IsLeast(m, ks)
  {
    m :| m in ks;
    var rest := ks - {m};
    while rest != {}
      invariant rest <= ks && m in ks && m !in rest
      invariant forall y :: y in ks && y !in rest && y != m ==> Below(m, y)
      decreases |rest|
    {
      var y :| y in rest;
      if Below(y, m) {
        forall z | z in ks && z !in rest && z != y
          ensures Below(y, z)
        {
          if z != m {
            BelowTransitive(y, m, z);
          }
        }
        m := y;
      } else {
        BelowTotal(m, y);
      }
      rest := rest - {y};
    }
  }

  /** Lists a set of keys in ascending order by repeatedly taking the least
      of the keys not yet listed. */
  method SortKeys(ks: set<string>) returns (r: seq<string>)
    ensures r == Ascending(ks)
  {
    var rest := ks;
    r := [];
    while rest != {}
      invariant rest <= ks
      invariant Increasing(r)
      invariant forall x :: x in r <==> x in ks && x !in rest
      invariant forall i, y :: 0 <= i < |r| && y in rest ==> Below(r[i], y)
      decreases |rest|
    {
      var m := Least(rest);
      r := r + [m];
      rest := rest - {m};
    }
    IncreasingUnique(r, Ascending(ks));
  }
}
