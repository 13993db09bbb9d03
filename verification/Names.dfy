/** Connection names in the order of Rust's `String`: lexicographic by character. */
module Names {

  predicate LexLe(a: string, b: string) {
    a == "" || (b != "" && (a[0] < b[0] || (a[0] == b[0] && LexLe(a[1..], b[1..]))))
  }

  lemma {:induction false} LexTotal(a: string, b: string)
    ensures LexLe(a, b) || LexLe(b, a)
  {
    if a != "" && b != "" && a[0] == b[0] {
      LexTotal(a[1..], b[1..]);
    }
  }

  lemma {:induction false} LexTransitive(a: string, b: string, c: string)
    requires LexLe(a, b) && LexLe(b, c)
    ensures LexLe(a, c)
  {
    if a != "" && a[0] == b[0] == c[0] {
      LexTransitive(a[1..], b[1..], c[1..]);
    }
  }

  lemma {:induction false} LexAntisymmetric(a: string, b: string)
    requires LexLe(a, b) && LexLe(b, a)
    ensures a == b
  {
    if a == "" {
    } else {
      LexAntisymmetric(a[1..], b[1..]);
      assert a == [a[0]] + a[1..] && b == [b[0]] + b[1..];
    }
  }

  /** A name comes before its extensions, and otherwise the first differing character decides. */
  lemma {:induction false} LexByFirstDifference(front: string, a: string, b: string)
    ensures LexLe(front, front + b)
    ensures b != "" ==> !LexLe(front + b, front)
    ensures a != "" && b != "" && a[0] != b[0] ==> (LexLe(front + a, front + b) <==> a[0] < b[0])
  {
    if front == "" {
      assert front + a == a && front + b == b;
    } else {
      LexByFirstDifference(front[1..], a, b);
      assert (front + a)[1..] == front[1..] + a && (front + b)[1..] == front[1..] + b;
    }
  }

  predicate IsLeast(x: string, s: set<string>) {
    x in s && forall y :: y in s ==> LexLe(x, y)
  }

  lemma LeastExists(s: set<string>)
    requires s != {}
    ensures exists m :: IsLeast(m, s)
    decreases |s|
  {
    var m :| m in s;
    var rest := s - {m};
    LexTotal(m, m);
    assert forall y :: y in s ==> y == m || y in rest;
    if rest == {} {
      assert IsLeast(m, s);
    } else {
      LeastExists(rest);
      var n :| IsLeast(n, rest);
      LexTotal(m, n);
      if LexLe(n, m) {
        assert IsLeast(n, s);
      } else {
        forall y | y in s
          ensures LexLe(m, y)
        {
          if y != m {
            LexTransitive(m, n, y);
          }
        }
        assert IsLeast(m, s);
      }
    }
  }

  /** `iter().min()` of a non-empty set of names. */
  ghost function Least(s: set<string>): (m: string)
    requires s != {}
    ensures IsLeast(m, s)
  {
    LeastExists(s);
    var m :| IsLeast(m, s);
    m
  }

  lemma LeastUnique(x: string, y: string, s: set<string>)
    requires IsLeast(x, s) && IsLeast(y, s)
    ensures x == y
  {
    LexAntisymmetric(x, y);
  }

  /** The loop behind `iter().min()`: any iteration order gives the least name. */
  method FindLeast(s: set<string>) returns (m: string)
    requires s != {}
    ensures m == Least(s)
  {
    m :| m in s;
    var rest := s - {m};
    LexTotal(m, m);
    while rest != {}
      invariant m in s && rest <= s
      invariant forall y :: y in s - rest ==> LexLe(m, y)
      decreases |rest|
    {
      var x :| x in rest;
      LexTotal(m, x);
      if LexLe(x, m) {
        forall y | y in s - rest
          ensures LexLe(x, y)
        {
          LexTransitive(x, m, y);
        }
        LexTotal(x, x);
        m := x;
      }
      rest := rest - {x};
    }
    LeastUnique(m, Least(s), s);
  }
}
