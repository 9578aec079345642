/**
 * The LINQ operators the controllers build their queries from, over
 * sequences: a query yields the rows of the table in its enumeration order,
 * and each operator is a function from rows to rows.
 */
module Linq {
  import opened Wrappers

  /** `Where`: the elements of `s` that satisfy `p`, in their order in `s`. */
  function Where<T(==)>(s: seq<T>, p: T -> bool): (r: seq<T>)
    ensures |r| <= |s|
  {
    if s == [] then []
    else
      assert s == [s[0]] + s[1..];
      (if p(s[0]) then [s[0]] else []) + Where(s[1..], p)
  }

  /** `Where` keeps exactly the elements of `s` that satisfy `p`. */
  lemma {:induction false} WhereMiembros<T>(s: seq<T>, p: T -> bool)
    ensures forall x :: x in Where(s, p) ==> x in s && p(x)
    ensures forall x :: x in s && p(x) ==> x in Where(s, p)
  {
    if s != [] {
      WhereMiembros(s[1..], p);
      assert s == [s[0]] + s[1..];
    }
  }

  /** `Take(n)`: the first `n` elements of `s`, or all of them when there are fewer. */
  function Take<T>(s: seq<T>, n: nat): (r: seq<T>)
    ensures |r| == if |s| < n then |s| else n
    ensures r <= s
    ensures forall x :: x in r ==> x in s
    ensures multiset(r) <= multiset(s)
  {
    if |s| <= n then s
    else
      assert s == s[..n] + s[n..];
      s[..n]
  }

  lemma TakeOrdenada<T>(s: seq<T>, n: nat, clave: T -> int)
    requires Ordenada(s, clave)
    ensures Ordenada(Take(s, n), clave)
  {
    var r := Take(s, n);
    forall i | 0 <= i < |r| ensures r[i] == s[i] {
    }
  }

  /**
   * The first `n` elements of an ordered sequence have keys no larger than
   * those of the elements left out.
   */
  lemma TakeMinimos<T>(s: seq<T>, n: nat, clave: T -> int)
    requires Ordenada(s, clave)
    ensures forall x, y :: x in s && x !in Take(s, n) && y in Take(s, n) ==> clave(y) <= clave(x)
  {
    var r := Take(s, n);
    forall x, y | x in s && x !in r && y in r ensures clave(y) <= clave(x) {
      var j :| 0 <= j < |s| && s[j] == x;
      var i :| 0 <= i < |r| && r[i] == y;
      assert s[i] == y;
      assert j >= |r|;
    }
  }

  /** Sequences with the same multiset of elements have the same elements. */
  lemma MismosElementos<T>(a: seq<T>, b: seq<T>)
    requires multiset(a) == multiset(b)
    ensures forall x :: x in a ==> x in b
  {
    forall x | x in a ensures x in b {
      assert x in multiset(a);
    }
  }

  /** `FirstOrDefault(p)`: the first element of `s` that satisfies `p`, or `None` (null). */
  function FirstOrDefault<T(==)>(s: seq<T>, p: T -> bool): (r: Option<T>)
    ensures r.None? <==> forall k :: 0 <= k < |s| ==> !p(s[k])
    ensures r.Some? ==> exists k :: 0 <= k < |s| && s[k] == r.value && p(s[k]) && NoneBefore(s, p, k)
  {
    if s == [] then None
    else if p(s[0]) then
      assert NoneBefore(s, p, 0);
      Some(s[0])
    else
      var r := FirstOrDefault(s[1..], p);
      if r.Some? then
        var k :| 0 <= k < |s[1..]| && s[1..][k] == r.value && p(s[1..][k]) && NoneBefore(s[1..], p, k);
        assert NoneBefore(s, p, k + 1);
        r
      else r
  }

  /** No element of `s` before position `k` satisfies `p`. */
  predicate NoneBefore<T>(s: seq<T>, p: T -> bool, k: int)
    requires 0 <= k <= |s|
  {
    forall j :: 0 <= j < k ==> !p(s[j])
  }

  /** `s` is in ascending order of `clave`. */
  predicate Ordenada<T>(s: seq<T>, clave: T -> int) {
    forall i, j :: 0 <= i < j < |s| ==> clave(s[i]) <= clave(s[j])
  }

  /**
   * Inserts `x` before the first element of `s` whose key is not smaller, so
   * that `x` stays ahead of the elements with an equal key.
   */
  function Insertar<T>(x: T, s: seq<T>, clave: T -> int): seq<T>
  {
    if s == [] || clave(x) <= clave(s[0]) then [x] + s
    else [s[0]] + Insertar(x, s[1..], clave)
  }

  lemma {:induction false} InsertarPermuta<T>(x: T, s: seq<T>, clave: T -> int)
    ensures multiset(Insertar(x, s, clave)) == multiset(s) + multiset{x}
  {
    if s != [] && clave(x) > clave(s[0]) {
      InsertarPermuta(x, s[1..], clave);
      assert s == [s[0]] + s[1..];
    }
  }

  lemma {:induction false} InsertarOrdenada<T>(x: T, s: seq<T>, clave: T -> int)
    requires Ordenada(s, clave)
    ensures Ordenada(Insertar(x, s, clave), clave)
  {
    if s == [] || clave(x) <= clave(s[0]) {
      CabezaOrdenada(x, s, clave);
    } else {
      var resto := Insertar(x, s[1..], clave);
      InsertarOrdenada(x, s[1..], clave);
      InsertarPermuta(x, s[1..], clave);
      assert forall y :: y in resto ==> clave(s[0]) <= clave(y) by {
        forall y | y in resto ensures clave(s[0]) <= clave(y) {
          assert y in multiset(resto);
          if y != x {
            var m :| 0 <= m < |s[1..]| && s[1..][m] == y;
            assert s[m + 1] == y;
          }
        }
      }
      CabezaOrdenada(s[0], resto, clave);
    }
  }

  /** Putting in front of an ordered sequence a key no larger than any of its keys keeps it ordered. */
  lemma CabezaOrdenada<T>(a: T, s: seq<T>, clave: T -> int)
    requires Ordenada(s, clave)
    requires forall y :: y in s ==> clave(a) <= clave(y)
    ensures Ordenada([a] + s, clave)
  {
    var r := [a] + s;
    forall i, j | 0 <= i < j < |r| ensures clave(r[i]) <= clave(r[j]) {
      assert r[j] == s[j - 1];
      if i > 0 {
        assert r[i] == s[i - 1];
      }
    }
  }

  /** `OrderBy(clave)`: a stable sort of `s` by `clave` (insertion sort). */
  function OrderBy<T(==)>(s: seq<T>, clave: T -> int): (r: seq<T>)
    ensures Ordenada(r, clave)
    ensures multiset(r) == multiset(s)
  {
    if s == [] then []
    else
      assert s == [s[0]] + s[1..];
      var resto := OrderBy(s[1..], clave);
      InsertarOrdenada(s[0], resto, clave);
      InsertarPermuta(s[0], resto, clave);
      Insertar(s[0], resto, clave)
  }

  /** The elements whose key is `k`. */
  function ConClave<T>(clave: T -> int, k: int): T -> bool {
    x => clave(x) == k
  }

  lemma {:induction false} WhereConcat<T>(a: seq<T>, b: seq<T>, p: T -> bool)
    ensures Where(a + b, p) == Where(a, p) + Where(b, p)
  {
    if a == [] {
      assert a + b == b;
    } else {
      var cabeza := if p(a[0]) then [a[0]] else [];
      assert (a + b)[0] == a[0];
      assert (a + b)[1..] == a[1..] + b;
      assert Where(a + b, p) == cabeza + Where(a[1..] + b, p);
      WhereConcat(a[1..], b, p);
      assert Where(a, p) == cabeza + Where(a[1..], p);
    }
  }

  /** Filtering by `p` and then by `q` is filtering once by their conjunction. */
  lemma {:induction false} WhereWhere<T>(s: seq<T>, p: T -> bool, q: T -> bool, pq: T -> bool)
    requires forall x :: pq(x) == (p(x) && q(x))
    ensures Where(Where(s, p), q) == Where(s, pq)
  {
    if s != [] {
      var cabeza := if p(s[0]) then [s[0]] else [];
      WhereConcat(cabeza, Where(s[1..], p), q);
      WhereWhere(s[1..], p, q, pq);
      if p(s[0]) {
        assert cabeza[1..] == [];
      }
    }
  }

  /** A filter every element passes keeps the whole sequence. */
  lemma {:induction false} WhereTodos<T>(s: seq<T>, p: T -> bool)
    requires forall x :: x in s ==> p(x)
    ensures Where(s, p) == s
  {
    if s != [] {
      assert forall x :: x in s[1..] ==> x in s;
      WhereTodos(s[1..], p);
    }
  }

  /** Filters that agree on every element select the same elements. */
  lemma {:induction false} WhereExt<T>(s: seq<T>, p: T -> bool, q: T -> bool)
    requires forall x :: p(x) == q(x)
    ensures Where(s, p) == Where(s, q)
  {
    if s != [] {
      WhereExt(s[1..], p, q);
    }
  }

  /** Filtering a prefix yields a prefix of the filtered sequence. */
  lemma WherePrefijo<T>(s: seq<T>, n: nat, p: T -> bool)
    requires n <= |s|
    ensures Where(s[..n], p) <= Where(s, p)
  {
    assert s == s[..n] + s[n..];
    WhereConcat(s[..n], s[n..], p);
  }

  /** Filtering a non-empty sequence filters its head, then its tail. */
  lemma WhereCabeza<T>(s: seq<T>, p: T -> bool)
    requires s != []
    ensures Where(s, p) == Where([s[0]], p) + Where(s[1..], p)
  {
    assert s == [s[0]] + s[1..];
    WhereConcat([s[0]], s[1..], p);
  }

  lemma WhereUno<T>(x: T, p: T -> bool)
    ensures Where([x], p) == if p(x) then [x] else []
  {
    assert [x][1..] == [];
  }

  /**
   * Moving `x` past a head `a` that the filter cannot keep together with it
   * leaves the filtered sequence the same.
   */
  lemma Adelanta<T>(a: T, x: T, resto: seq<T>, cola: seq<T>, p: T -> bool)
    requires !(p(a) && p(x))
    requires Where(resto, p) == Where([x], p) + cola
    ensures Where([a] + resto, p) == Where([x], p) + (Where([a], p) + cola)
  {
    WhereConcat([a], resto, p);
    WhereUno(a, p);
    WhereUno(x, p);
  }

  lemma {:induction false} InsertarEstable<T>(x: T, s: seq<T>, clave: T -> int, k: int)
    ensures Where(Insertar(x, s, clave), ConClave(clave, k))
         == Where([x], ConClave(clave, k)) + Where(s, ConClave(clave, k))
  {
    var p := ConClave(clave, k);
    if s == [] || clave(x) <= clave(s[0]) {
      WhereConcat([x], s, p);
    } else {
      var resto := Insertar(x, s[1..], clave);
      assert Insertar(x, s, clave) == [s[0]] + resto;
      InsertarEstable(x, s[1..], clave, k);
      // s[0] and x cannot both have key k, since clave(s[0]) < clave(x)
      Adelanta(s[0], x, resto, Where(s[1..], p), p);
      WhereCabeza(s, p);
    }
  }

  /**
   * `OrderBy` is stable: the elements sharing one key keep their relative
   * order from the input.
   */
  lemma {:induction false} OrderByEstable<T>(s: seq<T>, clave: T -> int, k: int)
    ensures Where(OrderBy(s, clave), ConClave(clave, k)) == Where(s, ConClave(clave, k))
  {
    if s != [] {
      var p := ConClave(clave, k);
      OrderByEstable(s[1..], clave, k);
      InsertarEstable(s[0], OrderBy(s[1..], clave), clave, k);
      assert s == [s[0]] + s[1..];
      WhereConcat([s[0]], s[1..], p);
    }
  }
}
