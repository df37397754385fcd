/**
 * The id-keyed list operations every handler of the application is built from:
 * `Array.filter` dropping one id, `Array.map` rewriting the elements with one id,
 * and `Array.find` returning the first element with an id. The key is given as a
 * function so that the same definitions serve subjects, notes and objectives.
 */
module Listas {
  import opened Comun

  /** Number of elements of `s` whose key is `k`. */
  function Cuenta<T>(s: seq<T>, clave: T -> string, k: string): (n: nat)
    ensures n <= |s|
  {
    if s == [] then 0 else (if clave(s[0]) == k then 1 else 0) + Cuenta(s[1..], clave, k)
  }

  /** `s.filter(x => clave(x) !== k)`. */
  function SinClave<T(!new)>(s: seq<T>, clave: T -> string, k: string): (r: seq<T>)
    ensures |r| == |s| - Cuenta(s, clave, k)
    ensures forall x :: x in r <==> x in s && clave(x) != k
  {
    if s == [] then []
    else (if clave(s[0]) != k then [s[0]] else []) + SinClave(s[1..], clave, k)
  }

  /** `s.map(x => clave(x) === k ? f(x) : x)`. */
  function ActualizarDonde<T>(s: seq<T>, clave: T -> string, k: string, f: T -> T): (r: seq<T>)
    ensures |r| == |s|
    ensures forall i :: 0 <= i < |s| && clave(s[i]) == k ==> r[i] == f(s[i])
    ensures forall i :: 0 <= i < |s| && clave(s[i]) != k ==> r[i] == s[i]
  {
    seq(|s|, i requires 0 <= i < |s| => if clave(s[i]) == k then f(s[i]) else s[i])
  }

  /** Index of the first element of `s` whose key is `k` (`Array.findIndex`), if any. */
  function PrimeraPosicion<T>(s: seq<T>, clave: T -> string, k: string): (r: Option<nat>)
    ensures r.None? <==> forall i :: 0 <= i < |s| ==> clave(s[i]) != k
    ensures r.Some? ==> r.value < |s| && clave(s[r.value]) == k
    ensures r.Some? ==> forall j :: 0 <= j < r.value ==> clave(s[j]) != k
  {
    if s == [] then None
    else if clave(s[0]) == k then Some(0)
    else match PrimeraPosicion(s[1..], clave, k)
      case None => None
      case Some(i) => Some(i + 1)
  }

  /** `s.find(x => clave(x) === k)`. */
  function Buscar<T>(s: seq<T>, clave: T -> string, k: string): (r: Option<T>)
    ensures r.Some? <==> exists i :: 0 <= i < |s| && clave(s[i]) == k
    ensures r.Some? ==> r.value in s && clave(r.value) == k
    ensures r.Some? ==> exists i :: 0 <= i < |s| && r.value == s[i] && clave(s[i]) == k &&
                          forall j :: 0 <= j < i ==> clave(s[j]) != k
  {
    match PrimeraPosicion(s, clave, k)
    case None => None
    case Some(i) => Some(s[i])
  }

  /** Filtering distributes over concatenation, so it keeps the survivors in their order. */
  lemma {:induction false} SinClaveConcatenacion<T(!new)>(a: seq<T>, b: seq<T>, clave: T -> string, k: string)
    ensures SinClave(a + b, clave, k) == SinClave(a, clave, k) + SinClave(b, clave, k)
  {
    if a != [] {
      var cabeza := if clave(a[0]) != k then [a[0]] else [];
      SinClaveCabeza(a, b, clave, k);
      SinClaveConcatenacion(a[1..], b, clave, k);
      calc {
        cabeza + SinClave(a[1..] + b, clave, k);
        cabeza + (SinClave(a[1..], clave, k) + SinClave(b, clave, k));
        { Asociar(cabeza, SinClave(a[1..], clave, k), SinClave(b, clave, k)); }
        (cabeza + SinClave(a[1..], clave, k)) + SinClave(b, clave, k);
      }
    } else {
      assert a + b == b;
    }
  }

  /** Concatenation is associative. */
  lemma Asociar<T>(x: seq<T>, y: seq<T>, z: seq<T>)
    ensures x + (y + z) == (x + y) + z
  {
  }

  /** One unfolding of the filter over a concatenation whose left part is not empty. */
  lemma SinClaveCabeza<T(!new)>(a: seq<T>, b: seq<T>, clave: T -> string, k: string)
    requires a != []
    ensures SinClave(a + b, clave, k) == (if clave(a[0]) != k then [a[0]] else []) + SinClave(a[1..] + b, clave, k)
  {
    assert (a + b)[0] == a[0];
    assert (a + b)[1..] == a[1..] + b;
  }

  /** Filtering out a key no element has leaves the list as it is. */
  lemma {:induction false} SinClaveAusente<T(!new)>(s: seq<T>, clave: T -> string, k: string)
    requires forall i :: 0 <= i < |s| ==> clave(s[i]) != k
    ensures SinClave(s, clave, k) == s
  {
    if s != [] {
      SinClaveAusente(s[1..], clave, k);
    }
  }

  /** Filtering twice by the same key is the same as filtering once. */
  lemma {:induction false} SinClaveIdempotente<T(!new)>(s: seq<T>, clave: T -> string, k: string)
    ensures SinClave(SinClave(s, clave, k), clave, k) == SinClave(s, clave, k)
  {
    var r := SinClave(s, clave, k);
    forall i | 0 <= i < |r| ensures clave(r[i]) != k {
      assert r[i] in r;
    }
    SinClaveAusente(r, clave, k);
  }

  /**
   * After rewriting the elements with key `k` by an `f` that keeps their key, looking `k` up
   * finds the rewritten first element: what the dialog sees once `onUpdate` has run.
   */
  lemma BuscarTrasActualizar<T>(s: seq<T>, clave: T -> string, k: string, f: T -> T)
    requires Buscar(s, clave, k).Some?
    requires forall x :: clave(x) == k ==> clave(f(x)) == k
    ensures Buscar(ActualizarDonde(s, clave, k, f), clave, k) == Some(f(Buscar(s, clave, k).value))
  {
    var r := ActualizarDonde(s, clave, k, f);
    var i := PrimeraPosicion(s, clave, k).value;
    assert clave(r[i]) == k;
    var j := PrimeraPosicion(r, clave, k).value;
    assert clave(r[j]) == clave(s[j]);
    assert j == i;
  }
}
