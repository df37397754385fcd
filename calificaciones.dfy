/**
 * The grade arithmetic every component repeats: the weighted sum, the sum of
 * weights ("percentage evaluated") and the weighted average. The three
 * components compute each with the same formula and the same empty-list case;
 * they are defined once here.
 */
module Calificaciones {
  import opened Modelo

  /** Σ valor·ponderacion, folded from the left as `reduce` does. */
  function SumaPonderada(notas: seq<Nota>): real
  {
    if notas == [] then 0.0
    else SumaPonderada(notas[..|notas| - 1]) + notas[|notas| - 1].valor * notas[|notas| - 1].ponderacion
  }

  /** Σ ponderacion, folded from the left as `reduce` does. */
  function SumaPonderaciones(notas: seq<Nota>): real
  {
    if notas == [] then 0.0
    else SumaPonderaciones(notas[..|notas| - 1]) + notas[|notas| - 1].ponderacion
  }

  /** Every note has a strictly positive weight, as the add-note form insists. */
  predicate PesosPositivos(notas: seq<Nota>)
  {
    forall i :: 0 <= i < |notas| ==> notas[i].ponderacion > 0.0
  }

  /** Every value lies in [lo, hi]. */
  predicate ValoresEntre(notas: seq<Nota>, lo: real, hi: real)
  {
    forall i :: 0 <= i < |notas| ==> lo <= notas[i].valor <= hi
  }

  /** The weighted average is a number: the list is empty or its weights do not cancel out. */
  predicate Promediable(notas: seq<Nota>)
  {
    notas == [] || SumaPonderaciones(notas) != 0.0
  }

  /** `calcularMediaPonderada`: 0 for no notes, otherwise Σ valor·ponderacion / Σ ponderacion. */
  function MediaPonderada(notas: seq<Nota>): (r: real)
    requires Promediable(notas)
    ensures notas == [] ==> r == 0.0
    ensures notas != [] ==> r * SumaPonderaciones(notas) == SumaPonderada(notas)
  {
    if |notas| == 0 then 0.0 else SumaPonderada(notas) / SumaPonderaciones(notas)
  }

  /** `calcularPorcentajeEvaluado`: 0 for no notes, otherwise the plain sum of the weights. */
  function PorcentajeEvaluado(notas: seq<Nota>): (r: real)
    ensures r == SumaPonderaciones(notas)
  {
    if |notas| == 0 then 0.0 else SumaPonderaciones(notas)
  }

  /**
   * With positive weights the percentage evaluated is non-negative, positive once
   * there is a note, and so the average is defined.
   */
  lemma {:induction false} PositivosSumanPositivo(notas: seq<Nota>)
    requires PesosPositivos(notas)
    ensures PorcentajeEvaluado(notas) >= 0.0
    ensures notas != [] ==> SumaPonderaciones(notas) > 0.0
    ensures Promediable(notas)
  {
    if notas != [] {
      var ini := notas[..|notas| - 1];
      assert PesosPositivos(ini) by {
        forall i | 0 <= i < |ini| ensures ini[i].ponderacion > 0.0 { assert ini[i] == notas[i]; }
      }
      PositivosSumanPositivo(ini);
    }
  }

  /** Appending a note adds its product to the weighted sum. */
  lemma SumaPonderadaAnadir(notas: seq<Nota>, n: Nota)
    ensures SumaPonderada(notas + [n]) == SumaPonderada(notas) + n.valor * n.ponderacion
  {
    assert (notas + [n])[..|notas|] == notas;
  }

  /** Appending a note adds its weight to the percentage evaluated. */
  lemma SumaPonderacionesAnadir(notas: seq<Nota>, n: Nota)
    ensures SumaPonderaciones(notas + [n]) == SumaPonderaciones(notas) + n.ponderacion
    ensures PorcentajeEvaluado(notas + [n]) == PorcentajeEvaluado(notas) + n.ponderacion
  {
    assert (notas + [n])[..|notas|] == notas;
  }

  /** The weighted average after appending one note, from the sums before it. */
  lemma MediaTrasAnadir(notas: seq<Nota>, n: Nota)
    requires SumaPonderaciones(notas) + n.ponderacion != 0.0
    ensures Promediable(notas + [n])
    ensures MediaPonderada(notas + [n])
         == (SumaPonderada(notas) + n.valor * n.ponderacion) / (SumaPonderaciones(notas) + n.ponderacion)
  {
    SumaPonderadaAnadir(notas, n);
    SumaPonderacionesAnadir(notas, n);
  }

  /** With non-negative weights and every value at least lo, lo·Σp <= Σv·p. */
  lemma {:induction false} SumaPonderadaMinorada(notas: seq<Nota>, lo: real)
    requires forall i :: 0 <= i < |notas| ==> notas[i].ponderacion >= 0.0
    requires forall i :: 0 <= i < |notas| ==> lo <= notas[i].valor
    ensures lo * SumaPonderaciones(notas) <= SumaPonderada(notas)
  {
    if notas != [] {
      var ini := notas[..|notas| - 1];
      var u := notas[|notas| - 1];
      assert forall i :: 0 <= i < |ini| ==> ini[i] == notas[i];
      SumaPonderadaMinorada(ini, lo);
      Paso(SumaPonderaciones(ini), SumaPonderada(ini), u.ponderacion, lo, u.valor);
    }
  }

  /** With non-negative weights and every value at most hi, Σv·p <= hi·Σp. */
  lemma {:induction false} SumaPonderadaMayorada(notas: seq<Nota>, hi: real)
    requires forall i :: 0 <= i < |notas| ==> notas[i].ponderacion >= 0.0
    requires forall i :: 0 <= i < |notas| ==> notas[i].valor <= hi
    ensures SumaPonderada(notas) <= hi * SumaPonderaciones(notas)
  {
    if notas != [] {
      var ini := notas[..|notas| - 1];
      var u := notas[|notas| - 1];
      assert forall i :: 0 <= i < |ini| ==> ini[i] == notas[i];
      SumaPonderadaMayorada(ini, hi);
      Paso(SumaPonderaciones(ini), -SumaPonderada(ini), u.ponderacion, -hi, -u.valor);
    }
  }

  /** One step of a weighted sum: lo·w <= s and lo <= v with p >= 0 give lo·(w + p) <= s + v·p. */
  lemma Paso(w: real, s: real, p: real, lo: real, v: real)
    requires lo * w <= s && lo <= v && p >= 0.0
    ensures lo * (w + p) <= s + v * p
  {
    assert lo * (w + p) == lo * w + lo * p;
    assert (v - lo) * p >= 0.0;
  }

  /** A non-empty, positively weighted average lies between the smallest and largest bound on the values. */
  lemma MediaAcotada(notas: seq<Nota>, lo: real, hi: real)
    requires notas != [] && PesosPositivos(notas)
    requires ValoresEntre(notas, lo, hi)
    ensures Promediable(notas)
    ensures lo <= MediaPonderada(notas) <= hi
  {
    PositivosSumanPositivo(notas);
    SumaPonderadaMinorada(notas, lo);
    SumaPonderadaMayorada(notas, hi);
    var w := SumaPonderaciones(notas);
    var sp := SumaPonderada(notas);
    assert MediaPonderada(notas) == sp / w;
    CotasDeCociente(sp, w, lo, hi);
  }

  /** Bounds on a quotient by a positive weight, from bounds on the dividend. */
  lemma CotasDeCociente(s: real, w: real, lo: real, hi: real)
    requires w > 0.0 && lo * w <= s <= hi * w
    ensures lo <= s / w <= hi
  {
  }

  /** On the 0–10 scale the average stays on the 0–10 scale (also for no notes, where it is 0). */
  lemma MediaEnEscala(notas: seq<Nota>)
    requires PesosPositivos(notas)
    requires ValoresEntre(notas, 0.0, 10.0)
    ensures Promediable(notas)
    ensures 0.0 <= MediaPonderada(notas) <= 10.0
  {
    PositivosSumanPositivo(notas);
    if notas != [] {
      MediaAcotada(notas, 0.0, 10.0);
    }
  }
}
