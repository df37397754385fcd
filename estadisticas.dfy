/**
 * The statistics dialog of one subject: highest and lowest grade, the five-bucket
 * histogram, the status label and the trend message.
 */
module Estadisticas {
  import opened Comun
  import opened Modelo
  import opened Calificaciones

  /** `Math.max(...valores)` of a non-empty list. */
  function MayorValor(notas: seq<Nota>): (r: real)
    requires notas != []
    ensures forall i :: 0 <= i < |notas| ==> notas[i].valor <= r
    ensures exists i :: 0 <= i < |notas| && notas[i].valor == r
  {
    if |notas| == 1 then notas[0].valor
    else
      var resto := MayorValor(notas[1..]);
      assert forall i :: 1 <= i < |notas| ==> notas[i] == notas[1..][i - 1];
      if notas[0].valor >= resto then notas[0].valor else resto
  }

  /** `Math.min(...valores)` of a non-empty list. */
  function MenorValor(notas: seq<Nota>): (r: real)
    requires notas != []
    ensures forall i :: 0 <= i < |notas| ==> r <= notas[i].valor
    ensures exists i :: 0 <= i < |notas| && notas[i].valor == r
  {
    if |notas| == 1 then notas[0].valor
    else
      var resto := MenorValor(notas[1..]);
      assert forall i :: 1 <= i < |notas| ==> notas[i] == notas[1..][i - 1];
      if notas[0].valor <= resto then notas[0].valor else resto
  }

  /** `calcularNotaMaxima`: 0 for no notes, otherwise the largest value, which some note has. */
  function NotaMaxima(notas: seq<Nota>): (r: real)
    ensures notas == [] ==> r == 0.0
    ensures forall i :: 0 <= i < |notas| ==> notas[i].valor <= r
    ensures notas != [] ==> exists i :: 0 <= i < |notas| && notas[i].valor == r
  {
    if |notas| == 0 then 0.0 else MayorValor(notas)
  }

  /** `calcularNotaMinima`: 0 for no notes, otherwise the smallest value, which some note has. */
  function NotaMinima(notas: seq<Nota>): (r: real)
    ensures notas == [] ==> r == 0.0
    ensures forall i :: 0 <= i < |notas| ==> r <= notas[i].valor
    ensures notas != [] ==> exists i :: 0 <= i < |notas| && notas[i].valor == r
  {
    if |notas| == 0 then 0.0 else MenorValor(notas)
  }

  /** For positive weights the average lies between the lowest and the highest grade. */
  lemma MediaEntreMinimaYMaxima(notas: seq<Nota>)
    requires PesosPositivos(notas)
    ensures Promediable(notas)
    ensures notas != [] ==> NotaMinima(notas) <= MediaPonderada(notas) <= NotaMaxima(notas)
  {
    PositivosSumanPositivo(notas);
    if notas != [] {
      MediaAcotada(notas, NotaMinima(notas), NotaMaxima(notas));
    }
  }

  /** If some value exceeds lo (the others being at least lo), the weighted sum exceeds lo·Σp. */
  lemma {:induction false} SumaPonderadaEstricta(notas: seq<Nota>, lo: real, k: nat)
    requires PesosPositivos(notas)
    requires forall i :: 0 <= i < |notas| ==> lo <= notas[i].valor
    requires k < |notas| && notas[k].valor > lo
    ensures lo * SumaPonderaciones(notas) < SumaPonderada(notas)
  {
    var ini := notas[..|notas| - 1];
    var u := notas[|notas| - 1];
    var w, s, p, v := SumaPonderaciones(ini), SumaPonderada(ini), u.ponderacion, u.valor;
    assert lo * w <= s && lo * p <= v * p && (lo * w < s || lo * p < v * p) by {
      assert forall i :: 0 <= i < |ini| ==> ini[i] == notas[i];
      if k == |notas| - 1 {
        SumaPonderadaMinorada(ini, lo);
        ProductoEstricto(lo, v, p);
      } else {
        SumaPonderadaEstricta(ini, lo, k);
        ProductoMonotono(lo, v, p);
      }
    }
    Acumular(w, s, p, v, lo);
  }

  /** One step of a weighted sum: lo·w <= s and lo·p <= v·p, one of them strict, give lo·(w + p) < s + v·p. */
  lemma Acumular(w: real, s: real, p: real, v: real, lo: real)
    requires lo * w <= s && lo * p <= v * p
    requires lo * w < s || lo * p < v * p
    ensures lo * (w + p) < s + v * p
  {
    assert lo * (w + p) == lo * w + lo * p;
  }

  /** Multiplying by a non-negative weight keeps the order. */
  lemma ProductoMonotono(a: real, b: real, p: real)
    requires a <= b && p >= 0.0
    ensures a * p <= b * p
  {
  }

  /** Multiplying by a positive weight keeps a strict order. */
  lemma ProductoEstricto(a: real, b: real, p: real)
    requires a < b && p > 0.0
    ensures a * p < b * p
  {
  }

  /**
   * The trend message (`mediaPonderada > notaMinima`) reports an improvement unless
   * every grade equals the lowest one: with positive weights the average equals the
   * minimum exactly when all grades are equal.
   */
  lemma SinMejoraSoloSiIguales(notas: seq<Nota>)
    requires notas != [] && PesosPositivos(notas)
    ensures Promediable(notas)
    ensures !(MediaPonderada(notas) > NotaMinima(notas))
        <==> forall i :: 0 <= i < |notas| ==> notas[i].valor == NotaMinima(notas)
  {
    PositivosSumanPositivo(notas);
    var lo := NotaMinima(notas);
    var w := SumaPonderaciones(notas);
    if forall i :: 0 <= i < |notas| ==> notas[i].valor == lo {
      MediaAcotada(notas, lo, lo);
    } else {
      var k :| 0 <= k < |notas| && notas[k].valor != lo;
      SumaPonderadaEstricta(notas, lo, k);
      CocienteEstricto(SumaPonderada(notas), w, lo);
    }
  }

  /** A dividend strictly above lo·w gives a quotient strictly above lo. */
  lemma CocienteEstricto(s: real, w: real, lo: real)
    requires w > 0.0 && lo * w < s
    ensures lo < s / w
  {
  }

  /** Index of the histogram bucket a grade falls in; none outside [0, 10]. */
  function Cubeta(v: real): (r: Option<nat>)
    ensures r.Some? <==> 0.0 <= v <= 10.0
    ensures r.Some? ==> r.value < 5 && 2.0 * (r.value as real) <= v
    ensures r.Some? && r.value < 4 ==> v < 2.0 * (r.value as real) + 2.0
  {
    if 0.0 <= v < 2.0 then Some(0)
    else if 2.0 <= v < 4.0 then Some(1)
    else if 4.0 <= v < 6.0 then Some(2)
    else if 6.0 <= v < 8.0 then Some(3)
    else if 8.0 <= v <= 10.0 then Some(4)
    else None
  }

  /** The bucket edges: 2 opens the second bucket, 10 closes the last, and values off the scale are not counted. */
  lemma CubetaFronteras()
    ensures Cubeta(0.0) == Some(0) && Cubeta(2.0) == Some(1) && Cubeta(8.0) == Some(4) && Cubeta(10.0) == Some(4)
    ensures Cubeta(-0.5) == None && Cubeta(10.5) == None
  {
  }

  /** The histogram `d` after counting one grade. */
  function Contar(d: seq<nat>, v: real): (r: seq<nat>)
    requires |d| == 5
    ensures |r| == 5
  {
    match Cubeta(v)
    case None => d
    case Some(k) => d[k := d[k] + 1]
  }

  /** The five-bucket histogram of the values, counted in list order. */
  function Distribucion(notas: seq<Nota>): (r: seq<nat>)
    ensures |r| == 5
  {
    if notas == [] then [0, 0, 0, 0, 0]
    else Contar(Distribucion(notas[..|notas| - 1]), notas[|notas| - 1].valor)
  }

  /** Number of values outside [0, 10], which no bucket counts. */
  function FueraDeEscala(notas: seq<Nota>): (n: nat)
    ensures n <= |notas|
  {
    if notas == [] then 0
    else FueraDeEscala(notas[..|notas| - 1]) + (if Cubeta(notas[|notas| - 1].valor).None? then 1 else 0)
  }

  /** The number of grades a five-bucket histogram counts. */
  function Total(d: seq<nat>): nat
    requires |d| == 5
  {
    d[0] + d[1] + d[2] + d[3] + d[4]
  }

  /** Every grade in [0, 10] lands in exactly one bucket; the others in none. */
  lemma {:induction false} TotalDistribucion(notas: seq<Nota>)
    ensures Total(Distribucion(notas)) == |notas| - FueraDeEscala(notas)
  {
    if notas != [] {
      TotalDistribucion(notas[..|notas| - 1]);
    }
  }

  /** When every grade is on the 0–10 scale the buckets add up to the number of notes. */
  lemma {:induction false} TotalDistribucionEnEscala(notas: seq<Nota>)
    requires ValoresEntre(notas, 0.0, 10.0)
    ensures Total(Distribucion(notas)) == |notas|
  {
    TotalDistribucion(notas);
    SinFueraDeEscala(notas);
  }

  /** Grades all on the 0–10 scale leave none outside every bucket. */
  lemma {:induction false} SinFueraDeEscala(notas: seq<Nota>)
    requires ValoresEntre(notas, 0.0, 10.0)
    ensures FueraDeEscala(notas) == 0
  {
    if notas != [] {
      var ini := notas[..|notas| - 1];
      assert forall i :: 0 <= i < |ini| ==> ini[i] == notas[i];
      SinFueraDeEscala(ini);
    }
  }

  /** `calcularDistribucionNotas`: counts each grade into a five-element array, in list order. */
  method CalcularDistribucionNotas(notas: seq<Nota>) returns (d: seq<nat>)
    ensures d == Distribucion(notas)
  {
    var distribucion := new nat[5](_ => 0);
    assert distribucion[..] == [0, 0, 0, 0, 0];
    for i := 0 to |notas|
      invariant distribucion[..] == Distribucion(notas[..i])
    {
      var v := notas[i].valor;
      assert notas[..i + 1][..i] == notas[..i];
      if v >= 0.0 && v < 2.0 {
        distribucion[0] := distribucion[0] + 1;
      } else if v >= 2.0 && v < 4.0 {
        distribucion[1] := distribucion[1] + 1;
      } else if v >= 4.0 && v < 6.0 {
        distribucion[2] := distribucion[2] + 1;
      } else if v >= 6.0 && v < 8.0 {
        distribucion[3] := distribucion[3] + 1;
      } else if v >= 8.0 && v <= 10.0 {
        distribucion[4] := distribucion[4] + 1;
      }
    }
    assert notas[..|notas|] == notas;
    d := distribucion[..];
  }

  /** The status label of a subject. */
  datatype Estado = SinDatos | Excelente | MuyBien | Aprobado | NecesitaMejorar {

    /** The text the dialog shows. */
    function Etiqueta(): string {
      match this
      case SinDatos => "Sin datos"
      case Excelente => "Excelente"
      case MuyBien => "Muy bien"
      case Aprobado => "Aprobado"
      case NecesitaMejorar => "Necesita mejorar"
    }

    /** Position on the grading scale, lowest first. */
    function Rango(): nat {
      match this
      case SinDatos => 0
      case NecesitaMejorar => 0
      case Aprobado => 1
      case MuyBien => 2
      case Excelente => 3
    }
  }

  /** The label for an average, by the thresholds 9, 7 and 5. */
  function EstadoSegunMedia(media: real): (e: Estado)
    ensures e != SinDatos
  {
    if media >= 9.0 then Excelente
    else if media >= 7.0 then MuyBien
    else if media >= 5.0 then Aprobado
    else NecesitaMejorar
  }

  /** `determinarEstado`. */
  function DeterminarEstado(notas: seq<Nota>): (e: Estado)
    requires Promediable(notas)
    ensures e == SinDatos <==> notas == []
    ensures e == Excelente <==> notas != [] && MediaPonderada(notas) >= 9.0
    ensures e == MuyBien <==> notas != [] && 7.0 <= MediaPonderada(notas) < 9.0
    ensures e == Aprobado <==> notas != [] && 5.0 <= MediaPonderada(notas) < 7.0
    ensures e == NecesitaMejorar <==> notas != [] && MediaPonderada(notas) < 5.0
  {
    if |notas| == 0 then SinDatos else EstadoSegunMedia(MediaPonderada(notas))
  }

  /** A higher average never gets a lower label. */
  lemma EstadoMonotono(m1: real, m2: real)
    requires m1 <= m2
    ensures EstadoSegunMedia(m1).Rango() <= EstadoSegunMedia(m2).Rango()
  {
  }

  /** A subject whose grades are all at least 9 is "Excelente"; all below 5, "Necesita mejorar". */
  lemma EstadoDeNotasUniformes(notas: seq<Nota>)
    requires notas != [] && PesosPositivos(notas)
    ensures Promediable(notas)
    ensures (forall i :: 0 <= i < |notas| ==> notas[i].valor >= 9.0) ==> DeterminarEstado(notas) == Excelente
    ensures (forall i :: 0 <= i < |notas| ==> notas[i].valor < 5.0) ==> DeterminarEstado(notas) == NecesitaMejorar
  {
    PositivosSumanPositivo(notas);
    if forall i :: 0 <= i < |notas| ==> notas[i].valor >= 9.0 {
      var s, w := SumaPonderada(notas), SumaPonderaciones(notas);
      SumaPonderadaMinorada(notas, 9.0);
      CotasDeCociente(s, w, 9.0, s / w);
    }
    if forall i :: 0 <= i < |notas| ==> notas[i].valor < 5.0 {
      MediaEntreMinimaYMaxima(notas);
    }
  }
}
