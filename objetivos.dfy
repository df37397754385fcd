/**
 * The objectives dialog of one subject: the grade still needed to reach a target
 * average, and the handlers that add, delete and (un)mark objectives. The dialog
 * never keeps its own copy of the subject: it builds the updated subject and
 * hands it to the manager's `onUpdate` callback.
 */
module Objetivos {
  import opened Comun
  import opened Modelo
  import opened Listas
  import opened Calificaciones
  import opened Gestor

  /** The weight (in percent) still to be evaluated. */
  function PorcentajeRestante(notas: seq<Nota>): real
  {
    100.0 - SumaPonderaciones(notas)
  }

  /**
   * The final average if the remaining weight is all graded `g`:
   * (Σ valor·ponderacion + g·(100 − Σ ponderacion)) / 100.
   */
  function MediaFinal(notas: seq<Nota>, g: real): real
  {
    (SumaPonderada(notas) + g * PorcentajeRestante(notas)) / 100.0
  }

  /** The grade needed on the remaining weight, before the range checks. */
  function NecesariaSinAcotar(notas: seq<Nota>, notaObjetivo: real): real
    requires SumaPonderaciones(notas) < 100.0
  {
    (notaObjetivo * 100.0 - SumaPonderada(notas)) / PorcentajeRestante(notas)
  }

  /**
   * `calcularNotaNecesaria`: the target itself when there are no notes; `null`
   * (None) once the weights reach 100 or when more than a 10 would be needed;
   * otherwise the needed grade, raised to 0 when it is negative.
   */
  function NotaNecesaria(notas: seq<Nota>, notaObjetivo: real): (r: Option<real>)
    ensures notas == [] ==> r == Some(notaObjetivo)
    ensures notas != [] && SumaPonderaciones(notas) >= 100.0 ==> r == None
    ensures notas != [] && SumaPonderaciones(notas) < 100.0 ==>
      (r == None <==> NecesariaSinAcotar(notas, notaObjetivo) > 10.0)
    ensures notas != [] && r.Some? ==> 0.0 <= r.value <= 10.0
  {
    if |notas| == 0 then Some(notaObjetivo)
    else
      var sumaPonderaciones := SumaPonderaciones(notas);
      if sumaPonderaciones >= 100.0 then None
      else
        var notaNecesaria := NecesariaSinAcotar(notas, notaObjetivo);
        if notaNecesaria > 10.0 then None
        else Some(if 0.0 >= notaNecesaria then 0.0 else notaNecesaria)
  }

  /** The hypothetical last note: grade `g` on all the remaining weight. */
  function NotaRestante(notas: seq<Nota>, g: real): (n: Nota)
    ensures n.valor == g && SumaPonderaciones(notas) + n.ponderacion == 100.0
  {
    Nota("", "", g, PorcentajeRestante(notas))
  }

  /** `MediaFinal` is the weighted average of the notes plus that last note. */
  lemma MediaFinalEsMedia(notas: seq<Nota>, g: real)
    ensures Promediable(notas + [NotaRestante(notas, g)])
    ensures MediaPonderada(notas + [NotaRestante(notas, g)]) == MediaFinal(notas, g)
  {
    MediaTrasAnadir(notas, NotaRestante(notas, g));
  }

  /** Solving the final average for the grade: (s + ((100t − s)/q)·q)/100 = t. */
  lemma Despejar(s: real, q: real, t: real)
    requires q > 0.0
    ensures (s + ((t * 100.0 - s) / q) * q) / 100.0 == t
  {
    assert ((t * 100.0 - s) / q) * q == t * 100.0 - s;
  }

  /** A quotient by a positive q is above (below) b exactly when the dividend is above (below) b·q. */
  lemma CompararCociente(x: real, q: real, b: real)
    requires q > 0.0
    ensures x / q > b <==> x > b * q
    ensures x / q >= b <==> x >= b * q
  {
  }

  /**
   * Round trip: a positive needed grade on the remaining weight gives exactly the
   * target as final average; a needed grade of 0 means the target is already
   * secured (the final average with a 0 is at least the target).
   */
  lemma NotaNecesariaAlcanzaObjetivo(notas: seq<Nota>, t: real)
    requires NotaNecesaria(notas, t).Some?
    ensures NotaNecesaria(notas, t).value > 0.0 ==> MediaFinal(notas, NotaNecesaria(notas, t).value) == t
    ensures MediaFinal(notas, NotaNecesaria(notas, t).value) >= t
  {
    var r := NotaNecesaria(notas, t).value;
    if notas == [] {
      assert MediaFinal(notas, r) == (0.0 + t * 100.0) / 100.0;
    } else {
      var s := SumaPonderada(notas);
      var q := PorcentajeRestante(notas);
      var n := NecesariaSinAcotar(notas, t);
      Despejar(s, q, t);
      if r == 0.0 {
        CompararCociente(t * 100.0 - s, q, 0.0);
        assert MediaFinal(notas, r) == s / 100.0;
      }
    }
  }

  /** No lower grade on the remaining weight reaches the target: the needed grade is the least one. */
  lemma NotaNecesariaEsMinima(notas: seq<Nota>, t: real, g: real)
    requires NotaNecesaria(notas, t).Some?
    requires g >= 0.0 && MediaFinal(notas, g) >= t
    ensures g >= NotaNecesaria(notas, t).value
  {
    var s := SumaPonderada(notas);
    var q := PorcentajeRestante(notas);
    CompararCociente(s + g * q, 100.0, t);
    if notas != [] {
      CompararCociente(t * 100.0 - s, q, g);
    }
  }

  /** When `null` comes back with weight still to evaluate, even a 10 on all of it falls short of the target. */
  lemma NotaNecesariaInalcanzable(notas: seq<Nota>, t: real)
    requires notas != [] && SumaPonderaciones(notas) < 100.0
    requires NotaNecesaria(notas, t).None?
    ensures MediaFinal(notas, 10.0) < t
  {
    var s := SumaPonderada(notas);
    var q := PorcentajeRestante(notas);
    CompararCociente(t * 100.0 - s, q, 10.0);
    CompararCociente(s + 10.0 * q, 100.0, t);
  }

  /** The fields of the new-objective form. */
  datatype BorradorObjetivo = BorradorObjetivo(descripcion: string, notaObjetivo: real)

  /** The form after a reset: an empty description and a target of 5. */
  const BorradorObjetivoVacio: BorradorObjetivo := BorradorObjetivo("", 5.0)

  /** The objective `anadirObjetivo` builds: completed from the start when the average already reaches the target. */
  function NuevoObjetivo(id: string, b: BorradorObjetivo, media: real): (o: Objetivo)
    ensures o.id == id && o.descripcion == b.descripcion && o.notaObjetivo == b.notaObjetivo
    ensures o.completado <==> media >= b.notaObjetivo
  {
    Objetivo(id, b.descripcion, b.notaObjetivo, media >= b.notaObjetivo)
  }

  /** The "Completar" button is shown: not completed yet, and the average reaches the target. */
  predicate OfreceCompletar(o: Objetivo, media: real)
  {
    !o.completado && media >= o.notaObjetivo
  }

  /** The objectives after `marcarComoCompletado(id, completado)`. */
  function ConCompletado(objetivos: seq<Objetivo>, id: string, completado: bool): (r: seq<Objetivo>)
    ensures |r| == |objetivos|
    ensures forall i :: 0 <= i < |objetivos| && objetivos[i].id == id ==>
      r[i] == objetivos[i].(completado := completado)
    ensures forall i :: 0 <= i < |objetivos| && objetivos[i].id != id ==> r[i] == objetivos[i]
  {
    ActualizarDonde(objetivos, ClaveObjetivo, id, (o: Objetivo) => o.(completado := completado))
  }

  /**
   * Marking changes only the flag of the objectives with that id; once marked,
   * none of them offers "Completar"; once unmarked, each offers it exactly when
   * the average reaches its target.
   */
  lemma ConCompletadoEfecto(objetivos: seq<Objetivo>, id: string, completado: bool, media: real, i: nat)
    requires i < |objetivos|
    ensures var o := ConCompletado(objetivos, id, completado)[i];
      o.id == objetivos[i].id && o.descripcion == objetivos[i].descripcion &&
      o.notaObjetivo == objetivos[i].notaObjetivo &&
      (objetivos[i].id == id && completado ==> !OfreceCompletar(o, media)) &&
      (objetivos[i].id == id && !completado ==> (OfreceCompletar(o, media) <==> media >= o.notaObjetivo))
  {
  }

  /** A freshly added objective never offers "Completar" while the average is unchanged. */
  lemma NuevoObjetivoNoOfreceCompletar(id: string, b: BorradorObjetivo, media: real)
    ensures !OfreceCompletar(NuevoObjetivo(id, b, media), media)
  {
  }

  /**
   * The objectives dialog, open on subject `asignaturaId` of the manager `gestor`.
   * `gestor.ActualizarAsignatura` plays the part of the `onUpdate` callback.
   */
  class ObjetivosAsignatura {
    const gestor: GestorAsignaturas
    const asignaturaId: string
    var nuevoObjetivo: BorradorObjetivo

    /** The dialog shows a subject the manager holds (the page looks it up with `find(...)!`). */
    predicate Valid()
      reads gestor
    {
      Buscar(gestor.asignaturas, ClaveAsignatura, asignaturaId).Some?
    }

    /** The `asignatura` prop: the first subject with the dialog's id. */
    function Actual(): (a: Asignatura)
      reads gestor
      requires Valid()
      ensures a.id == asignaturaId && a in gestor.asignaturas
      ensures exists i :: 0 <= i < |gestor.asignaturas| && a == gestor.asignaturas[i] &&
                forall j :: 0 <= j < i ==> gestor.asignaturas[j].id != asignaturaId
    {
      Buscar(gestor.asignaturas, ClaveAsignatura, asignaturaId).value
    }

    constructor (gestor: GestorAsignaturas, asignaturaId: string)
      requires Buscar(gestor.asignaturas, ClaveAsignatura, asignaturaId).Some?
      ensures this.gestor == gestor && this.asignaturaId == asignaturaId && Valid()
      ensures nuevoObjetivo == BorradorObjetivoVacio
    {
      this.gestor := gestor;
      this.asignaturaId := asignaturaId;
      nuevoObjetivo := BorradorObjetivoVacio;
    }

    /** Hands `a` (with the dialog's id) to `onUpdate`; the dialog then shows `a`. */
    method Actualizar(a: Asignatura)
      requires Valid() && a.id == asignaturaId
      modifies gestor`asignaturas
      ensures gestor.asignaturas == Reemplazar(old(gestor.asignaturas), a)
      ensures Valid() && Actual() == a
    {
      BuscarTrasReemplazar(gestor.asignaturas, a);
      gestor.ActualizarAsignatura(a);
    }

    /** The initialising effect: a subject without an `objetivos` field gets an empty list; one with a list is left alone. */
    method InicializarObjetivos()
      requires Valid()
      modifies gestor`asignaturas
      ensures Valid()
      ensures old(Actual()).objetivos == None ==>
        gestor.asignaturas == Reemplazar(old(gestor.asignaturas), old(Actual()).(objetivos := Some([])))
      ensures old(Actual()).objetivos != None ==> gestor.asignaturas == old(gestor.asignaturas)
      ensures Actual() == old(Actual()).(objetivos := Some(ObjetivosDe(old(Actual()))))
    {
      var a := Actual();
      if a.objetivos == None {
        Actualizar(a.(objetivos := Some([])));
      }
    }

    /**
     * `anadirObjetivo`: with a non-empty description, appends an objective under the
     * fresh id `id` (an absent list counting as empty) and resets the form; with an
     * empty description, changes nothing.
     */
    method AnadirObjetivo(id: string)
      requires Valid() && Promediable(Actual().notas)
      modifies this`nuevoObjetivo, gestor`asignaturas
      ensures Valid()
      ensures old(nuevoObjetivo.descripcion) == "" ==>
        gestor.asignaturas == old(gestor.asignaturas) && nuevoObjetivo == old(nuevoObjetivo)
      ensures old(nuevoObjetivo.descripcion) != "" ==>
        Actual() == old(Actual()).(objetivos := Some(ObjetivosDe(old(Actual())) +
          [NuevoObjetivo(id, old(nuevoObjetivo), old(MediaPonderada(Actual().notas)))])) &&
        gestor.asignaturas == Reemplazar(old(gestor.asignaturas), Actual()) &&
        nuevoObjetivo == BorradorObjetivoVacio
    {
      if nuevoObjetivo.descripcion == "" {
        return;
      }
      var a := Actual();
      var mediaPonderada := MediaPonderada(a.notas);
      var objetivoNuevo := NuevoObjetivo(id, nuevoObjetivo, mediaPonderada);
      Actualizar(a.(objetivos := Some(ObjetivosDe(a) + [objetivoNuevo])));
      nuevoObjetivo := BorradorObjetivoVacio;
    }

    /** `eliminarObjetivo`: drops the objective(s) with id `id`, keeping the others in order. */
    method EliminarObjetivo(id: string)
      requires Valid()
      modifies gestor`asignaturas
      ensures Valid()
      ensures Actual() == old(Actual()).(objetivos := Some(SinClave(ObjetivosDe(old(Actual())), ClaveObjetivo, id)))
      ensures gestor.asignaturas == Reemplazar(old(gestor.asignaturas), Actual())
    {
      var a := Actual();
      Actualizar(a.(objetivos := Some(SinClave(ObjetivosDe(a), ClaveObjetivo, id))));
    }

    /** `marcarComoCompletado`: sets the flag of the objective(s) with id `id` to `completado`. */
    method MarcarComoCompletado(id: string, completado: bool)
      requires Valid()
      modifies gestor`asignaturas
      ensures Valid()
      ensures Actual() == old(Actual()).(objetivos := Some(ConCompletado(ObjetivosDe(old(Actual())), id, completado)))
      ensures gestor.asignaturas == Reemplazar(old(gestor.asignaturas), Actual())
    {
      var a := Actual();
      Actualizar(a.(objetivos := Some(ConCompletado(ObjetivosDe(a), id, completado))));
    }
  }
}
