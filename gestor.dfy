/**
 * The subject manager: the list of subjects the page holds, and the handlers that
 * add, edit and delete subjects and the notes inside them. Each handler replaces
 * the list by a filtered, mapped or extended copy, exactly as the page's state
 * setter does; the pure functions below describe those copies.
 */
module Gestor {
  import opened Comun
  import opened Modelo
  import opened Listas
  import opened Calificaciones

  /** The fields of the new/edit subject form. */
  datatype BorradorAsignatura = BorradorAsignatura(nombre: string, profesor: string, creditos: real, color: string)

  /** The fields of the new/edit note form. */
  datatype BorradorNota = BorradorNota(nombre: string, valor: real, ponderacion: real)

  /** The tab that shows every subject. */
  const PestanaInicio: string := "dashboard"

  /** The note form after a reset. */
  const BorradorNotaVacio: BorradorNota := BorradorNota("", 0.0, 0.0)

  /** The subject form after a reset: 6 credits and the next colour. */
  function BorradorAsignaturaVacio(color: string): BorradorAsignatura
  {
    BorradorAsignatura("", "", 6.0, color)
  }

  /** The subject `añadirAsignatura` builds from the form: no notes and no objectives field yet. */
  function AsignaturaDeBorrador(id: string, b: BorradorAsignatura): (a: Asignatura)
    ensures a.id == id && a.notas == [] && a.objetivos == None
    ensures a.nombre == b.nombre && a.profesor == b.profesor && a.creditos == b.creditos && a.color == b.color
  {
    Asignatura(id, b.nombre, b.profesor, b.creditos, [], b.color, None)
  }

  /** A subject after `guardarEdicionAsignatura`: each empty (or zero) form field keeps the old value. */
  function EditarAsignatura(a: Asignatura, b: BorradorAsignatura): (r: Asignatura)
    ensures r.id == a.id && r.notas == a.notas && r.objetivos == a.objetivos
    ensures r.nombre == (if b.nombre == "" then a.nombre else b.nombre)
    ensures r.profesor == (if b.profesor == "" then a.profesor else b.profesor)
    ensures r.creditos == (if b.creditos == 0.0 then a.creditos else b.creditos)
    ensures r.color == (if b.color == "" then a.color else b.color)
  {
    a.(nombre := SiVacio(b.nombre, "", a.nombre),
       profesor := SiVacio(b.profesor, "", a.profesor),
       creditos := SiVacio(b.creditos, 0.0, a.creditos),
       color := SiVacio(b.color, "", a.color))
  }

  /**
   * A note after `guardarEdicionNota`: an empty name keeps the old one, while the
   * value and the weight are always overwritten, without any range check.
   */
  function EditarNota(n: Nota, b: BorradorNota): (r: Nota)
    ensures r.id == n.id
    ensures r.nombre == (if b.nombre == "" then n.nombre else b.nombre)
    ensures r.valor == b.valor && r.ponderacion == b.ponderacion
  {
    n.(nombre := SiVacio(b.nombre, "", n.nombre), valor := b.valor, ponderacion := b.ponderacion)
  }

  /** The subjects after editing the one(s) with id `id`. */
  function ConAsignaturaEditada(s: seq<Asignatura>, id: string, b: BorradorAsignatura): (r: seq<Asignatura>)
    ensures |r| == |s|
    ensures forall i :: 0 <= i < |s| && s[i].id == id ==> r[i] == EditarAsignatura(s[i], b)
    ensures forall i :: 0 <= i < |s| && s[i].id != id ==> r[i] == s[i]
  {
    ActualizarDonde(s, ClaveAsignatura, id, a => EditarAsignatura(a, b))
  }

  /** The subjects after appending `n` to the notes of the subject(s) with id `asignaturaId`. */
  function ConNota(s: seq<Asignatura>, asignaturaId: string, n: Nota): (r: seq<Asignatura>)
    ensures |r| == |s|
    ensures forall i :: 0 <= i < |s| && s[i].id == asignaturaId ==> r[i] == s[i].(notas := s[i].notas + [n])
    ensures forall i :: 0 <= i < |s| && s[i].id != asignaturaId ==> r[i] == s[i]
  {
    ActualizarDonde(s, ClaveAsignatura, asignaturaId, (a: Asignatura) => a.(notas := a.notas + [n]))
  }

  /** The subjects after editing note `notaId` of subject `asignaturaId` with the form `b`. */
  function ConNotaEditada(s: seq<Asignatura>, asignaturaId: string, notaId: string, b: BorradorNota): (r: seq<Asignatura>)
    ensures |r| == |s|
    ensures forall i :: 0 <= i < |s| && s[i].id == asignaturaId ==>
      r[i] == s[i].(notas := ActualizarDonde(s[i].notas, ClaveNota, notaId, n => EditarNota(n, b)))
    ensures forall i :: 0 <= i < |s| && s[i].id != asignaturaId ==> r[i] == s[i]
  {
    ActualizarDonde(s, ClaveAsignatura, asignaturaId,
      (a: Asignatura) => a.(notas := ActualizarDonde(a.notas, ClaveNota, notaId, n => EditarNota(n, b))))
  }

  /** The subjects after dropping note `notaId` from subject `asignaturaId`. */
  function SinNota(s: seq<Asignatura>, asignaturaId: string, notaId: string): (r: seq<Asignatura>)
    ensures |r| == |s|
    ensures forall i :: 0 <= i < |s| && s[i].id == asignaturaId ==>
      r[i] == s[i].(notas := SinClave(s[i].notas, ClaveNota, notaId))
    ensures forall i :: 0 <= i < |s| && s[i].id != asignaturaId ==> r[i] == s[i]
  {
    ActualizarDonde(s, ClaveAsignatura, asignaturaId,
      (a: Asignatura) => a.(notas := SinClave(a.notas, ClaveNota, notaId)))
  }

  /** The subjects after `onUpdate(a)`: every subject with `a`'s id becomes `a`. */
  function Reemplazar(s: seq<Asignatura>, a: Asignatura): (r: seq<Asignatura>)
    ensures |r| == |s|
    ensures forall i :: 0 <= i < |s| && s[i].id == a.id ==> r[i] == a
    ensures forall i :: 0 <= i < |s| && s[i].id != a.id ==> r[i] == s[i]
  {
    ActualizarDonde(s, ClaveAsignatura, a.id, _ => a)
  }

  /** `añadirNota`'s guard: no subject selected, an empty name, a negative value or a non-positive weight. */
  predicate NotaRechazada(seleccion: Option<string>, b: BorradorNota)
  {
    seleccion.None? || seleccion.value == "" || b.nombre == "" || b.valor < 0.0 || b.ponderacion <= 0.0
  }

  /** What `añadirNota`'s guard lets through: a positive weight and a non-negative value. */
  predicate NotaAdmisible(n: Nota)
  {
    n.ponderacion > 0.0 && n.valor >= 0.0
  }

  /** Every stored note is one `añadirNota` could have added. */
  predicate NotasAdmisibles(s: seq<Asignatura>)
  {
    forall i, j :: 0 <= i < |s| && 0 <= j < |s[i].notas| ==> NotaAdmisible(s[i].notas[j])
  }

  /** While every stored note is admissible, every subject's average is a number. */
  lemma AdmisiblesPromediables(s: seq<Asignatura>, i: nat)
    requires NotasAdmisibles(s) && i < |s|
    ensures PesosPositivos(s[i].notas) && Promediable(s[i].notas)
  {
    assert forall j :: 0 <= j < |s[i].notas| ==> NotaAdmisible(s[i].notas[j]);
    PositivosSumanPositivo(s[i].notas);
  }

  /**
   * Adding a note to one subject grows that subject's notes by exactly one and its
   * percentage evaluated by exactly the new weight.
   */
  lemma ConNotaCrece(s: seq<Asignatura>, asignaturaId: string, n: Nota, i: nat)
    requires i < |s| && s[i].id == asignaturaId
    ensures |ConNota(s, asignaturaId, n)[i].notas| == |s[i].notas| + 1
    ensures ConNota(s, asignaturaId, n)[i].notas[..|s[i].notas|] == s[i].notas
    ensures PorcentajeEvaluado(ConNota(s, asignaturaId, n)[i].notas) == PorcentajeEvaluado(s[i].notas) + n.ponderacion
  {
    SumaPonderacionesAnadir(s[i].notas, n);
    assert (s[i].notas + [n])[..|s[i].notas|] == s[i].notas;
  }

  /** Adding a note that passes `añadirNota`'s guard keeps every stored note admissible. */
  lemma {:induction false} ConNotaConservaAdmisibles(s: seq<Asignatura>, asignaturaId: string, n: Nota)
    requires NotasAdmisibles(s) && NotaAdmisible(n)
    ensures NotasAdmisibles(ConNota(s, asignaturaId, n))
  {
    var r := ConNota(s, asignaturaId, n);
    forall i, j | 0 <= i < |r| && 0 <= j < |r[i].notas| ensures NotaAdmisible(r[i].notas[j]) {
      if s[i].id == asignaturaId && j < |s[i].notas| {
        assert r[i].notas[j] == s[i].notas[j];
      }
    }
  }

  /**
   * Editing a note does not keep weights positive: an edit form left at weight 0
   * makes the subject's weight sum 0, so its average is no longer a number.
   */
  lemma EdicionPuedeAnularPesos()
    ensures var s := [Asignatura("a", "", "", 6.0, [Nota("n", "", 5.0, 30.0)], "", None)];
            NotasAdmisibles(s) &&
            !Promediable(ConNotaEditada(s, "a", "n", BorradorNota("", 5.0, 0.0))[0].notas)
  {
    var s := [Asignatura("a", "", "", 6.0, [Nota("n", "", 5.0, 30.0)], "", None)];
    var r := ConNotaEditada(s, "a", "n", BorradorNota("", 5.0, 0.0));
    assert r[0].notas == [Nota("n", "", 5.0, 0.0)];
    assert [Nota("n", "", 5.0, 0.0)][..0] == [];
  }

  /**
   * The `||` fallbacks of a subject edit are idempotent. This is a property of the pure
   * function only: the page closes edit mode and resets the form after one save, so it
   * never saves the same edit twice.
   */
  lemma ConAsignaturaEditadaIdempotente(s: seq<Asignatura>, id: string, b: BorradorAsignatura)
    ensures ConAsignaturaEditada(ConAsignaturaEditada(s, id, b), id, b) == ConAsignaturaEditada(s, id, b)
  {
    var r := ConAsignaturaEditada(s, id, b);
    var rr := ConAsignaturaEditada(r, id, b);
    assert forall i :: 0 <= i < |s| ==> rr[i] == r[i];
  }

  /** Saving a subject edit whose fields are all empty (or zero) leaves every subject as it was. */
  lemma ConAsignaturaEditadaVacia(s: seq<Asignatura>, id: string)
    ensures ConAsignaturaEditada(s, id, BorradorAsignatura("", "", 0.0, "")) == s
  {
    var r := ConAsignaturaEditada(s, id, BorradorAsignatura("", "", 0.0, ""));
    assert forall i :: 0 <= i < |s| ==> r[i] == s[i];
  }

  /**
   * Saving a note edit touches only the notes with that id in the subject with
   * that id: their value and weight become the form's, and the subject keeps its
   * number of notes and every other note.
   */
  lemma ConNotaEditadaEfecto(s: seq<Asignatura>, asignaturaId: string, notaId: string, b: BorradorNota, i: nat, j: nat)
    requires i < |s| && s[i].id == asignaturaId && j < |s[i].notas|
    ensures |ConNotaEditada(s, asignaturaId, notaId, b)[i].notas| == |s[i].notas|
    ensures s[i].notas[j].id != notaId ==> ConNotaEditada(s, asignaturaId, notaId, b)[i].notas[j] == s[i].notas[j]
    ensures s[i].notas[j].id == notaId ==>
      ConNotaEditada(s, asignaturaId, notaId, b)[i].notas[j].valor == b.valor &&
      ConNotaEditada(s, asignaturaId, notaId, b)[i].notas[j].ponderacion == b.ponderacion
  {
  }

  /** Deleting a note removes exactly the notes with that id and keeps the rest in order. */
  lemma SinNotaEfecto(s: seq<Asignatura>, asignaturaId: string, notaId: string, i: nat, antes: seq<Nota>, despues: seq<Nota>)
    requires i < |s| && s[i].id == asignaturaId && s[i].notas == antes + despues
    ensures forall n :: n in SinNota(s, asignaturaId, notaId)[i].notas <==> n in s[i].notas && n.id != notaId
    ensures SinNota(s, asignaturaId, notaId)[i].notas
         == SinClave(antes, ClaveNota, notaId) + SinClave(despues, ClaveNota, notaId)
  {
    SinClaveConcatenacion(antes, despues, ClaveNota, notaId);
  }

  /** Deleting a subject removes exactly the subjects with that id and keeps the rest in order. */
  lemma SinAsignaturaEfecto(antes: seq<Asignatura>, despues: seq<Asignatura>, id: string)
    ensures forall a :: a in SinClave(antes + despues, ClaveAsignatura, id) <==> a in antes + despues && a.id != id
    ensures SinClave(antes + despues, ClaveAsignatura, id)
         == SinClave(antes, ClaveAsignatura, id) + SinClave(despues, ClaveAsignatura, id)
    ensures |SinClave(antes + despues, ClaveAsignatura, id)| == |antes + despues| - Cuenta(antes + despues, ClaveAsignatura, id)
  {
    SinClaveConcatenacion(antes, despues, ClaveAsignatura, id);
  }

  /** After `onUpdate(a)` for an existing id, looking the id up finds `a`. */
  lemma BuscarTrasReemplazar(s: seq<Asignatura>, a: Asignatura)
    requires Buscar(s, ClaveAsignatura, a.id).Some?
    ensures Buscar(Reemplazar(s, a), ClaveAsignatura, a.id) == Some(a)
  {
    BuscarTrasActualizar(s, ClaveAsignatura, a.id, _ => a);
  }

  /** The page component: its list of subjects and the form and selection state its handlers use. */
  class GestorAsignaturas {
    var asignaturas: seq<Asignatura>
    var activeTab: string
    var nuevaAsignatura: BorradorAsignatura
    var editandoAsignatura: Option<string>
    var nuevaNota: BorradorNota
    var asignaturaSeleccionadaParaNota: Option<string>
    var editandoNota: Option<string>

    /** The initial state, before anything is loaded from storage; `color` is the first random colour. */
    constructor (color: string)
      ensures asignaturas == [] && activeTab == PestanaInicio
      ensures nuevaAsignatura == BorradorAsignaturaVacio(color) && editandoAsignatura == None
      ensures nuevaNota == BorradorNotaVacio && asignaturaSeleccionadaParaNota == None && editandoNota == None
    {
      asignaturas := [];
      activeTab := PestanaInicio;
      nuevaAsignatura := BorradorAsignaturaVacio(color);
      editandoAsignatura := None;
      nuevaNota := BorradorNotaVacio;
      asignaturaSeleccionadaParaNota := None;
      editandoNota := None;
    }

    /**
     * `añadirAsignatura`: with a non-empty name, appends a subject built from the
     * form under the fresh id `id`, resets the form with the next colour and opens
     * the new subject's tab; with an empty name, changes nothing.
     */
    method AnadirAsignatura(id: string, colorSiguiente: string)
      modifies this`asignaturas, this`nuevaAsignatura, this`activeTab
      ensures old(nuevaAsignatura.nombre) == "" ==>
        asignaturas == old(asignaturas) && nuevaAsignatura == old(nuevaAsignatura) && activeTab == old(activeTab)
      ensures old(nuevaAsignatura.nombre) != "" ==>
        asignaturas == old(asignaturas) + [AsignaturaDeBorrador(id, old(nuevaAsignatura))] &&
        nuevaAsignatura == BorradorAsignaturaVacio(colorSiguiente) && activeTab == id
    {
      if nuevaAsignatura.nombre == "" {
        return;
      }
      var completa := AsignaturaDeBorrador(id, nuevaAsignatura);
      asignaturas := asignaturas + [completa];
      nuevaAsignatura := BorradorAsignaturaVacio(colorSiguiente);
      activeTab := completa.id;
    }

    /** `guardarEdicionAsignatura`: applies the form to the subject(s) with id `id`, then closes and resets the form. */
    method GuardarEdicionAsignatura(id: string, colorSiguiente: string)
      modifies this`asignaturas, this`editandoAsignatura, this`nuevaAsignatura
      ensures asignaturas == ConAsignaturaEditada(old(asignaturas), id, old(nuevaAsignatura))
      ensures editandoAsignatura == None && nuevaAsignatura == BorradorAsignaturaVacio(colorSiguiente)
    {
      asignaturas := ConAsignaturaEditada(asignaturas, id, nuevaAsignatura);
      editandoAsignatura := None;
      nuevaAsignatura := BorradorAsignaturaVacio(colorSiguiente);
    }

    /** `eliminarAsignatura`: drops the subject(s) with id `id` and returns to the dashboard tab. */
    method EliminarAsignatura(id: string)
      modifies this`asignaturas, this`activeTab
      ensures asignaturas == SinClave(old(asignaturas), ClaveAsignatura, id)
      ensures forall a :: a in asignaturas <==> a in old(asignaturas) && a.id != id
      ensures activeTab == PestanaInicio
    {
      asignaturas := SinClave(asignaturas, ClaveAsignatura, id);
      activeTab := PestanaInicio;
    }

    /**
     * `añadirNota`: when the guard rejects the form nothing changes; otherwise the
     * note, under the fresh id `id`, is appended to the selected subject, the form
     * is reset and the selection cleared.
     */
    method AnadirNota(id: string)
      modifies this`asignaturas, this`nuevaNota, this`asignaturaSeleccionadaParaNota
      ensures NotaRechazada(old(asignaturaSeleccionadaParaNota), old(nuevaNota)) ==>
        asignaturas == old(asignaturas) && nuevaNota == old(nuevaNota) &&
        asignaturaSeleccionadaParaNota == old(asignaturaSeleccionadaParaNota)
      ensures !NotaRechazada(old(asignaturaSeleccionadaParaNota), old(nuevaNota)) ==>
        asignaturas == ConNota(old(asignaturas), old(asignaturaSeleccionadaParaNota).value,
                               Nota(id, old(nuevaNota).nombre, old(nuevaNota).valor, old(nuevaNota).ponderacion)) &&
        nuevaNota == BorradorNotaVacio && asignaturaSeleccionadaParaNota == None
      ensures old(NotasAdmisibles(asignaturas)) ==> NotasAdmisibles(asignaturas)
    {
      if NotaRechazada(asignaturaSeleccionadaParaNota, nuevaNota) {
        return;
      }
      var completa := Nota(id, nuevaNota.nombre, nuevaNota.valor, nuevaNota.ponderacion);
      if NotasAdmisibles(asignaturas) {
        ConNotaConservaAdmisibles(asignaturas, asignaturaSeleccionadaParaNota.value, completa);
      }
      asignaturas := ConNota(asignaturas, asignaturaSeleccionadaParaNota.value, completa);
      nuevaNota := BorradorNotaVacio;
      asignaturaSeleccionadaParaNota := None;
    }

    /** `guardarEdicionNota`: applies the form to note `notaId` of subject `asignaturaId`, then closes and resets the form. */
    method GuardarEdicionNota(asignaturaId: string, notaId: string)
      modifies this`asignaturas, this`editandoNota, this`nuevaNota
      ensures asignaturas == ConNotaEditada(old(asignaturas), asignaturaId, notaId, old(nuevaNota))
      ensures editandoNota == None && nuevaNota == BorradorNotaVacio
    {
      asignaturas := ConNotaEditada(asignaturas, asignaturaId, notaId, nuevaNota);
      editandoNota := None;
      nuevaNota := BorradorNotaVacio;
    }

    /** `eliminarNota`: drops note `notaId` from subject `asignaturaId`. */
    method EliminarNota(asignaturaId: string, notaId: string)
      modifies this`asignaturas
      ensures asignaturas == SinNota(old(asignaturas), asignaturaId, notaId)
    {
      asignaturas := SinNota(asignaturas, asignaturaId, notaId);
    }

    /** The `onUpdate` callback the objectives dialog receives: stores `a` in place of the subject(s) with its id. */
    method ActualizarAsignatura(a: Asignatura)
      modifies this`asignaturas
      ensures asignaturas == Reemplazar(old(asignaturas), a)
    {
      asignaturas := Reemplazar(asignaturas, a);
    }
  }
}
