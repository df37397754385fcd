/** The records the application stores: notes, objectives and subjects. */
module Modelo {
  import opened Comun

  /** One grade entry: a value on the 0–10 scale and its weight as a percentage. */
  datatype Nota = Nota(id: string, nombre: string, valor: real, ponderacion: real)

  /** A target average for a subject and whether the user has marked it as reached. */
  datatype Objetivo = Objetivo(id: string, descripcion: string, notaObjetivo: real, completado: bool)

  /**
   * A subject. `objetivos` is absent on subjects created by the manager and on
   * subjects stored before objectives existed.
   */
  datatype Asignatura = Asignatura(
    id: string,
    nombre: string,
    profesor: string,
    creditos: real,
    notas: seq<Nota>,
    color: string,
    objetivos: Option<seq<Objetivo>>)

  function ClaveNota(n: Nota): string { n.id }
  function ClaveObjetivo(o: Objetivo): string { o.id }
  function ClaveAsignatura(a: Asignatura): string { a.id }

  /** `asignatura.objetivos || []`. */
  function ObjetivosDe(a: Asignatura): (r: seq<Objetivo>)
    ensures a.objetivos.Some? ==> r == a.objetivos.value
    ensures a.objetivos.None? ==> r == []
  {
    a.objetivos.GetOr([])
  }
}
