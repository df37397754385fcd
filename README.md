# Grade tracker: a verified model of its grade engine and list handlers

The application keeps a list of subjects (*asignaturas*). Each subject has weighted grade
entries (*notas*: a value on the 0–10 scale and a weight in percent) and, optionally, target
averages (*objetivos*). This project models the logic of the three components that hold
it:

- **the subject manager** (`components/gestor-asignaturas.tsx`), modules `Gestor`, `Calificaciones`
  and `Listas`. The weighted average and the "percentage evaluated" are pure functions. The
  page state is a class `GestorAsignaturas`: a `seq<Asignatura>` field plus the form, tab and
  selection fields. Its handlers add, edit and delete subjects and the notes inside them.
  Each handler replaces the list by a filtered, mapped or extended copy, as the page's
  state setter does.
- **the statistics dialog** (`components/estadisticas-asignatura.tsx`), module `Estadisticas`.
  It covers the highest and lowest grade, the five-bucket histogram and the status label.
  The histogram is counted into a local five-element array by a loop, as in the source.
- **the objectives dialog** (`components/objetivos-asignatura.tsx`), module `Objetivos`.
  It covers the grade still needed on the remaining weight to reach a target, and the
  class `ObjetivosAsignatura`. That class adds, deletes and (un)marks objectives by handing
  an updated subject to the manager's `onUpdate` callback (`GestorAsignaturas.ActualizarAsignatura`).

The weighted average and the percentage evaluated occur three times in the source, each
time as the same formula with the same empty-list case (`gestor-asignaturas.tsx:219-232`,
`estadisticas-asignatura.tsx:32-44`, `objetivos-asignatura.tsx:57-64` and `:295-298`): the
manager declares them as functions of a `notas` parameter, the dialogs as closures over
`asignatura.notas`. The
model defines each once, in `Calificaciones`, and every component uses that one definition.
So the copies agree by construction.

Conventions:

- Numbers are `real`.
- Weights are percentages that sum towards 100, which is what `calcularNotaNecesaria`
  assumes.
- Sums fold from the left, as `reduce` does.
- Ids from `Date.now()` and colours from `Math.random()` are parameters of the handlers.
- JavaScript's falsy tests are written out: `""` for strings, `0` for credits, and `null`
  or `""` for the selected subject id.
- An absent `objetivos` field is `None`.

Behaviour of the code worth noting:

- With the weights at 100 or more, `calcularNotaNecesaria` simply returns `null`. It does
  not report whether the target is already met.
- For a list with no notes, it returns the target itself, without clamping it to [0, 10].
- The histogram counts no bucket for a value outside [0, 10]. So the buckets add up to the
  number of notes only when every value is on the scale (`TotalDistribucion`).

## Model

| member | source | states |
|---|---|---|
| Listas.SinClave | components/gestor-asignaturas.tsx:138 | `filter` by id keeps exactly the elements whose id differs, and the length drops by the number of elements with that id |
| Listas.SinClaveConcatenacion | components/gestor-asignaturas.tsx:138 | filtering distributes over concatenation, so the survivors keep their relative order |
| Listas.SinClaveAusente | components/gestor-asignaturas.tsx:210 | filtering out an id no element has leaves the list unchanged |
| Listas.SinClaveIdempotente | components/objetivos-asignatura.tsx:95 | deleting the same id twice is the same as deleting it once |
| Listas.ActualizarDonde | components/gestor-asignaturas.tsx:114-125 | id-keyed `map`: the length is kept, elements with the id are rewritten and every other element is unchanged |
| Listas.PrimeraPosicion | components/gestor-asignaturas.tsx:724 | the index `find` stops at: the first element with the id, and none when no element has it |
| Listas.Buscar | components/gestor-asignaturas.tsx:724 | `find` returns an element exactly when one has the id, and it is the first element with the id |
| Listas.BuscarTrasActualizar | components/gestor-asignaturas.tsx:724-727 | after rewriting the elements with an id (keeping their id), `find` returns the rewritten first match |
| Modelo.ObjetivosDe | components/objetivos-asignatura.tsx:81 | an absent `objetivos` list reads as the empty list |
| Calificaciones.MediaPonderada | components/gestor-asignaturas.tsx:219-226 | 0 for no notes; otherwise average × total weight = Σ valor·ponderacion |
| Calificaciones.PorcentajeEvaluado | components/gestor-asignaturas.tsx:229-232 | the empty-list 0 coincides with the sum of weights, so the result is always Σ ponderacion |
| Calificaciones.PositivosSumanPositivo | components/gestor-asignaturas.tsx:229-232 | with positive weights the percentage evaluated is ≥ 0, > 0 once there is a note, and the average is defined |
| Calificaciones.SumaPonderadaAnadir | components/gestor-asignaturas.tsx:222 | appending a note adds valor·ponderacion to the weighted sum |
| Calificaciones.SumaPonderacionesAnadir | components/gestor-asignaturas.tsx:223 | appending a note adds its weight to the sum of weights and to the percentage evaluated |
| Calificaciones.MediaTrasAnadir | components/gestor-asignaturas.tsx:219-226 | the average after appending a note, from the two sums before it |
| Calificaciones.SumaPonderadaMinorada | components/gestor-asignaturas.tsx:222-223 | with non-negative weights and every value ≥ lo: lo·Σp ≤ Σv·p |
| Calificaciones.SumaPonderadaMayorada | components/gestor-asignaturas.tsx:222-223 | with non-negative weights and every value ≤ hi: Σv·p ≤ hi·Σp |
| Calificaciones.MediaAcotada | components/gestor-asignaturas.tsx:219-226 | a non-empty, positively weighted average lies within any bounds on the values |
| Calificaciones.MediaEnEscala | components/gestor-asignaturas.tsx:219-226 | grades on the 0–10 scale give an average on the 0–10 scale, including the 0 of an empty list |
| Estadisticas.MayorValor | components/estadisticas-asignatura.tsx:48 | `Math.max` of the values: at least every value and equal to one of them |
| Estadisticas.MenorValor | components/estadisticas-asignatura.tsx:53 | `Math.min` of the values: at most every value and equal to one of them |
| Estadisticas.NotaMaxima | components/estadisticas-asignatura.tsx:46-49 | 0 for no notes; otherwise ≥ every value and equal to some note's value |
| Estadisticas.NotaMinima | components/estadisticas-asignatura.tsx:51-54 | 0 for no notes; otherwise ≤ every value and equal to some note's value |
| Estadisticas.MediaEntreMinimaYMaxima | components/estadisticas-asignatura.tsx:32-54 | with positive weights and at least one note: lowest grade ≤ weighted average ≤ highest grade |
| Estadisticas.SumaPonderadaEstricta | components/estadisticas-asignatura.tsx:291 | if one value exceeds a lower bound of all of them, the weighted sum exceeds bound × total weight |
| Estadisticas.SinMejoraSoloSiIguales | components/estadisticas-asignatura.tsx:290-299 | the trend test `mediaPonderada > notaMinima` fails exactly when every grade equals the lowest |
| Estadisticas.Cubeta | components/estadisticas-asignatura.tsx:60-64 | a value gets a bucket iff it is in [0, 10]; bucket k holds [2k, 2k+2), and the last bucket also holds 10 |
| Estadisticas.CubetaFronteras | components/estadisticas-asignatura.tsx:60-64 | 0 → bucket 0, 2 → bucket 1, 8 and 10 → bucket 4, and −0.5 and 10.5 → no bucket |
| Estadisticas.Contar | components/estadisticas-asignatura.tsx:59-65 | counting one grade keeps five buckets |
| Estadisticas.Distribucion | components/estadisticas-asignatura.tsx:56-68 | the histogram always has five buckets |
| Estadisticas.FueraDeEscala | components/estadisticas-asignatura.tsx:60-64 | the notes no bucket counts are at most all of them |
| Estadisticas.TotalDistribucion | components/estadisticas-asignatura.tsx:56-68 | the buckets add up to the number of notes minus those off the 0–10 scale |
| Estadisticas.TotalDistribucionEnEscala | components/estadisticas-asignatura.tsx:56-68 | with every value in [0, 10] the buckets add up to the number of notes |
| Estadisticas.SinFueraDeEscala | components/estadisticas-asignatura.tsx:60-64 | values all on the scale leave no note uncounted |
| Estadisticas.CalcularDistribucionNotas | components/estadisticas-asignatura.tsx:56-68 | the loop over a five-element array produces exactly the histogram `Distribucion` |
| Estadisticas.EstadoSegunMedia | components/estadisticas-asignatura.tsx:80-83 | an average always gets one of the four grade labels, never "Sin datos" |
| Estadisticas.DeterminarEstado | components/estadisticas-asignatura.tsx:78-84 | "Sin datos" iff no notes; else "Excelente" iff average ≥ 9, "Muy bien" iff in [7, 9), "Aprobado" iff in [5, 7), "Necesita mejorar" iff < 5 |
| Estadisticas.EstadoMonotono | components/estadisticas-asignatura.tsx:80-83 | a higher average never gets a lower label |
| Estadisticas.EstadoDeNotasUniformes | components/estadisticas-asignatura.tsx:78-84 | every grade ≥ 9 (also above 10, which the add guard admits) gives "Excelente"; every grade below 5 gives "Necesita mejorar" |
| Gestor.AsignaturaDeBorrador | components/gestor-asignaturas.tsx:95-99 | a new subject takes the caller's id and the form's fields, with no notes and no objectives field |
| Gestor.EditarAsignatura | components/gestor-asignaturas.tsx:116-122 | id, notes and objectives are kept; each empty (or zero-credit) form field falls back to the old value |
| Gestor.EditarNota | components/gestor-asignaturas.tsx:181-186 | id kept; an empty name falls back; value and weight are overwritten unchecked |
| Gestor.ConAsignaturaEditada | components/gestor-asignaturas.tsx:114-125 | only the subjects with the id change, as `EditarAsignatura` says; the order and the others are kept |
| Gestor.ConNota | components/gestor-asignaturas.tsx:152-161 | only the selected subject changes, by the note appended at the end of its notes |
| Gestor.ConNotaEditada | components/gestor-asignaturas.tsx:174-194 | only the target subject changes, and in it only the target note(s) |
| Gestor.SinNota | components/gestor-asignaturas.tsx:205-215 | only the target subject changes, by filtering its notes by id |
| Gestor.Reemplazar | components/gestor-asignaturas.tsx:725-727 | every subject with the updated subject's id becomes it; the others are kept |
| Gestor.AdmisiblesPromediables | components/gestor-asignaturas.tsx:143-145 | while every stored note passed the add guard, every subject's weights are positive and its average is defined |
| Gestor.ConNotaCrece | components/gestor-asignaturas.tsx:147-162 | adding a note grows the subject's notes by exactly one, keeps the old ones as a prefix and raises the percentage evaluated by its weight |
| Gestor.ConNotaConservaAdmisibles | components/gestor-asignaturas.tsx:143-162 | a note that passes the guard keeps every stored weight positive and every value non-negative |
| Gestor.EdicionPuedeAnularPesos | components/gestor-asignaturas.tsx:184-185 | the edit handler does not keep that invariant: one edit to weight 0 leaves a subject whose average is undefined |
| Gestor.ConAsignaturaEditadaIdempotente | components/gestor-asignaturas.tsx:112-126 | the `||` fallbacks of a subject edit are idempotent (a property of the function only: the page closes edit mode after one save) |
| Gestor.ConAsignaturaEditadaVacia | components/gestor-asignaturas.tsx:118-121 | an edit form with every field empty or zero changes no subject |
| Gestor.ConNotaEditadaEfecto | components/gestor-asignaturas.tsx:173-194 | a note edit keeps the subject's note count and every other note; the target note gets the form's value and weight |
| Gestor.SinNotaEfecto | components/gestor-asignaturas.tsx:204-216 | deleting a note keeps exactly the notes with another id, in their order |
| Gestor.SinAsignaturaEfecto | components/gestor-asignaturas.tsx:137-140 | deleting a subject keeps exactly the subjects with another id, in order, and removes as many as had the id |
| Gestor.BuscarTrasReemplazar | components/gestor-asignaturas.tsx:724-727 | after `onUpdate(a)` for an existing id, the dialog's lookup finds `a` |
| Gestor.GestorAsignaturas.constructor | components/gestor-asignaturas.tsx:43-62 | no subjects, the dashboard tab, reset forms and no selection |
| Gestor.GestorAsignaturas.AnadirAsignatura | components/gestor-asignaturas.tsx:92-109 | empty name: nothing changes; otherwise one subject with no notes is appended, the form is reset and its tab is opened |
| Gestor.GestorAsignaturas.GuardarEdicionAsignatura | components/gestor-asignaturas.tsx:112-134 | the subjects become `ConAsignaturaEditada`; the edit mode is closed and the form is reset |
| Gestor.GestorAsignaturas.EliminarAsignatura | components/gestor-asignaturas.tsx:137-140 | exactly the subjects with the id are removed, the others keep their order, and the tab returns to "dashboard" |
| Gestor.GestorAsignaturas.AnadirNota | components/gestor-asignaturas.tsx:143-170 | a rejected form (no selection, empty name, value < 0, weight ≤ 0) changes nothing; otherwise the note is appended to the selected subject, the form is reset, the selection is cleared, and admissible notes stay admissible |
| Gestor.GestorAsignaturas.GuardarEdicionNota | components/gestor-asignaturas.tsx:173-201 | the subjects become `ConNotaEditada`; the edit mode is closed and the form is reset |
| Gestor.GestorAsignaturas.EliminarNota | components/gestor-asignaturas.tsx:204-216 | the subjects become `SinNota`; nothing else changes |
| Gestor.GestorAsignaturas.ActualizarAsignatura | components/gestor-asignaturas.tsx:725-727 | the `onUpdate` callback stores the updated subject in place of the one with its id |
| Objetivos.NotaRestante | components/objetivos-asignatura.tsx:122-123 | the hypothetical last note carries exactly the remaining weight, so the weights reach 100 |
| Objetivos.MediaFinalEsMedia | components/objetivos-asignatura.tsx:122-123 | the final average formula is the weighted average of the notes plus that last note |
| Objetivos.NotaNecesaria | components/objetivos-asignatura.tsx:112-126 | target for no notes; `null` once weights ≥ 100; otherwise `null` iff the raw needed grade > 10; a non-null result for a non-empty list lies in [0, 10] |
| Objetivos.NotaNecesariaAlcanzaObjetivo | components/objetivos-asignatura.tsx:122-125 | round trip: a positive needed grade r gives a final average of exactly the target; r = 0 gives a final average ≥ the target |
| Objetivos.NotaNecesariaEsMinima | components/objetivos-asignatura.tsx:122-125 | every grade ≥ 0 that reaches the target is ≥ the needed grade |
| Objetivos.NotaNecesariaInalcanzable | components/objetivos-asignatura.tsx:118-125 | `null` with weight still open means even a 10 on all of it falls short of the target |
| Objetivos.NuevoObjetivo | components/objetivos-asignatura.tsx:72-77 | a new objective is completed from the start iff the current average ≥ its target |
| Objetivos.ConCompletado | components/objetivos-asignatura.tsx:104-106 | only the objectives with the id change, and only in their flag |
| Objetivos.ConCompletadoEfecto | components/objetivos-asignatura.tsx:266-277 | marking keeps description and target; once marked, "Completar" is not offered; once unmarked, it is offered iff average ≥ target |
| Objetivos.NuevoObjetivoNoOfreceCompletar | components/objetivos-asignatura.tsx:266 | a freshly added objective never offers "Completar" at the average it was created with |
| Objetivos.ObjetivosAsignatura.Actual | components/gestor-asignaturas.tsx:724 | the dialog's subject is the first stored subject with the dialog's id |
| Objetivos.ObjetivosAsignatura.constructor | components/objetivos-asignatura.tsx:51-54 | the dialog opens on an existing subject with the form at description "" and target 5 |
| Objetivos.ObjetivosAsignatura.Actualizar | components/objetivos-asignatura.tsx:84 | `onUpdate(a)` stores `a`, and the dialog then shows `a` |
| Objetivos.ObjetivosAsignatura.InicializarObjetivos | components/objetivos-asignatura.tsx:41-49 | a subject without `objetivos` gets an empty list; a subject with one is left untouched |
| Objetivos.ObjetivosAsignatura.AnadirObjetivo | components/objetivos-asignatura.tsx:69-89 | empty description: nothing changes; otherwise one objective is appended to the (possibly absent) list and the form is reset |
| Objetivos.ObjetivosAsignatura.EliminarObjetivo | components/objetivos-asignatura.tsx:92-98 | the subject's objectives become the filtered list: exactly the others, in order |
| Objetivos.ObjetivosAsignatura.MarcarComoCompletado | components/objetivos-asignatura.tsx:101-109 | the subject's objectives become `ConCompletado`: only the flags of the matching objectives change |

## Left out

- Calificaciones.MediaPonderada: requires a non-empty list's weights not to sum to 0. The source then divides by zero and gets NaN or ±Infinity; IEEE doubles are not modelled. Every note added through the guarded form keeps this true (`AdmisiblesPromediables`), but an edit can break it (`EdicionPuedeAnularPesos`).
- Estadisticas.DeterminarEstado: carries the same requirement, because it reads the average.
- Objetivos.ObjetivosAsignatura.AnadirObjetivo: carries the same requirement for the average that sets `completado`.
- Objetivos.ObjetivosAsignatura: requires the dialog's subject to exist. The page looks it up with `find(...)!` and would fail on a missing id.
- Floating point: all numbers are exact reals. Rounding of the sums, `toFixed` and `Number(...)` parsing of the inputs are not modelled.
- Browser storage: the effects that load and save the subject list, and the JSON export, are left out as I/O. The class starts from an empty list.
- Random colours and time-based ids: `generarColorAleatorio` and `Date.now()` are replaced by caller-supplied parameters.
- Presentation: the rendering, the dialogs, progress bars and colours. The handlers that only fill a form or open a dialog (`iniciarEdicionAsignatura`, `iniciarEdicionNota`, `abrirEstadisticas`, `abrirObjetivos`, the inputs' `onChange`) are left out too; the form fields are public fields that a caller sets directly.
- The statistics dialog receives the subject found by `find(...)!`. Its functions take that subject's notes directly.
- Gestor.GestorAsignaturas.GuardarEdicionNota: the test `nuevaNota.valor !== undefined` is always true in the model, because the form always holds numbers.
- app/page.tsx, app/not-found.tsx, the dashboard page and the login page: static markup, or a separate ad-hoc form that does not share this code. They are not part of this model.
