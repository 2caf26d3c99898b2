/**
 * components/entrenar/ExerciseStageManager.tsx: the component that picks the
 * screen for the current stage of a workout and computes the figures those
 * screens show (next entry, total time, total calories).
 */
module StageManager {
  import opened Wrappers
  import opened JsValues
  import opened ExerciseUtils
  import ProgressCircular

  /** `selectedEntrenamiento?.ejercicios[indiceEjercicio]`: undefined outside the sequence. */
  function EjercicioActual(w: Option<Workout>, indiceEjercicio: int): Option<Entry>
  {
    if w.Some? && 0 <= indiceEjercicio < |w.value.ejercicios| then Some(w.value.ejercicios[indiceEjercicio]) else None
  }

  /** `proximoEjercicioData`: the entry after the cursor when `indiceEjercicio + 1` is below the length. */
  function ProximoEjercicio(w: Option<Workout>, indiceEjercicio: int): Option<Entry>
  {
    if w.Some? && indiceEjercicio + 1 < |w.value.ejercicios| then
      if indiceEjercicio + 1 >= 0 then Some(w.value.ejercicios[indiceEjercicio + 1]) else None
    else None
  }

  /** The next entry is the current entry of the following position, and is absent at the last entry. */
  lemma ProximoIsFollowingEntry(w: Option<Workout>, indiceEjercicio: int)
    ensures ProximoEjercicio(w, indiceEjercicio) == EjercicioActual(w, indiceEjercicio + 1)
    ensures w.Some? && indiceEjercicio == |w.value.ejercicios| - 1 ==> ProximoEjercicio(w, indiceEjercicio).None?
  {
  }

  /** The total duration of a sequence of entries. */
  function SumTiempo(es: seq<Entry>): int
  {
    if es == [] then 0 else es[0].tiempo + SumTiempo(es[1..])
  }

  /** `ejercicios.reduce((acc, curr) => acc + curr.tiempo, acc)`, left to right. */
  function ReduceTiempo(acc: int, es: seq<Entry>): int
    decreases |es|
  {
    if es == [] then acc else ReduceTiempo(acc + es[0].tiempo, es[1..])
  }

  /** The reduction adds the total duration to its seed. */
  lemma {:induction false} ReduceTiempoIsSum(acc: int, es: seq<Entry>)
    ensures ReduceTiempo(acc, es) == acc + SumTiempo(es)
    decreases |es|
  {
    if es != [] {
      ReduceTiempoIsSum(acc + es[0].tiempo, es[1..]);
    }
  }

  /** `tiempoTotal`: the reduction, or 0 when there is no workout (`|| 0`). */
  function TiempoTotal(w: Option<Workout>): int
  {
    match w
    case None => 0
    case Some(wk) => var s := ReduceTiempo(0, wk.ejercicios); if s != 0 then s else 0
  }

  /** tiempoTotal is the sum of the durations of all entries, rest entries included. */
  lemma TiempoTotalIsSum(w: Option<Workout>)
    ensures TiempoTotal(w) == if w.None? then 0 else SumTiempo(w.value.ejercicios)
  {
    if w.Some? {
      ReduceTiempoIsSum(0, w.value.ejercicios);
    }
  }

  /** The rest test the calorie reduction applies to each entry: `isRestExercise(curr)`. */
  predicate IsRestEntry(e: Entry)
  {
    IsRestExercise(EntryObject(e))
  }

  /** The entries the calorie count looks at: those the rest test rejects, in order. */
  function NoRest(es: seq<Entry>, isRest: Entry -> bool): (r: seq<Entry>)
    ensures |r| <= |es|
  {
    if es == [] then []
    else (if isRest(es[0]) then [] else [es[0]]) + NoRest(es[1..], isRest)
  }

  /** The calories of a sequence of entries, `calories` giving those of one entry. */
  function SumCalorias(es: seq<Entry>, calories: Entry -> int): int
  {
    if es == [] then 0 else calories(es[0]) + SumCalorias(es[1..], calories)
  }

  /**
   * The `caloriasTotales` reduction, `isRest` being its rest test. A rest
   * entry adds nothing. Any other entry reads `ejercicioId.caloriasPorSegundo`,
   * which throws when `ejercicioId` is undefined or null; `calories` stands
   * for the rounded product the entry then contributes.
   */
  function ReduceCalorias(acc: int, es: seq<Entry>, isRest: Entry -> bool, calories: Entry -> int)
    : Result<int, JsError>
    decreases |es|
  {
    if es == [] then Ok(acc)
    else if isRest(es[0]) then ReduceCalorias(acc, es[1..], isRest, calories)
    else if !Stringable(es[0]) then Err(TypeError)
    else ReduceCalorias(acc + calories(es[0]), es[1..], isRest, calories)
  }

  /** A sequence with a head has all of its `ejercicioId`s exactly when the head and the tail do. */
  lemma AllStringableCons(e: Entry, es: seq<Entry>)
    ensures AllStringable([e] + es) <==> Stringable(e) && AllStringable(es)
  {
    if Stringable(e) && AllStringable(es) {
      forall i | 0 <= i < |[e] + es|
        ensures Stringable(([e] + es)[i])
      {
        if i > 0 {
          assert ([e] + es)[i] == es[i - 1];
        }
      }
    }
    if AllStringable([e] + es) {
      assert ([e] + es)[0] == e;
      forall i | 0 <= i < |es|
        ensures Stringable(es[i])
      {
        assert es[i] == ([e] + es)[i + 1];
      }
    }
  }

  /**
   * The reduction fails exactly when some non-rest entry has no `ejercicioId`,
   * and otherwise adds the calories of the non-rest entries to its seed.
   */
  lemma {:induction false} ReduceCaloriasIsSum(acc: int, es: seq<Entry>, isRest: Entry -> bool, calories: Entry -> int)
    ensures ReduceCalorias(acc, es, isRest, calories).Ok? <==> AllStringable(NoRest(es, isRest))
    ensures ReduceCalorias(acc, es, isRest, calories).Ok? ==>
              ReduceCalorias(acc, es, isRest, calories).value == acc + SumCalorias(NoRest(es, isRest), calories)
    decreases |es|
  {
    if es != [] {
      var e, rest := es[0], es[1..];
      if isRest(e) {
        assert ReduceCalorias(acc, es, isRest, calories) == ReduceCalorias(acc, rest, isRest, calories);
        assert NoRest(es, isRest) == NoRest(rest, isRest);
        ReduceCaloriasIsSum(acc, rest, isRest, calories);
      } else {
        assert NoRest(es, isRest) == [e] + NoRest(rest, isRest);
        AllStringableCons(e, NoRest(rest, isRest));
        if Stringable(e) {
          assert ReduceCalorias(acc, es, isRest, calories)
              == ReduceCalorias(acc + calories(e), rest, isRest, calories);
          assert SumCalorias(NoRest(es, isRest), calories)
              == calories(e) + SumCalorias(NoRest(rest, isRest), calories) by {
            assert ([e] + NoRest(rest, isRest))[1..] == NoRest(rest, isRest);
          }
          ReduceCaloriasIsSum(acc + calories(e), rest, isRest, calories);
        } else {
          assert ReduceCalorias(acc, es, isRest, calories).Err?;
        }
      }
    }
  }

  /** `caloriasTotales`: 0 without a workout, otherwise the reduction seeded with 0. */
  function CaloriasTotales(w: Option<Workout>, calories: Entry -> int): Result<int, JsError>
  {
    match w
    case None => Ok(0)
    case Some(wk) => ReduceCalorias(0, wk.ejercicios, IsRestEntry, calories)
  }

  /** caloriasTotales sums the calories of the non-rest entries, or throws when one lacks `ejercicioId`. */
  lemma CaloriasTotalesIsSum(w: Option<Workout>, calories: Entry -> int)
    ensures w.None? ==> CaloriasTotales(w, calories) == Ok(0)
    ensures w.Some? ==> (CaloriasTotales(w, calories).Ok? <==> AllStringable(NoRest(w.value.ejercicios, IsRestEntry)))
    ensures w.Some? && CaloriasTotales(w, calories).Ok? ==>
              CaloriasTotales(w, calories).value == SumCalorias(NoRest(w.value.ejercicios, IsRestEntry), calories)
  {
    if w.Some? {
      ReduceCaloriasIsSum(0, w.value.ejercicios, IsRestEntry, calories);
    }
  }

  /** An entry the rest test accepts, appended at the end, leaves the reduction unchanged. */
  lemma {:induction false} ReduceCaloriasSkipsRest(acc: int, es: seq<Entry>, rest: Entry, isRest: Entry -> bool,
                                                   calories: Entry -> int)
    requires isRest(rest)
    ensures ReduceCalorias(acc, es + [rest], isRest, calories) == ReduceCalorias(acc, es, isRest, calories)
    decreases |es|
  {
    if es == [] {
      assert ([] + [rest])[1..] == [];
    } else {
      assert (es + [rest])[0] == es[0];
      assert (es + [rest])[1..] == es[1..] + [rest];
      if !isRest(es[0]) && Stringable(es[0]) {
        ReduceCaloriasSkipsRest(acc + calories(es[0]), es[1..], rest, isRest, calories);
      } else if isRest(es[0]) {
        ReduceCaloriasSkipsRest(acc, es[1..], rest, isRest, calories);
      }
    }
  }

  /** Appending a rest entry to a workout changes neither its calories nor whether counting them throws. */
  lemma RestEntriesBurnNothing(nombre: string, es: seq<Entry>, rest: Entry, calories: Entry -> int)
    requires IsRestExercise(EntryObject(rest))
    ensures CaloriasTotales(Some(Workout(nombre, es + [rest])), calories)
         == CaloriasTotales(Some(Workout(nombre, es)), calories)
  {
    ReduceCaloriasSkipsRest(0, es, rest, IsRestEntry, calories);
  }

  /** `layoutSize`. */
  datatype Layout = Layout(width: real, height: real)

  /** The props of ExerciseStageManager that decide what it renders (the callbacks are left out). */
  datatype StageProps = StageProps(
    etapaActual: string,
    selectedEntrenamiento: Option<Workout>,
    indiceEjercicio: int,
    indiceReal: int,
    totalEjerciciosReales: int,
    siguienteIndiceReal: int,
    tiempoMs: int,
    tiempoMaximoActual: int,
    pausa: bool,
    layoutSize: Layout,
    isLoadingApi: bool)

  /** The screen rendered, with the props that are passed to it. */
  datatype Screen =
    | InicioScreen(nombreEntrenamiento: string, totalEjercicios: int, tiempoEstimado: int)
    | ActivoScreen(ejercicio: JsValue, tiempoMaximo: real, tiempoTranscurrido: real, pausa: bool,
                   totalEjercicios: int, indiceEjercicio: int, pauseDisabled: bool,
                   progressWidth: real, progressHeight: real)
    | DescansoScreen(tiempoRestanteMs: int, proximoEjercicio: Option<Entry>, totalEjercicios: int, indiceEjercicio: int)
    | FinScreen(nombreEntrenamiento: string, tiempoTotal: int, caloriasTotales: int)

  /** ACTIVO renders nothing until the layout has a positive width and height. */
  predicate LayoutReady(l: Layout)
  {
    l.width > 0.0 && l.height > 0.0
  }

  /**
   * One render of ExerciseStageManager: the memoised values are computed first
   * (only the calorie count can throw), then the stage selects the screen.
   * INICIO and FIN read `selectedEntrenamiento.nombre`; ACTIVO reads
   * `ejercicioActualData.ejercicioId.imagen`; an unknown stage renders nothing.
   */
  function Render(p: StageProps, calories: Entry -> int): (r: Result<Option<Screen>, JsError>)
    ensures r.Err? <==>
      || CaloriasTotales(p.selectedEntrenamiento, calories).Err?
      || (ParseEtapa(p.etapaActual) in {Some(Inicio), Some(Fin)} && p.selectedEntrenamiento.None?)
      || (ParseEtapa(p.etapaActual) == Some(Activo) && LayoutReady(p.layoutSize)
          && (EjercicioActual(p.selectedEntrenamiento, p.indiceEjercicio).None?
              || !Stringable(EjercicioActual(p.selectedEntrenamiento, p.indiceEjercicio).value)))
    ensures r.Ok? ==>
      (r.value.None? <==>
        (ParseEtapa(p.etapaActual).None? || (ParseEtapa(p.etapaActual) == Some(Activo) && !LayoutReady(p.layoutSize))))
    ensures r.Ok? && r.value.Some? ==>
      && (r.value.value.InicioScreen? <==> ParseEtapa(p.etapaActual) == Some(Inicio))
      && (r.value.value.ActivoScreen? <==> ParseEtapa(p.etapaActual) == Some(Activo))
      && (r.value.value.DescansoScreen? <==> ParseEtapa(p.etapaActual) == Some(Descanso))
      && (r.value.value.FinScreen? <==> ParseEtapa(p.etapaActual) == Some(Fin))
  {
    var w := p.selectedEntrenamiento;
    var calorias := CaloriasTotales(w, calories);
    if calorias.Err? then Err(TypeError)
    else
      match ParseEtapa(p.etapaActual)
      case None => Ok(None)
      case Some(Inicio) =>
        if w.None? then Err(TypeError)
        else Ok(Some(InicioScreen(w.value.nombre, p.totalEjerciciosReales, TiempoTotal(w))))
      case Some(Activo) =>
        if !LayoutReady(p.layoutSize) then Ok(None)
        else
          var actual := EjercicioActual(w, p.indiceEjercicio);
          if actual.None? || !Stringable(actual.value) then Err(TypeError)
          else
            Ok(Some(ActivoScreen(actual.value.ejercicioId, p.tiempoMaximoActual as real,
                                 p.tiempoMaximoActual as real - (p.tiempoMs as real) / 1000.0,
                                 p.pausa, p.totalEjerciciosReales, p.indiceReal, p.isLoadingApi,
                                 p.layoutSize.width, p.layoutSize.height * 0.5)))
      case Some(Descanso) =>
        Ok(Some(DescansoScreen(p.tiempoMs, ProximoEjercicio(w, p.indiceEjercicio),
                               p.totalEjerciciosReales, p.siguienteIndiceReal)))
      case Some(Fin) =>
        if w.None? then Err(TypeError)
        else Ok(Some(FinScreen(w.value.nombre, TiempoTotal(w), calorias.value)))
  }

  /**
   * During ACTIVO the circular countdown is left with exactly
   * tiempoMaximoActual * 1000 - tiempoMs milliseconds, and reports the time
   * as used up once tiempoMs reaches tiempoMaximoActual seconds.
   */
  lemma ActivoCountdown(p: StageProps, calories: Entry -> int)
    requires Render(p, calories).Ok? && Render(p, calories).value.Some?
    requires Render(p, calories).value.value.ActivoScreen?
    ensures var s := Render(p, calories).value.value;
      var readout := ProgressCircular.Render(s.tiempoMaximo, s.tiempoTranscurrido);
      && readout.remainingTimeMs == (p.tiempoMaximoActual * 1000 - p.tiempoMs) as real
      && readout.elapsedTimeMs == p.tiempoMs as real
      && (readout.tiempoAgotado <==> p.tiempoMs >= p.tiempoMaximoActual * 1000)
      && s.ejercicio == p.selectedEntrenamiento.value.ejercicios[p.indiceEjercicio].ejercicioId
  {
  }

  /** DESCANSO shows the remaining rest time, the following entry and the real position of the next exercise. */
  lemma DescansoShowsNext(p: StageProps, calories: Entry -> int)
    requires Render(p, calories).Ok? && Render(p, calories).value.Some?
    requires Render(p, calories).value.value.DescansoScreen?
    ensures Render(p, calories).value.value
         == DescansoScreen(p.tiempoMs, EjercicioActual(p.selectedEntrenamiento, p.indiceEjercicio + 1),
                           p.totalEjerciciosReales, p.siguienteIndiceReal)
  {
    ProximoIsFollowingEntry(p.selectedEntrenamiento, p.indiceEjercicio);
  }

  /**
   * INICIO and FIN show the sum of all durations; FIN also the calories of the
   * non-rest entries.
   */
  lemma SummaryScreens(p: StageProps, calories: Entry -> int)
    requires Render(p, calories).Ok? && Render(p, calories).value.Some?
    ensures var s := Render(p, calories).value.value;
      && (s.InicioScreen? ==> s.tiempoEstimado == SumTiempo(p.selectedEntrenamiento.value.ejercicios))
      && (s.FinScreen? ==>
            && s.tiempoTotal == SumTiempo(p.selectedEntrenamiento.value.ejercicios)
            && s.caloriasTotales == SumCalorias(NoRest(p.selectedEntrenamiento.value.ejercicios, IsRestEntry), calories))
  {
    TiempoTotalIsSum(p.selectedEntrenamiento);
    CaloriasTotalesIsSum(p.selectedEntrenamiento, calories);
  }
}
