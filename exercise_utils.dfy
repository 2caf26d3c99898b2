/**
 * utils/exerciseUtils.ts: MongoDB id comparison, the rest-entry test and the
 * count of real (non-rest) exercises around a cursor in a workout.
 */
module ExerciseUtils {
  import opened Wrappers
  import opened JsValues

  /** The four stages of a workout session. */
  datatype Etapa = Inicio | Activo | Descanso | Fin

  /** The string each stage is at run time. */
  function EtapaName(e: Etapa): string
  {
    match e
    case Inicio => "INICIO"
    case Activo => "ACTIVO"
    case Descanso => "DESCANSO"
    case Fin => "FIN"
  }

  /** The stage a run-time string denotes, if any. */
  function ParseEtapa(s: string): (r: Option<Etapa>)
    ensures r.Some? ==> EtapaName(r.value) == s
  {
    if s == "INICIO" then Some(Inicio)
    else if s == "ACTIVO" then Some(Activo)
    else if s == "DESCANSO" then Some(Descanso)
    else if s == "FIN" then Some(Fin)
    else None
  }

  /** Every stage is recognised from its own name. */
  lemma ParseEtapaName(e: Etapa)
    ensures ParseEtapa(EtapaName(e)) == Some(e)
  {
  }

  /** The id of the rest exercise in the database. */
  const DESCANSO_ID: string := "67bc1a7372e1e0091651e944"

  /** The inner `getId` of `compareMongoIds`: the trimmed text of an id or of an object's `_id`. */
  function GetId(v: JsValue): (r: string)
    ensures !Truthy(v) ==> r == ""
    ensures v.Obj? && !Truthy(v.id) ==> r == ""
    ensures Trim(r) == r
  {
    if !Truthy(v) then ""
    else if v.Obj? then (if Truthy(v.id) then TrimIdempotent(JsString(v.id)); Trim(JsString(v.id)) else "")
    else TrimIdempotent(JsString(v)); Trim(JsString(v))
  }

  /** `compareMongoIds`: the two normalised ids compared with `===`. */
  function CompareMongoIds(id1: JsValue, id2: JsValue): bool
  {
    StrictEquals(GetId(id1), GetId(id2))
  }

  /** compareMongoIds holds exactly when the two normalised ids are the same text. */
  lemma CompareMongoIdsMeaning(a: JsValue, b: JsValue)
    ensures CompareMongoIds(a, b) <==> GetId(a) == GetId(b)
  {
    StrictEqualsIsEquality(GetId(a), GetId(b));
  }

  /** compareMongoIds is reflexive, symmetric and transitive. */
  lemma CompareMongoIdsEquivalence(a: JsValue, b: JsValue, c: JsValue)
    ensures CompareMongoIds(a, a)
    ensures CompareMongoIds(a, b) == CompareMongoIds(b, a)
    ensures CompareMongoIds(a, b) && CompareMongoIds(b, c) ==> CompareMongoIds(a, c)
  {
    CompareMongoIdsMeaning(a, a);
    CompareMongoIdsMeaning(a, b);
    CompareMongoIdsMeaning(b, a);
    CompareMongoIdsMeaning(b, c);
    CompareMongoIdsMeaning(a, c);
  }

  /** Falsy values and objects without a truthy `_id` all normalise to "" and so compare equal. */
  lemma MissingIdsCompareEqual(a: JsValue, b: JsValue)
    requires !Truthy(a) || (a.Obj? && !Truthy(a.id))
    requires !Truthy(b) || (b.Obj? && !Truthy(b.id))
    ensures GetId(a) == "" && CompareMongoIds(a, b)
  {
    CompareMongoIdsMeaning(a, b);
  }

  /** Leading and trailing white space around a string id is ignored. */
  lemma CompareIgnoresWhitespace(w1: string, s: string, w2: string)
    requires AllSpace(w1) && AllSpace(w2)
    ensures CompareMongoIds(Str(w1 + s + w2), Str(s))
  {
    TrimPadded(w1, s, w2);
    CompareMongoIdsMeaning(Str(w1 + s + w2), Str(s));
    if s == "" {
      assert w1 + s + w2 == w1 + w2;
      assert Trim(w1 + w2) == Trim("");
    }
  }

  /** An object is compared through the text of its `_id`. */
  lemma CompareObjectById(id: JsValue, ejercicioId: JsValue, display: string)
    requires Truthy(id) && !id.Obj?
    ensures CompareMongoIds(Obj(id, ejercicioId, display), id)
  {
    CompareMongoIdsMeaning(Obj(id, ejercicioId, display), id);
  }

  /** DESCANSO_ID has no surrounding white space, so it is its own normalised id. */
  lemma DescansoIdNormalised()
    ensures GetId(Str(DESCANSO_ID)) == DESCANSO_ID
  {
    TrimUnpadded(DESCANSO_ID);
  }

  /** `isRestExercise`: an entry's `ejercicioId` (or the value itself) compared with DESCANSO_ID. */
  function IsRestExercise(ejercicio: JsValue): bool
  {
    if !Truthy(ejercicio) then false
    else
      var id := if ejercicio.Obj? && Truthy(ejercicio.ejercicioId) then ejercicio.ejercicioId else ejercicio;
      CompareMongoIds(id, Str(DESCANSO_ID))
  }

  /**
   * isRestExercise is false for falsy input; otherwise it looks at
   * `ejercicioId` when that is truthy, else at the value itself, and holds
   * exactly when that id normalises to DESCANSO_ID.
   */
  lemma IsRestExerciseMeaning(v: JsValue)
    ensures !Truthy(v) ==> !IsRestExercise(v)
    ensures v.Obj? && Truthy(v.ejercicioId) ==> (IsRestExercise(v) <==> GetId(v.ejercicioId) == DESCANSO_ID)
    ensures Truthy(v) && !(v.Obj? && Truthy(v.ejercicioId)) ==> (IsRestExercise(v) <==> GetId(v) == DESCANSO_ID)
  {
    DescansoIdNormalised();
    if Truthy(v) {
      var id := if v.Obj? && Truthy(v.ejercicioId) then v.ejercicioId else v;
      CompareMongoIdsMeaning(id, Str(DESCANSO_ID));
    }
  }

  /** One entry of a workout: its own `_id`, the exercise it refers to and its duration in seconds. */
  datatype Entry = Entry(id: JsValue, ejercicioId: JsValue, tiempo: int)

  /** A workout: its name and its sequence of entries. */
  datatype Workout = Workout(nombre: string, ejercicios: seq<Entry>)

  /** The entry as the JavaScript object the helpers receive. */
  function EntryObject(e: Entry): JsValue
  {
    Obj(e.id, e.ejercicioId, "[object Object]")
  }

  /** `ejercicioId.toString()` does not throw. */
  predicate Stringable(e: Entry)
  {
    e.ejercicioId != Undefined && e.ejercicioId != Null
  }

  predicate AllStringable(es: seq<Entry>)
  {
    forall i :: 0 <= i < |es| ==> Stringable(es[i])
  }

  /** The test calculateRealExercises applies: `ejercicioId.toString() !== DESCANSO_ID`. */
  predicate IsRealEntry(e: Entry)
  {
    !StrictEquals(JsString(e.ejercicioId), DESCANSO_ID)
  }

  /** The real entries of a sequence, in order. */
  function Reales(es: seq<Entry>): (r: seq<Entry>)
    ensures |r| <= |es|
  {
    if es == [] then []
    else Reales(es[..|es| - 1]) + (if IsRealEntry(es[|es| - 1]) then [es[|es| - 1]] else [])
  }

  /** The real entries of a prefix are a prefix of the real entries. */
  lemma {:induction false} RealesOfPrefix(es: seq<Entry>, k: nat)
    requires k <= |es|
    ensures Reales(es[..k]) <= Reales(es)
  {
    if k < |es| {
      var init := es[..|es| - 1];
      assert init[..k] == es[..k];
      RealesOfPrefix(init, k);
    } else {
      assert es[..k] == es;
    }
  }

  /** Extending a prefix by one entry adds that entry exactly when it is real. */
  lemma RealesStep(es: seq<Entry>, k: nat)
    requires k < |es|
    ensures Reales(es[..k + 1]) == Reales(es[..k]) + (if IsRealEntry(es[k]) then [es[k]] else [])
  {
    assert es[..k + 1][..k] == es[..k];
  }

  /** The number of real entries in a prefix grows by one exactly at a real entry. */
  lemma CountStep(es: seq<Entry>, k: nat)
    requires k < |es|
    ensures |Reales(es[..k + 1])| == |Reales(es[..k])| + (if IsRealEntry(es[k]) then 1 else 0)
  {
    RealesStep(es, k);
  }

  /** The five values calculateRealExercises returns. */
  datatype RealExercises = RealExercises(
    ejerciciosReales: seq<Entry>,
    indiceReal: nat,
    totalEjerciciosReales: nat,
    siguienteEsDescanso: bool,
    siguienteIndiceReal: nat)

  /** The number of entries the counting loop visits: the cursor, or none when it is negative. */
  function Visited(currentIndex: int): nat
  {
    if currentIndex < 0 then 0 else currentIndex
  }

  /**
   * The inputs on which calculateRealExercises throws a TypeError: an id
   * without toString, a cursor past the end, or a negative cursor that still
   * has a next entry (reading `ejercicios[-1]` yields undefined).
   */
  predicate Throws(es: seq<Entry>, currentIndex: int)
  {
    !AllStringable(es) || currentIndex > |es| || (currentIndex < 0 && currentIndex + 1 < |es|)
  }

  /** There is an entry after the cursor. */
  predicate HasNext(es: seq<Entry>, currentIndex: int)
  {
    0 <= currentIndex && currentIndex + 1 < |es|
  }

  /** The real entries before the cursor. */
  function RealBefore(es: seq<Entry>, currentIndex: int): nat
    requires currentIndex <= |es|
  {
    |Reales(es[..Visited(currentIndex)])|
  }

  /** `siguienteIndiceReal`: one past indiceReal unless a real exercise is followed by a rest. */
  function NextRealIndex(es: seq<Entry>, currentIndex: int): nat
    requires currentIndex <= |es|
  {
    if !HasNext(es, currentIndex) then 0
    else if !IsRealEntry(es[currentIndex]) || IsRealEntry(es[currentIndex + 1]) then RealBefore(es, currentIndex) + 1
    else RealBefore(es, currentIndex)
  }

  /** What calculateRealExercises computes, stated declaratively. */
  function RealExercisesOf(w: Option<Workout>, currentIndex: int): Result<RealExercises, JsError>
  {
    if w.None? then Ok(RealExercises([], 0, 0, false, 0))
    else if Throws(w.value.ejercicios, currentIndex) then Err(TypeError)
    else
      var es := w.value.ejercicios;
      Ok(RealExercises(Reales(es), RealBefore(es, currentIndex), |Reales(es)|,
                       HasNext(es, currentIndex) && !IsRealEntry(es[currentIndex + 1]),
                       NextRealIndex(es, currentIndex)))
  }

  /**
   * The counting loop of calculateRealExercises: how many of the entries
   * before the cursor are real. Reading `ejercicios[i]` past the end yields
   * undefined, and its `ejercicioId` throws.
   */
  method CountRealBefore(es: seq<Entry>, currentIndex: int) returns (r: Result<nat, JsError>)
    ensures r.Err? <==> currentIndex > |es|
    ensures r.Ok? ==> r.value == RealBefore(es, currentIndex)
  {
    var realIndex := 0;
    var i := 0;
    while i < currentIndex
      invariant 0 <= i <= |es| && i <= Visited(currentIndex)
      invariant realIndex == |Reales(es[..i])|
    {
      if i >= |es| {
        // ejercicios[i] is undefined
        return Err(TypeError);
      }
      CountStep(es, i);
      if IsRealEntry(es[i]) {
        realIndex := realIndex + 1;
      }
      i := i + 1;
    }
    return Ok(realIndex);
  }

  /** calculateRealExercises. */
  method CalculateRealExercises(selectedEntrenamiento: Option<Workout>, currentIndex: int)
    returns (r: Result<RealExercises, JsError>)
    ensures r == RealExercisesOf(selectedEntrenamiento, currentIndex)
  {
    if selectedEntrenamiento.None? {
      return Ok(RealExercises([], 0, 0, false, 0));
    }
    var es := selectedEntrenamiento.value.ejercicios;
    // The filter calls toString on every entry's ejercicioId.
    if !AllStringable(es) {
      return Err(TypeError);
    }
    var reales := Reales(es);

    var counted := CountRealBefore(es, currentIndex);
    if counted.Err? {
      return Err(TypeError);
    }
    var realIndex := counted.value;
    var nextRealIndex := 0;
    var isNextRestPeriod := false;

    if currentIndex + 1 < |es| {
      if currentIndex < 0 {
        // ejercicios[currentIndex] (or ejercicios[currentIndex + 1]) is undefined
        return Err(TypeError);
      }
      isNextRestPeriod := !IsRealEntry(es[currentIndex + 1]);
      nextRealIndex := realIndex;
      var currentIsRest := !IsRealEntry(es[currentIndex]);
      if !isNextRestPeriod && !currentIsRest {
        nextRealIndex := realIndex + 1;
      } else if currentIsRest {
        nextRealIndex := realIndex + 1;
      }
    }
    return Ok(RealExercises(reales, realIndex, |reales|, isNextRestPeriod, nextRealIndex));
  }

  /**
   * Bounds on a successful result: indiceReal never exceeds the cursor nor the
   * total; at the last entry the next-entry fields are false and 0; otherwise
   * siguienteIndiceReal is indiceReal or indiceReal + 1.
   */
  lemma RealExercisesBounds(w: Option<Workout>, currentIndex: int)
    requires RealExercisesOf(w, currentIndex).Ok?
    ensures var r := RealExercisesOf(w, currentIndex).value;
      && r.totalEjerciciosReales == |r.ejerciciosReales|
      && r.indiceReal <= r.totalEjerciciosReales
      && r.indiceReal <= Visited(currentIndex)
      && (w.None? || currentIndex + 1 >= |w.value.ejercicios| ==> !r.siguienteEsDescanso && r.siguienteIndiceReal == 0)
      && (w.Some? && currentIndex + 1 < |w.value.ejercicios| ==>
            r.siguienteIndiceReal == r.indiceReal || r.siguienteIndiceReal == r.indiceReal + 1)
  {
    if w.Some? {
      var es := w.value.ejercicios;
      RealesOfPrefix(es, Visited(currentIndex));
    }
  }

  /** With no workout every field is empty, zero or false. */
  lemma NoWorkout(currentIndex: int)
    ensures RealExercisesOf(None, currentIndex) == Ok(RealExercises([], 0, 0, false, 0))
  {
  }

  /**
   * When the cursor is on a real exercise, indiceReal is that exercise's
   * 0-based position among the real ones.
   */
  lemma IndiceRealLocatesCurrent(wk: Workout, currentIndex: int)
    requires 0 <= currentIndex < |wk.ejercicios| && AllStringable(wk.ejercicios)
    requires IsRealEntry(wk.ejercicios[currentIndex])
    ensures var r := RealExercisesOf(Some(wk), currentIndex).value;
      r.indiceReal < r.totalEjerciciosReales && r.ejerciciosReales[r.indiceReal] == wk.ejercicios[currentIndex]
  {
    var es := wk.ejercicios;
    RealesStep(es, currentIndex);
    RealesOfPrefix(es, currentIndex + 1);
  }

  /**
   * During a rest followed by a real exercise, siguienteIndiceReal is the
   * 1-based position of that next exercise among the real ones.
   */
  lemma SiguienteIndiceAfterRest(wk: Workout, currentIndex: int)
    requires 0 <= currentIndex && currentIndex + 1 < |wk.ejercicios| && AllStringable(wk.ejercicios)
    requires !IsRealEntry(wk.ejercicios[currentIndex]) && IsRealEntry(wk.ejercicios[currentIndex + 1])
    ensures var r := RealExercisesOf(Some(wk), currentIndex).value;
      1 <= r.siguienteIndiceReal <= r.totalEjerciciosReales
      && r.ejerciciosReales[r.siguienteIndiceReal - 1] == wk.ejercicios[currentIndex + 1]
  {
    var es := wk.ejercicios;
    RealesStep(es, currentIndex);
    RealesStep(es, currentIndex + 1);
    RealesOfPrefix(es, currentIndex + 2);
  }

  /**
   * The two rest tests of this file agree on an entry whose `ejercicioId` is
   * a string without surrounding white space.
   */
  lemma RestTestsAgreeOnPlainIds(e: Entry)
    requires e.ejercicioId.Str? && e.ejercicioId.s != "" && Trim(e.ejercicioId.s) == e.ejercicioId.s
    ensures IsRestExercise(EntryObject(e)) <==> !IsRealEntry(e)
  {
    var s := e.ejercicioId.s;
    IsRestExerciseMeaning(EntryObject(e));
    assert GetId(e.ejercicioId) == s;
    StrictEqualsIsEquality(s, DESCANSO_ID);
  }

  /**
   * They disagree on a populated entry: an `ejercicioId` object whose `_id`
   * is DESCANSO_ID is a rest for isRestExercise but a real exercise for
   * calculateRealExercises, which compares the object's own text.
   */
  lemma RestTestsDisagreeOnPopulatedIds()
    ensures var e := Entry(Str("x"), Obj(Str(DESCANSO_ID), Undefined, "[object Object]"), 30);
      IsRestExercise(EntryObject(e)) && IsRealEntry(e)
  {
    var e := Entry(Str("x"), Obj(Str(DESCANSO_ID), Undefined, "[object Object]"), 30);
    TrimUnpadded(DESCANSO_ID);
    assert GetId(e.ejercicioId) == DESCANSO_ID;
    IsRestExerciseMeaning(EntryObject(e));
    assert JsString(e.ejercicioId)[0] != DESCANSO_ID[0];
  }
}
