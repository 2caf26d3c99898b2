# ledfit_front — a Dafny model of the workout core

ledfit_front is a React Native fitness app. A workout (`entrenamiento`) is a list
of entries, and each entry names an exercise (`ejercicioId`) and a duration
(`tiempo`). Rest periods are entries whose exercise id is the fixed rest id
`67bc1a7372e1e0091651e944`. This project models the logic that runs a workout and
proves what that logic guarantees. It also models the two helper scripts of the
repository.

Workout logic (`utils/exerciseUtils.ts`, module `ExerciseUtils`):
- The four stages of a workout (INICIO, ACTIVO, DESCANSO, FIN).
- The MongoDB id comparison, which trims and compares with `===`.
- The rest-exercise test.
- `calculateRealExercises`. It counts the real exercises before the cursor with a
  loop, which is modelled as a method and proved against a reference function. It
  also finds the real position of the next exercise.

The stage screen (`components/entrenar/ExerciseStageManager.tsx`, module `StageManager`):
- The current and next entry.
- The total duration and the total calories, both as reductions.
- The screen chosen for each stage, including the cases where the JavaScript throws
  a `TypeError` (modelled as an `Err` result).

Timers and formatting:
- The millisecond countdown hook `useExerciseTimer`, modelled as class `ExerciseTimer.Timer`.
- The 100 ms tick counter of `utilsEntrenamientos.ts`, modelled as class `UtilsEntrenamientos.TickTimer`.
- The three `m:ss` formatters, which all reduce to `Clock.MinutesSeconds`.
- The `mm:ss:cc` countdown read-out of `ProgressCircular`.

Small pure pieces:
- Badge colours and icons (`ItemLogro`).
- Card classes (`EntrenamientoCard`).
- The info chip (`ChipInfo`).
- The theme provider (`ThemeContext`), modelled as a class.

Scripts:
- `nombres_imagenes.py`: filters a directory listing by image extension and writes one root name per line.
- `codigo_to_txt.py`: concatenates every `.ts`/`.tsx`/`.js` file under some directories, stopping at the first error.

Shared modules:
- `Wrappers` holds `Option` and `Result`.
- `JsValues` models JavaScript values: truthiness, `String(v)`, `===` on strings, and
  `String.prototype.trim`. That `.toString()` throws on `undefined`/`null` is the
  predicate `ExerciseUtils.Stringable`.
- `Decimal` writes and reads decimal numerals.
- `Clock` holds JavaScript's truncating `%` and the `m:ss` formatter.

The model follows the code where the code and its comments differ.
- `ThemeContext.tsx` says that a `null` or `undefined` device theme means dark. The
  code tests `=== null` only, so `undefined` gives the light palette, and
  `ThemeContext.FollowDeviceMeaning` states that.
- The repository has two rest tests, and they disagree.
  - `isRestExercise` looks through a populated `ejercicioId` object to its `_id`.
  - `calculateRealExercises` compares `ejercicioId.toString()` with the rest id.
  - `ExerciseUtils.RestTestsAgreeOnPlainIds` proves that they agree on plain string ids.
  - `ExerciseUtils.RestTestsDisagreeOnPopulatedIds` exhibits a populated entry that
    one test calls a rest and the other a real exercise.
- `EntrenamientoCard` renders `tiempoTotal && <Text/>`, so a total of 0 yields the
  number 0 and not the text (`EntrenamientoCard.TimeShownUnlessZero`).
- With a negative total, the `m:ss` formatters produce texts such as `-1:0-5`
  (`Clock.MinutesSecondsNegative`).

## Model

| member | source | states |
|---|---|---|
| ExerciseUtils.ParseEtapa | utils/exerciseUtils.ts:5 | a parsed stage name is exactly the name of that stage |
| ExerciseUtils.ParseEtapaName | utils/exerciseUtils.ts:5 | each of the four stages is recovered from its name |
| ExerciseUtils.GetId | utils/exerciseUtils.ts:21-27 | the id text is already trimmed, so it carries no surrounding white space; a falsy id, and an object whose `_id` is falsy, give the empty string |
| ExerciseUtils.CompareMongoIds | utils/exerciseUtils.ts:19-33 | `compareMongoIds`; its meaning is stated by CompareMongoIdsMeaning and CompareMongoIdsEquivalence |
| ExerciseUtils.CompareMongoIdsMeaning | utils/exerciseUtils.ts:19-33 | two ids compare equal exactly when their trimmed id texts are equal |
| ExerciseUtils.CompareMongoIdsEquivalence | utils/exerciseUtils.ts:19-33 | the comparison is reflexive, symmetric and transitive |
| ExerciseUtils.MissingIdsCompareEqual | utils/exerciseUtils.ts:22-24 | any two missing ids (falsy, or an object without `_id`) compare equal, with id text "" |
| ExerciseUtils.CompareIgnoresWhitespace | utils/exerciseUtils.ts:24-26 | surrounding white space does not change the comparison |
| ExerciseUtils.CompareObjectById | utils/exerciseUtils.ts:23-25 | an object with a truthy `_id` compares equal to that id |
| ExerciseUtils.DescansoIdNormalised | utils/exerciseUtils.ts:10 | the rest id is its own trimmed text |
| ExerciseUtils.IsRestExercise | utils/exerciseUtils.ts:41-47 | `isRestExercise`; stated by IsRestExerciseMeaning |
| ExerciseUtils.IsRestExerciseMeaning | utils/exerciseUtils.ts:41-47 | falsy values are not rests; otherwise the value is a rest iff the id text of its truthy `ejercicioId`, or else of the value itself, is the rest id |
| ExerciseUtils.IsRealEntry | utils/exerciseUtils.ts:68 | the filter test `ejercicioId.toString() !== DESCANSO_ID`; compared with isRestExercise by RestTestsAgreeOnPlainIds and RestTestsDisagreeOnPopulatedIds |
| ExerciseUtils.Reales | utils/exerciseUtils.ts:67-69 | the filtered list is no longer than the workout |
| ExerciseUtils.RealesOfPrefix | utils/exerciseUtils.ts:67-69 | filtering a prefix gives a prefix of the filtered list |
| ExerciseUtils.RealesStep | utils/exerciseUtils.ts:67-69 | filtering one more entry appends that entry exactly when it is real |
| ExerciseUtils.CountStep | utils/exerciseUtils.ts:77-83 | one more loop step adds one exactly for a real entry |
| ExerciseUtils.CountRealBefore | utils/exerciseUtils.ts:72-83 | the counting loop throws exactly when the cursor runs past the end; otherwise it returns the number of real entries before the cursor |
| ExerciseUtils.RealExercisesOf | utils/exerciseUtils.ts:52-112 | the reference result of `calculateRealExercises`; stated by RealExercisesBounds, NoWorkout, IndiceRealLocatesCurrent and SiguienteIndiceAfterRest |
| ExerciseUtils.CalculateRealExercises | utils/exerciseUtils.ts:52-112 | the method computes the reference result: no workout, a throw on a bad entry, or the filtered list, its length, the real index and the next-entry fields |
| ExerciseUtils.RealExercisesBounds | utils/exerciseUtils.ts:86-110 | the total is the filtered length; indiceReal is at most the total and the visited count; at the last entry the next fields are false/0; otherwise siguienteIndiceReal is indiceReal or one more |
| ExerciseUtils.NoWorkout | utils/exerciseUtils.ts:56-64 | without a workout every field is empty, zero or false |
| ExerciseUtils.IndiceRealLocatesCurrent | utils/exerciseUtils.ts:67-83 | on a real exercise, indiceReal is its 0-based position among the real exercises |
| ExerciseUtils.SiguienteIndiceAfterRest | utils/exerciseUtils.ts:86-102 | in a rest followed by a real exercise, siguienteIndiceReal is that exercise's 1-based real position |
| ExerciseUtils.RestTestsAgreeOnPlainIds | utils/exerciseUtils.ts:41-47 | on a trimmed string id, isRestExercise holds exactly when calculateRealExercises's filter drops the entry |
| ExerciseUtils.RestTestsDisagreeOnPopulatedIds | utils/exerciseUtils.ts:67-69 | a populated `ejercicioId` object with the rest `_id` is a rest for isRestExercise but real for the filter |
| StageManager.EjercicioActual | components/entrenar/ExerciseStageManager.tsx:53-56 | the current entry, `undefined` without a workout or out of range; stated with ProximoEjercicio by ProximoIsFollowingEntry |
| StageManager.ProximoEjercicio | components/entrenar/ExerciseStageManager.tsx:58-64 | the next entry; stated by ProximoIsFollowingEntry |
| StageManager.ProximoIsFollowingEntry | components/entrenar/ExerciseStageManager.tsx:53-64 | the next entry is the entry at the following index, and there is none after the last entry |
| StageManager.ReduceTiempo | components/entrenar/ExerciseStageManager.tsx:68-71 | the duration `reduce`; stated by ReduceTiempoIsSum |
| StageManager.TiempoTotal | components/entrenar/ExerciseStageManager.tsx:66-73 | `tiempoTotal`; stated by TiempoTotalIsSum |
| StageManager.ReduceTiempoIsSum | components/entrenar/ExerciseStageManager.tsx:66-73 | the reduction adds every entry's duration to the accumulator |
| StageManager.TiempoTotalIsSum | components/entrenar/ExerciseStageManager.tsx:66-73 | the total duration is 0 without a workout and the sum of all durations otherwise |
| StageManager.NoRest | components/entrenar/ExerciseStageManager.tsx:78 | the non-rest entries are no more than all entries |
| StageManager.AllStringableCons | components/entrenar/ExerciseStageManager.tsx:79 | every entry is readable exactly when the head and the tail are |
| StageManager.ReduceCalorias | components/entrenar/ExerciseStageManager.tsx:77-85 | the calorie `reduce`, which throws on a non-rest entry without exercise; stated by ReduceCaloriasIsSum and ReduceCaloriasSkipsRest |
| StageManager.CaloriasTotales | components/entrenar/ExerciseStageManager.tsx:75-87 | `caloriasTotales`; stated by CaloriasTotalesIsSum and RestEntriesBurnNothing |
| StageManager.IsRestEntry | components/entrenar/ExerciseStageManager.tsx:78 | `isRestExercise(curr)`; stated by ExerciseUtils.IsRestExerciseMeaning |
| StageManager.ReduceCaloriasIsSum | components/entrenar/ExerciseStageManager.tsx:77-85 | the calorie reduction succeeds exactly when every non-rest entry can be read, and then it adds their calories to the accumulator |
| StageManager.CaloriasTotalesIsSum | components/entrenar/ExerciseStageManager.tsx:75-87 | the calories are 0 without a workout; otherwise the computation throws iff some non-rest entry has no exercise, and else it is the sum over the non-rest entries |
| StageManager.ReduceCaloriasSkipsRest | components/entrenar/ExerciseStageManager.tsx:78-84 | an appended rest entry leaves the reduction unchanged |
| StageManager.RestEntriesBurnNothing | components/entrenar/ExerciseStageManager.tsx:75-87 | appending a rest entry changes neither the calorie total nor whether it throws |
| StageManager.Render | components/entrenar/ExerciseStageManager.tsx:89-175 | rendering throws exactly when the calories throw, INICIO/FIN have no workout, or a laid-out ACTIVO has no readable current entry; it renders nothing exactly for an unknown stage or an unsized ACTIVO; each stage shows its own screen |
| StageManager.ActivoCountdown | components/entrenar/ExerciseStageManager.tsx:127-139 | the circular countdown in ACTIVO has `tiempoMaximoActual*1000 - tiempoMs` ms left and `tiempoMs` elapsed, and it is used up once `tiempoMs` reaches the maximum |
| StageManager.DescansoShowsNext | components/entrenar/ExerciseStageManager.tsx:152-161 | DESCANSO shows the remaining time, the following entry and the next real index |
| StageManager.SummaryScreens | components/entrenar/ExerciseStageManager.tsx:90-98 | INICIO shows the sum of durations; FIN (lines 163-171) also shows the calories of the non-rest entries |
| ExerciseTimer.TickRemaining | hooks/useExerciseTimer.ts:111-121 | the value one interval callback stores; stated by TickRemainingBounds, TickRemainingMonotone and ResumeContinuesCountdown |
| ExerciseTimer.TickRemainingBounds | hooks/useExerciseTimer.ts:111-121 | the remaining time after a tick is never negative and never above the start value; it is 0 exactly once the elapsed time reaches it |
| ExerciseTimer.TickRemainingMonotone | hooks/useExerciseTimer.ts:111-121 | a later tick never shows more time remaining |
| ExerciseTimer.ResumeContinuesCountdown | hooks/useExerciseTimer.ts:67-71 | after a resume, d ms later the remaining time is the paused value minus d, floored at 0 |
| ExerciseTimer.ProgressOf | hooks/useExerciseTimer.ts:31-34 | `progress`; stated by ProgressBounds |
| ExerciseTimer.ProgressBounds | hooks/useExerciseTimer.ts:31-34 | progress lies in [0, 1]; it is 0 exactly at the start and 1 exactly at zero remaining |
| ExerciseTimer.Timer.constructor | hooks/useExerciseTimer.ts:21-28 | the initial state is the given duration, autoStart, no interval and zeroed references; it is consistent for a non-negative duration |
| ExerciseTimer.Timer.Progress | hooks/useExerciseTimer.ts:31-34 | `progress` of the current state; stated by Timer.ProgressInRange |
| ExerciseTimer.Timer.ProgressInRange | hooks/useExerciseTimer.ts:31-34 | in a consistent state the progress lies in [0, 1], and with a positive base it is 1 exactly when nothing remains |
| ExerciseTimer.Timer.StartTimer | hooks/useExerciseTimer.ts:45-58 | clears the interval, takes a new duration when one is given, restarts the clock and runs |
| ExerciseTimer.Timer.PauseTimer | hooks/useExerciseTimer.ts:61-64 | remembers the remaining time and stops running |
| ExerciseTimer.Timer.ResumeTimer | hooks/useExerciseTimer.ts:67-71 | restarts from the remembered remaining time at `now` |
| ExerciseTimer.Timer.ResetTimer | hooks/useExerciseTimer.ts:74-91 | sets the remaining time to the new (or current) duration, clears the interval, and runs only when asked, restarting the clock then |
| ExerciseTimer.Timer.RunTimerEffect | hooks/useExerciseTimer.ts:107-125 | an interval is active exactly while running |
| ExerciseTimer.Timer.Unmount | hooks/useExerciseTimer.ts:128-130 | unmounting clears the interval and changes nothing else |
| ExerciseTimer.Timer.Tick | hooks/useExerciseTimer.ts:110-122 | a tick sets the remaining time from the clock; at zero it clears the interval and reports completion; with no interval nothing happens |
| ExerciseTimer.Timer.ShouldPauseEffect | hooks/useExerciseTimer.ts:94-104 | pauses a running timer when asked, resumes a stopped one that has paused time left, and otherwise changes nothing |
| UtilsEntrenamientos.TickStep | utils/utilsEntrenamientos.ts:25-32 | one `setTiempoTranscurrido` updater; stated over n steps by AfterTicksCount and FiringTick |
| UtilsEntrenamientos.AfterTicks | utils/utilsEntrenamientos.ts:24-33 | n callbacks of the interval; stated by AfterTicksCount, TicksFromReset and FiringTick |
| UtilsEntrenamientos.AfterTicksCount | utils/utilsEntrenamientos.ts:24-33 | n callbacks from below the total leave min(prev + n, total) |
| UtilsEntrenamientos.TicksFromReset | utils/utilsEntrenamientos.ts:41-44 | from a reset, n callbacks leave min(n, total) |
| UtilsEntrenamientos.FiringTick | utils/utilsEntrenamientos.ts:26-30 | the callback that reaches the total is exactly the (total - prev)-th one |
| UtilsEntrenamientos.TickTimer.constructor | utils/utilsEntrenamientos.ts:11-14 | the count starts at 0 with no interval |
| UtilsEntrenamientos.TickTimer.RunEffect | utils/utilsEntrenamientos.ts:16-38 | an interval runs exactly when not paused and the total is positive |
| UtilsEntrenamientos.TickTimer.Tick | utils/utilsEntrenamientos.ts:24-33 | a callback adds one; the callback that reaches the total sets it, clears the interval and fires `tiempoAgotado` |
| UtilsEntrenamientos.TickTimer.ResetTimer | utils/utilsEntrenamientos.ts:41-44 | the count goes back to 0 and the interval is cleared |
| UtilsEntrenamientos.CalcularTiempo | utils/utilsEntrenamientos.ts:49-53 | `calcularTiempo`; stated by CalcularTiempoRoundTrip |
| UtilsEntrenamientos.CalcularTiempoRoundTrip | utils/utilsEntrenamientos.ts:49-53 | for a non-negative total, the `m:ss` text decodes back to the total |
| Clock.MinutesSeconds | utils/utilsEntrenamientos.ts:49-53 | the shared `m:ss` text; stated by MinutesSecondsRoundTrip and MinutesSecondsNegative |
| Clock.JsRem | utils/utilsEntrenamientos.ts:51 | `a - (a % b)` is always a multiple of `b`, and the remainder lies in [0, b) for a non-negative dividend and in (-b, 0] for a negative one, which determines it as JavaScript's truncating `%` |
| Clock.PaddedSecondsDigits | utils/utilsEntrenamientos.ts:52 | seconds below 60 are written as two digits with that value |
| Clock.MinutesSecondsRoundTrip | utils/utilsEntrenamientos.ts:49-53 | the `m:ss` text of a non-negative total decodes back to the total |
| Clock.MinutesSecondsNegative | utils/utilsEntrenamientos.ts:49-53 | -5 seconds is written `-1:0-5` |
| Decimal.NatToStringShape | utils/utilsEntrenamientos.ts:52 | a numeral is non-empty, all digits, with no leading zero unless it is "0" |
| Decimal.NatToStringRoundTrip | utils/utilsEntrenamientos.ts:52 | reading the digits back gives the number |
| Decimal.LeadingZero | utils/utilsEntrenamientos.ts:52 | a padding `0` does not change a numeral's value |
| JsValues.StrictEqualsIsEquality | utils/exerciseUtils.ts:32 | `===` on strings is equality of the character sequences |
| JsValues.TrimStartShape | utils/exerciseUtils.ts:24-26 | trimming the start removes the white space prefix and stops at a non-space character |
| JsValues.TrimEndShape | utils/exerciseUtils.ts:24-26 | trimming the end removes the white space suffix and stops at a non-space character |
| JsValues.TrimStartSpacePrefix | utils/exerciseUtils.ts:24-26 | a leading white space block is removed |
| JsValues.TrimEndSpaceSuffix | utils/exerciseUtils.ts:24-26 | a trailing white space block is removed |
| JsValues.TrimStartAppend | utils/exerciseUtils.ts:24-26 | trimming the start of a concatenation trims into the second part only when the first is all space |
| JsValues.TrimPadded | utils/exerciseUtils.ts:24-26 | padding on both sides does not change the trimmed text |
| JsValues.TrimUnpadded | utils/exerciseUtils.ts:24-26 | text with non-space ends is its own trim |
| JsValues.TrimIdempotent | utils/exerciseUtils.ts:24-26 | trimming twice is trimming once |
| ProgressCircular.PadStart2 | components/entrenar/ProgressCircular.tsx:49-51 | padding keeps the text as a suffix, fills with zeros and reaches length 2 |
| ProgressCircular.Render | components/entrenar/ProgressCircular.tsx:29-47 | elapsed plus remaining is the total; the time is up exactly when nothing remains, that is, when the elapsed time reaches the total; with remaining time between 0 and the maximum, the elapsed time lies between 0 and the total; minutes are never negative for non-negative remaining time |
| ProgressCircular.FloorOfThousandths | components/entrenar/ProgressCircular.tsx:46 | `Math.floor(x / 1000)` is k for x in [1000k, 1000k + 1000) |
| ProgressCircular.SplitRemaining | components/entrenar/ProgressCircular.tsx:45-47 | minutes, seconds and centiseconds are non-negative, seconds < 60 and centiseconds < 100, and they rebuild the remaining time to within 10 ms |
| ProgressCircular.PaddedField | components/entrenar/ProgressCircular.tsx:49-51 | a padded field holds only digits, has length at least 2, and keeps the number's value |
| ProgressCircular.FormattedFieldsRoundTrip | components/entrenar/ProgressCircular.tsx:45-51 | the three formatted fields read back to the minutes, seconds and centiseconds |
| EntrenamientoCard.CalcularTiempo | components/dashboard/EntrenamientoCard.tsx:14-18 | the card's `calcularTiempo`; stated by CalcularTiempoRoundTrip |
| EntrenamientoCard.CalcularTiempoRoundTrip | components/dashboard/EntrenamientoCard.tsx:14-18 | the `m:ss min.` text of a non-negative total decodes back to the total |
| EntrenamientoCard.CardContainer | components/dashboard/EntrenamientoCard.tsx:24-33 | the container classes; stated by CardClasses |
| EntrenamientoCard.NombreStyle | components/dashboard/EntrenamientoCard.tsx:35-41 | the name style; stated by CardClasses |
| EntrenamientoCard.CardClasses | components/dashboard/EntrenamientoCard.tsx:24-41 | the container is the base class plus the size of a known card type; the name style is that type's size or the default; a known style is shorter than the default |
| EntrenamientoCard.TimeChildOf | components/dashboard/EntrenamientoCard.tsx:75-77 | the child `tiempoTotal && <Text/>` renders; stated by TimeShownUnlessZero |
| EntrenamientoCard.TimeShownUnlessZero | components/dashboard/EntrenamientoCard.tsx:75-77 | the time text is shown exactly for a non-zero total; a zero total renders the number 0 |
| ChipInfo.FormatTime | components/entrenar/ChipInfo.tsx:13-17 | `formatTime`; stated by FormatTimeRoundTrip |
| ChipInfo.FormatTimeRoundTrip | components/entrenar/ChipInfo.tsx:13-17 | the `m:ss min` text of a non-negative total decodes back to the total |
| ChipInfo.Chip | components/entrenar/ChipInfo.tsx:19-35 | the label and icon a chip shows; stated by ChipLabel and ChipGlyph |
| ChipInfo.ChipLabel | components/entrenar/ChipInfo.tsx:19-24 | a `Time` chip shows the formatted total (0 when missing) and ignores the label; a `Play` chip appends ` rondas`; any other chip shows the label |
| ChipInfo.ChipGlyph | components/entrenar/ChipInfo.tsx:28-34 | there is no icon exactly for `None`; `time-outline` exactly for `Time`; otherwise `play` |
| ItemLogro.Includes | components/usuario/ItemLogro.tsx:28 | `String.prototype.includes`; stated by IncludesMeaning and NotIncluded |
| ItemLogro.IncludesMeaning | components/usuario/ItemLogro.tsx:28 | `includes` holds exactly when the keyword occurs at some position |
| ItemLogro.FirstLevel | components/usuario/ItemLogro.tsx:28-69 | the chosen level is the first keyword in the list that the title includes, or none matches |
| ItemLogro.GetBadgeColors | components/usuario/ItemLogro.tsx:22-79 | `getBadgeColors`; stated by BadgeColorsFirstMatch, GlowIsTranslucentPrimary and KeywordsAreCaseSensitive |
| ItemLogro.BadgeColorsFirstMatch | components/usuario/ItemLogro.tsx:22-79 | the colours are the palette of the first matching level, or the default palette |
| ItemLogro.GlowIsTranslucentPrimary | components/usuario/ItemLogro.tsx:22-79 | every glow colour is its primary colour with alpha `70` |
| ItemLogro.KeywordsAreCaseSensitive | components/usuario/ItemLogro.tsx:28 | `bronze` gets the default palette while `Bronze` does not |
| ItemLogro.NotIncluded | components/usuario/ItemLogro.tsx:28 | a keyword whose first letter never occurs in the title is not included |
| ItemLogro.GetLogroIcon | components/usuario/ItemLogro.tsx:82-93 | `getLogroIcon`; stated by LogroIconCases |
| ItemLogro.LogroIconCases | components/usuario/ItemLogro.tsx:82-93 | `check`, `time` and `plus` get fire, stopwatch and weights; every other type gets the trophy |
| ThemeContext.InitialDarkMode | context/ThemeContext.tsx:59-61 | the initial mode; stated by FollowDeviceMeaning |
| ThemeContext.FollowDevice | context/ThemeContext.tsx:64-68 | the device-theme effect; stated by FollowDeviceMeaning |
| ThemeContext.Colors | context/ThemeContext.tsx:75 | the palette choice; stated by PaletteSelection |
| ThemeContext.FollowDeviceMeaning | context/ThemeContext.tsx:59-68 | the effect keeps the initial mode; a `null` theme keeps the current mode; any other theme sets dark exactly for `dark`; `undefined` gives light |
| ThemeContext.PaletteSelection | context/ThemeContext.tsx:26-50 | the dark palette is used exactly in dark mode; both palettes share the accent `#6842FF` |
| ThemeContext.ThemeProvider.ProvidedColors | context/ThemeContext.tsx:75-78 | the `colors` the provider exposes; stated through Colors by PaletteSelection |
| ThemeContext.ThemeProvider.constructor | context/ThemeContext.tsx:59-61 | the initial mode is dark for a `dark` or `null` device theme |
| ThemeContext.ThemeProvider.OnDeviceTheme | context/ThemeContext.tsx:64-68 | a device theme change follows the device unless it is `null` |
| ThemeContext.ThemeProvider.ToggleTheme | context/ThemeContext.tsx:70-72 | toggling flips the mode |
| NombresImagenes.LastDot | scripts/nombres_imagenes.py:8 | the last dot lies inside the name |
| NombresImagenes.LastDotShape | scripts/nombres_imagenes.py:8 | the found position is a dot with no dot after it; with no result there is no dot |
| NombresImagenes.Splitext | scripts/nombres_imagenes.py:8 | `os.path.splitext`; stated by SplitextShape and the three example lemmas |
| NombresImagenes.SplitextShape | scripts/nombres_imagenes.py:8 | root plus extension is the name; a non-empty extension is one dot and no other, after a root that is not all dots |
| NombresImagenes.LowerMeaning | scripts/nombres_imagenes.py:8 | the lowered text has no upper-case letter, keeps every other character and is idempotent; a text is its own lower case exactly when it has no upper-case letter |
| NombresImagenes.IsImage | scripts/nombres_imagenes.py:8 | the comprehension's test; stated by ImageFilesMeaning, ExtensionCaseIgnored and DotNameNotKept |
| NombresImagenes.ImageFiles | scripts/nombres_imagenes.py:8 | the filtered list is no longer than the listing |
| NombresImagenes.ImageFilesMeaning | scripts/nombres_imagenes.py:8 | a name is kept exactly when it is listed and its lower-cased extension is valid |
| NombresImagenes.ImageFilesAppend | scripts/nombres_imagenes.py:8 | filtering distributes over concatenation, so listing order is kept |
| NombresImagenes.NamesText | scripts/nombres_imagenes.py:12-14 | the text the write loop produces; stated by WriteImageNames and OneLinePerFile |
| NombresImagenes.WriteImageNames | scripts/nombres_imagenes.py:12-14 | the written text is each kept root followed by a newline, in order |
| NombresImagenes.NombresImagenes | scripts/nombres_imagenes.py:7-14 | the output file holds the roots of the image files of the listing |
| NombresImagenes.CountNewlinesAppend | scripts/nombres_imagenes.py:14 | newline counts add over concatenation |
| NombresImagenes.OneLinePerFile | scripts/nombres_imagenes.py:12-14 | with names free of newlines, the output has exactly one line per kept file |
| NombresImagenes.NoNewlines | scripts/nombres_imagenes.py:14 | a text without newlines counts none |
| NombresImagenes.OnlyLastExtensionStripped | scripts/nombres_imagenes.py:14 | `a.b.webp` keeps `a.b` |
| NombresImagenes.ExtensionCaseIgnored | scripts/nombres_imagenes.py:8 | `x.PNG` is an image |
| NombresImagenes.DotNameNotKept | scripts/nombres_imagenes.py:8 | `.png` has no extension and is not kept |
| CodigoToTxt.ThenLaws | scripts/codigo_to_txt.py:4-17 | sequencing writes has a unit, is associative, and skips everything after an error |
| CodigoToTxt.IsSourceFile | scripts/codigo_to_txt.py:9 | the suffix test; stated by SourceSuffixes |
| CodigoToTxt.Join | scripts/codigo_to_txt.py:10 | `os.path.join`; stated by JoinRelative |
| CodigoToTxt.EmitFile | scripts/codigo_to_txt.py:9-14 | what one file adds; stated by FileSection |
| CodigoToTxt.EmitDirs | scripts/codigo_to_txt.py:6-14 | what the directory loop writes; stated by EmitDirsAppend, StopsAtFirstError and CopyDirs |
| CodigoToTxt.AllFilesText | scripts/codigo_to_txt.py:3-17 | the reference outcome of `get_all_files_text`; stated by OutputOverwritten and GetAllFilesText |
| CodigoToTxt.SourceSuffixes | scripts/codigo_to_txt.py:9 | `.ts`, `.tsx` and `.js` files are copied; `.jsx` files are not |
| CodigoToTxt.JoinRelative | scripts/codigo_to_txt.py:10 | joining a directory and a relative name inserts one `/` |
| CodigoToTxt.FileSection | scripts/codigo_to_txt.py:9-14 | a non-source file writes nothing; a readable one writes header, contents and a blank line; an unreadable or undecodable one stops with that error |
| CodigoToTxt.EmitDirsAppend | scripts/codigo_to_txt.py:6 | the directories are processed in order, one after another |
| CodigoToTxt.StopsAtFirstError | scripts/codigo_to_txt.py:16-17 | once a directory fails, later directories add nothing |
| CodigoToTxt.OutputOverwritten | scripts/codigo_to_txt.py:3-17 | opening with `w` discards the earlier contents; an output that cannot be opened leaves them and reports the failure |
| CodigoToTxt.CopyFiles | scripts/codigo_to_txt.py:8-14 | the file loop writes what the reference writes for these files, after what was already written |
| CodigoToTxt.CopyWalk | scripts/codigo_to_txt.py:7-14 | the walk loop does the same for each directory of the walk |
| CodigoToTxt.CopyDirs | scripts/codigo_to_txt.py:6-14 | the directory loop writes exactly the reference text, stopping at the first error |
| CodigoToTxt.GetAllFilesText | scripts/codigo_to_txt.py:3-17 | the function's final output file and report match the reference outcome |

## Left out

- React scheduling is not modelled. Renders, `useMemo`, `useEffect` re-runs and `setInterval` callbacks are explicit calls (`RunTimerEffect`, `Tick`, `RunEffect`, `ShouldPauseEffect`). The order in which React would issue them is not modelled, nor the batching of state updates.
- `Date.now()` is a `now` parameter. The callbacks `onTimeComplete`, `tiempoAgotado` and `onTiempoAgotado` are the boolean results they are triggered by.
- Floating point is not modelled. Durations and counts are integers, and the seconds of `ProgressCircular` are exact rationals (`real`). Rounding error and `NaN` are not modelled, so `... || 0` on a numeric total is the identity here.
- `Math.round(curr.tiempo * caloriasPorSegundo)`, with its 0.15 fallback, is the `calories` parameter, because it is floating-point arithmetic.
- `ProgressCircular`'s `sweepAngle`, `createHexagonPath` and the Skia drawing are not modelled, nor any JSX layout or styling other than the class strings of `EntrenamientoCard` and the chip's icon and label.
- `InicioScreen`, `EjercicioScreen`, `DescansoScreen`, `FinScreen` and `PauseButton` are shown as the props they receive. Their own rendering is not part of this model.
- The difference between `undefined` and `null` as the next exercise (`ProximoEjercicio`) is not kept. Both are `None`.
- React Native's handling of a raw `0` child in `EntrenamientoCard` is not modelled. The model stops at the value `FalsyNumber(0)` being rendered.
- File-system I/O in the two scripts is not modelled. The directory listing, `os.walk` and the file contents are a `FileSystem` value. The written file is the returned text, and the `print` messages are the `Report` value.
- `Lower` lower-cases ASCII only. For the four image extensions, which are ASCII, the result is the same as Python's `str.lower`.
- The scripts' own `print` calls, the hard-coded paths, and the case where the output file lies inside a walked directory are not modelled.
- `scripts/audio_txt.py`, the authentication hooks, the API client and the contexts other than `ThemeContext` are not part of this model.
- ExerciseTimer.Timer.ResumeTimer: does not promise to keep `Consistent()`. After a reset, the paused time that a later resume restarts from can be stale, as in the source.
- StageManager.Render: the ACTIVO screen keeps the width and half height of the progress container. It does not keep the `top` offset (0.3425 of the height), the colours or the styles. `tiempoMs` and `tiempoMaximoActual` are integers.
