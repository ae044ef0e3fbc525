# Garmin workout tools, modelled in Dafny

These scripts turn a spreadsheet of gym exercises into Garmin Connect
strength workouts. This project models and proves the logic that sits
between the raw data and the calls to the Garmin service:

- **The exercise catalogue builder** (`src/build_db.py`). It reads
  `KEY=Label` lines from Garmin's Portuguese translation files. It
  classifies each key by the longest matching category and collects
  normalised search terms, skipping blacklisted ones. It then collapses
  records that share a lower-cased label and exports them sorted by label.
  The modules are `BuildDb` (reading) and `BuildDbClean` (de-duplication
  and export). `Catalogue` holds the exported record, the stable sort by
  label and the index by id that the readers of `exercises.json` share.
- **The keyword resolver** (`src/utils.py` over the ordered table of
  `src/exercise_db.py`). The first table key, in declaration order, that
  occurs in the cleaned, lower-cased name wins; with no match the answer is
  CARRY/CARRY. The modules are `ExerciseDb` (the 97-entry table),
  `Resolver`, and `ResolverExamples` (concrete names and the shadowed
  rows). As written, "Leg Press" resolves to BENCH_PRESS/BENCH_PRESS,
  through the earlier key "press". The header comment of
  `src/exercise_db.py` says SQUAT/LEG_PRESS. The model proves the behaviour
  as written (`ResolverExamples.LegPressResolves`).
- **The workout step-tree builder.** It exists in three near-copies:
  `generate_workout_payload` in `src/utils.py`, `generate_payload` in
  `src/upload_csv.py`, and the loop of `api_upload` in `src/app.py`.
  `WorkoutSteps` is the shared part. Each planned row yields an exercise
  step, a rest step when the rest is positive, and a repeat group around
  them when there is more than one set. One counter hands out `stepOrder`
  values. `UtilsPayload`, `CsvUpload` and `WebApp` are the three copies.
  Each has its own way of resolving the exercise, its own rule for which
  rows are skipped, its own `childStepId`, and its own rest-step codes.
  `WebApp.App` is the web app's process-wide exercise cache.
- **The small decision logic around network calls.** The service is an
  input: the pages it answers, the workout list, and whether each DELETE
  succeeds.
  - `ExtractData`: the file name derived from a translation URL.
  - `WorkoutList`: the pagination loop and the CSV projection of
    `get_workout_list.py`.
  - `DeleteWorkouts`: the guard, filter, confirmation gate and success
    count of `src/delete_workout.py`.
  - `CleanupDebug`: the `DBG_` clean-up of `delete_workout.py`.

`Text` models the Python string built-ins the scripts use: `strip`,
`split`/`join`, `in`, `startswith`, `replace`, `split(c, 1)`, ASCII case
mapping and decimal formatting. It also models the two transliterations,
each with its own table for Latin-1: `unicodedata.normalize('NFKD', …)`
with ASCII `ignore` in `src/utils.py`, and `unidecode` in `src/build_db.py`.
`Wrappers` holds `Option`.

The loops of the source that build up state are `method`s with a loop and its
invariants. Each method is proved equal to a recursive specification function,
and the lemmas state the properties of that function. The early-return search
of `get_exercise_data` (`src/utils.py:33-35`) computes only a value and is the
recursive function `Resolver.FirstMatch`.

## Model

| member | source | states |
|---|---|---|
| Text.LowerSpec | src/utils.py:32 | `lower()` leaves no ASCII capital and keeps ASCII text ASCII; it changes a string exactly when the string holds a capital, so applying it twice is applying it once |
| Text.LabelLowerSpec | src/build_db.py:125 | `lower()` on a label agrees with ASCII lower-casing on ASCII text, leaves no ASCII or Latin-1 capital, and applying it twice is applying it once |
| Text.Fold | src/utils.py:28 | transliteration yields pure ASCII, at most two characters (NFKD) or four (unidecode) for each character read |
| Text.FoldNoBreak | src/utils.py:28 | NFKD turns a no-break space between ASCII texts into a plain space |
| Text.FoldAscii | src/build_db.py:38 | transliteration leaves pure-ASCII text unchanged |
| Text.StripSpec | src/upload_csv.py:55 | `strip()` removes only whitespace, only from the two ends, and leaves none at either end |
| Text.StripNoSpace | src/utils.py:29 | text with no whitespace at its ends is unchanged by `strip()` |
| Text.ContainsIff | src/utils.py:34 | `key in name` holds exactly when the key occurs at some offset of the name |
| Text.ContainsTransitive | src/utils.py:33-35 | a name that holds `q` holds every string `q` holds |
| Text.LexLeTotal | src/app.py:62 | any two labels are comparable, so sorting by label is well defined |
| Text.LexLeTransitive | src/app.py:62 | label order is transitive |
| Text.LexLeAntisymmetric | src/app.py:62 | two labels each at most the other are equal |
| Text.WordsAreWords | src/build_db.py:40 | every piece `split()` returns is non-empty, whitespace-free and made of the input's characters |
| Text.WordsOfJoin | src/build_db.py:40 | `split()` undoes `" ".join` on a list of words |
| Text.JoinSingleSpaced | src/build_db.py:40 | joining words with one space leaves no space at the ends and no two spaces in a row |
| Text.RemoveAllAbsent | src/build_db.py:72 | `replace(p, "")` changes nothing when `p` does not occur |
| Text.ReplaceCharSpec | src/build_db.py:116 | `replace('_', ' ')` leaves no `_`, keeps every other character in place, and changes the text exactly when it holds a `_` |
| Text.SplitFirstSpec | src/upload_csv.py:74-76 | `split('_', 1)` gives two parts exactly when `_` occurs; they rejoin with `_` to the input, and the head holds no `_` |
| Text.AfterLast | src/extract_data.py:23 | the base name is a suffix of the path, holds no `/`, and follows a `/` unless it is the whole path |
| Text.DecimalRoundTrip | src/upload_csv.py:113 | the numeral of `f"{descanso}s"` reads back as the number and has no leading zero |
| BuildDb.DeclaredCategories | src/build_db.py:24-33 | `KNOWN_CATEGORIES` as declared has 50 names |
| BuildDb.SanitizeTermNormal | src/build_db.py:36-40 | the normaliser's output holds only `a-z`, `0-9` and single inner spaces, with none at the ends; empty input gives "" |
| BuildDb.SanitizeTermIdempotent | src/build_db.py:36-40 | normalising a normalised term changes nothing |
| BuildDb.SanitizeIgnoresUnderscore | src/build_db.py:116 | replacing `_` by a space before normalising the key makes no difference |
| BuildDb.KnownCategoriesDescending | src/build_db.py:34 | the sorted category list is longest first |
| BuildDb.KnownCategoriesFacts | src/build_db.py:24-34 | the sorted list is longest first and holds exactly the declared names |
| BuildDb.SameLengthMatchesEqual | src/build_db.py:81 | two categories of one length that both match a key are the same |
| BuildDb.ClassifyBySpec | src/build_db.py:77-85 | on a longest-first list, the first match is a longest match with its internal key; no match gives UNCATEGORIZED and the key itself |
| BuildDb.ClassifySpec | src/build_db.py:24-85 | a key gets the unique longest declared category it equals or starts with followed by `_`, whatever the declaration order; otherwise UNCATEGORIZED and the key |
| BuildDb.ClassifyKey | src/build_db.py:77-85 | the classifying loop with its `break` computes that classification |
| BuildDb.CheckBlacklist | src/build_db.py:105-111 | the blacklist loop reports a hit exactly when some blacklisted term of the category occurs in the normalised label |
| BuildDb.ParseLineSkips | src/build_db.py:62-100 | a blank line, a line without `=`, a picker or muscle line, or one whose label equals its cleaned key leaves the raw map as it was (and only those are skipped); any other line leaves its key recorded, with the line's terms in its vocabulary |
| BuildDb.ParseFormatLine | src/build_db.py:66-75 | reading `exercise_type_KEY=Label` gives back the key and label |
| BuildDb.RemovePrefix | src/build_db.py:72 | removing `exercise_type_` from the prefixed key gives the key back |
| BuildDb.GetSortedFiles | src/build_db.py:42-56 | the method returns nothing for a missing directory, else the wanted `.txt` names joined to the directory, `pt_BR` first |
| BuildDb.SelectedIff | src/build_db.py:44-52 | a path is selected exactly when it joins a wanted listed name to the directory |
| BuildDb.PrimaryFirstSorted | src/build_db.py:55 | the stable sort drops and adds nothing and puts every `pt_BR` path before every other |
| BuildDb.PrimaryFirstKeepsPrimaries | src/build_db.py:55 | when every path is a `pt_BR` one, the sort keeps their order |
| BuildDb.OnlyBrKeepsListingOrder | src/build_db.py:15-55 | with `USE_ONLY_BR` the files are read in listing order |
| BuildDb.LineTerms | src/build_db.py:102-116 | a line adds no term exactly when its label holds a blacklisted term of its category; otherwise it adds the normalised label and the normalised key |
| BuildDb.SightLine | src/build_db.py:77-116 | classification, normalisation and the blacklist check of one line compute its sighting |
| BuildDb.ParseLinesSnoc | src/build_db.py:66-116 | reading one more line changes the map only when the line is not skipped |
| BuildDb.ParseFiles | src/build_db.py:58-118 | `parse_files` builds the raw map of all lines, file after file |
| BuildDb.EntriesOfLines | src/build_db.py:66-75 | an entry is read exactly when some line yields it |
| BuildDb.ParseLinesWellFormed | src/build_db.py:58-118 | each key is listed once; each record holds its key as id, that key's classification, and only normalised terms |
| BuildDb.DowngradeGuardIdle | src/build_db.py:88-91 | the guard against downgrading a record to UNCATEGORIZED never applies |
| BuildDb.RecordIffSighted | src/build_db.py:93-100 | a record exists exactly for the keys sighted, blacklisted or not |
| BuildDb.RecordIsFirstSighting | src/build_db.py:93-100 | a key's label, category and internal key come from its first sighting |
| BuildDb.VocabIsUnion | src/build_db.py:113-116 | a key's vocabulary is the union of the terms of all its sightings |
| BuildDb.FirstSightingFixed | src/build_db.py:93-116 | later lines never change id, label, category or internal key; they only add terms |
| BuildDb.TitleFromPrimaryFiles | src/build_db.py:55-100 | a key defined in the `pt_BR` files read first keeps the label they give, whatever later files say |
| BuildDbClean.Deduplicated | src/build_db.py:130-150 | one output record per distinct lower-cased label |
| BuildDbClean.Deduplicate | src/build_db.py:120-150 | the two loops of `deduplicate_and_clean` compute the specification |
| BuildDbClean.GroupByLabel | src/build_db.py:122-128 | the first loop lists the label keys in order of first appearance and groups the records under them |
| BuildDbClean.PickWinner | src/build_db.py:133-148 | a lone candidate is kept; otherwise the head of the stable sort takes every candidate's terms |
| BuildDbClean.GroupOfLabelKey | src/build_db.py:124-128 | a label key is listed exactly when its group is not empty |
| BuildDbClean.GroupMembers | src/build_db.py:124-128 | a record is in a group exactly when it is an input record with that label key |
| BuildDbClean.LabelKeysDistinct | src/build_db.py:124-128 | the label keys are distinct |
| BuildDbClean.WinnerIsFirstBest | src/build_db.py:138-143 | the winner is beaten by no candidate, and every candidate before it is strictly worse |
| BuildDbClean.WinnerCategorised | src/build_db.py:138-143 | the winner is categorised exactly when some candidate is |
| BuildDbClean.WinnerShortest | src/build_db.py:138-143 | no candidate of the winner's standing has a shorter id |
| BuildDbClean.VocabUnionIff | src/build_db.py:145-146 | a term is in the merged vocabulary exactly when some candidate has it |
| BuildDbClean.DeduplicatedSpec | src/build_db.py:120-150 | each output record is its label's first-best candidate with the union vocabulary, and no other output record has that label |
| BuildDbClean.DeduplicatedCovers | src/build_db.py:120-150 | every input record's label has its output record |
| BuildDbClean.SaveJson | src/build_db.py:152-163 | the export projects each record, then sorts by label |
| BuildDbClean.ExportedSorted | src/build_db.py:152-163 | the export is sorted by label and holds each projected record once |
| BuildDbClean.BuildCatalogue | src/build_db.py:172-179 | no catalogue without files; otherwise the sorted files are parsed, de-duplicated and exported |
| Catalogue.InsertByLabelPermutes | src/app.py:62 | inserting a record adds exactly that record |
| Catalogue.InsertByLabelSorted | src/app.py:62 | inserting into a label-sorted list keeps it sorted |
| Catalogue.SortByLabelSorted | src/app.py:62 | the sort is a permutation of its input, ascending by label |
| Catalogue.SortedUnique | src/build_db.py:163 | with distinct labels, the sorted arrangement is the only one |
| Catalogue.SortByLabelStable | src/app.py:62 | the sort is stable: the records of any one label keep their input order |
| Catalogue.SortRecords | src/app.py:62 | the insertion-sort loop computes the stable sort by label |
| Catalogue.InsertRecord | src/app.py:62 | the insertion loop puts the record after every record whose label is not above its own |
| Catalogue.IndexByIdWellFormed | src/upload_csv.py:42 | the id index lists each key once, and exactly the keys of the dict |
| Catalogue.IndexByIdSpec | src/upload_csv.py:42 | an id is indexed exactly when some record has it, and maps to the last such record |
| Catalogue.ValuesSpec | src/app.py:61 | `values()` gives each listed key's record once, in key order |
| ExerciseDb.Table | src/exercise_db.py:9-163 | the table has 97 entries in declaration order |
| ExerciseDb.RowAtKeyed | src/exercise_db.py:14-162 | each row's position is recovered from its key, and its category is a declared one other than CARRY |
| ExerciseDb.KeysDistinct | src/exercise_db.py:9-163 | no keyword is declared twice |
| ExerciseDb.TableKeysCanonical | src/exercise_db.py:14-162 | every key is lower-case unaccented ASCII letters, digits and spaces |
| ExerciseDb.CanonicalKeyIsClean | src/utils.py:32 | such a key is unchanged by transliteration and lower-casing, the form the resolver compares against |
| ExerciseDb.CategoriesDeclared | src/exercise_db.py:14-162 | every row's category is in `KNOWN_CATEGORIES` |
| ExerciseDb.NoCarryRow | src/utils.py:36 | no row carries the fallback category CARRY |
| ExerciseDb.HeaderNotes | src/exercise_db.py:5-7 | the entries for "cadeira extensora", "extensora", "leg press" and "face pull" are as the header notes say |
| Resolver.FirstMatch | src/utils.py:33-35 | the search with early return finds a row whose key occurs, with no earlier row's key occurring; it finds none exactly when no key occurs |
| Resolver.SanitizeTextSpec | src/utils.py:26-29 | a cleaned `str` is ASCII, stripped and free of lower-case letters; a non-`str` comes back as its `str()` |
| Resolver.UpperClean | src/utils.py:29 | upper-casing keeps ASCII, leaves no small letter and moves no whitespace |
| Resolver.SanitizeTextIdempotent | src/utils.py:26-29 | cleaning a cleaned string changes nothing |
| Resolver.FirstMatchUnique | src/utils.py:33-35 | a row with a match and no match before it is the one returned |
| Resolver.Shadowed | src/utils.py:33-35 | a row whose key holds an earlier row's key is never returned |
| Resolver.LookupFirst | src/utils.py:31-35 | the lookup returns the entry of the first row whose key occurs in the name |
| Resolver.GetExerciseDataCarry | src/utils.py:36 | CARRY/CARRY comes back exactly when no key occurs in the cleaned name |
| ResolverExamples.ResolvesThrough | src/utils.py:31-32 | a stripped ASCII name is looked up by its lower-cased form |
| ResolverExamples.ShadowedRow | src/utils.py:33-35 | a row whose key contains an earlier key at a given offset is never returned |
| ResolverExamples.AgachamentoSmithShadowed | src/exercise_db.py:92-93 | "agachamento smith" is unreachable behind "agachamento" |
| ResolverExamples.AgachamentoPenduloShadowed | src/exercise_db.py:92-94 | "agachamento pendulo" is unreachable behind "agachamento" |
| ResolverExamples.LegPressShadowed | src/exercise_db.py:87-101 | "leg press" is unreachable behind "press" |
| ResolverExamples.LegPress45Shadowed | src/exercise_db.py:87-102 | "leg press 45" is unreachable behind "press" |
| ResolverExamples.GemeosSentadoShadowed | src/exercise_db.py:123-124 | "gemeos sentado" is unreachable behind "gemeos" |
| ResolverExamples.GemeosEmPeShadowed | src/exercise_db.py:123-125 | "gemeos em pe" is unreachable behind "gemeos" |
| ResolverExamples.LateralPoliaShadowed | src/exercise_db.py:135-136 | "lateral polia" is unreachable behind "lateral" |
| ResolverExamples.ElevacaoFrontalPoliaShadowed | src/exercise_db.py:139-140 | "elevacao frontal polia" is unreachable behind "elevacao frontal" |
| ResolverExamples.ElevacaoFrontalCaboShadowed | src/exercise_db.py:139-141 | "elevacao frontal cabo" is unreachable behind "elevacao frontal" |
| ResolverExamples.ElevacaoFrontalHalterShadowed | src/exercise_db.py:139-142 | "elevacao frontal halter" is unreachable behind "elevacao frontal" |
| ResolverExamples.PuxadaFaceShadowed | src/exercise_db.py:50-148 | "puxada face" is unreachable behind "puxada" |
| ResolverExamples.FacePullCaboShadowed | src/exercise_db.py:146-149 | "face pull cabo" is unreachable behind "face pull" |
| ResolverExamples.AbdominalParalelasShadowed | src/exercise_db.py:157-158 | "abdominal paralelas" is unreachable behind "abdominal" |
| ResolverExamples.DeadRowsUnreachable | src/exercise_db.py:87-158 | whatever the name, the lookup never stops at one of those 13 rows |
| ResolverExamples.NoBreakResolves | src/utils.py:26-35 | two ASCII words joined by a no-break space resolve as if joined by a plain space, so "Rosca\u00A0Scott" resolves like "Rosca Scott" |
| ResolverExamples.RoscaScottResolves | src/exercise_db.py:14 | "Rosca Scott" resolves to CURL/PREACHER_CURL |
| ResolverExamples.CadeiraExtensoraResolves | src/exercise_db.py:14-107 | "Cadeira Extensora" resolves to CRUNCH/LEG_EXTENSIONS |
| ResolverExamples.LegPressResolves | src/exercise_db.py:87-101 | "Leg Press" resolves to BENCH_PRESS/BENCH_PRESS through "press", not to the SQUAT/LEG_PRESS entry |
| WorkoutSteps.RowStepsShape | src/utils.py:77-131 | a row gives a repeat group exactly when sets > 1, repeating its sets, numbered before its children and wrapping its steps; a rest step of that many seconds, described "Ns", exactly when rest > 0; all steps carry the row's child id |
| WorkoutSteps.ExerciseShape | src/utils.py:56-75 | the exercise step asks for at least one rep (the row's reps when positive), has a weight exactly when it is positive, and copies description, category and name |
| WorkoutSteps.RowStepsOrders | src/utils.py:97-132 | one row's steps take exactly the next numbers, in listed order |
| WorkoutSteps.BuildOrders | src/utils.py:97-132 | `stepOrder` values are c, c + 1, … in listed (pre-order) order, each used once |
| WorkoutSteps.BuildSnoc | src/utils.py:44-132 | one more row appends its steps, numbered after all the earlier rows' steps |
| WorkoutSteps.BuildAppend | src/utils.py:44-132 | building two lists of rows one after the other is building the joined list |
| WorkoutSteps.BuildRow | src/utils.py:44-132 | row i's steps sit between those of the earlier and the later rows, numbered from where the earlier rows leave the counter |
| WorkoutSteps.EmitRow | src/utils.py:97-132 | one row's loop body appends that row's steps and moves the counter on by the numbers it used |
| UtilsPayload.Description | src/utils.py:45-47 | the description is never empty or "0"; a cleaned note other than "" or "0" is kept as it is, and "EXERCICIO" appears exactly when the cleaned note is "", "0" or "EXERCICIO" itself |
| UtilsPayload.GenerateWorkoutPayload | src/utils.py:38-142 | the payload holds the name and the steps built from the rows in order, counter starting at 1, rest codes 5 and 1 |
| UtilsPayload.DescriptionClean | src/utils.py:45-47 | a description other than "EXERCICIO" is ASCII, stripped and free of lower-case letters |
| UtilsPayload.PayloadOrders | src/utils.py:97-132 | the payload's steps are numbered 1, 2, … with no gap or repeat |
| UtilsPayload.PlanRowSpec | src/utils.py:44-56 | row i has child id i + 1, the exercise the keyword lookup finds for its note, and that note's description |
| CsvUpload.LoadExerciseDbSpec | src/upload_csv.py:38-45 | a missing file gives an empty index; otherwise an id is indexed exactly when some record has it, and maps to the last such record |
| CsvUpload.ResolveExerciseSpec | src/upload_csv.py:69-81 | category and name are sent together or not at all; a cached id takes them from its record; an unknown id splits at its first `_`, or is used twice without one; a discarded category clears both |
| CsvUpload.GeneratePayload | src/upload_csv.py:47-167 | the payload holds the name and the steps built from the rows in order, counter starting at 1, rest codes 4 and 2 |
| CsvUpload.PayloadOrders | src/upload_csv.py:120-156 | the payload's steps are numbered 1, 2, … with no gap or repeat |
| CsvUpload.PlanRowSpec | src/upload_csv.py:55-84 | row i has child id i + 1 and its stripped id's resolution; unconvertible numbers give 1 set, 10 reps, no weight, 60 s rest; an empty note gives no description |
| WebApp.App.constructor | src/app.py:17 | the cache starts empty |
| WebApp.App.LoadExerciseDb | src/app.py:21-30 | nothing changes once the cache holds a record or when the file cannot be read; otherwise the cache becomes the records keyed by id |
| WebApp.App.Exercises | src/app.py:59-63 | the cache is loaded, then every cached record is listed sorted by label |
| WebApp.App.Upload | src/app.py:66-209 | a missing or empty name is refused first, a failed sign-in next; otherwise the payload holds the steps of the kept steps, counter starting at 1, rest codes 5 and 1 |
| WebApp.PlanSound | src/app.py:81-112 | each planned row comes from a cached step: child id is its position + 1, category and name are the cached record's, and the description is the note unless empty |
| WebApp.PlanIncreasing | src/app.py:81-94 | the rows keep input order: child ids strictly increase, with gaps where steps were skipped |
| WebApp.PlanComplete | src/app.py:81-84 | every step whose exercise is cached has its row |
| WebApp.PlanEmptyCache | src/app.py:81-84 | with an empty cache every step is skipped |
| WebApp.ListingSpec | src/app.py:59-63 | the listing is sorted by label, one entry per key, holding every cached record and nothing else |
| WebApp.IndexValues | src/app.py:61 | the dict's values: one per key, each key's record among them, nothing else |
| WebApp.UploadPayloadSpec | src/app.py:160-209 | the payload's steps are numbered 1, 2, …; with an empty cache there are none |
| ExtractData.FileNameShape | src/extract_data.py:21-32 | the name is the stem, `_`, the version and `.txt`, so it ends in `.txt` |
| ExtractData.SplitUrlOf | src/extract_data.py:21 | cutting at the first `?` gives back path and query |
| ExtractData.StemIgnoresQuery | src/extract_data.py:21-25 | the query never contributes to the stem, which holds no `/` |
| ExtractData.FirstValueSpec | src/extract_data.py:28-29 | the first pair with the key is found; none exactly when no pair has it |
| ExtractData.VersionSpec | src/extract_data.py:28-29 | without `bust` the version is "unknown"; with several, the first wins |
| ExtractData.VersionOf | src/extract_data.py:29 | a single non-empty `bust` value is the version |
| ExtractData.FirstBustWins | src/extract_data.py:29 | of `bust=a&bust=b` the version is `a` |
| ExtractData.RemoveTrailing | src/extract_data.py:25 | a trailing `.properties` is removed when nothing before it can start a match |
| ExtractData.FileNameOf | src/extract_data.py:19-32 | `dir/stem.properties?bust=v` is saved as `stem_v.txt` |
| ExtractData.TranslationFileName | src/extract_data.py:7-32 | every translation URL is saved as its stem, `_`, its version and `.txt` |
| ExtractData.PtBrFileName | src/extract_data.py:9-31 | the pt_BR 5.21.0.16 URL is saved as `exercise_types_pt_BR_5.21.0.16.txt` |
| ExtractData.PtFileName | src/extract_data.py:8 | the pt 5.21.0.16 URL is saved as `exercise_types_pt_5.21.0.16.txt` |
| ExtractData.PtBrOlderFileName | src/extract_data.py:10 | the pt_BR 5.21.0.15a URL is saved as `exercise_types_pt_BR_5.21.0.15a.txt` |
| ExtractData.PtOlderFileName | src/extract_data.py:11 | the pt 5.21.0.15a URL is saved as `exercise_types_pt_5.21.0.15a.txt` |
| ExtractData.FileNamesDistinct | src/extract_data.py:7-12 | the four URLs get four different names, so no download overwrites another |
| WorkoutList.FetchFullDictionary | get_workout_list.py:22-51 | the i-th request starts at 100·i; the loop makes as many requests as the answers allow; the result is the appended pages in order |
| WorkoutList.OffsetsSpec | get_workout_list.py:23-44 | the i-th request starts at 100·i |
| WorkoutList.AppendedSpec | get_workout_list.py:35-48 | each appended page answers its own request and is not empty; all but the last are full; requests number the pages, or one more |
| WorkoutList.CsvRows | get_workout_list.py:65-80 | a header row, then one row per exercise in input order |
| WorkoutList.RowOfSpec | get_workout_list.py:70-78 | missing name gives 'N/A', missing key 'UNK', missing id ''; an absent category gives '' rather than 'UNK' |
| DeleteWorkouts.DeleteWorkoutsRun | src/delete_workout.py:34-95 | no filter and no `--all` stops first; a non-list listing next; no targets next; anything but 'SIM' cancels; otherwise the delete loop runs over the targets |
| DeleteWorkouts.RunOfInterrupted | src/delete_workout.py:82-84 | once a target lacks a key, later targets change nothing |
| DeleteWorkouts.TargetsSpec | src/delete_workout.py:49-59 | only objects are targets; with `--all` every object; otherwise exactly those whose name holds the filter |
| DeleteWorkouts.TargetsAppend | src/delete_workout.py:49-59 | selection keeps listing order |
| DeleteWorkouts.RunOfSpec | src/delete_workout.py:81-95 | each target gets at most one request, in order; the count is the successes and at most the requests; the loop stops only at a target lacking a key |
| DeleteWorkouts.RunOfComplete | src/delete_workout.py:81-95 | when every target has both keys, each gets exactly one request, in order |
| DeleteWorkouts.RunOfIgnoresOutcomes | src/delete_workout.py:88-93 | which requests are sent does not depend on how earlier ones went |
| DeleteWorkouts.SuccessesBound | src/delete_workout.py:91 | the success count never exceeds the number of requests |
| CleanupDebug.CleanupDebugWorkouts | delete_workout.py:21-67 | a failed listing deletes nothing; no debug workout deletes nothing; otherwise the targets get their requests in order, failed requests notwithstanding, until a target without `workoutId` or `workoutName` ends the run |
| CleanupDebug.DebugWorkoutsSpec | delete_workout.py:41-45 | the targets are exactly the listed objects whose name starts with "DBG_"; one without a name never is |

## Left out

- Network I/O: sign-in, the POST of the payload, the page and listing requests, the DELETE requests and `requests.get`. The service's answers are inputs (`PageResult`, `Listing`, a success predicate per request). `WebApp.App.Upload` takes the outcome of `get_garmin_client` as the `authenticated` parameter.
- File and console I/O: reading and writing JSON, CSV and translation files, directory listing, `print`, and the `input()` prompt (the typed answer is a parameter). `download_data` in `src/extract_data.py` is only I/O and is not modelled.
- Text.Fold: only Latin-1 is transliterated. Every character above U+00FF is dropped by both schemes. The source maps many of them to ASCII: NFKD maps Latin Extended letters to their base letter, and ligatures and full-width forms to their ASCII parts; unidecode covers nearly every script. The Latin-1 tables follow the Unicode decomposition data and unidecode's table for that block.
- Text.LabelLower: only ASCII and Latin-1 capitals are lower-cased. Python's `str.lower()` also lower-cases the capitals of other scripts (Œ, Ł, Greek, Cyrillic), and it turns 'İ' into two characters. Labels that differ only in such a capital are grouped together by the source and kept apart by the model.
- `parse_qs` and `urlparse` are modelled as a split at the first `?` and `&`-separated `k=v` pairs. Percent and `+` decoding, fragments, `;` separators and blank values kept by options are not modelled.
- pandas: `fillna(0)`, `notna`, `iterrows` and `int(float(...))` are not modelled. Rows arrive with their numbers already read (`Option` where a `ValueError` can occur). `generate_workout_payload` assumes the frame's index is its row position, which holds for the frame `read_csv` produces. NaN and float-to-int truncation are left out. Weights are `real` and are only compared with zero.
- The order of `" ".join(search_vocab)` depends on set iteration order. The model keeps the vocabulary as a set, and the exported record carries that set rather than a joined string.
- JSON `null` versus an absent key: both are `None` in the model. A name or id of a non-string type, which makes the scripts raise, is not modelled.
- `api_upload` answers 500 when an exception escapes its body. The model covers only the name check, the sign-in check and the payload. The service's reply and `int()`/`float()` failures on posted values are not modelled.
- The listing of the first five target names before the confirmation prompt (`src/delete_workout.py:71`) only prints, and is left out.
- WorkoutList.FetchFullDictionary: requires that some answer in `responses` ends the loop. The source loops for as long as the service keeps sending full pages.
- The step codes, type keys and display orders of the payload are data. The model keeps only the two rest-step codes that differ between the copies.
- `src/main.py`, `garmin_sniffer.py`, `debug_garmin.py` and `debug_garmin2.py` are not part of this model.
- `KNOWN_CATEGORIES.sort(key=len, reverse=True)` is given as the sorted list it produces. The model proves that this list is longest first and holds exactly the declared names, but it does not run the sort.
