# Recipe import: a verified model

The recipe import service turns pictures and texts into canonical recipes: an API process accepts jobs and
cancellations, a worker process runs a pipeline and an LLM formatter, Redis and BullMQ connect the two, and
WebSocket connections follow the progress. These modules model the parts of the service that hold state or
parse text, and prove what they promise.

Recipe normalisation

- `Text`, `Json`, `Numbers`: trimming, words, first occurrences, JSON values, numbers and fractions in text.
- `NumberGrammar`: the texts that `Number` accepts, as a grammar with values, and the fractions around it.
- `Durations`: the three duration patterns, each given as a grammar and as a matcher.
- `IngredientLines`: reading "1 1/2 cups flour" from left to right.
- `Lists`, `ListEntries`: delimiter-separated lists, string lists, enum lists, and what they contain in which order.
- `Schemas`, `RecipeParts`: the validators behind the preprocessing steps, and what both schemas share.
- `Validators`: which values these validators accept without such a step in front, and what they make of them.
- `CanonicalRecipe`, `RecipeJsonLd`: the two schemas as total functions on JSON values, with an independent
  description of the records they leave unchanged.
- `RecipeSources`, `Readings`, `CanonicalReadings`, `JsonLdReadings`: for every property of a normalised recipe and of its
  entries, a relation to the input that does not mention the normaliser: which text, number, list or record it is.

Processes

- `JobLifecycle`: API callers, queue, attempts and cancellation monitors of one job as interleaved steps.
- `Subscriptions`: the two-sided index of live updates, its handlers, and dispatch.
- `JobInputs`: the job's attempts, the finally block that deletes the uploaded input, and the store's other users.
- `TempInputStore`, `TempInputBound`: a size cap that is tested before, and apart from, the write, and the exact bound.
- `Idempotency`: lookup, write and enqueue under one idempotency key as separate steps, and the key itself.
- `Retry`, `Formatter`: the bounded retry loops with abort and backoff, and the loop around them.
- `Progress`: the step layout and the progress tracker.
- `AuthRegistry`: a stable priority sort kept up by insertion.
- `ImagesInput`: image references, validated by the API and again by the worker.

A protocol is a `State` (or `System`, `Server`) datatype, a `Step` datatype, a predicate `Enabled` and a function
`Apply`; `Run` relates the steps of an interleaving to its states, and the main results quantify over every run.
The classes hold the fields that the source mutates, and their methods are proved to take the model's steps.
BullMQ's rules are part of `Enabled` and `Record`: an active job is locked and cannot be removed, a throw leads to
"delayed" while attempts remain and else to "failed", and an `UnrecoverableError` leads to "failed" at once.

Properties that a reader might expect and that do not hold are stated with an input that breaks them and with the
exact condition under which they hold:

- A written cancellation flag does not guarantee a cancellation (`FlaggedJobMayComplete`). An attempt is canceled exactly
  when the queue's signal reaches it, or a query served while the flag was written is answered, before extraction
  returns or throws or the formatter throws (`CanceledExactlyWhen`).
- `cancel` can refuse a job that is waiting, delayed or active (`LostRace`): exactly when the caller read a queued state
  and either the job is active, picked up since, or the removal of the queued job itself fails (`RefusedWhileCancelable`).
  So a caller that is answered while the job is active is refused exactly when it read a queued state, and has written
  the flag otherwise (`RefusedWhileActive`).
- `cancel` can also remove a job that has completed or failed (`RemovedAfterCompletion`): exactly when the end was recorded
  between the caller's queued read and its removal, and the job not evicted (`RemovedEndedExactlyWhen`).
- A retry can find its uploaded input deleted (`RetryLosesInput`): it finds it exactly when every earlier attempt failed
  while loading, or failed to unlink the file, and nobody else deleted it (`RetryFindsInput`).
- Overlapping calls with one idempotency key create several jobs (`OverlapCreatesTwo`): one for each call that looks the
  key up before its first write (`CreatedAreEarlyCheckers`).
- Two users can share an idempotency key and a job (`TwoUsersShareAJob`): exactly when one user id runs into the key
  with ":" (`BuildKeyCollides`).
- The store's cap can be exceeded by concurrent saves (`CapacityIsReached`): it holds in all runs exactly when no two
  saves are under way at once (`CapHoldsIffAlone`).
- The worker refuses some payloads that the API accepted (`FiveRefsAreRefusedLater`, `RefusedExactlyWhen`).
- The formatter calls `fetch` after an abort (`FetchesFollowTheAbort`), each call being rejected before anything is sent:
  not at all exactly when the aborted completion was the third (`AbortIsNotNoticed`).
- The tokens of an ingredient line are not always the consumed tokens followed by those of the name: "2 cups" is named
  "2 cups" (`TwoCupsIsNamedTwoCups`). They are exactly when a token is left for the name (`TokensConserved`).

The comment of the formatter service speaks of exponential backoff between its three attempts; its code has none, and
the model follows the code.

## Model

| member | source | states |
|---|---|---|
| Text.TrimIsUnique | packages/domain/src/schemas/recipe-jsonld.normalizers.ts:4-11 | trimming gives back the only text without white space at its ends that the given one surrounds with white space |
| Text.WhiteSpaceIs | packages/domain/src/schemas/recipe-jsonld.normalizers.ts:4-11 | the white space that is cut off, character by character |
| Text.WordThenGap | packages/domain/src/schemas/recipe-jsonld.normalizers.ts:225-225 | splitting on white space takes a word, any white space after it, and goes on with the rest |
| Text.FirstOccurrencesIsUnique | packages/domain/src/schemas/recipe-jsonld.normalizers.ts:403-431 | same elements, each once, in order of first occurrence: these three properties determine a de-duplicated list |
| Text.DedupKeepsFirstOccurrences | packages/domain/src/schemas/recipe-jsonld.normalizers.ts:403-431 | the de-duplicated list has these properties |
| Json.FirstTextPicksEarliest | packages/domain/src/schemas/canonical-recipe.schema.ts:66-80 | a chain of fallbacks picks the earliest candidate that holds text, trimmed, and fails only when none does |
| Json.NonEmptyStringMatches | packages/domain/src/schemas/recipe-jsonld.normalizers.ts:4-11 | a value is read as text exactly when it is one, and as what is left of it without the white space around it |
| Numbers.ParseWhole | packages/domain/src/schemas/recipe-jsonld.normalizers.ts:19-48 | a text of digits parses to their value |
| Numbers.ParseFraction | packages/domain/src/schemas/recipe-jsonld.normalizers.ts:36-44 | n/d with d different from 0 parses to the exact quotient |
| Numbers.ParseMixed | packages/domain/src/schemas/recipe-jsonld.normalizers.ts:25-34 | w, any white space, n/d with d different from 0 parses to the exact sum |
| Numbers.NatRoundTrip | packages/domain/src/schemas/recipe-jsonld.normalizers.ts:86-92 | printing a natural number in decimal and reading it gives it back |
| Numbers.RoundIsNearest | packages/domain/src/schemas/recipe-jsonld.normalizers.ts:68-68 | rounding gives n exactly for the numbers from n - 0.5 up to, but not including, n + 0.5 |
| NumberGrammar.ToNumberMatchesGrammar | packages/domain/src/schemas/recipe-jsonld.normalizers.ts:46-47 | `Number` accepts exactly the literals of the grammar (decimal with an optional sign, point and exponent, or in base 16, 8 or 2), with their value |
| NumberGrammar.ScaleMovesThePoint | packages/domain/src/schemas/recipe-jsonld.normalizers.ts:46-47 | an exponent k appends k zeros, a negative one moves the point to the left |
| NumberGrammar.RadixRoundTrip | packages/domain/src/schemas/recipe-jsonld.normalizers.ts:46-47 | the digits of n in a base up to 16 are read as n |
| NumberGrammar.ParseMatchesGrammar | packages/domain/src/schemas/recipe-jsonld.normalizers.ts:19-48 | a text is a number exactly when, trimmed and with its first comma as a point, it is a literal, a fraction or a mixed number |
| NumberGrammar.NonNegativeIntegerMatches | packages/domain/src/schemas/recipe-jsonld.normalizers.ts:62-69 | a value holds the whole number n exactly when it holds or spells a number from zero up that rounds to n |
| Durations.FirstCommaToPoint | packages/domain/src/schemas/recipe-jsonld.normalizers.ts:20-20 | the first comma, and only that, becomes a point |
| Durations.IsoMatchesGrammar | packages/domain/src/schemas/recipe-jsonld.normalizers.ts:15-15 | the ISO pattern matches a text with days, hours and minutes exactly when the text has that form in the grammar (the day, hour and minute part of the durations of Appendix A of RFC 3339) |
| Durations.HourMatchesGrammar | packages/domain/src/schemas/recipe-jsonld.normalizers.ts:16-16 | the hour pattern matches exactly the texts of its grammar, with the same two numbers |
| Durations.MinuteMatchesGrammar | packages/domain/src/schemas/recipe-jsonld.normalizers.ts:17-17 | the same for the minute pattern |
| Durations.GrammarsDisjoint | packages/domain/src/schemas/recipe-jsonld.normalizers.ts:86-107 | no text belongs to two of the three grammars, so the order in which they are tried does not matter |
| Durations.IsoMinutes | packages/domain/src/schemas/recipe-jsonld.normalizers.ts:86-92 | every text of the ISO grammar yields 1440 d + 60 h + m |
| Durations.HourMinutes | packages/domain/src/schemas/recipe-jsonld.normalizers.ts:94-99 | every text of the hour grammar yields the integer nearest to the total of its decimal hours and minutes, halves upwards |
| Durations.MinuteMinutes | packages/domain/src/schemas/recipe-jsonld.normalizers.ts:101-107 | every text of the minute grammar yields the integer nearest to its decimal minutes |
| Durations.MinutesNonNegative | packages/domain/src/schemas/recipe-jsonld.normalizers.ts:71-108 | whatever the value, a duration is a non-negative integer or absent |
| Durations.MinutesExactly | packages/domain/src/schemas/recipe-jsonld.normalizers.ts:71-108 | for every value and n: it is read as n minutes exactly when it holds a number from zero up that rounds to n, or, trimmed, is a text of one of the three grammars that is worth n |
| Durations.IsoRoundTrip | packages/domain/src/schemas/recipe-jsonld.normalizers.ts:86-92 | for all d, h, m the printed P{d}DT{h}H{m}M is read as 1440 d + 60 h + m |
| Durations.WordRoundTrip | packages/domain/src/schemas/recipe-jsonld.normalizers.ts:94-107 | the printed word forms are read as their total |
| IngredientLines.ParseIngredientLine | packages/domain/src/schemas/recipe-jsonld.normalizers.ts:219-246 | the left-to-right code with its moving index computes the specification `ReadLine` |
| IngredientLines.LineExactly | packages/domain/src/schemas/recipe-jsonld.normalizers.ts:219-246 | for every line that is not blank: the quantity is the number its first two tokens, or else its first one, spell, the unit the one that the next token spells, the name the rest, or the whole line when nothing is left |
| IngredientLines.TokensConserved | packages/domain/src/schemas/recipe-jsonld.normalizers.ts:219-246 | for every line that is not blank: the tokens of the line are the tokens taken for quantity and unit followed by the tokens of the name exactly when a token is left for the name; else the name is the whole line; the name is never empty |
| IngredientLines.TwoCupsIsNamedTwoCups | packages/domain/src/schemas/recipe-jsonld.normalizers.ts:237-237 | "2 cups" is quantity 2, unit cup and name "2 cups" |
| IngredientLines.UnitSpellings | packages/domain/src/schemas/recipe-jsonld.normalizers.ts:165-197 | a token is read as a unit exactly when it spells one of its keys: in any case, with marks of `()[].` anywhere and any commas behind |
| IngredientLines.KnownSpelling | packages/domain/src/schemas/recipe-jsonld.normalizers.ts:165-197 | every key of the unit table, in any case, is recognised as its canonical unit |
| IngredientLines.UnitFamilies | packages/domain/src/schemas/recipe-jsonld.normalizers.ts:165-187 | every canonical unit is a spelling of itself, and plurals and short forms of their unit |
| IngredientLines.MeasureLeads | packages/domain/src/schemas/recipe-jsonld.normalizers.ts:199-217 | a printed whole, fraction or mixed quantity before a unit is consumed entirely, and nothing after it |
| IngredientLines.LineRoundTrip | packages/domain/src/schemas/recipe-jsonld.normalizers.ts:219-246 | any number in one or two tokens, any spelling of a unit and a name are read back as the exact number, the canonical unit and the name |
| IngredientLines.PrintedLineRoundTrip | packages/domain/src/schemas/recipe-jsonld.normalizers.ts:219-246 | in particular a printed whole number, fraction or mixed number |
| IngredientLines.TwoCupsFlour | packages/domain/src/schemas/recipe-jsonld.normalizers.ts:189-197 | "2 Cups flour" is 2, cup and "flour" |
| IngredientLines.SingleSpacedName | packages/domain/src/schemas/recipe-jsonld.normalizers.ts:237-237 | the names that `LineRoundTrip` asks for are the words joined by single spaces |
| Lists.RunsAndSinglesAgree | packages/domain/src/schemas/recipe-jsonld.normalizers.ts:419-431 | splitting on runs of delimiters and splitting on each delimiter give the same entries once blank ones are dropped |
| Lists.StringAndArrayAgree | packages/domain/src/schemas/recipe-jsonld.normalizers.ts:403-431 | for items without ',' and ';' the list read from the joined text is the list read from the array |
| ListEntries.StringArrayExactly | packages/domain/src/schemas/recipe-jsonld.normalizers.ts:403-417 | an array is read as the trimmed texts of its entries, each once, ordered by first position, and absent exactly when it has none |
| ListEntries.StringListExactly | packages/domain/src/schemas/recipe-jsonld.normalizers.ts:419-431 | a text is read as its trimmed pieces between delimiters, in the same way |
| Lists.StringListIsClean | packages/domain/src/schemas/recipe-jsonld.normalizers.ts:403-431 | both readers give trimmed, non-empty, distinct entries, at least one |
| Lists.CleanListIsFixed | packages/domain/src/schemas/recipe-jsonld.normalizers.ts:403-431 | such a list is read back unchanged |
| Lists.EnumValuesAreAllowed | packages/domain/src/schemas/recipe-jsonld.normalizers.ts:433-461 | enum readers give allowed keys only, distinct ones |
| ListEntries.EnumValueExactly | packages/domain/src/schemas/recipe-jsonld.normalizers.ts:433-447 | a value is read as a key exactly when the key is allowed and the text is written for it: in any case, with one run of white space or hyphens for each underscore |
| ListEntries.EnumValuesExactly | packages/domain/src/schemas/recipe-jsonld.normalizers.ts:449-461 | a list of keys holds those its entries are written for, each once, by first position |
| Lists.EnumListIsFixed | packages/domain/src/schemas/recipe-jsonld.normalizers.ts:449-461 | a list of distinct allowed keys is read back unchanged |
| Schemas.EntryListResult | packages/domain/src/schemas/canonical-recipe.schema.ts:47-106 | a list reader whose entries are good, and that keeps good entries, yields an accepted list of good entries or nothing, and leaves such a list alone |
| Validators.RuleExactly | packages/domain/src/schemas/canonical-recipe.schema.ts:13-33 | a property schema accepts exactly the values that its kind has a result for, and gives that result: the value itself, or the text or number read from it |
| Validators.ObjectExactly | packages/domain/src/schemas/canonical-recipe.schema.ts:35-43 | an object schema gives exactly the record with its own properties, each as its property schema says, and adds none that is `undefined` |
| Validators.ListExactly | packages/domain/src/schemas/canonical-recipe.schema.ts:103-106 | a list is accepted exactly when every entry is, and each becomes what it becomes alone |
| Validators.IngredientAccepted | packages/domain/src/schemas/canonical-recipe.schema.ts:35-43 | of an ingredient only a short or missing name, an order that is no counting number and a flag that is none are refused |
| Validators.InstructionAccepted | packages/domain/src/schemas/canonical-recipe.schema.ts:108-112 | a canonical instruction is accepted exactly with a non-empty text and a counting number as order, one in JSON-LD terms with texts and a known type, all optional |
| Validators.AuthorAccepted | packages/domain/src/schemas/canonical-recipe.schema.ts:189-192 | an author is accepted exactly when the type is absent or one of two, and in JSON-LD terms the name a text or absent |
| Validators.NutritionAndRatingAccepted | packages/domain/src/schemas/recipe-jsonld.schema.ts:118-143 | nutrition in JSON-LD terms takes texts alone, a rating numbers alone, canonical nutrition any object |
| Validators.TextListsAccepted | packages/domain/src/schemas/canonical-recipe.schema.ts:233-248 | lists of keys are accepted exactly when all entries are allowed keys, lists of texts when all are texts, images also as one text |
| CanonicalRecipe.SchemaIsTotal | packages/domain/src/schemas/canonical-recipe.schema.ts:250-300 | for every JSON value the preprocessed value satisfies the inner schema and the result is a canonical record, so the `{}` fallback is never taken |
| CanonicalRecipe.FixedIffCanonical | packages/domain/src/schemas/canonical-recipe.schema.ts:271-296 | normalising leaves a value unchanged exactly when it is a canonical record, described without the normaliser |
| CanonicalRecipe.NormalizationIsIdempotent | packages/domain/src/schemas/canonical-recipe.schema.ts:405-408 | normalising twice is normalising once, for every JSON value |
| RecipeJsonLd.SchemaIsTotal | packages/domain/src/schemas/recipe-jsonld.schema.ts:211-295 | the JSON-LD schema accepts every JSON value and yields a record from which nothing more can be derived |
| RecipeJsonLd.FixedIffRecord | packages/domain/src/schemas/recipe-jsonld.schema.ts:244-291 | a value is unchanged exactly when it is such a record |
| RecipeJsonLd.NormalizationIsIdempotent | packages/domain/src/schemas/recipe-jsonld.schema.ts:297-300 | normalising twice is normalising once, through derived times, servings, labels and ingredients |
| RecipeSources.FlatMapSelects | packages/domain/src/schemas/canonical-recipe.schema.ts:52-100 | a reader with at most one result per entry only drops entries: the results are those of increasing positions, all others gave none |
| RecipeSources.IngredientsKeepOrder | packages/domain/src/schemas/canonical-recipe.schema.ts:47-101 | the ingredients of a canonical recipe are the usable entries of the input in their order, each read with its position, and absent when there is none |
| RecipeSources.InstructionsKeepOrder | packages/domain/src/schemas/canonical-recipe.schema.ts:116-149 | the same for the instructions |
| RecipeSources.NameFallsBack | packages/domain/src/schemas/canonical-recipe.schema.ts:66-80 | an ingredient is named by the first of name, ingredient, line, text (and raw) that holds text |
| CanonicalReadings.CookTimeFallsBack | packages/domain/src/schemas/canonical-recipe.schema.ts:274-274 | the cooking time is the given one, or else the total time, rounded to the nearest integer; absent when neither holds a number from zero up |
| CanonicalReadings.TextsAreRead | packages/domain/src/schemas/canonical-recipe.schema.ts:12-12 | name, description, yield label and cuisine are the trimmed texts given for them |
| CanonicalReadings.NumbersAreRead | packages/domain/src/schemas/canonical-recipe.schema.ts:16-33 | servings are the given number above zero, rounded and at least one; preparation minutes the given number from zero up, rounded |
| CanonicalReadings.KeysAreRead | packages/domain/src/schemas/canonical-recipe.schema.ts:208-213 | difficulty and budget are the allowed keys the texts are written for |
| CanonicalReadings.KeyListsAreRead | packages/domain/src/schemas/canonical-recipe.schema.ts:215-223 | so are the entries of categories and attributes |
| CanonicalReadings.TextListsAreRead | packages/domain/src/schemas/canonical-recipe.schema.ts:225-230 | keywords are the entries of the text or array, each once, by first position; an image is a text, or else such a list |
| CanonicalReadings.AuthorIsRead | packages/domain/src/schemas/canonical-recipe.schema.ts:180-206 | an author is a name, or a record of a name and a type, the latter under either of its two properties |
| CanonicalReadings.NutritionIsRead | packages/domain/src/schemas/canonical-recipe.schema.ts:160-178 | nutrition holds the six texts, those there are, and is absent when none is |
| CanonicalReadings.IngredientExactly | packages/domain/src/schemas/canonical-recipe.schema.ts:52-98 | an entry is an ingredient exactly when it is text or one of five properties is; its name, raw text, number, unit, note, flag and position are those of the properties named, in their order of preference |
| CanonicalReadings.InstructionExactly | packages/domain/src/schemas/canonical-recipe.schema.ts:121-146 | the same for instructions: text or name, rounded duration, position |
| JsonLdReadings.TimesAddUp | packages/domain/src/schemas/recipe-jsonld.schema.ts:254-262 | explicit minutes, rounded, win over duration texts, and a total that is not given is the sum of the other two, a missing one counting as zero |
| JsonLdReadings.InstructionsFallBack | packages/domain/src/schemas/recipe-jsonld.schema.ts:247-247 | the instructions are the usable entries of `instructions`, in their order, when there is one, else those of `recipeInstructions`; absent only when neither has one |
| JsonLdReadings.PlainRecipeHasInstructions | packages/domain/src/schemas/recipe-jsonld.schema.ts:247-247 | a recipe with nothing but `recipeInstructions` "Mix" has that step |
| JsonLdReadings.IngredientsFallBack | packages/domain/src/schemas/recipe-jsonld.schema.ts:248-249 | the ingredients are the usable entries of `ingredients`, else the lines of `recipeIngredient` |
| JsonLdReadings.ServingsAreRead | packages/domain/src/schemas/recipe-jsonld.schema.ts:171-193 | servings are the given number above zero, rounded and at least one, else that of the yield: a number, or a text that is a decimal number alone or before white space and a label of one line |
| JsonLdReadings.LabelIsRead | packages/domain/src/schemas/recipe-jsonld.schema.ts:195-209 | the label is the given one, else the one in the yield, else the whole yield text |
| JsonLdReadings.TextsAreRead | packages/domain/src/schemas/recipe-jsonld.schema.ts:20-20 | the text properties are the trimmed texts given for them |
| JsonLdReadings.TypeIsRead | packages/domain/src/schemas/recipe-jsonld.normalizers.ts:381-391 | the type is "Recipe" when that is given, alone or in a list |
| JsonLdReadings.YieldIsRead | packages/domain/src/schemas/recipe-jsonld.normalizers.ts:393-399 | a yield is kept as a number or as trimmed text |
| JsonLdReadings.KeysAreRead | packages/domain/src/schemas/recipe-jsonld.schema.ts:69-74 | difficulty and budget are the allowed keys the texts are written for |
| JsonLdReadings.KeyListsAreRead | packages/domain/src/schemas/recipe-jsonld.schema.ts:76-84 | so are the entries of categories and attributes |
| JsonLdReadings.TextListsAreRead | packages/domain/src/schemas/recipe-jsonld.schema.ts:159-167 | the lines are the texts of the array, each once, by first position; an image is a text, or else such a list |
| JsonLdReadings.AuthorIsRead | packages/domain/src/schemas/recipe-jsonld.normalizers.ts:325-354 | an author is a name, or a record of a name and a type |
| JsonLdReadings.NutritionIsRead | packages/domain/src/schemas/recipe-jsonld.normalizers.ts:296-323 | nutrition holds the six texts, those there are, and is absent when none is |
| JsonLdReadings.RatingIsRead | packages/domain/src/schemas/recipe-jsonld.normalizers.ts:356-379 | a rating holds the two numbers, those there are, and is absent when neither is |
| JsonLdReadings.IngredientExactly | packages/domain/src/schemas/recipe-jsonld.normalizers.ts:253-291 | an entry is an ingredient exactly when it is a line with text or one of four properties is text; a line gives its parts, a record the properties named, in their order of preference |
| JsonLdReadings.InstructionExactly | packages/domain/src/schemas/recipe-jsonld.normalizers.ts:125-152 | an entry is a step exactly when it is text, or its text or name is; sections keep their type |
| RecipeSources.YieldRoundTrip | packages/domain/src/schemas/recipe-jsonld.schema.ts:169-209 | a yield of a whole or decimal number, any white space and a label is read back as the nearest integer (at least one, none for zero) and the label, and kept |
| JobLifecycle.StepKeepsInv | src/worker/processor.ts:121-257 | every step of every process keeps the invariant: one outstanding flag query while in flight and none otherwise, the monitor stopped after the end, one live attempt exactly while the job is active, all earlier attempts ordinary failures |
| JobLifecycle.RunKeepsInv | src/worker/processor.ts:303-356 | so the invariant holds in every state of every run |
| JobLifecycle.CallerSees | src/infrastructure/bullmq/queue-manager.ts:70-91 | at each of its steps a caller goes on exactly for the reported states the code lets through, and no step of one caller moves another |
| JobLifecycle.NothingIsHeldBack | src/worker/processor.ts:121-257 | in every reachable state a live attempt has a next step in its phase, ticks and signals are possible past loading, an outstanding query can be served or answered, and the flag can expire |
| JobLifecycle.StepMoves | src/worker/processor.ts:157-257 | an attempt moves through its phases by exactly these steps: loading, extraction, the gate when not aborted, the formatter, the record |
| JobLifecycle.FlaggedExactlyWhen | src/infrastructure/bullmq/cancellation/cancellation-monitor.ts:11-20 | in every run the flag is written exactly when a caller has written it and it has not expired since |
| JobLifecycle.GoneExactlyWhen | src/infrastructure/bullmq/interfaces/queue-operations.ts:32-42 | in every run the job is gone exactly when a caller removed it or the queue evicted it |
| JobLifecycle.OutcomeIsFinal | src/worker/processor.ts:234-257 | in every run the outcome of an attempt that has ended is the same in all later states, whatever replies, ticks, signals and queue steps follow |
| JobLifecycle.NoQueryAfterStop | src/worker/processor.ts:317-353 | in every run one query is outstanding while `inFlight` and none otherwise, and once the monitor is stopped or the controller aborted it never sends another |
| JobLifecycle.StepAsksExactlyWhen | src/worker/processor.ts:325-352 | a step sends a flag query exactly when it is a tick of a monitor that is not stopped, not aborted and has none outstanding, in whatever phase past loading, or when it starts the monitor of an attempt not aborted yet |
| JobLifecycle.QueriesStartOnlyWhenActive | src/worker/processor.ts:325-330 | in particular no query starts in any other monitor |
| JobLifecycle.StepStopsExactlyWhen | src/worker/processor.ts:317-351 | a monitor stops exactly when its attempt ends, a positive answer comes in, or the signal aborts the controller |
| JobLifecycle.StoppedOnlyWhen | src/worker/processor.ts:317-353 | in every run a monitor is stopped only when its controller is aborted or its attempt has ended |
| JobLifecycle.FlaggedTickCancels | src/worker/processor.ts:325-350 | a tick of an idle monitor sends a query in every phase; when it is served while the flag is written and answered before extraction returns or throws or the formatter throws, the attempt ends "canceled" |
| JobLifecycle.OutcomeExactlyWhen | src/worker/processor.ts:181-242 | in every run an attempt has an outcome exactly when a step gave it: finished when the formatter returned, failed with the message of the error thrown while not aborted or while loading, else canceled |
| JobLifecycle.RecordedExactlyWhen | src/worker/processor.ts:234-241 | a failure leads to another attempt exactly while fewer than the configured number were made, and fails the job with its message otherwise; a finished attempt completes it, a canceled one fails it as "canceled" |
| JobLifecycle.ReportedExactlyWhen | src/infrastructure/bullmq/interfaces/queue-operations.ts:53-66 | in every run a job reports running exactly while an attempt is live, done exactly when the last one finished, queued exactly before the first and between two |
| JobLifecycle.ContainsExactlyWhen | src/infrastructure/bullmq/interfaces/queue-operations.ts:53-66 | a reason contains a word when it is some text, the word, and some text |
| JobLifecycle.AbortedBeforeGateIsCanceled | src/worker/processor.ts:181-242 | in every run an attempt aborted before the formatting gate never finishes, is the last attempt, and the job reports "canceled" from then on until it is evicted |
| JobLifecycle.AnsweredPollCancels | src/worker/processor.ts:325-353 | any query under way and not served yet while the flag is written (the first of an attempt, one of the timer, one sent before the flag), once answered before the gate, has that effect |
| JobLifecycle.AbortedExactlyWhen | src/worker/processor.ts:294-353 | in every run the controller of an attempt is aborted exactly when the queue's signal has reached it, before or after loading, or a query has been answered with "canceled" |
| JobLifecycle.PositiveExactlyWhen | src/infrastructure/bullmq/cancellation/cancellation-monitor.ts:11-20 | in every run such an answer is on its way exactly when the query was served while the flag was written and is not answered yet |
| JobLifecycle.StepCancels | src/worker/processor.ts:181-242 | a step cancels an attempt that has not ended exactly when the attempt is the last one, aborted, and extraction returns or throws or the formatter throws |
| JobLifecycle.CanceledByStop | src/worker/processor.ts:181-242 | in every run an attempt has ended "canceled" exactly when such a step was taken |
| JobLifecycle.CanceledExactlyWhen | src/worker/processor.ts:121-257 | in every run an attempt has ended "canceled" exactly when the signal reached it, or a query served while the flag was written was answered, before extraction returned or threw or the formatter threw |
| JobLifecycle.ReportedCanceledExactlyWhen | src/infrastructure/bullmq/interfaces/queue-operations.ts:53-66 | in every run a job reports "canceled" exactly when its last attempt was canceled, or it failed for good with an error whose message contains that word |
| JobLifecycle.FinishedPassedTheGate | src/worker/processor.ts:181-186 | an attempt that finished passed the gate at a moment when it was not aborted |
| JobLifecycle.RetriesFollowFailures | src/worker/processor.ts:234-241 | attempts are repeated only after ordinary failures and never more often than configured |
| JobLifecycle.AnswersAreBacked | src/infrastructure/bullmq/queue-manager.ts:70-91 | `cancel` answers true only to a caller that removed the job or wrote the flag after seeing it active |
| JobLifecycle.RemovedForever | src/infrastructure/bullmq/interfaces/queue-operations.ts:32-42 | once a caller removed the job no attempt runs and none ever starts again |
| JobLifecycle.NoCauseNoCancellation | src/worker/processor.ts:294-301 | without a written flag and without the queue's signal no attempt is aborted or canceled |
| JobLifecycle.FlaggedJobMayComplete | src/infrastructure/bullmq/queue-manager.ts:84-87 | a run in which `cancel` answered true and the job completed: the flag came after the last poll |
| JobLifecycle.RefusedWhileCancelable | src/infrastructure/bullmq/queue-manager.ts:78-90 | in every run a caller answered while the job is waiting, delayed or active is refused exactly when it read a queued state and the job is active (it was picked up since) or its removal call fails |
| JobLifecycle.RefusedWhileActive | src/infrastructure/bullmq/queue-manager.ts:78-90 | in every run a caller answered while the job is active is refused exactly when it read a queued state; otherwise it has written the flag |
| JobLifecycle.LostRace | src/infrastructure/bullmq/queue-manager.ts:78-90 | a run in which `cancel` is refused while the job is active and not flagged |
| JobLifecycle.RemovedAfterCompletion | src/infrastructure/bullmq/interfaces/queue-operations.ts:32-42 | a run in which `cancel` answers true for a job that completed meanwhile |
| JobLifecycle.RemovedEndedExactlyWhen | src/infrastructure/bullmq/interfaces/queue-operations.ts:32-42 | in every run a successful removal meets a job that has ended exactly when the end was recorded after the caller's queued read and the job is not evicted, and a completed one exactly when the recorded attempt had finished |
| JobLifecycle.RemovalReadQueued | src/infrastructure/bullmq/queue-manager.ts:78-82 | in every run a caller that removes has read a queued state before |
| JobLifecycle.CancelAlone | src/infrastructure/bullmq/queue-manager.ts:70-91 | a caller without interference removes a queued job, flags an active one and is refused otherwise |
| JobLifecycle.BullMQQueue.Cancel | src/infrastructure/bullmq/queue-manager.ts:70-91 | the code of `cancel` takes exactly the steps of such a caller |
| JobLifecycle.BullMQQueue.RemoveJob | src/infrastructure/bullmq/interfaces/queue-operations.ts:32-42 | removal succeeds exactly for a job that exists and is not active |
| JobLifecycle.BullMQQueue.CancelJob | src/application/use-cases/cancel-job.use-case.ts:18-42 | without interference the use case reports "canceled" exactly for queued jobs, which it removes, and active ones, which it flags, and otherwise the unchanged status of an unchanged job |
| JobLifecycle.AttemptRun.constructor | src/worker/processor.ts:137-155 | forwarding the signal and the first check are the model's start of an attempt |
| JobLifecycle.AttemptRun.Follow | src/worker/processor.ts:157-355 | through the rest of any run, the object driven by the worker's methods (ticks, answers, signal, gate, catch and finally) ends in the state of its attempt |
| Subscriptions.SidesAgree | src/api/setup-ws.ts:82-160 | in every state of every run the bridge lists a closure for a job exactly when an authenticated connection maps the job to it; that connection is unique, the closure is listed once, no empty set is stored |
| Subscriptions.StepKeepsInv | src/api/setup-ws.ts:82-173 | every message, overlapping login, error and close keeps the two sides in agreement |
| Subscriptions.SubscribedExactlyWhen | src/api/setup-ws.ts:115-173 | in every run a connection is subscribed to a job exactly when it sent the subscribe message and no unsubscribe message, error or close followed |
| Subscriptions.SubscribeListsOne | src/api/setup-ws.ts:116-125 | the first subscribe message adds one new closure to both sides, listed last for the job with the connection's user; a repeated one changes nothing; nothing else changes |
| Subscriptions.OpenExactlyWhen | src/api/setup-ws.ts:61-64 | in every run a socket is open exactly from its connection on until a side closes it |
| Subscriptions.LoggedInExactlyWhen | src/api/setup-ws.ts:101-112 | in every run a connection acts for the user of the last accepted login |
| Subscriptions.EachLoginIsAnsweredOnce | src/api/setup-ws.ts:94-113 | in every run the pending logins are those received and not answered yet |
| Subscriptions.RegisteredExactlyWhen | src/api/setup-ws.ts:79-90 | in every run the registry holds a connection exactly until its first error or close |
| Subscriptions.FirstSubscriber | src/api/setup-ws.ts:92-125 | a run from the connection over the login to the subscription, after which the closure is listed for that user |
| Subscriptions.ClosedIsGone | src/api/setup-ws.ts:82-90 | from a close event on, whatever follows, none of that connection's closures is listed |
| Subscriptions.ErroredIsGone | src/api/setup-ws.ts:172-173 | from an error event on, whatever else happens, none of that connection's closures is listed until it subscribes again |
| Subscriptions.CleanupTwice | src/api/setup-ws.ts:172-173 | after an error event none is listed, and a second cleanup changes nothing |
| Subscriptions.UnsubscribeUndoesSubscribe | src/api/setup-ws.ts:115-162 | unsubscribing right after a first subscription restores both sides |
| Subscriptions.ExactlyOnce | src/infrastructure/bullmq/queue-events-bridge.ts:71-82 | while handlers run between the calls of one dispatch and some calls throw, every connection gets the event at most once; one that stays subscribed and open gets it exactly once, unless its own call throws, whatever the others do; and only connections subscribed when it arrived get it |
| Subscriptions.SubscriberGetsEvent | src/api/setup-ws.ts:115-125 | after a subscribe message, while no message ends the subscription and no side closes the socket, every event reaches the connection exactly once, unless its own call throws |
| Subscriptions.DeliveredCount | src/api/setup-ws.ts:117-122 | a connection gets the event exactly when its listed closure finds the job in the map and the socket open when called, and does not throw |
| Subscriptions.QueueEventsBridge.Dispatch | src/infrastructure/bullmq/queue-events-bridge.ts:71-82 | the loop over the live set object calls the closures listed at the start, each once and in order, whatever changes in between and whichever calls throw, and delivers to the connections of `Delivered` |
| Subscriptions.QueueEventsBridge.AddSubscription | src/infrastructure/bullmq/queue-events-bridge.ts:41-47 | the closure is added to a new set; no set object is written |
| Subscriptions.QueueEventsBridge.RemoveSubscription | src/infrastructure/bullmq/queue-events-bridge.ts:49-61 | the closure, or every closure of the user, is removed from a new set, and an empty set is not stored |
| Subscriptions.WsConnection.OnSubscribe | src/api/setup-ws.ts:115-125 | the handler changes both sides as the model's step: a first message adds one entry to each |
| Subscriptions.WsConnection.OnUnsubscribe | src/api/setup-ws.ts:154-162 | the same for unsubscribing: afterwards neither side has the closure |
| Subscriptions.WsConnection.CleanupConnection | src/api/setup-ws.ts:82-90 | the cleanup loop removes exactly the closures of the connection's map |
| JobInputs.RetryFindsInput | src/worker/processor.ts:242-257 | in every run an attempt that enters its try block finds the input exactly when every attempt that entered it before failed to unlink the file and nobody else deleted it; so, if unlinking works and nobody interferes, exactly when all earlier attempts failed while loading |
| JobInputs.PresentUntilDeleted | src/worker/processor.ts:244-256 | in every run the input is there exactly while no finally block and nobody else has deleted it |
| JobInputs.OthersTakeDeletedOrExpired | src/infrastructure/temp-input-store.ts:38-75 | others take it only by an explicit delete of that file or in a cleanup that finds it older than the TTL |
| JobInputs.RetryLosesInput | src/worker/processor.ts:234-257 | a run in which the first attempt throws and the second starts without its input, though nobody else used the store |
| JobInputs.PartsAreApart | src/worker/processor.ts:242-257 | the steps of the job leave the store alone and the store leaves the job alone; only the finally block touches both |
| TempInputStore.Capacity | src/infrastructure/temp-input-store.ts:93-119 | in every run with at most k saves between listing and write, each of at most S bytes, stored plus accepted bytes are at most the cap plus (k - 1) S, for k = 1 the cap, or what an earlier process left if that was more |
| TempInputBound.CapacityIsReached | src/infrastructure/temp-input-store.ts:20-28 | for every k and every S from one byte to the cap, some run from an empty directory with at most k saves under way, none larger than S, stores the cap plus (k - 1) S |
| TempInputBound.CapHoldsIffAlone | src/infrastructure/temp-input-store.ts:93-98 | the cap holds in all runs exactly when no two saves are under way at once |
| TempInputStore.StepKeepsInv | src/infrastructure/temp-input-store.ts:93-119 | every step keeps: what a scan has missed are at most the saves that were under way when it listed the directory |
| TempInputStore.FreshFilesSurvive | src/infrastructure/temp-input-store.ts:49-75 | in every run a file no older than the TTL survives every step of every cleanup |
| TempInputStore.CleanupUnlinksExpired | src/infrastructure/temp-input-store.ts:49-75 | a cleanup lists every file, unlinks exactly those it finds older than the TTL, and touches no other |
| TempInputStore.TimePasses | src/infrastructure/temp-input-store.ts:20-28 | in every run the clock moves by the elapsed time alone, and a written file carries the time of its write |
| TempInputStore.ManagedFileTempInputStore.GetCurrentSize | src/infrastructure/temp-input-store.ts:100-119 | the loop computes the sum of the sizes of all files |
| TempInputStore.ManagedFileTempInputStore.Save | src/infrastructure/temp-input-store.ts:20-28 | without interference a save is accepted exactly when it fits, is stored under its name, and never exceeds the cap; a refused one changes nothing |
| TempInputStore.ManagedFileTempInputStore.Cleanup | src/infrastructure/temp-input-store.ts:49-75 | keeps exactly the files that are not older than the TTL |
| Idempotency.CreatedAreEarlyCheckers | src/infrastructure/bullmq/idempotency/idempotency-manager.ts:28-35 | in every interleaving only calls that looked the key up before its first write create a job; once all calls are answered, exactly those |
| Idempotency.LateCallersAreAnswered | src/infrastructure/bullmq/idempotency/idempotency-manager.ts:11-15 | every later call creates nothing and is answered an id that was written before |
| Idempotency.ValueIsLastWritten | src/infrastructure/bullmq/idempotency/idempotency-manager.ts:17-20 | in every interleaving the key holds the id that was written last |
| Idempotency.OneJobWithoutOverlap | src/infrastructure/bullmq/queue-manager.ts:106-119 | calls that do not overlap create at most one job, at any moment |
| Idempotency.OneJobForTheFirst | src/infrastructure/bullmq/queue-manager.ts:106-119 | once all of them are answered exactly one job exists, that of the first call |
| Idempotency.OverlapCreatesTwo | src/infrastructure/bullmq/queue-manager.ts:106-119 | a run in which two overlapping calls both create a job |
| Idempotency.TrySetHasOneWinner | src/infrastructure/bullmq/idempotency/idempotency-manager.ts:22-26 | with SET NX the first caller served wins, no other does, and its id stays |
| Idempotency.BuildKeyCollides | src/infrastructure/bullmq/idempotency/idempotency-manager.ts:37-39 | two requests share a Redis key exactly when they are equal or one user id continues the other with ":" and the start of its key |
| Idempotency.PlainUsersNeverCollide | src/infrastructure/bullmq/idempotency/idempotency-manager.ts:37-39 | user ids without ":" never share a key |
| Idempotency.TwoUsersShareAJob | src/infrastructure/bullmq/idempotency/idempotency-manager.ts:37-39 | user "a" with key "b:c" and user "a:b" with key "c" share a key, and the second is answered the first one's job |
| Idempotency.SameAnswerSameKey | src/infrastructure/bullmq/queue-manager.ts:106-119 | served one after another, two keyed requests are answered the same job exactly when they share the Redis key |
| Idempotency.AnswerIsThatOfTheFirst | src/infrastructure/bullmq/queue-manager.ts:106-119 | served one after another, a request without a key is answered its own id, one with a key that of the first request with the same Redis key |
| Idempotency.IdempotencyManager.TrySetAll | src/infrastructure/bullmq/idempotency/idempotency-manager.ts:22-26 | callers served by `TrySet` one after another get the answers of `TrySets`, the key ends with its value and no other key changes |
| Idempotency.IdempotencyManager.CheckAndSet | src/infrastructure/bullmq/idempotency/idempotency-manager.ts:28-35 | without interference answers what is stored and writes only when nothing is |
| Idempotency.BullMQQueue.EnqueueWithIdempotency | src/infrastructure/bullmq/queue-manager.ts:106-119 | creates a job exactly for a request without key or with an unknown one, and answers the model's id |
| Retry.RequestWithRetry | src/infrastructure/mistral-client.ts:207-273 | for every script the loop makes as many fetches as the position of the first attempt that ends it, at most the maximum, waits the full delays between them, and never reaches its trailing throw |
| Retry.StopIsUnique | src/infrastructure/mistral-client.ts:207-273 | the script determines the number of fetches and the outcome |
| Retry.StopsExactlyAt | src/infrastructure/mistral-client.ts:207-263 | the loop stops after n fetches exactly when the first n - 1 attempts met an error worth retrying and no abort, and the n-th is the last, met another reply, or an abort |
| Retry.RetryableCodes | src/infrastructure/mistral-shared.ts:1-5 | 408, 429 and 500 to 504 but for 501 are worth retrying |
| Retry.LateAbortUsesAll | src/infrastructure/mistral-client.ts:207-263 | while nothing is aborted before the last fetch starts, errors worth retrying use up all attempts |
| Retry.OutcomeOfTheLast | src/infrastructure/mistral-client.ts:219-263 | a good reply is a success even after an abort; another one is reported as its own error without an abort, and as aborted or timed out with one |
| Retry.NoRetryAfterAbort | src/infrastructure/mistral-client.ts:248-263 | no fetch follows an attempt during which, or after which, the signal is aborted |
| Retry.ExhaustedReportsLast | src/infrastructure/mistral-client.ts:219-235 | a retryable error is reported only when all attempts were answered by retryable errors |
| Retry.StartsBeforeAbort | src/infrastructure/mistral-client.ts:190-195 | with replies, waits and the abort placed in time, every fetch after the first starts before the abort |
| Retry.TimeoutBoundsRetries | src/infrastructure/mistral-client.ts:207-263 | a loop of n fetches under a timeout T satisfies b (2^(n-1) - 1) < T: the timeout bounds the retries through the backoff |
| Retry.SucceedsWhen | src/infrastructure/mistral-client.ts:207-247 | the loop succeeds exactly when an attempt within the maximum is answered well before anything ends the loop |
| Retry.DelaysGrow | src/infrastructure/mistral-shared.ts:7-11 | delays start at b and double, the jitter is added; the delay of attempt k is between b 2^(k-1) and that plus the largest jitter, and delays grow strictly |
| Retry.TotalDelayBounds | src/infrastructure/mistral-shared.ts:7-11 | n delays add up to at least b (2^n - 1) and at most n largest jitters more |
| Retry.Extract | src/infrastructure/mistral-ocr-client.ts:358-410 | the code of `extract` makes the requests of the two loops and the final delete, and maps timeouts |
| Retry.OneDeletePerUpload | src/infrastructure/mistral-ocr-client.ts:372-409 | one delete exactly when the upload returned a file, of that file and as the last request; at most 2 max + 1 requests |
| Retry.ExtractReports | src/infrastructure/mistral-ocr-client.ts:358-410 | the outcome is that of the upload when it fails, else that of the OCR loop; a timeout during a wait is reported as a timeout |
| Formatter.Format | src/application/services/recipe-formatter-service.ts:37-59 | the loop returns the first completion that yields a recipe and fails after three that do not |
| Formatter.OnlyInvalidJsonIsRefused | src/application/services/recipe-formatter-service.ts:116-130 | content is refused exactly when it is not JSON, and else yields its canonical recipe: the "Invalid canonical recipe" error is never thrown |
| Formatter.FormattedIsCanonical | packages/domain/src/entities/import-result.ts:35-39 | a formatted recipe is canonical, so normalising it again in the import result changes nothing |
| Formatter.AtMostThreeLoops | src/application/services/recipe-formatter-service.ts:37-59 | at most three times the maximum of one completion is requested |
| Formatter.AbortIsNotNoticed | src/application/services/recipe-formatter-service.ts:43-55 | after an abort during the j-th completion, which yields nothing, `fetch` is called exactly 3 - j more times, rejected each time; so never exactly when j = 3 |
| Formatter.FetchesFollowTheAbort | src/application/services/recipe-formatter-service.ts:43-55 | scripts with which two calls of `fetch` follow an abort during the first one |
| Progress.LayoutIsSound | src/infrastructure/bullmq/progress-state.ts:23-51 | every phase has a step within the layout, and an added formatting step is the last |
| Progress.LayoutFindsSteps | src/infrastructure/bullmq/progress-state.ts:23-51 | each phase stands at the first step of its category; a missing one at the first or second step, a missing formatting step behind the last |
| Progress.ProgressIsSound | src/infrastructure/bullmq/progress-state.ts:69-149 | after any events 0 <= stepIndex < totalSteps, totalSteps is that of the layout, and 0 <= percent <= 100 |
| Progress.StatusIsThatOfTheLast | src/infrastructure/bullmq/progress-state.ts:84-149 | after any events the status is that of the last one: the status itself, or the phase its percentage falls into |
| Progress.StepIsThatOfThePhase | src/infrastructure/bullmq/progress-state.ts:84-149 | the step shown is that of the phase; "pending", "failed", "canceled" and the last checkpoint keep the one shown before |
| Progress.OneMore | src/infrastructure/bullmq/progress-state.ts:84-149 | a checkpoint and "pending" set the percentage, every other event raises it to what it claims |
| Progress.NeverDropsIffInOrder | src/infrastructure/bullmq/progress-state.ts:84-149 | for every event sequence the percentage never drops exactly when no checkpoint and no "pending" follows an event that claims more |
| Progress.InOrderIsLargest | src/infrastructure/bullmq/progress-state.ts:84-149 | in such sequences the percentage is the largest claim so far |
| Progress.PipelinesNeverDrop | packages/pipelines/images/src/runtime.ts:117-132 | the image and text pipelines followed by the formatter never drop, wherever they stop, and end completed at 100 |
| Progress.PipelinesStepForward | packages/pipelines/images/src/meta.ts:37-40 | with their own steps they move forward through the steps and end at the last one |
| Progress.PipelinePercents | packages/pipelines/images/src/runtime.ts:117-132 | the percentages shown after each event: 5, 5, 15, 20, 20, 90, 90, 100 for images and 5, 20, 90, 90, 100 for text |
| Progress.JobProgressTracker.constructor | src/infrastructure/bullmq/progress-state.ts:151-153 | a new tracker has the layout of its steps and no events |
| Progress.JobProgressTracker.SetStatus | src/infrastructure/bullmq/progress-state.ts:156-159 | the tracker holds the progress after all its events, with the bounds above |
| Progress.JobProgressTracker.ReachCheckpoint | src/infrastructure/bullmq/progress-state.ts:160-163 | the same for checkpoints |
| AuthRegistry.StableSortIsStable | src/infrastructure/auth/registry/auth-registry.ts:11-14 | the sort is descending and keeps the order within each priority |
| AuthRegistry.StableSortIsUnique | src/infrastructure/auth/registry/auth-registry.ts:11-14 | these two properties determine the result, whatever sorting algorithm the engine uses |
| AuthRegistry.SortAfterPush | src/infrastructure/auth/registry/auth-registry.ts:25-28 | sorting the sorted list with one more element is sorting the whole insertion sequence |
| AuthRegistry.AddingIsConstructing | src/infrastructure/auth/registry/auth-registry.ts:11-28 | adding strategies one at a time gives the list constructed from all of them |
| AuthRegistry.SelectionIsBest | src/infrastructure/auth/registry/auth-registry.ts:16-23 | the strategy taken is the supporting one of highest priority, inserted first among equals; none exactly when none supports the request |
| AuthRegistry.AuthStrategyRegistry.AddStrategy | src/infrastructure/auth/registry/auth-registry.ts:25-28 | the list stays the stable sort of everything registered |
| AuthRegistry.AuthStrategyRegistry.Authenticate | src/infrastructure/auth/registry/auth-registry.ts:16-23 | the loop selects the best strategy among everything registered |
| AuthRegistry.AuthStrategyRegistry.GetStrategies | src/infrastructure/auth/registry/auth-registry.ts:30-32 | the list given out is the stable sort of everything registered |
| AuthRegistry.AuthStrategyRegistry.constructor | src/infrastructure/auth/registry/auth-registry.ts:11-14 | the list is the stable sort of the given strategies |
| ImagesInput.KeepFirstIsDedup | packages/pipelines/images/src/meta.ts:24-27 | the filter by first `indexOf` is removing repetitions in order |
| ImagesInput.NormalizeKeepsFirst | packages/pipelines/images/src/meta.ts:24-27 | the normalised references are the given ones in order, each once, and normalising them again changes nothing |
| ImagesInput.AcceptedExactlyWhen | packages/pipelines/images/src/meta.ts:4-31 | accepted are exactly the objects with a reference, or a list of one to four, or both, in which everything is text that is not blank |
| ImagesInput.ResultExactly | packages/pipelines/images/src/meta.ts:12-31 | the result are the trimmed references of the list and then the single one, each once, in order of first occurrence |
| ImagesInput.RefsAreClean | packages/pipelines/images/src/meta.ts:4-31 | the schema returns at least one reference, all trimmed, not blank and distinct |
| ImagesInput.SecondValidation | src/worker/processor.ts:176-177 | the worker accepts the stored payload, with the same references, exactly when there are at most four |
| ImagesInput.RefusedExactlyWhen | src/api/routes/import/handler.ts:65-77 | the payloads refused later are those with four different `imageRefs` and an `imageRef` that is none of them |
| ImagesInput.FiveRefsAreRefusedLater | packages/pipelines/images/src/meta.ts:6-31 | a payload that passes the API and fails in the worker |

## Left out

- Floating point: numbers are `real`, so rounding, overflow to Infinity, NaN and negative zero are not modelled.
- Unicode: case mapping is that of ASCII; white space is that of `String.prototype.trim`.
- The unit table is a finite map: keys that JavaScript objects inherit are not units.
- Object properties are a finite set of keys; unknown properties are stripped by both schemas and do not occur.
- Validation error messages and paths, and the wording of errors, except those that decide an outcome.
- JobLifecycle: locks do not expire, so stalled jobs, which BullMQ would run again, do not occur.
- JobInputs: a job with one input reference; what its pipeline does with it, and further image references, are not modelled.
- JobLifecycle.BullMQQueue.CancelJob: one caller without interference; the interleaved callers are those of `System`, which answer without the status read after a refusal.
- Subscriptions: snapshot replies after the await in subscribe, which no subscription guards; `removeAllSubscriptions`, which nothing in the application calls; pings and message parsing.
- TempInputStore: files are written whole, in one step; directory creation; the timer that starts cleanups.
- TempInputStore: every save has a name of its own, as random UUIDs have.
- Idempotency: expiry of the key after its TTL, and Redis or queue calls that fail.
- Retry: headers, bodies and URLs of the requests; `resolve...` functions reading the environment, which give at least one attempt and a base delay of at least one.
- Formatter: prompts and response schema; `JSON.parse` is a parameter.
- Progress: timestamps, and reading stored progress back.
- AuthRegistry: what a strategy does once it is chosen; JWTs.
- ImagesInput: reading files, detecting image formats and the OCR of each image.
- Confidence scores, job logs, HTTP routes and their error formats, rate limits, configuration, the pipeline registry.
