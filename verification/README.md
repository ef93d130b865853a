# Birth-date password generator: a Dafny model of `index.js`

The page script keeps its whole state in one observable cell, `stateAtom`.
The cell holds a snapshot object with the keys `day`, `month`, `year`,
`code`, `showDateModal`, `activateSavePopupButton`,
`dateLoadedeFromLocalStorage` (spelled as in the script) and
`validationError`.

- Each of the four input fields runs `processInput` with its validator. A
  validator is a `bindChain` of small steps over `{ok}`/`{err}` result
  objects.
- A valid value is written into the snapshot. An invalid one is recorded as
  a fresh `validationError` object.
- Watchers react to every new snapshot. The output watcher builds a password
  from the date, laid out year-month-day by `formValidDate`/`convertNumTwo`,
  and the code, whose digits `genPass` uses as 1-based positions in that
  date.
- Three `subs` watchers react only to changes of one key each. They show or
  hide the save popup, focus an input, and colour the copy button.
- At start-up `checkLocalStorage` either replaces the snapshot by a stored
  date or marks the date as not loaded.

The model is split into the same parts as the script:

| module | file | what it models |
|---|---|---|
| `Js` | js.dfy | values, truthiness, property lookup, `Number.parseInt`, comparisons after number coercion, `includes`, `${n}` |
| `Results` | results.dfy | `ok`, `err`, `isOk`, `isErr`, `mapOk`, `flatMapOk`, `bindChain` |
| `Validators` | validators.dfy | `isNumber`, `isGreater`, `isLess`, `isPositive`, `notEmptyStr`, `notContains`, and the four `validateX` chains |
| `Atoms` | atom.dfy | `Atom`: value, ordered watcher list and a log of deliveries |
| `Subscriptions` | subs.dfy | `subs`: the per-key change detector |
| `Derivations` | derive.dfy | `convertNumTwo`, `formValidDate`, `genPass` |
| `App` | app.dfy | the snapshot, `processInput`, the input listeners, `checkLocalStorage`, the four watchers and the page effects they cause |

JavaScript object identity is modelled by an `id` on every object. The page
hands out ids from a counter, so each spread `{...ov}` makes a new object, and
`!==` on values is Dafny's `!=`. String-to-number coercion inside `>=`, `<=`
and `>` is a parameter `toNumber`. The theorems hold for every coercion that
is exact on integer literals, meaning an optional sign followed by ASCII
digits (`Js.CoercesIntegers`).

The model follows the code as written, including its quirks:

- `isOk` tests truthiness. So `ok("")` passes through every chain untouched,
  and `validateDay("")` (and the other three) return `ok("")`.
  `processInput` therefore takes its failure branch for an empty input, with
  an `undefined` message.
- `genPass("19900503", "231")` is `"991"`: digit 2 reads '9', digit 3 reads
  '9', digit 1 reads '1'.
- The code `"231"` never reaches `genPass` from the input field: it is
  rejected with "liczba musi byc powyzej 1000", and the password stays empty.
- `removeWatcher` of a watcher that is not registered removes the last one,
  because of `splice(-1, 1)`.
- `checkLocalStorage` calls `set` with only day, month and year. This drops
  every other key, so the `showDateModal` and `validationError`
  subscriptions do not fire on that snapshot.

## Model

| member | source | states |
|---|---|---|
| Js.NatToString | index.js:116 | `${n}` of a natural number is a non-empty digit string without a leading zero that reads back as n |
| Js.ParseInt | index.js:111 | `parseInt` gives `NaN` or an integral number |
| Js.ParseIntIntegerLiteral | index.js:111 | `parseInt` of an integer literal followed by any non-digit is the literal's exact value, except an `x`/`X` right after the digits "0" |
| Js.ParseIntWithoutDigits | index.js:111 | `parseInt` of a string with no ASCII digit is `NaN` |
| Js.ParseIntSkipsWhiteSpace | index.js:111 | leading white space never changes what `parseInt` reads |
| Js.IncludesChar | index.js:136 | `v.includes(c)` for a one-character `c` holds iff `c` occurs in `v` |
| Js.IntegerCoercionCoercesIntegers | index.js:114-128 | the coercion assumption of the validator theorems can be met |
| Results.IsOk | index.js:54-56 | `isOk` holds exactly for an `ok` with a non-empty payload |
| Results.IsErr | index.js:58-60 | `isErr` holds exactly for an `err` with a non-empty message, and then `isOk` does not |
| Results.MapOk | index.js:62-67 | a non-empty `ok` payload is mapped by `f`; an error or `ok("")` comes back unchanged, so an error result is always the input |
| Results.FlatMapOk | index.js:69-74 | a non-empty `ok` payload is handed to `f`; an error or `ok("")` comes back unchanged |
| Results.BindChain | index.js:76-80 | a result that is no success comes out of `bindChain` unchanged; a successful outcome needs a successful start |
| Results.IsOkMeaning | index.js:54-60 | `isOk` holds exactly for an `ok` with a non-empty payload, `isErr` exactly for an `err` with a non-empty message, never both |
| Results.MapOkIsFlatMap | index.js:62-74 | `mapOk(r, f)` is `flatMapOk(r, v => ok(f(v)))` |
| Results.MapOkCompose | index.js:62-67 | two `mapOk`s are one by the composition when the first function never yields "" |
| Results.MapOkComposeFailsOnEmpty | index.js:62-67 | the composition law fails once the first function yields "" |
| Results.FlatMapOkLaws | index.js:69-74 | `ok` is a right identity of `flatMapOk`, and `flatMapOk` is associative |
| Results.FlatMapOkLeftIdentity | index.js:69-74 | `flatMapOk(ok(v), f)` is `f(v)` for non-empty v and `ok("")` for v = "" |
| Results.BindChainAppend | index.js:76-80 | chaining over `a ++ b` is chaining over `a`, then over `b` |
| Results.BindChainShortCircuit | index.js:76-80 | once a prefix of the chain yields no success, the final result is that result |
| Results.BindChainIsFirstFailure | index.js:76-80 | on a non-empty input whose steps keep or fail, `bindChain` is the first failing step's result, or the input |
| Validators.IsNumber | index.js:110-112 | the input back iff `parseInt` gives a truthy number, otherwise "liczby sa oczekiwane" |
| Validators.IsGreater | index.js:114-118 | for every input: the input back iff it coerces to at least n, otherwise the `powyzej n` message |
| Validators.IsLess | index.js:120-124 | for every input: the input back iff it coerces to at most n, otherwise the `ponizej n` message |
| Validators.IsPositive | index.js:126-128 | for every input: the input back iff it coerces above 0, otherwise "musi byc dodatnia" |
| Validators.NotEmptyStr | index.js:130-132 | the input back iff it is non-empty, otherwise "nie moze byc puste" |
| Validators.NotContains | index.js:134-138 | for every input: the input back iff it does not include s, otherwise the `nie moze zawierac: s` message |
| Validators.StepsKeepOrFail | index.js:110-162 | every step of the four chains hands its input back as `ok` or fails |
| Validators.ValidateDay | index.js:140-142 | "" gives `ok("")`; any other input gives the first failure of the chain, or the input back |
| Validators.ValidateMonth | index.js:144-146 | as for the day, with the month's chain |
| Validators.ValidateYear | index.js:148-150 | as for the day, with the year's chain |
| Validators.ValidateCode | index.js:152-162 | as for the day, with the code's chain |
| Validators.RenderedMessages | index.js:114-138 | the messages with `${n}` and `${s}` rendered as the templates render them |
| Validators.EmptyInputPassesThrough | index.js:140-162 | all four validators return `ok("")` for "", and that is no success |
| Validators.IsNumberRejectsZero | index.js:110-112 | `isNumber("0")` fails with "liczby sa oczekiwane" |
| Validators.IsNumberRejectsNoDigit | index.js:110-112 | `isNumber` fails on every string without an ASCII digit |
| Validators.IntegerLiteralSteps | index.js:110-132 | on an integer literal each step decides by the literal's value |
| Validators.DayOnIntegerLiterals | index.js:140-142 | accepted iff 1 <= d <= 31; otherwise the message of the first failing step (0, negative, above 31) |
| Validators.MonthOnIntegerLiterals | index.js:144-146 | accepted iff 1 <= d <= 12; `isGreater(0)` is what rejects a negative literal |
| Validators.YearOnIntegerLiterals | index.js:148-150 | accepted iff d >= 1950; 0 and values below 1950 carry their messages |
| Validators.CodeForbiddenDigits | index.js:152-162 | a code containing '9' fails with the '9' message; containing '0' but no '9', with the '0' message |
| Validators.CodeOnDigitStrings | index.js:152-162 | a non-empty digit string is accepted, unchanged, iff it has four characters over '1'..'8' |
| Validators.CodeOverOneToEight | index.js:152-162 | over '1'..'8', shorter than four is below 1000, longer is above 9999 |
| Validators.CodeOnLiteral | index.js:152-162 | a literal without '0' and '9' is decided by its value against 1000 and 9999 |
| Validators.CodeExamples | index.js:152-162 | "2314" is accepted, "231" is rejected as below 1000 |
| Atoms.NewAtom | index.js:1-3 | a new atom holds its initial value, with no watchers and nothing delivered |
| Atoms.Notify | index.js:11 | `forEach` calls each watcher once, in registration order, with the value |
| Atoms.Set | index.js:14-20 | a different value is stored and delivered to every watcher once; an identical one changes nothing |
| Atoms.Update | index.js:6-13 | `update(f)` behaves as `set(f(value))` |
| Atoms.AddWatcher | index.js:21 | the watcher is appended; value and log are untouched |
| Atoms.IndexOf | index.js:23 | -1 iff absent, otherwise the first position |
| Atoms.SetIdempotent | index.js:14-20 | setting the same value again delivers nothing |
| Atoms.SetTwice | index.js:14-20 | two changes deliver two rounds, in order |
| Atoms.SpliceOne | index.js:23 | `splice(start, 1)`: an in-range start removes that element, a negative one counts from the end, one before the start removes the first, one past the end removes nothing |
| Atoms.RemoveWatcher | index.js:22-24 | value and log unchanged; a registered watcher loses exactly one occurrence; an unregistered one makes the last watcher go; an empty list stays |
| Atoms.RemovePresentWatcher | index.js:22-24 | a registered watcher loses its first occurrence and nothing else |
| Atoms.RemoveAbsentWatcher | index.js:22-24 | removing an unregistered watcher removes the last one |
| Atoms.AddRemoveRoundTrip | index.js:21-24 | removing a watcher just added gives the atom back |
| Atoms.RemoveKeepsValue | index.js:22-24 | removal leaves the value and log alone and never adds a watcher |
| Subscriptions.Subscribe | index.js:28-29 | the remembered value starts as `undefined` |
| Subscriptions.SubsStep | index.js:31-43 | `fn` runs iff the snapshot has the key and its value differs from the remembered one, which then becomes that value |
| Subscriptions.SubsRun | index.js:28-44 | over a run of snapshots `fn` is called at most once per snapshot, and a run without calls leaves the memory as it was |
| Subscriptions.SubsRunIsDedup | index.js:28-44 | over a run of snapshots `fn` receives exactly the key's values with repeats dropped, and the last value is remembered |
| Subscriptions.SubsNoRepeats | index.js:28-44 | consecutive calls never repeat a value, and every value is one of the key's values |
| Subscriptions.SubsIgnoresSnapshotsWithoutField | index.js:32-36 | a snapshot without the key neither fires nor changes the memory, wherever it occurs |
| Subscriptions.SubsRepeatedValueFiresOnce | index.js:38-41 | the same value twice fires at most once |
| Derivations.ConvertNumTwo | index.js:368-379 | "" for a falsy input, the first two characters of a longer string, "0" + s for one other character, "0" for "0" |
| Derivations.ConvertNumTwoIdempotent | index.js:368-379 | converting twice is converting once |
| Derivations.ConvertNumTwoKeepsValue | index.js:368-379 | on one or two digits the number is kept |
| Derivations.ValidDayIsTwoWide | index.js:368-379 | a day the validator accepts converts to two characters |
| Derivations.ValidMonthIsTwoWide | index.js:368-379 | a month the validator accepts converts to two characters |
| Derivations.FormValidDate | index.js:387-391 | the date starts with `${year}`, followed by at most four characters |
| Derivations.FormValidDateLayout | index.js:387-391 | with two-wide month and day the date is year, month, day |
| Derivations.FormValidDateExample | index.js:387-391 | year "1990", month "5", day "3" give "19900503" |
| Derivations.PickChar | index.js:383 | a code character yields the date's character at its 1-based position when it is '1'..'9' and within the date, nothing otherwise |
| Derivations.GenPass | index.js:381-385 | at most one character per code character, all from the date; a missing code gives "" |
| Derivations.PickAllAppend | index.js:381-385 | the password of a concatenated code is the concatenation |
| Derivations.PickAllInRange | index.js:381-385 | in-range digits pick exactly the date's characters at their positions |
| Derivations.PickAllOutOfRange | index.js:381-385 | characters out of range contribute nothing |
| Derivations.GenPassOfCode | index.js:381-385 | a valid code over an eight-character date gives a four-character password |
| Derivations.GenPassExamples | index.js:381-385 | "231" gives "991", "2314" gives "9910", `null` and "90" give "" |
| App.InitialSnapshot | index.js:99-108 | exactly the eight keys, with day, month, year, code and `validationError` null and the three flags false |
| App.ProcessInput | index.js:164-189 | one update; on success only the field and `validationError` (null) change, the error text is ""; otherwise only `validationError` changes, to a new `{from, err, value}`, and the error text is `err` |
| App.ProcessInputKeepsDateText | index.js:164-189 | whatever the outcome, `processInput` leaves the day and month text or falsy |
| App.InitialPage | index.js:403-435 | four watchers in registration order, fresh subscriptions, the page invariant |
| App.OutputWatch | index.js:403-411 | nothing unless day, month and year are truthy; then the password of `formValidDate` and the code, and the save button wired when not yet marked |
| App.Dispatch | index.js:403-435 | one watcher call changes only that watcher's memory (the output watcher: only the password box) and only appends to the effects |
| App.ModalEffect | index.js:413-419 | the popup is shown iff the `showDateModal` value is truthy, hidden otherwise |
| App.LoadedEffect | index.js:421-427 | the code input is focused iff the loaded flag is truthy, the day input otherwise |
| App.ErrorEffect | index.js:429-435 | the copy button loses its green class iff the error is an object from the code field, and gets it otherwise |
| App.Deliver | index.js:18 | a round keeps the atom and only appends effects |
| App.Commit | index.js:9-12 | after a change's round the atom is the changed one; ids, error texts and the subscriptions' fields are kept, and the error memory is unchanged or the new `validationError` |
| App.SetState | index.js:14-20 | a new snapshot keeps the page invariant |
| App.InputValue | index.js:291 | a falsy input value becomes "", a string stays |
| App.HandleInput | index.js:290-332 | the field's error text is set and no other; on success the field holds the value and nothing else but `validationError` changes; otherwise only `validationError` changes and names the field |
| App.CheckLocalStorage | index.js:339-359 | a stored date leaves exactly five keys: its day, month and year, `activateSavePopupButton` true and the date loaded; otherwise only the loaded flag changes, to false |
| App.DeliverRound | index.js:403-435 | a round calls the output, modal, loaded and error watchers in that order |
| App.EmptyInputValidation | index.js:290-332 | every listener's validator returns `ok("")` for "" |
| App.EmptyInputIsRecordedAsError | index.js:164-189 | an empty input keeps the field and records an error with an `undefined` message and value "" |
| App.FirstRoundNotLoaded | index.js:413-435 | the first round of a fresh page hides the modal, focuses the day input and greens the copy button |
| App.StartupWithoutStoredDate | index.js:353-358 | start-up without a stored date: hide modal, focus day, green copy button; no password |
| App.StartupHasNoCode | index.js:353-358 | after that start-up the page has no code |
| App.SetStateIsRound | index.js:14-20 | `set` of a new snapshot is one round over it |
| App.QuietRound | index.js:413-435 | a snapshot without `showDateModal` and `validationError` reaches only the output watcher and the loaded subscription |
| App.OutputWithoutCode | index.js:403-411 | with no code the password of a complete date is "" |
| App.UnmarkedRound | index.js:403-435 | a snapshot invisible to the subscriptions only runs the output watcher, which wires the save button |
| App.LoadedRound | index.js:421-427 | a fresh true loaded flag focuses the code input |
| App.StoredDateFirstRound | index.js:347 | the three-key `set` fires no subscription, and wires the save button for a complete date |
| App.StoredDateSecondRound | index.js:348-352 | the following update focuses the code input and adds no other effect |
| App.StartupWithStoredDate | index.js:339-352 | start-up with a stored date: the save button for a complete date, then focus on the code; the modal and the copy button are never touched |
| App.HandleInputIsRound | index.js:164-189 | an input event is `processInput` followed by the round of its one update |
| App.RoundOutput | index.js:403-411 | after a round the password box shows the new snapshot's password when its date is complete, and is left alone otherwise |
| App.HandleInputOutput | index.js:403-411 | the same after an input event |
| App.RoundEndsWithErrorEffect | index.js:429-435 | a changed `validationError` ends the round with its copy-button effect |
| App.RejectedProcessInput | index.js:174-185 | a rejected input records a new error object that names the field |
| App.RejectedInputSetsCopyButton | index.js:429-435 | a rejected input always ends its round taking the green away iff the field is the code |
| App.ErrorRoundCopyEffect | index.js:429-435 | a round with a new error object from a field ends with that field's copy-button effect |
| App.CopyEffectOfError | index.js:430-434 | an error object from the code removes the green, from any other field adds it |
| App.ExampleDateValidations | index.js:140-150 | "3", "5" and "1990" are accepted as day, month and year |
| App.CodeValidator | index.js:323-331 | the code listener's validator is `validateCode` |
| App.ExampleCodeValidations | index.js:152-162 | through the listener, "2314" is accepted and "231" rejected |
| App.AcceptedInput | index.js:164-173 | an accepted input stores its value and changes no key but `validationError` |
| App.RejectedInput | index.js:174-188 | a rejected input sets the error text and changes no key but `validationError` |
| App.RejectedInputOutput | index.js:403-411 | after a rejected input the password box shows the password of the unchanged date and code |
| App.AcceptedCodeOutput | index.js:403-411 | with a complete date an accepted code shows the password of that date and code |
| App.DateEntry | index.js:290-321 | three accepted inputs leave the day, month and year in the snapshot and every other key but `validationError` as it was |
| App.ExamplePassword | index.js:381-411 | with 3 May 1990 entered, the code "2314" shows "9910" |
| App.ExampleShortCode | index.js:164-189 | with 3 May 1990 entered, the code "231" is rejected as below 1000 and the password stays empty |
| App.WorkedExample | index.js:290-332 | typing 3, 5, 1990 and then a code gives "9910" for "2314" and the below-1000 error for "231" |

## Left out

- DOM lookups, CSS class changes and focus calls (index.js:191-252, 261-278) are reduced to the `Effect` values the watchers append. The popup's click and touch handlers (index.js:191-220, 244-252, 280-288) are not modelled. They only set `showDateModal` and `activateSavePopupButton`, which the model's rounds handle like any other snapshot.
- `saveDateToLocalStorage`, `localStorage` and `JSON.parse` (index.js:254-259, 340-343) are I/O. A stored date enters `CheckLocalStorage` as an optional value of three strings.
- `copyText` (index.js:393-401) is left out, because it writes to the clipboard and uses `setTimeout`.
- Number coercion of decimal, exponent, hexadecimal, `Infinity` or padded strings is left to the `toNumber` parameter. The theorems about the validators need only its behaviour on integer literals.
- Finite numbers are exact reals, with no binary64 rounding. Rounding never turns a non-zero `parseInt` result into zero, so the truthiness `isNumber` tests is the same.
- Js.CoercesIntegers: the real string-to-number coercion rounds integer literals above 2^53, so it is not exact on every literal. The validator results still hold, because rounding is monotone and every threshold the validators use (0, 12, 31, 1000, 1950, 9999) is an exact double.
- Js.ParseInt: a digit string too long for a double gives `Infinity` in JavaScript, while the model gives its exact value. Its truthiness is the same.
- Strings are sequences of code points. `Array.from` splits a string into code points while indexing reads UTF-16 code units, and the two differ only outside the Basic Multilingual Plane.
- Js.Get: inherited properties of `Object.prototype` are not modelled. `in` and `o[key]` see only own keys.
- Atoms.Notify: watchers run to completion one after the other. A watcher that changes the atom or the watcher list during `forEach` is not modelled. The script's watchers never do so synchronously.
- App.OutputWatch: `activateSavePopupButton()` adds one more click listener on every call. The model records only the effect, not the growing listener list.
- App.ProcessInput: it requires the field to differ from `validationError`, which all four listeners meet. It also requires the snapshot's id to be below the next id, which the page invariant maintains.
- Derivations.ConvertNumTwo: it requires a falsy value or a string, because any other truthy value has no `substring` and would throw.
