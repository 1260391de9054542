# Prize wheel (Carkifelek) in Dafny

A model of the logic of the Carkifelek prize-wheel app. The app lets a user
maintain a list of options, each with a text, a colour and a percentage
weight. It spins a wheel whose slices are proportional to those weights and
counts how often each option wins. The model covers five parts:

- **Winner selection and the spin** (`home.dfy`, module `Home`):
  - the weighted random walk that picks the winner before the animation starts;
  - the target angle that brings that winner's slice under the marker (the
    fixed indicator at the top of the wheel, at 270 degrees);
  - the forward-only final rotation, including JavaScript's truncating `%`;
  - the statistics update;
  - the spinning flag that guards against a second spin. This is a class,
    `Spinner`, whose methods change its fields as the screen's state hooks do.
- **The wheel drawing** (`wheel.dfy`, module `WheelLayout`): slice angles in
  proportion to the weights, laid out contiguously in list order, the
  large-arc flag, the label at each slice's middle, and label truncation.
- **Alignment** (`alignment.dfy`): the angle the spin aims for and the
  layout the wheel draws agree. The wheel therefore stops with the
  pre-selected winner's label under the marker. With duplicate ids it stops
  on the first slice that carries the winner's id.
- **The option editor** (`admin.dfy`, with `String.prototype.trim` in
  `text.dfy`): add-form validation, add, delete, clear, percentage update,
  even distribution, inline edit and the colour picker, each as a function
  from the old list (or screen state) to the new one.
- **Persistence** (`storage.dfy`): save and load of options and statistics
  over an abstract key-value store, including the migration of data written
  by older versions of the app. It comes with round trips and idempotence of
  loading.

`types.dfy` holds the records and the weight total, `colors.dfy` the
26-colour palette, and `wrappers.dfy` an `Option` type.

Weights and angles are exact reals. `HomeScreen` angles are in degrees, and
the wheel's are in turns (the app uses radians). `Math.random()`,
`Date.now()` and `parseFloat` are parameters. For `parseFloat`, `None`
stands for NaN.

## Model

| member | source | states |
|---|---|---|
| Types.Sum | src/screens/HomeScreen.tsx:146 | the total weight is the left fold of the weights in list order starting from 0, so an empty list totals 0 (the same `reduce` is at src/screens/HomeScreen.tsx:167 and src/components/Wheel.tsx:22) |
| Types.FirstIndexOfId | src/screens/HomeScreen.tsx:152-159 | the id lookup the angle loop performs: the first position carrying the id, or none when no option carries it |
| Types.FirstIndexOfOwnId | src/screens/HomeScreen.tsx:154 | with unique ids, the lookup by an option's own id finds that option |
| Types.PrefixSumMonotone | src/screens/HomeScreen.tsx:167 | with non-negative weights, running totals never decrease |
| Colors.GetColorByIndex | src/utils/colors.ts:37-39 | the result is a palette colour, and it is entry `index` for indices below 26 |
| Colors.ColorPeriodic | src/utils/colors.ts:38 | colours repeat every 26 indices |
| Colors.PaletteRepeats | src/utils/colors.ts:1-28 | the palette has repeated entries (indices 9 and 13), so the colours are not all distinct |
| Home.WinnerIndex | src/screens/HomeScreen.tsx:166-178 | the chosen position is the first whose cumulative weight reaches the draw, or else the last |
| Home.WinnerIndexUnique | src/screens/HomeScreen.tsx:170-177 | those two conditions determine the chosen position uniquely |
| Home.SelectWinnerByPercentage | src/screens/HomeScreen.tsx:166-178 | the subtract-and-test loop returns exactly the option at `WinnerIndex` |
| Home.SelectionOwnsInterval | src/screens/HomeScreen.tsx:170-175 | with positive weights, option k wins exactly for draws in (weight before k, weight through k] |
| Home.SelectionAtBoundary | src/screens/HomeScreen.tsx:172 | a draw equal to a running total goes to the earlier option, because the test is `<= 0` |
| Home.SelectionSmallDraw | src/screens/HomeScreen.tsx:168-173 | a draw no larger than the first weight picks the first option, even a zero-weight first option at draw 0 |
| Home.SelectionFallback | src/screens/HomeScreen.tsx:177 | a draw beyond the total falls back to the last option |
| Home.TargetAngleRange | src/screens/HomeScreen.tsx:153-157 | with non-negative weights the target angle lies in [-90, 270] degrees |
| Home.CalculateAngleForWinner | src/screens/HomeScreen.tsx:145-163 | the accumulating loop returns 270 minus the middle of the first slice with the winner's id, and 0 for a zero total or an absent id |
| Home.JsRem360 | src/screens/HomeScreen.tsx:113 | `x % 360` keeps the sign of `x`, stays strictly within a turn, and differs from `x` by `x / 360` truncated toward zero whole turns |
| Home.NextRotation | src/screens/HomeScreen.tsx:104-113 | the new rotation is the target angle plus 8 turns plus the current rotation's whole turns; it is ahead of the current rotation whenever the target exceeds -2520 degrees, and from a non-negative rotation it is ahead by more than 7 and at most 8 turns plus the target |
| Home.NextRotationWholeTurns | src/screens/HomeScreen.tsx:109-113 | the new rotation and the target angle differ by a whole number of turns |
| Home.RecordWin | src/screens/HomeScreen.tsx:126-133 | one more spin, the new time, the winner's count up by one (a missing count is 0), every other count unchanged |
| Home.RecordWinKeepsCountsBounded | src/screens/HomeScreen.tsx:126-133 | every per-option count stays between 0 and the spin total |
| Home.PlanSpin | src/screens/HomeScreen.tsx:98-113 | selects the winner from the list and computes its final rotation; with non-negative weights the wheel turns forward |
| Home.Spinner.constructor | src/screens/HomeScreen.tsx:41-49 | no options, zero spins, not spinning, rotation 0 |
| Home.Spinner.Load | src/screens/HomeScreen.tsx:81-88 | options and statistics replaced by the loaded ones; the spin state untouched |
| Home.Spinner.Spin | src/screens/HomeScreen.tsx:90-118 | ignored while spinning or with no options; otherwise sets the flag, captures the statistics and sets the planned rotation, never turning backwards with non-negative weights |
| Home.Spinner.Finish | src/screens/HomeScreen.tsx:121-134 | clears the flag and records the win on the statistics captured at the start of the spin |
| WheelLayout.LargeArcFlag | src/components/Wheel.tsx:37 | the flag is 1 exactly when the slice spans more than half a turn, and 0 otherwise |
| WheelLayout.TruncateLabel | src/components/Wheel.tsx:72 | texts of up to 8 characters are shown whole; longer ones become their first 8 characters plus "..." |
| WheelLayout.CreateSlices | src/components/Wheel.tsx:22-52 | one slice per option, in order, each equal to the layout specification `SliceAt` |
| WheelLayout.SliceSpansShare | src/components/Wheel.tsx:27 | each slice spans its weight's share of a turn |
| WheelLayout.FirstSliceStartsAtRotation | src/components/Wheel.tsx:23 | the first slice starts at the rotation |
| WheelLayout.SlicesContiguous | src/components/Wheel.tsx:28-52 | each slice starts where the previous one ends |
| WheelLayout.SliceBounds | src/components/Wheel.tsx:27-29 | a slice starts at the rotation plus the share of the options before it, and ends its own share later |
| WheelLayout.LastSliceEndsFullTurn | src/components/Wheel.tsx:22-52 | the slices together cover exactly one turn |
| WheelLayout.LabelAtMidpoint | src/components/Wheel.tsx:47 | the label angle is the middle of the slice |
| WheelLayout.SliceWithinTurn | src/components/Wheel.tsx:22-52 | with non-negative weights every slice lies within the turn starting at the rotation |
| Alignment.MapperMidpointIsLabelAngle | src/screens/HomeScreen.tsx:150-157 | the spin's `middleOfSlice` equals the wheel's label angle for the same slice |
| Alignment.LabelUnderMarker | src/screens/HomeScreen.tsx:186 | turning the drawing by the target angle plus n turns brings that label to 270 degrees plus n turns |
| Alignment.AimedAtFirstWithId | src/screens/HomeScreen.tsx:98-113 | the final rotation aims at the first slice carrying the chosen option's id |
| Alignment.SpinStopsOnWinnersId | src/screens/HomeScreen.tsx:97-115 | for every draw, the wheel (drawn at rotation 0) rests with the label of a slice carrying the winner's id at 270 degrees, after exactly `SpinTurns(rotation)` whole turns |
| Alignment.SpinStopsOnWinner | src/screens/HomeScreen.tsx:97-115 | with unique ids, the label at 270 degrees is the selected option's own |
| JsText.TrimStart | src/screens/AdminScreen.tsx:109 | the longest suffix that does not start with whitespace; everything dropped is whitespace |
| JsText.TrimEnd | src/screens/AdminScreen.tsx:109 | the longest prefix that does not end with whitespace; everything dropped is whitespace |
| JsText.Trim | src/screens/AdminScreen.tsx:109 | the result is a contiguous part of the text with only whitespace before and after it (`Surrounds`), and it neither starts nor ends with whitespace |
| JsText.TrimEmptyIffBlank | src/screens/AdminScreen.tsx:32 | text trims to empty exactly when it is all whitespace |
| JsText.TrimIdempotent | src/screens/AdminScreen.tsx:109 | trimming twice is trimming once |
| Admin.HandleAdd | src/screens/AdminScreen.tsx:31-45 | blank text is rejected; otherwise a NaN percentage, or one that is <= 0 or > 100, is rejected; only valid input is submitted (text untrimmed), and only then does the form reset to "" and "20" |
| Admin.SubmittedOptionIsValid | src/screens/AdminScreen.tsx:31-45 | an option added from the form has non-empty text without surrounding whitespace and a weight in (0, 100] |
| Admin.AddOption | src/screens/AdminScreen.tsx:106-113 | appends exactly one option with the given id, the trimmed text, the weight and the palette colour for the old length; the prefix is unchanged |
| Admin.DeleteOption | src/screens/AdminScreen.tsx:120 | no remaining option has the id; every option with another id remains |
| Admin.DeleteDistributes | src/screens/AdminScreen.tsx:120 | deletion distributes over concatenation, so the survivors keep their order |
| Admin.DeleteAbsent | src/screens/AdminScreen.tsx:120 | deleting an id nobody has changes nothing |
| Admin.DeleteIdempotent | src/screens/AdminScreen.tsx:120 | deleting twice is deleting once |
| Admin.AddThenDelete | src/screens/AdminScreen.tsx:106-124 | adding under a fresh id and deleting that id restores the list |
| Admin.ClearAllOptions | src/screens/AdminScreen.tsx:127 | the list becomes empty |
| Admin.UpdatePercentage | src/screens/AdminScreen.tsx:132-136 | only the options with the id change, and only in weight, which becomes the parsed value or 0 for NaN |
| Admin.UpdatePercentageTotal | src/screens/AdminScreen.tsx:134-136 | with unique ids the total changes by exactly the change of that one weight |
| Admin.EqualShareHundredths | src/screens/AdminScreen.tsx:143 | 10000 / n rounded half up to an integer (hundredths of a percent) |
| Admin.AutoDistribute | src/screens/AdminScreen.tsx:141-144 | an empty list is unchanged; otherwise every option keeps id, text, colour and position and gets the same rounded share |
| Admin.EqualShareError | src/screens/AdminScreen.tsx:143 | the rounded share is within half a hundredth of 100 / n |
| Admin.EqualSharePositive | src/screens/AdminScreen.tsx:143 | the share is positive exactly for up to 20000 options |
| Admin.AutoDistributeTotal | src/screens/AdminScreen.tsx:141-144 | the distributed weights add up to 100 within n half-hundredths |
| Admin.CancelEdit | src/screens/AdminScreen.tsx:156-160 | the edit fields are cleared; options and picker are untouched |
| Admin.SaveEdit | src/screens/AdminScreen.tsx:162-170 | only the options with the id change: trimmed edit text and the parsed weight; then the edit fields are cleared |
| Admin.OpenColorModal | src/screens/AdminScreen.tsx:174-177 | the picker opens for the id; the options and the inline-edit fields are untouched |
| Admin.SelectColor | src/screens/AdminScreen.tsx:179-187 | with no target (null or empty id) nothing changes; otherwise only the matching options change colour, and the picker closes and forgets the id |
| Admin.SelectColorKeepsWeights | src/screens/AdminScreen.tsx:181-183 | picking a colour leaves the total weight unchanged |
| Storage.Encode | src/utils/storage.ts:21-23 | the stored document is an array holding each option's record, in order |
| Storage.Decode | src/utils/storage.ts:44 | an array whose every record has a numeric percentage reads back as options with those fields |
| Storage.DecodeEncode | src/utils/storage.ts:21-44 | decoding what was encoded gives back the list |
| Storage.MigratedPercentage | src/utils/storage.ts:16 | `frequency` if truthy, else `probability` if truthy, else 20; never 0 |
| Storage.MigratedPercentagePositive | src/utils/storage.ts:16 | non-negative old weights migrate to a positive weight |
| Storage.MigrateOldData | src/utils/storage.ts:10-19 | a non-array gives []; an array keeps length, order, ids, texts and colours, with the migrated weight |
| Storage.MigratedWeightsNonZero | src/utils/storage.ts:13-18 | no migrated option has weight 0 |
| Storage.LooksLegacy | src/utils/storage.ts:37 | migration is triggered only by a non-empty document whose element 0 owns `probability` or `frequency`; `null` never triggers it, nor does an array in which no record owns either field |
| Storage.EncodedNotLegacy | src/utils/storage.ts:37 | what the current version writes never triggers migration |
| Storage.SaveWheelOptions | src/utils/storage.ts:21-27 | the options key holds the encoded list; the stats key is untouched |
| Storage.LoadWheelOptions | src/utils/storage.ts:29-48 | missing, undecodable or null data gives [] without a write; old-shaped data is migrated, written back and returned; anything else is returned as stored |
| Storage.SaveThenLoadOptions | src/utils/storage.ts:21-44 | loading after saving returns the saved list and writes nothing |
| Storage.LoadIdempotent | src/utils/storage.ts:36-42 | migration happens at most once: a second load returns the same and writes nothing |
| Storage.LoadGivesArray | src/utils/storage.ts:29-48 | the result is an array unless the store holds another JSON value that does not look old |
| Storage.LegacyTotalSpins | src/utils/storage.ts:72 | `totalSpins || 0` |
| Storage.SaveWheelStats | src/utils/storage.ts:51-57 | the stats key holds the statistics; the options key is untouched |
| Storage.LoadWheelStats | src/utils/storage.ts:59-82 | missing, undecodable or null data gives zero spins, the current time and no counters; an old record keeps its spin count (0 when falsy), takes the current time and drops the counters; a current record is returned as stored |
| Storage.SaveThenLoadStats | src/utils/storage.ts:51-78 | loading after saving returns the saved statistics |
| Storage.LoadedStatsBounded | src/utils/storage.ts:59-82 | loaded counters stay within the spin total when the stored ones did |

## Left out

- Trigonometry, SVG path text, the animation (duration, easing, scale), sound, haptics, alerts' wording, the result popup and the winner text are not modelled. Angles are reals in degrees or turns, not radians.
- Floating point is not modelled. Weights are exact reals, so rounding in sums and in `toFixed(2)` on binary doubles is not captured. `Admin.EqualShareHundredths` rounds the exact quotient half up.
- `Math.random()`, `Date.now()` and `parseFloat` are parameters. `Home.Spinner.Spin` takes the draw in [0, 1).
- WheelLayout.CreateSlices: requires a non-zero total weight. With a total of 0 the source divides by zero and draws NaN geometry.
- Admin.SaveEdit: takes the parsed weight as a number. An edit that does not parse stores NaN in the source, and the model's real weights cannot hold NaN.
- `startEdit` (src/screens/AdminScreen.tsx:150-154) is not modelled, because it formats a number with `String`.
- The colour-picker palette (src/screens/AdminScreen.tsx:90-93) is not modelled: `Admin.SelectColor` takes any colour. `getRandomColor` (src/utils/colors.ts:31-34) is not modelled either, since no core operation uses it.
- `Colors.GetColorByIndex` takes a natural index. The app only passes list lengths, and JavaScript's `%` on negative indices is not modelled.
- `WheelLayout.TruncateLabel` counts characters, whereas JavaScript counts UTF-16 code units.
- Persisting after each editor operation and after a spin is not composed into the model. The write is `Storage.SaveWheelOptions` or `Storage.SaveWheelStats` applied to the new value.
- Storage writes are assumed to succeed. The source logs a failed write and continues.
- JSON encoding is not modelled. The asynchronous calls, and their interleaving with the spin timer, are not modelled either.
- Stored documents the model cannot represent: array elements that are not objects, records without `id`, `text` or `color`, extra properties, and statistics documents other than a record, an old record or `null`.
- `App.tsx`, `ResultScreen.tsx` and navigation are not part of this model.
