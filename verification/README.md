# Barn Buddy harvest tracker, modelled in Dafny

Barn Buddy's landing page ("Live Demo") and its signed-in dashboard
("Harvest Progress Tracker") both hold the same small harvest tracker. It has
five crop cards. The landing page's cards show `harvested` of `total` tons;
the dashboard's show the crop's icon, name and rounded percentage. A click on a card
selects that crop. An amount typed into a number field is added to the
selected crop by "Update Harvest", and the result is clamped at the crop's
capacity. The two pages share the same update logic (parse, guard, map over
the crops, find the updated entry, clear the input), with different crop
tables. The dashboard's handler is `async` and wraps the update in
`try`/`catch`.
The landing page also shows an "updated successfully" banner. The dashboard
emits a toast instead.

The model reads the React state setters as a pure state transition:

- `js_numbers.dfy` (`JsNumbers`) models the JavaScript number behaviour the
  handler depends on. This covers NaN and the infinities, the truthiness test
  `!x`, the comparison `x <= 0`, `Math.min`, division by zero and
  `Math.round`.
- `options.dfy` (`Options`) defines the optional value used by `find` and by
  the guard.
- `harvest.dfy` (`Harvest`) holds the shared tracker: the `Crop` and
  `Tracker` records, the handler's guard, the clamped update
  (`cropsData.map`), `find` by name, card selection, the input field, the
  commit, and the progress value and percent label.
- `tracker_properties.dfy` (`TrackerProperties`) proves properties of one
  commit. The capacity invariant is kept and no harvest decreases. Only the
  selected crop changes. A full crop stays full. Repeated commits clamp
  after every amount, which equals `min(harvested + sum, total)`. The button
  guard is weaker than the handler's guard.
- `sessions.dfy` (`Sessions`) covers arbitrary sequences of clicks,
  keystrokes and updates, and shows that the invariants survive all of them.
- `index_demo.dfy` (`IndexDemo`) and `dashboard_widget.dfy`
  (`DashboardWidget`) hold each page's crop table, initial state and handler
  wrapper, with the banner on one page and the toast on the other.

`parseFloat` is a parameter `parse: string -> JsNumber` of every operation
that reads the input field. Crop quantities are mathematical reals. A member
shared by both pages cites the lines of one of them, `src/pages/Index.tsx` or
`src/pages/Dashboard.tsx`. Where a row also names the other page's lines,
they appear in the "states" column.

Three consequences of the code are worth stating up front:

- The handler's guard `!amount || amount <= 0 || isNaN(amount)` accepts
  `Infinity` (it is truthy and not `<= 0`). An infinite amount fills the
  crop to `total`.
- A rejected amount returns with no notification.
- Neither page has fruit/vegetable categories or an open-ended accumulator:
  every crop has a fixed capacity.

## Model

| member | source | states |
|---|---|---|
| JsNumbers.Divide | src/pages/Dashboard.tsx:187 | `harvested / total` is a finite quotient exactly when `total` is non-zero. Otherwise it is an infinity, or NaN for `0 / 0` |
| JsNumbers.Scale | src/pages/Dashboard.tsx:187 | `* 100` scales a finite value and keeps NaN and the infinities |
| JsNumbers.Round | src/pages/Index.tsx:176 | `Math.round` yields an integer within half a unit of its argument and passes NaN and the infinities through |
| Harvest.Rejects | src/pages/Index.tsx:52 | The early-return test `!amount \|\| amount <= 0 \|\| isNaN(amount)` holds exactly for NaN, zero, negative values and -Infinity, so `Infinity` passes (also Dashboard.tsx 87) |
| Harvest.ButtonEnabled | src/pages/Index.tsx:195 | The button is enabled exactly when the input is non-empty and its parse is NaN, `Infinity` or a positive number, because `NaN <= 0` is false (also Dashboard.tsx 213) |
| Harvest.Validate | src/pages/Index.tsx:51-54 | The handler's guard rejects exactly NaN, zero, negative values and -Infinity. A positive finite amount passes unchanged, and so does `Infinity` (also Dashboard.tsx 86-89) |
| Harvest.Clamp | src/pages/Index.tsx:58 | The new harvest never exceeds `total` and, under the invariant, never drops below the old harvest. It equals `total` exactly when the addition reaches capacity, and `harvested + amount` otherwise (also Dashboard.tsx 94) |
| Harvest.UpdateCrops | src/pages/Index.tsx:56-62 | The rebuilt list keeps its length and order. Crops with another name are copied unchanged. Crops with the selected name get the clamped harvest (also Dashboard.tsx 92-98) |
| Harvest.FindByName | src/pages/Index.tsx:65 | `find` returns nothing exactly when no crop has the name. Otherwise it returns the first entry that has it (also Dashboard.tsx 101) |
| Harvest.Select | src/pages/Index.tsx:224 | A card click makes that list entry the selection and leaves the list and the input alone (also Dashboard.tsx 232) |
| Harvest.SetInput | src/pages/Index.tsx:186 | Typing stores the text verbatim and touches neither the crops nor the selection (also Dashboard.tsx 204) |
| Harvest.CommitAmount | src/pages/Index.tsx:50-69 | A rejected amount leaves the whole state unchanged. An accepted one clears the input. Names, icons, totals, length and order are kept, and crops not named like the selection stay the same. The selection keeps its name and stays an entry of the list (also Dashboard.tsx 85-105) |
| Harvest.Commit | src/pages/Index.tsx:51 | Parses the current input with `parse` and commits it. A rejected parse changes nothing. An accepted one clears the input and keeps the list length |
| Harvest.Progress | src/pages/Index.tsx:169 | Under the invariant the progress-bar value `harvested / total * 100` is a finite number in [0, 100] (also Dashboard.tsx 187) |
| Harvest.PercentLabel | src/pages/Index.tsx:176 | Under the invariant the rounded percentage is a whole number in [0, 100] (also Dashboard.tsx 194, 240) |
| TrackerProperties.CommitClampsSelected | src/pages/Dashboard.tsx:92-98 | After an accepted commit the selected crop's entry holds `min(harvested + amount, total)`, or `total` for an infinite amount |
| TrackerProperties.CommitKeepsCapacity | src/pages/Dashboard.tsx:94 | If every crop satisfies `0 <= harvested <= total` and `total > 0` before a commit, every crop still does afterwards |
| TrackerProperties.CommitPreservesValid | src/pages/Index.tsx:56-68 | A commit keeps the capacity invariant and keeps the selection an entry of the list |
| TrackerProperties.CommitPreservesUniqueNames | src/pages/Index.tsx:57 | Names are never rewritten, so a list with unique names keeps them unique |
| TrackerProperties.CommitNeverDecreases | src/pages/Index.tsx:58 | Under the capacity invariant no crop's harvest decreases in a commit |
| TrackerProperties.CommitTouchesOnlySelected | src/pages/Dashboard.tsx:92-104 | With unique names every entry other than the selected one is unchanged, and after an accepted commit the selection equals the updated entry |
| TrackerProperties.SaturatedCommitChangesNothing | src/pages/Index.tsx:58-67 | Once the selected crop is at capacity, any further commit leaves both the list and the selection exactly as they were |
| TrackerProperties.OverfullCropIsCutBack | src/pages/Index.tsx:58 | Without the invariant the clamp can lower a harvest: an over-full crop falls back to `total`. So monotonicity depends on the initial tables respecting capacity |
| TrackerProperties.SelectPreservesValid | src/pages/Dashboard.tsx:232 | Selecting a card keeps the invariant |
| TrackerProperties.NaNInputEnablesButton | src/pages/Dashboard.tsx:213 | A non-empty input that parses to NaN enables the button, because `NaN <= 0` is false. Yet the handler leaves the state unchanged (its own check at Dashboard.tsx 87 rejects NaN) |
| TrackerProperties.AcceptedInputEnablesButton | src/pages/Index.tsx:195 | Given `parseFloat("")` is NaN, every input the handler accepts also enables the button. So the button guard is the weaker of the two |
| TrackerProperties.ClampEachIsClampedSum | src/pages/Index.tsx:58 | Clamping at `total` after each positive addition gives the same result as clamping the sum once: `min(harvested + sum, total)` |
| TrackerProperties.CommitAllIsUpdateAll | src/pages/Index.tsx:56-67 | Successive commits of positive amounts rebuild the crop list exactly as successive name-based updates of the selected name do, because a commit never renames the selection |
| TrackerProperties.UpdateAllClampsEach | src/pages/Index.tsx:56-62 | After successive name-based updates, the entry with that name keeps its name and total and holds the harvest clamped at `total` after every amount. The list keeps its length |
| TrackerProperties.RepeatedCommitsClampEach | src/pages/Dashboard.tsx:92-103 | Successive commits of positive amounts clamp the selected crop after every amount, and keep its total and the list length |
| TrackerProperties.UpdateAllClampsTheSum | src/pages/Index.tsx:56-62 | After successive name-based updates by positive amounts, the entry with that name, starting within capacity, holds `min(harvested + sum, total)`. The excess over capacity is dropped |
| TrackerProperties.RepeatedCommitsClampTheSum | src/pages/Dashboard.tsx:92-103 | After successive commits of positive amounts the selected crop, starting within capacity, holds `min(harvested + sum, total)`, and the list keeps its length. The excess over capacity is dropped |
| Sessions.Step | src/pages/Index.tsx:186 | A keystroke stores the text and keeps the crops and the selection. A card click selects that entry and keeps the crops and the input. An update is exactly the commit of the current input. No event changes the list length (card click at Index.tsx 224, update at 193) |
| Sessions.Run | src/pages/Index.tsx:45-47 | Any sequence of events keeps the list length of the initial state |
| Sessions.StepPreservesValid | src/pages/Index.tsx:56-68 | Every single event keeps the invariant |
| Sessions.StepPreservesShape | src/pages/Index.tsx:58 | Every single event keeps every crop within capacity, keeps names and totals, and never lowers a harvest |
| Sessions.RunPreservesValid | src/pages/Dashboard.tsx:92-104 | Under any sequence of clicks, keystrokes and updates, every crop stays within capacity and the selection stays a list entry |
| Sessions.RunNeverDecreases | src/pages/Dashboard.tsx:94 | Over a whole session names and totals never change and no crop's harvest decreases |
| IndexDemo.Init | src/pages/Index.tsx:45-47 | On page load the list is the five-crop table with unique names, all within capacity. The first entry is selected, the input is empty and the banner is off (table at Index.tsx 18-24) |
| IndexDemo.ClickCard | src/pages/Index.tsx:224 | A card click selects that crop and changes neither the list, the input nor the banner |
| IndexDemo.TypeAmount | src/pages/Index.tsx:186 | A keystroke changes only the input text |
| IndexDemo.UpdateHarvest | src/pages/Index.tsx:50-72 | A rejected amount returns early and changes nothing, the banner included. An accepted one clears the input and switches the banner on. In both cases the tracker is exactly the commit of the current input: the clamped update of the selected crop and the refreshed selection (Index.tsx 56-68) |
| IndexDemo.CarrotSaturates | src/pages/Index.tsx:19 | From page load, 50 tons for the Carrot at 90 of 100 give exactly 100. The selection is the updated Carrot, the other crops are untouched, the input is cleared and the banner is on (clamp at Index.tsx 58) |
| IndexDemo.InitialProgressLabel | src/pages/Index.tsx:176 | On page load the label reads 90 % |
| DashboardWidget.Init | src/pages/Dashboard.tsx:35-44 | On first render the list is the dashboard's five-crop table with unique names, all within capacity. The first crop is selected and the input is empty |
| DashboardWidget.UpdateHarvest | src/pages/Dashboard.tsx:85-110 | A rejected amount returns early with no state change and no toast. An accepted one clears the input and emits exactly one toast, naming the selected crop and the parsed amount. In both cases the tracker is exactly the commit of the current input: the clamped update of the selected crop and the refreshed selection (Dashboard.tsx 92-104) |
| DashboardWidget.CardLabelsInRange | src/pages/Dashboard.tsx:240 | While the invariant holds, every card's rounded percentage is a number in [0, 100] |
| DashboardWidget.InitialCardLabels | src/pages/Dashboard.tsx:36-41 | On first render the cards read 80 %, 80 %, 56 %, 50 % and 79 % (label at Dashboard.tsx 240) |
| DashboardWidget.ToastReportsTypedAmount | src/pages/Dashboard.tsx:107-110 | The toast carries the parsed amount, not the clamped delta: 50 tons for the Potatoes at 120 of 150 add 30, but the toast says 50 |

## Left out

- The session check, profile fetch, loading screen and logout
  (src/pages/Dashboard.tsx 46-83, 120-129) are network I/O through an
  external authentication client.
- The toast display itself and the banner's 2-second `setTimeout` clear
  (src/pages/Index.tsx 70-71) are timer-driven UI effects. The model records
  only the toast's parameters and that the banner was switched on.
- The `try`/`catch` around the dashboard commit (src/pages/Dashboard.tsx
  91-117) is left out, because nothing in its body can throw in the modelled
  logic.
- The exact `parseFloat` rules and IEEE-754 arithmetic are not modelled.
  Prefix parsing, rounding of sums and `-0` are replaced by the `parse`
  parameter and real arithmetic.
- Harvest.Commit: its own contract only separates the rejected and accepted
  cases, because the full statement belongs to Harvest.CommitAmount, which it
  calls unchanged.
- Sessions.Step: a click on a card index outside the list is excluded by its
  requires clause, because the page renders exactly one card per list entry.
- src/pages/Mission.tsx, src/locales/en.ts and src/locales/index.ts are
  static markup and string tables, with no tracker logic.
- Layout, styling, icons as images and the hero picture are presentation
  only.
- Fruit/vegetable categories, per-category totals and an open-ended
  accumulator are not modelled, because neither page has them.
