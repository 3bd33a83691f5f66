# Recipe planner and tour planner: a verified model of the client-side core

The repository holds two small single-page applications that share one design.
The first is a recipe book with a weekly lunch/dinner planner (`src/App.tsx`).
The second is a motorcycle-tour book with a weekly short/long ride planner (`App.tsx`).
Each keeps a store of items (recipes or adventures) in memory.
Each also keeps a plan: a map from weekday to slot to the id of an item, or `null`.
The user edits items in a form, rates them with a five-hat widget and searches them by title and tag.
Items are assigned to plan slots on a seven-day board.
The recipe book turns the planned recipes into a shopping-list request.
Cooking mode steps through a recipe's instructions, with a countdown timer for the steps that have one.

This Dafny project models that core on values and, where the code updates state in place, on classes and arrays:

- `wrappers.dfy`, `seqs.dfy`, `text.dfy`: `Option`, and the JavaScript built-ins the code relies on. The sequence built-ins are `filter`, `findIndex`, `find` and filter-by-index. The string built-ins are `trim` (the full ECMAScript whitespace set), `toLowerCase` (ASCII, Latin-1 and Latin Extended-A) and `includes`.
- `types.dfy`: `Recipe`, `Adventure`, days, meals, ride types and the plan maps.
- `plans.dfy`, `weekly_planner.dfy`, `tour_planner.dfy`: the plan updater, slot resolution against the store (dangling ids show nothing), the board layout, and which click issues which update.
- `recipe_app.dfy`: the recipe store, its search, the planned-id collection (a loop over the plan) and the shopping-list request.
- `tour_app.dfy`: the adventure store and its search. Its upsert is a method on an `array` because the code writes into the previous array. Also the adventure list handed to the gear list.
- `recipe_form.dfy`, `adventure_form.dfy`: the editors, as classes over a draft, with loading from the edited item, list editing, AI import as an overlay of the service's answer, and submit.
- `rating.dfy`: the rating widget, as a class holding the hover value.
- `cooking_mode.dfy`: the countdown timer and the cooking session as classes, `formatTime` with its inverse, and step navigation.

Three behaviours of the code shape the model:

- The shopping request lists the planned recipes in store order, because it is `recipes.filter` over the store.
- The recipe store appends a new recipe (`[...prevRecipes, recipe]`); the tour store puts a new adventure in front (`[adv, ...prev]`).
- The shopping request's guard tests the planned ids, not the recipes found for them; see "## Findings".

## Model

| member | source | states |
|---|---|---|
| Seqs.Filter | src/App.tsx:245 | `filter` keeps exactly the elements that satisfy the predicate, and never lengthens the list |
| Seqs.FilterIsSubseq | src/App.tsx:295 | the filtered list is a subsequence of the input: order is kept |
| Seqs.FilterConcat | src/App.tsx:245 | filtering distributes over concatenation |
| Seqs.FilterAll | App.tsx:63-66 | a filter that every element passes is the identity |
| Seqs.IndexOf | App.tsx:53 | `findIndex` gives the first index with the key, and -1 exactly when no element has it |
| Seqs.Find | src/App.tsx:319 | `find` gives the first element with the key, and none exactly when no element has it |
| Seqs.FindDistinct | components/WeeklyPlanner.tsx:46 | with unique keys, looking up an element's key finds that very element at its own index |
| Seqs.FilterDistinct | src/App.tsx:245 | filtering keeps keys unique |
| Seqs.RemoveAt | components/RecipeForm.tsx:150 | filtering by index drops exactly position `i` and keeps the rest in order; any other `i` changes nothing |
| Text.TrimStart | components/RecipeForm.tsx:35 | stripping leading whitespace gives the empty string exactly when every character is whitespace |
| Text.TrimEnd | components/RecipeForm.tsx:35 | stripping trailing whitespace gives the empty string exactly when every character is whitespace |
| Text.Trim | components/RecipeForm.tsx:35 | `trim` gives the empty string exactly when every character is whitespace; otherwise the result starts and ends with a non-whitespace character; it is always a contiguous slice of the input |
| Text.BlankIffAllWhitespace | components/RecipeForm.tsx:35 | `!s.trim()` holds exactly when every character of `s` is whitespace |
| Text.NonBlankEntries | components/RecipeForm.tsx:63-64 | `filter(i => i.trim())` keeps exactly the entries that are not blank |
| Text.NonBlankEntriesKeepOrder | components/RecipeForm.tsx:63-64 | dropping blank entries keeps order, and is the identity when no entry is blank |
| Text.Lower | src/App.tsx:324 | `toLowerCase` keeps the length, maps each ASCII capital to its small letter and keeps every other ASCII character |
| Text.LowerIdempotent | src/App.tsx:324 | lowering twice is lowering once |
| Text.LowerCharIdempotent | src/App.tsx:324 | lowering one character twice is lowering it once |
| Text.Includes | src/App.tsx:326-327 | every string includes the empty needle; an included needle is no longer than the haystack; a haystack includes its own suffix |
| Text.IncludesIff | src/App.tsx:326-327 | `includes` holds exactly when the needle occurs at some position of the haystack |
| Text.IncludesEmpty | src/App.tsx:326 | every string includes the empty string |
| Text.MatchesEmptyQueryAll | App.tsx:63-66 | every item matches the empty query |
| Text.MatchesEmptyQuery | App.tsx:65 | a given title and tag list match the empty query |
| Plans.WeekOrderEnumeratesDays | components/WeeklyPlanner.tsx:14-17 | the board's day order lists each of the seven days once, from Monday to Sunday |
| Plans.Assign | src/App.tsx:270-277 | the updater sets that one slot of that day; every other day, and every other slot of that day, is kept |
| Plans.AssignSlotValue | App.tsx:59-61 | read through `plan[day]?.[slot]`, an assignment changes that slot and no other |
| Plans.ResolveSlot | components/WeeklyPlanner.tsx:45-46 | a slot shows a stored item whose key is the slot's id; it shows none exactly when the slot is empty or dangling |
| Plans.Choices | components/WeeklyPlanner.tsx:68 | the picker offers every stored id, in store order |
| Plans.OnSlotEvent | components/WeeklyPlanner.tsx:51-69 | the clear button exists only on a filled cell and sends `null`; the picker exists only on an empty cell and sends the chosen id |
| Plans.AssignThenResolve | src/App.tsx:270-277 | after an assignment the slot resolves by looking the id up in the store; other slots resolve as before |
| Plans.ClearShowsPicker | components/WeeklyPlanner.tsx:55 | clearing a filled cell makes it show the picker and leaves every other cell unchanged |
| Plans.PickShowsItem | components/WeeklyPlanner.tsx:64 | with unique ids, picking a stored item on an empty cell makes that cell show the item |
| Plans.ResetShowsPickers | src/App.tsx:349 | after a reset to `{}` every cell shows the picker |
| WeeklyPlanner.ResolveMeal | components/WeeklyPlanner.tsx:45-46 | a meal slot shows the first recipe with the slot's id; none when the slot is missing, `null` or dangling |
| WeeklyPlanner.Board | components/WeeklyPlanner.tsx:39-73 | seven columns Monday to Sunday, lunch then dinner; each cell is filled exactly when its slot resolves, else it shows all recipes as choices |
| WeeklyPlanner.OnCellEvent | components/WeeklyPlanner.tsx:54-66 | a clear click on a filled cell sends `null`; a pick on an empty cell sends the chosen id; nothing else sends an update |
| TourPlanner.ResolveRide | components/TourPlanner.tsx:47-48 | a ride slot shows the first adventure with the slot's id; none when the slot is missing, `null` or dangling |
| TourPlanner.Board | components/TourPlanner.tsx:41-72 | seven columns Monday to Sunday, short then long; each cell is filled exactly when its slot resolves |
| TourPlanner.OnCellEvent | components/TourPlanner.tsx:58-67 | a clear click on a filled cell sends `null`; a pick on an empty cell sends the chosen id |
| RecipeApp.SaveRecipe | src/App.tsx:233-240 | an existing id: every recipe with it becomes the saved one and the rest stay where they are; a new id: the recipe is appended after the unchanged store |
| RecipeApp.SaveReplacesInPlace | src/App.tsx:235-237 | with unique ids, saving an existing id replaces exactly that one position |
| RecipeApp.SaveKeepsIdsDistinct | src/App.tsx:233-240 | saving keeps ids unique, and the saved id then finds the saved recipe |
| RecipeApp.DeleteRecipe | src/App.tsx:244-247 | the recipes with the id go and every other recipe stays |
| RecipeApp.DeleteKeepsOrder | src/App.tsx:245 | delete keeps order (also across any split of the store) and unique ids, and the id then finds nothing |
| RecipeApp.DeleteAbsentIsIdentity | src/App.tsx:245 | deleting an id no recipe has changes nothing |
| RecipeApp.ChangeRating | src/App.tsx:249-253 | the recipes with the id get the new rating; no other field and no other recipe changes |
| RecipeApp.ChangeRatingThenFind | src/App.tsx:249-253 | a rating change keeps ids unique, and the id then finds its recipe, carrying the new rating |
| RecipeApp.SelectedRecipe | src/App.tsx:318-320 | the selection is a stored recipe with the selected id; none exactly when nothing is selected or the id is not stored |
| RecipeApp.FilteredRecipes | src/App.tsx:322-329 | the listed recipes are exactly those whose lowered title, or some lowered tag, includes the lowered query |
| RecipeApp.FilteredIsPlainFilter | src/App.tsx:323-328 | the empty-query shortcut agrees with the plain filter, so the list always keeps store order |
| RecipeApp.SearchIgnoresQueryCase | src/App.tsx:324-328 | a query and its lowered form list the same recipes |
| RecipeApp.PlannedIdsAreTruthySlots | src/App.tsx:281-288 | an id is collected exactly when it is non-empty and some day's slot holds it |
| RecipeApp.AddDay | src/App.tsx:282-287 | visiting one more day adds exactly that day's truthy ids |
| RecipeApp.CollectPlannedIds | src/App.tsx:281-288 | the nested loop over days and slots collects exactly the set of truthy planned ids |
| RecipeApp.PlannedIdSet | src/App.tsx:281-288 | the planned-id set never holds the empty id, and each of its ids sits in some slot of some day |
| RecipeApp.ShoppingRequestOf | src/App.tsx:280-295 | the request as written: it stops exactly when the planned-id set is empty, and otherwise sends the stored recipes whose id is planned |
| RecipeApp.GuardedShoppingRequest | src/App.tsx:290-295 | the request never summarises an empty list, and what it sends is the stored recipes whose id is planned |
| RecipeApp.GenerateShoppingList | src/App.tsx:280-295 | collecting the ids, filtering the store and stopping on an empty result computes the guarded request (the corrected guard of "## Findings", not the id-set test of line 290) |
| RecipeApp.PlannedRecipesWitness | src/App.tsx:295 | a non-empty shopping input contains a stored recipe whose id is planned |
| RecipeApp.StopsIffNothingStoredPlanned | src/App.tsx:290-295 | the request stops exactly when no stored recipe's id is planned, and in particular when no slot is truthy |
| RecipeApp.ShoppingRequestSpec | src/App.tsx:295 | the summariser gets exactly the stored recipes whose id is planned, in store order, each once when ids are unique |
| RecipeApp.ShoppingMatchesBoard | src/App.tsx:281-295 | with unique, non-empty ids, a recipe is sent exactly when some slot of the board resolves to it |
| RecipeApp.AssignThenDeleteResolvesNone | src/App.tsx:244-247 | deleting a planned recipe leaves its slot dangling: the slot resolves to nothing |
| RecipeApp.AssignThenResolveSaved | src/App.tsx:233-240 | with unique ids, a slot assigned to a just-saved recipe resolves to that recipe |
| RecipeApp.AsWrittenGuard | src/App.tsx:290-293 | the code's guard stops exactly when no slot of the plan is truthy |
| RecipeApp.DanglingPlanCallsSummariser | src/App.tsx:290-295 | a plan whose only id names no stored recipe passes the code's guard and calls the summariser with an empty list |
| RecipeApp.GuardedRequestAgrees | src/App.tsx:290-295 | the guarded request equals the code's exactly when no id is planned or some planned id names a stored recipe |
| TourApp.SaveSpec | App.tsx:51-55 | the adventure takes the place of the first one with its id; with no such adventure it goes in front of the unchanged store |
| TourApp.Save | App.tsx:51-55 | the `findIndex` loop and the write into the previous array give the specified list; the previous array has changed exactly when the id was found |
| TourApp.SaveReplacesInPlace | App.tsx:53-54 | with unique ids, saving an existing id replaces exactly that position |
| TourApp.SaveKeepsIdsDistinct | App.tsx:51-55 | saving keeps ids unique, and the saved id then finds the saved adventure |
| TourApp.Delete | App.tsx:101 | the adventures with the selected id go and every other stays |
| TourApp.DeleteKeepsOrder | App.tsx:101 | delete keeps order and unique ids, and the id then finds nothing |
| TourApp.Selected | App.tsx:68 | the selection is the first adventure with the selected id; none exactly when nothing is selected or the id is not stored |
| TourApp.Filtered | App.tsx:63-66 | the listed adventures are exactly those whose lowered title, or some lowered tag, includes the lowered query |
| TourApp.FilteredEmptyQueryListsAll | App.tsx:63-66 | without an empty-query branch, the empty query still lists every adventure; every query keeps store order |
| TourApp.SearchIgnoresQueryCase | App.tsx:64-65 | a query and its lowered form list the same adventures |
| TourApp.GearInput | App.tsx:130-133 | the gear list gets exactly the stored adventures whose id is some day's short or long slot |
| TourApp.GearInputOrder | App.tsx:130-133 | the gear input keeps store order and, with unique ids, lists each adventure once |
| TourApp.GearMatchesBoard | App.tsx:130-133 | with unique ids, an adventure is in the gear input exactly when some planner cell shows it |
| RecipeForm.EmptyDraft | components/RecipeForm.tsx:14-26 | a new recipe starts with empty texts, one empty ingredient and instruction, 10/20 minutes, 4 servings, no tags and rating 3 |
| RecipeForm.DraftOf | components/RecipeForm.tsx:30-32 | the draft of an edited recipe, rejoined with the recipe's id, is that recipe |
| RecipeForm.DraftRoundTrip | components/RecipeForm.tsx:30-32 | a draft plus an id is exactly a recipe: splitting and rejoining loses nothing |
| RecipeForm.SetList | components/RecipeForm.tsx:55 | replacing one list sets it and keeps every other field |
| RecipeForm.Overlay | components/RecipeForm.tsx:39-43 | each field the service returned replaces the draft's; every other field is kept; the source becomes AI-imported |
| RecipeForm.OverlayIdempotent | components/RecipeForm.tsx:39-43 | overlaying the same answer twice is overlaying it once; an empty answer only changes the source type |
| RecipeForm.Submitted | components/RecipeForm.tsx:58-66 | the id is the edited recipe's when non-empty, else the fresh one; blank ingredients and instructions are dropped; every other field is the draft's |
| RecipeForm.SubmittedEntries | components/RecipeForm.tsx:62-64 | a submitted recipe has no blank entry, keeps the other entries in order, and has a non-empty id when the fresh one is |
| RecipeForm.EditUnchangedRoundTrip | components/RecipeForm.tsx:30-66 | opening a recipe with a non-empty id and no blank entries and saving it unchanged gives the same recipe back |
| RecipeForm.Form.constructor | components/RecipeForm.tsx:14-32 | the draft is the edited recipe's when there is one, else the defaults; the import text is empty |
| RecipeForm.Form.UpdateList | components/RecipeForm.tsx:52-56 | writing one entry changes that entry of that list only, and keeps the list's length |
| RecipeForm.Form.AddEntry | components/RecipeForm.tsx:144 | an empty entry is appended to the list |
| RecipeForm.Form.RemoveEntry | components/RecipeForm.tsx:150 | the entry at that position is removed |
| RecipeForm.Form.Import | components/RecipeForm.tsx:34-50 | the service is called exactly when the text is not blank; an answer is overlaid and the text cleared; a failure changes nothing |
| AdventureForm.EmptyDraft | components/AdventureForm.tsx:14-25 | a new adventure starts with empty texts, one empty waypoint and briefing step, 0 km, 0 hours, medium difficulty and no tags |
| AdventureForm.DraftOf | components/AdventureForm.tsx:29-34 | the draft of an edited adventure, completed with its id and rating, is that adventure |
| AdventureForm.DraftRoundTrip | components/AdventureForm.tsx:29-34 | a draft plus an id and a rating is exactly an adventure |
| AdventureForm.SetList | components/AdventureForm.tsx:57 | replacing one list sets it and keeps every other field |
| AdventureForm.Overlay | components/AdventureForm.tsx:41-45 | each field the service returned replaces the draft's; every other field is kept; the source becomes AI-imported |
| AdventureForm.OverlayIdempotent | components/AdventureForm.tsx:41-45 | overlaying the same answer twice is overlaying it once; an empty answer only changes the source type |
| AdventureForm.Submitted | components/AdventureForm.tsx:60-69 | the id is the edited adventure's when non-empty, else the fresh one; the rating is the edited one's, else 0; blank waypoints and briefing steps are dropped |
| AdventureForm.SubmittedEntries | components/AdventureForm.tsx:64-67 | a submitted adventure has no blank entry and keeps the other entries in order; a new one gets the fresh id and rating 0 |
| AdventureForm.EditUnchangedRoundTrip | components/AdventureForm.tsx:29-69 | opening an adventure with a non-empty id and no blank entries and saving it unchanged gives it back, rating included |
| AdventureForm.Form.constructor | components/AdventureForm.tsx:14-34 | the draft is the edited adventure without id and rating, else the defaults; the import text is empty |
| AdventureForm.Form.UpdateList | components/AdventureForm.tsx:54-58 | writing one entry changes that entry of that list only, and keeps the list's length |
| AdventureForm.Form.AddEntry | components/AdventureForm.tsx:158 | an empty entry is appended to the list |
| AdventureForm.Form.RemoveEntry | components/AdventureForm.tsx:164 | the entry at that position is removed |
| AdventureForm.Form.Import | components/AdventureForm.tsx:36-52 | the service is called exactly when the text is not blank; an answer is overlaid and the text cleared; a failure changes nothing |
| Rating.ClickedRating | components/Rating.tsx:26 | clicking the current rating clears it to 0; any other hat sets the rating to its index, within 0..5 |
| Rating.ClickToggles | components/Rating.tsx:23-28 | clicking the same hat again flips between that rating and 0 |
| Rating.ShownRating | components/Rating.tsx:58 | `hoverRating \|\| rating` is the rating when there is no hover, and the hover otherwise |
| Rating.IsFilled | components/Rating.tsx:58 | hat i is filled exactly when the shown value (the hover if any, else the rating) reaches i; a filled hat's left neighbour is filled as well |
| Rating.ViewOf | components/Rating.tsx:30-75 | rating 5 shows the golden-hat panel (large) or the TOP badge (small); otherwise five hats, hat i filled exactly when `(hover || rating) >= i` |
| Rating.FilledHatsArePrefix | components/Rating.tsx:57-58 | the filled hats form a prefix, as many as the shown rating cut to 0..5 |
| Rating.Widget.constructor | components/Rating.tsx:10-11 | a new widget has no hover |
| Rating.Widget.MouseOver | components/Rating.tsx:13-16 | hovering hat i sets the hover to i, unless the widget is read-only |
| Rating.Widget.MouseLeave | components/Rating.tsx:18-21 | leaving a hat clears the hover, unless the widget is read-only |
| Rating.Widget.Click | components/Rating.tsx:23-28 | a click emits a rating exactly when the widget is interactive, and the rating is the clicked rating |
| Rating.Widget.Render | components/Rating.tsx:52-75 | for a rating other than 5 and no hover, hat i is filled exactly when the rating reaches i |
| CookingMode.Fallback | components/CookingModeModal.tsx:107 | when the timer service fails, every instruction is kept, in order, with its timer set to none (`null`), so no step shows a timer |
| CookingMode.TickValue | components/CookingModeModal.tsx:36-44 | one tick at one second or less lands on 0; otherwise it takes one second off |
| CookingMode.TicksCountDown | components/CookingModeModal.tsx:33-45 | n ticks from t seconds leave `max(t - n, 0)` |
| CookingMode.Timer.constructor | components/CookingModeModal.tsx:22-24 | a new timer is stopped with the full `minutes * 60` seconds |
| CookingMode.Timer.Tick | components/CookingModeModal.tsx:35-45 | a running timer loses a second, or stops at 0 and rings; a stopped timer is unchanged |
| CookingMode.Timer.Toggle | components/CookingModeModal.tsx:52 | start/pause flips the running flag and keeps the time |
| CookingMode.Timer.Reset | components/CookingModeModal.tsx:53-56 | reset stops the timer with the full time back |
| CookingMode.NatToString | components/CookingModeModal.tsx:59-60 | a number's decimal digits: one below 10, two below 100 |
| CookingMode.PadStart2 | components/CookingModeModal.tsx:59-60 | `padStart(2, '0')` puts zeros in front up to length 2 and keeps the string as the suffix |
| CookingMode.NatToStringRoundTrip | components/CookingModeModal.tsx:59-60 | reading a number's digits back gives the number |
| CookingMode.LeadingZero | components/CookingModeModal.tsx:59-60 | a leading zero does not change a digit string's value |
| CookingMode.PadKeepsValue | components/CookingModeModal.tsx:59-60 | padding a digit string keeps its value |
| CookingMode.SplitAtColon | components/CookingModeModal.tsx:61 | a joined `MM:SS` splits back into its two parts |
| CookingMode.PaddedDigits | components/CookingModeModal.tsx:59-60 | a padded number has at least two digits, exactly two below 100, and reads back as the number |
| CookingMode.ParseJoined | components/CookingModeModal.tsx:61 | reading a joined `MM:SS` gives minutes times 60 plus seconds |
| CookingMode.FormatTimeRoundTrip | components/CookingModeModal.tsx:58-62 | `formatTime` is invertible on non-negative seconds, and gives five characters below 6000 seconds |
| CookingMode.IntToString | components/CookingModeModal.tsx:59-60 | `toString` of a number: the decimal digits of a non-negative one, a minus sign before the digits of the magnitude for a negative one; the digits read back as the number |
| CookingMode.JsRem60 | components/CookingModeModal.tsx:60 | JavaScript's `seconds % 60`: strictly between -60 and 60, with the sign of `seconds`, and differing from `seconds` by a multiple of 60 |
| CookingMode.MinutesPart | components/CookingModeModal.tsx:59 | for non-negative seconds the minutes field is at least two digits, exactly two below 6000 seconds, and reads back as `floor(seconds / 60)` |
| CookingMode.SecondsPart | components/CookingModeModal.tsx:60 | for non-negative seconds the seconds field is two digits and reads back as `seconds % 60` |
| CookingMode.NegativeMinutes | components/CookingModeModal.tsx:59 | for negative seconds the minutes field starts with a minus sign |
| CookingMode.FormatTime | components/CookingModeModal.tsx:58-62 | for non-negative seconds: digits, a colon three characters from the end, then two digits; five characters below 6000 seconds; a leading minus sign for negative seconds |
| CookingMode.NextStep | components/CookingModeModal.tsx:115-119 | forward moves exactly one step when a later step exists, and otherwise stays; it stays in range |
| CookingMode.PrevStep | components/CookingModeModal.tsx:121-125 | back moves exactly one step when an earlier step exists, and otherwise stays; it never goes below 0 |
| CookingMode.NextPrevInverse | components/CookingModeModal.tsx:115-125 | a forward move followed by a back move returns to the step, and so does the reverse |
| CookingMode.NextTimesStopsAtLast | components/CookingModeModal.tsx:115-119 | k forward presses move k steps, stopping at the last step |
| CookingMode.Session.constructor | components/CookingModeModal.tsx:93-96 | a new session is loading, has no steps and no error, and is at step 0 |
| CookingMode.Session.FinishLoading | components/CookingModeModal.tsx:99-113 | the answer, or on failure the fallback with the error set, becomes the steps; loading ends and the step is kept |
| CookingMode.Session.Next | components/CookingModeModal.tsx:115-119 | forward, with the loaded length, and nothing else changes |
| CookingMode.Session.Prev | components/CookingModeModal.tsx:121-125 | back, and nothing else changes |
| CookingMode.Session.CurrentInstruction | components/CookingModeModal.tsx:127 | once some steps are loaded, there is a current instruction, and it is one of them |

## Left out

- Persistence: the tour app's `localStorage` reads and writes (`App.tsx:32-40`, `48-49`) are I/O; the model starts from a given store and plan. The recipe app keeps its state in memory only.
- The AI services (`services/geminiService.ts`), i.e. extraction, timers, the shopping and gear summaries, and the magic fridge and garage suggestions, are outside calls. Their answers are parameters: the `outcome` of `Import` and the `result` of `FinishLoading`. The shopping request is the model's output and stops at the call of the summariser.
- The modals and views that only display (`GearListModal`, `ShoppingListModal`, `MagicFridgeModal`, `MagicGarageModal`, `RideModeModal`, the lists, cards, details and header) are not part of this model, nor is the `activeModal` switching.
- Asynchrony: the loading and importing flags, stale answers and in-flight requests are not modelled.
- The timer's wall clock (`setInterval`, one second) and the alarm sound are outside effects. `Timer.Tick` is one interval callback, and `alarm` marks where the sound plays.
- Timer identity: React keeps a `Timer`'s state when two consecutive steps both show one, so its time may carry over between steps. The model treats each step's timer on its own.
- `Date.now().toString()` is the `freshId` parameter of `Submitted`.
- Numbers are modelled as integers. JavaScript doubles, fractional minutes or kilometres, and `NaN` from `+e.target.value` are not modelled.
- `toLowerCase` is modelled for ASCII, Latin-1 and Latin Extended-A. Other scripts and special casings (such as U+0130) are kept unchanged. JavaScript strings are UTF-16 code units; the model's characters are code points.
- Single-field setters (the title, description, image, number and difficulty inputs, the import text, the search box) just store the typed value and are not modelled one by one.
- The browser's `required` check on the title input is not modelled.
- A plan day stored as `null` (the `if (day)` check) is not modelled: the plan maps have no null days.
- The seed data (`INITIAL_RECIPES`, `INITIAL_ADVENTURES`) is not modelled.
- RecipeForm.Form.UpdateList and AdventureForm.Form.UpdateList require the index to lie inside the list. JavaScript would extend the array for another index, but the form only passes rendered indices.
- CookingMode.Session.FinishLoading requires the session to be loading. Re-running the effect when the recipe's instructions change while the modal is open is not modelled.
- TourApp.Save models the write into the previous state array. React's handling of a mutated previous state (for example, a second updater call in strict mode) is not modelled.

## Findings

| source | as written | input that shows it | evidently intended | confidence | as-written member | corrected member |
|---|---|---|---|---|---|---|
| src/App.tsx:290 | the shopping-list guard tests the set of planned ids, not the recipes found for them, so a plan whose ids are all dangling passes the guard | plan `{monday: {lunch: "item-404"}}` with an empty recipe store: the id set is non-empty, so the summariser is called with `[]` | no summariser call when no planned id names a stored recipe (an empty input makes no outside call) | medium, not executed | RecipeApp.DanglingPlanCallsSummariser | RecipeApp.GuardedShoppingRequest |

`RecipeApp.ShoppingRequestOf` is the request as written. `RecipeApp.GenerateShoppingList` computes the guarded request, `RecipeApp.GuardedShoppingRequest`, which is the corrected guard; the rest of the model uses it. `RecipeApp.GuardedRequestAgrees` shows that the two differ only on plans whose every planned id is dangling.
