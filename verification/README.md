# Periodic table quiz controller — a Dafny model

This project models `PeriodicTableTool` from `script.js`. The tool is the
browser controller of an interactive periodic table. It has two modes:

- In **Info** mode, a click on an element tile selects the tile and shows
  its name, symbol, atomic number, mass (with " u") and category.
- In **Quiz** mode, the tool shows the symbol of a target element. A click
  on a tile is an answer. The tool keeps three counters: correct, wrong and
  streak. It marks tiles `correct` or `incorrect`, and it draws the next
  question 1500 ms later.

The quiz button and Enter toggle the mode. The info button shows Info mode.
Escape leaves Quiz mode. The reset button and Ctrl+R zero everything.

The model has four modules:

- `Surface` (surface.dfy) is the page as the tool sees it:
  - the tile markers (`selected`, `correct`, `incorrect`);
  - the data attributes of a tile;
  - the named text slots;
  - the placeholder and label texts;
  - the decimal text a counter becomes when it is written to a slot.
- `Quiz` (quiz.dfy) holds the whole observable state as one value, `View`.
  The state covers the tiles, their markers, the slot texts, the two
  panels and the object's fields. Each handler is a function from the state
  before to the state after. Its contract states what the handler
  promises. `Step` maps each input event to its handler, and `Run` applies
  a sequence of events.
- `QuizProps` (quiz_props.dfy) holds the properties that relate several
  handlers or whole runs.
- `Tool` (tool.dfy) is the class `PeriodicTableTool`:
  - its fields are the JavaScript object's fields;
  - the tiles' marker sets are an array;
  - the `forEach` loops over the tiles are `for` loops.

  Each method is proved to leave exactly the state of the matching `Quiz`
  transition.

Modelling choices:

- **Tiles by identity.** A tile is its position on the page. The registry
  entry keeps that position, and an answer compares positions, because
  `script.js:120` compares node references. Two tiles with the same
  symbol are still different tiles.
- **The random pick.** `Math.floor(Math.random() * elements.length)` is
  an argument `i` with `i < |elements|`.
- **The timer.** The deferred `generateQuestion` that an answer schedules
  is `TimerFires(i)` in the class and the event `TimerFired(i)` in `Quiz`.
  Either can happen in any state, because nothing cancels the timer. The
  lemmas `StaleTimerAfterReset` and `StaleTimerDropsSelection` show what a
  late callback does: after a reset it sets a target in Info mode; after a
  switch back to Info mode it strips the `selected` marker from the tile
  that `selectedElement` still names.
- **An empty registry.** `generateQuestion`, and so `startQuizMode`, need
  at least one tile. With none, `elements[0]` is undefined and line 115
  throws. These operations therefore require `i < |elements|`.
- **Initial page.** The page's initial slot texts are a constructor
  argument, and the tiles start with no markers.
- **Every slot exists.** Most `getElementById` results are dereferenced
  without a check (script.js:73-77, 92, 95), so a missing slot would throw.
  The model assumes that every slot exists.

## Model

| member | source | states |
|---|---|---|
| `Surface.Strip` | script.js:167-171 | each tile keeps its markers minus the removed ones, and the tile count is unchanged |
| `Surface.StripIdempotent` | script.js:173-176 | removing the same markers twice leaves what removing them once leaves |
| `Surface.StripAllLeavesNone` | script.js:168-170 | after `correct`, `incorrect` and `selected` are removed, a tile carries no marker at all |
| `Surface.Decimal` | script.js:146-150 | a counter's slot text is non-empty, all decimal digits, and has no leading zero |
| `Surface.DecimalRoundTrip` | script.js:146-150 | reading a counter's slot text back as a number gives the counter |
| `Surface.DecimalInjective` | script.js:146-150 | different counter values never show the same text |
| `Quiz.CollectElements` | script.js:20-30 | the registry gets one entry per tile, entry k naming tile k with its attributes; nothing else changes; on a fresh page the result is well formed |
| `Quiz.ClearSelections` | script.js:173-176 | every tile loses `selected` and keeps its other markers; no element is selected; nothing else changes |
| `Quiz.ClearVisualEffects` | script.js:167-171 | no tile keeps any marker; nothing else changes |
| `Quiz.DisplayElementInfo` | script.js:72-78 | the info slots show the record, the mass followed by " u"; no other slot and nothing else changes |
| `Quiz.ResetElementInfo` | script.js:191-197 | the info slots hold "Element auswählen" and four "-"; no other slot and nothing else changes |
| `Quiz.UpdateQuizStats` | script.js:146-150 | the counter slots show the counters; no other slot and nothing else changes |
| `Quiz.HandleCorrectAnswer` | script.js:129-135 | correct and streak +1, wrong unchanged; the clicked tile gains `correct`, no other tile changes; the counters are shown and no other slot changes |
| `Quiz.HandleIncorrectAnswer` | script.js:137-144 | wrong +1, streak 0, correct unchanged; the clicked tile gains `incorrect` and the target's tile gains `correct`, no other tile changes; the counters are shown and no other slot changes |
| `Quiz.Collect` | script.js:20-30 | the registry has one entry per tile, in page order; entry k names tile k and carries tile k's five data attributes |
| `Quiz.RegistryEntry` | script.js:22-29 | every registry entry names an existing tile and carries that tile's attributes, its symbol included |
| `Quiz.GetElementData` | script.js:62-70 | the record read for a tile holds exactly that tile's name, symbol, number, mass and category |
| `Quiz.ShowElementInfo` | script.js:53-78 | after selecting tile t, t is the one tile marked `selected` and `selectedElement` is t; other markers are unchanged; the info slots show t's attributes with " u" after the mass, and every other slot keeps its text; the panels, mode, target, counters and registry are unchanged |
| `Quiz.ShowInfoMode` | script.js:100-110 | Info mode with no selection; only `selected` markers are removed (`correct`/`incorrect` stay); the info slots hold "Element auswählen" and "-"; the button reads "Quiz starten"; no other slot changes; the info panel is shown; target, counters and registry are unchanged |
| `Quiz.GenerateQuestion` | script.js:112-117 | the target becomes registry entry i; the target slot shows that tile's symbol and no other slot changes; no tile keeps any marker; mode, panels, selection and counters are unchanged; there is no mode check |
| `Quiz.StartQuizMode` | script.js:88-98 | with a non-empty registry: Quiz mode, a target from the registry shown in the target slot, no marker on any tile, no selection, the button reads "Quiz beenden", no other slot changes, the quiz panel is active, counters are unchanged |
| `Quiz.ToggleQuizMode` | script.js:80-86 | the mode flips, counters and registry are unchanged, and in Quiz mode there is a target whose symbol the target slot shows |
| `Quiz.HandleQuizAnswer` | script.js:119-144 | needs a target. If the clicked tile is the target's tile: correct and streak +1, wrong unchanged, the clicked tile gains `correct`. Otherwise: wrong +1, streak 0, correct unchanged, the clicked tile gains `incorrect` and the target tile gains `correct`. No other tile changes. The counter slots show the counters and no other slot changes. Mode, panels, target, selection and registry are unchanged |
| `Quiz.ResetTool` | script.js:178-197 | from any well-formed state: all three counters are 0 and shown; no target; Info mode; no selection; no marker on any tile; info placeholders; button "Quiz starten"; every other slot (the target slot) keeps its text; registry unchanged |
| `Quiz.HandleElementClick` | script.js:44-51 | in Quiz mode, correct + wrong grows by exactly one and the counters are shown; in Info mode the clicked tile becomes the selection and the quiz state is unchanged; the mode never changes |
| `Quiz.HandleKeyPress` | script.js:210-221 | Escape in Quiz mode is `showInfoMode` and does nothing in Info mode; Enter is `toggleQuizMode`; Ctrl+R (r or R) is `resetTool`; any other key changes nothing; only Ctrl+R touches the counters |
| `Quiz.Initial` | script.js:2-18 | after construction: Info mode, no target, no selection, zero counters, one registry entry per tile, no markers, info placeholders |
| `Quiz.Step` | script.js:32-42 | every input keeps the invariant (Quiz mode has a target, shows its symbol in the target slot and has no selection; streak ≤ correct; target and selection refer to real tiles); no input changes the tiles or the registry; counter slots that show the counters keep showing them, and a reset shows them; only a reset can lower a count |
| `Quiz.Run` | script.js:32-42 | over any sequence of inputs: the invariant holds, the registry is the one collected at start, and the counters stay on display once shown |
| `QuizProps.ShowInfoModeIdempotent` | script.js:100-110 | showing Info mode twice gives the same state as showing it once |
| `QuizProps.ShowElementInfoIdempotent` | script.js:53-60 | selecting a tile a second time right after selecting it changes nothing: twice gives the same state as once |
| `QuizProps.ResetToolIdempotent` | script.js:178-197 | resetting twice gives the same state as resetting once |
| `QuizProps.CountsNeverDecreaseWithoutReset` | script.js:129-139 | over any sequence of inputs without a reset, neither the correct nor the wrong count goes down |
| `QuizProps.RunAppend` | script.js:32-42 | handling two input sequences one after the other is handling their concatenation |
| `QuizProps.ResetEvents` | script.js:217-220 | the reset button and Ctrl+R both run `resetTool`, in any state |
| `QuizProps.CountersShownAfterReset` | script.js:178-189 | from the first reset on, by the reset button or by Ctrl+R, whatever follows, the three counter slots show the three counters |
| `QuizProps.StaleTimerAfterReset` | script.js:112-127 | a question timer that fires after a reset sets a target although the tool is in Info mode |
| `QuizProps.StaleTimerDropsSelection` | script.js:112-127 | answer, Escape, select tile s, then the timer fires: `selectedElement` is still s but s has lost its `selected` marker |
| `QuizProps.ScenarioCorrectAnswer` | script.js:119-135 | registry [H], target H, click H: correct 1, wrong 0, streak 1, H marked `correct`, slots read "1", "0", "1" |
| `QuizProps.ScenarioWrongAnswer` | script.js:137-144 | registry [H, He], target H, click He: correct 0, wrong 1, streak 0, He marked `incorrect` and H marked `correct` |
| `Tool.PeriodicTableTool.constructor` | script.js:2-18 | the new object satisfies the invariant and is in the `Initial` state for its page |
| `Tool.PeriodicTableTool.CollectElements` | script.js:20-30 | `elements` becomes the registry collected from the tiles; it is the only method that assigns `elements` |
| `Tool.PeriodicTableTool.HandleElementClick` | script.js:44-51 | keeps the invariant and makes the `HandleElementClick` transition |
| `Tool.PeriodicTableTool.UnmarkSelected` | script.js:54 | the loop leaves every tile's markers minus `selected` |
| `Tool.PeriodicTableTool.ShowElementInfo` | script.js:53-60 | makes the `ShowElementInfo` transition |
| `Tool.PeriodicTableTool.DisplayElementInfo` | script.js:72-78 | writes name, symbol, number, mass + " u" and category into the info slots and changes nothing else |
| `Tool.PeriodicTableTool.ToggleQuizMode` | script.js:80-86 | keeps the invariant and makes the `ToggleQuizMode` transition |
| `Tool.PeriodicTableTool.StartQuizMode` | script.js:88-98 | makes the `StartQuizMode` transition |
| `Tool.PeriodicTableTool.ShowInfoMode` | script.js:100-110 | makes the `ShowInfoMode` transition |
| `Tool.PeriodicTableTool.GenerateQuestion` | script.js:112-117 | makes the `GenerateQuestion` transition |
| `Tool.PeriodicTableTool.TimerFires` | script.js:126 | the deferred `generateQuestion`, callable in any state; it keeps the invariant |
| `Tool.PeriodicTableTool.HandleQuizAnswer` | script.js:119-127 | makes the `HandleQuizAnswer` transition |
| `Tool.PeriodicTableTool.HandleCorrectAnswer` | script.js:129-135 | correct and streak +1, the clicked tile gains `correct`, the counters are shown |
| `Tool.PeriodicTableTool.HandleIncorrectAnswer` | script.js:137-144 | wrong +1, streak 0, the clicked tile gains `incorrect`, the target tile gains `correct`, the counters are shown |
| `Tool.PeriodicTableTool.UpdateQuizStats` | script.js:146-150 | the three counter slots show the three counters and nothing else changes |
| `Tool.PeriodicTableTool.ClearVisualEffects` | script.js:167-171 | the loop removes every marker from every tile and changes nothing else |
| `Tool.PeriodicTableTool.ClearSelections` | script.js:173-176 | removes every `selected` marker and sets `selectedElement` to null |
| `Tool.PeriodicTableTool.ResetTool` | script.js:178-189 | from any well-formed state: leaves the invariant and makes the `ResetTool` transition |
| `Tool.PeriodicTableTool.ResetElementInfo` | script.js:191-197 | the info slots hold "Element auswählen" and four "-" |
| `Tool.PeriodicTableTool.HandleKeyPress` | script.js:210-221 | the three key checks run in order; keeps the invariant and makes the `HandleKeyPress` transition |

## Left out

- sw.js, the offline-cache service worker. On install it caches a fixed list of assets; on activation it deletes every cache not named `pse-tool-cache-v1`; it passes non-GET requests through and serves GET requests network-first, storing each response, and on a network failure it falls back to the cached response and then to the cached `/index.html`. It is left out because it is browser Cache and Fetch plumbing outside the controller and shares no state with it.
- `bindEvents` (script.js:32-42) wires listeners to the page. Only the mapping from each input to its handler is modelled, in `Quiz.Step`.
- `showSuccessEffect` (script.js:152-157) sets a CSS animation on the page body and clears it after 300 ms; `showErrorEffect` (script.js:159-165) sets one on the `.container` element and clears it after 500 ms. Neither touches a tile or a slot.
- `showResetConfirmation` (script.js:199-208) and the reset button's label. It saves the label, writes "✓ Zurückgesetzt", and writes the saved text back 1500 ms later. A second reset within those 1500 ms saves "✓ Zurückgesetzt" itself, so that text stays on the button for good. The reset button's label is not a modelled slot.
- `e.preventDefault()` on Ctrl+R (script.js:218), which stops the browser from reloading the page. Key events are modelled only by their key and Ctrl flag.
- The style-sheet injection and the `DOMContentLoaded` bootstrap with the global `window.periodicTable` (script.js:224-244).
- How the random index is drawn, and its uniformity. The index is an argument.
- The time at which the timers fire. Only the deferred `generateQuestion` is modelled, as a step that may happen in any state.
- CSS class swaps on the quiz button (`primary`/`secondary`). Only the button's label and the two panels' visibility are modelled.
- The exception an empty registry raises in `startQuizMode` after `isQuizMode` has been set. The model requires a non-empty registry there instead.
- A missing display slot or data attribute (`null` or `undefined` in JavaScript). Every slot and attribute is assumed present.
- Surface.Decimal: counters are unbounded naturals. JavaScript numbers lose precision above 2^53 and print in exponent form from 10^21.
