/** The observable state of `PeriodicTableTool` (script.js) as one value, and
    every handler of the tool as a function from the state before to the
    state after. The class in tool.dfy is proved to make exactly these
    transitions; the lemmas here state what the transitions promise. */
module Quiz {
  import opened Surface

  datatype Option<T> = None | Some(value: T)

  /** One record of the element registry built by `collectElements`: the tile
      it was read from (tiles are identified by their position on the page)
      and that tile's data attributes. */
  datatype Entry = Entry(element: nat, number: string, symbol: string, name: string, mass: string, category: string)

  /** Everything the tool reads or writes.
      Page side: the tiles' data attributes (fixed), the markers on each
      tile, the text of the display slots, the two panels.
      Tool side: the fields of the `PeriodicTableTool` object. */
  datatype View = View(
    tiles: seq<TileData>,
    marks: seq<set<Marker>>,
    slots: map<Slot, string>,
    quizPanelActive: bool,
    infoPanelShown: bool,
    quiz: bool,
    question: Option<Entry>,
    correct: nat,
    wrong: nat,
    streak: nat,
    elements: seq<Entry>,
    selected: Option<nat>)

  const EscapeKey: string := "Escape"
  const EnterKey: string := "Enter"

  /** `key.toLowerCase() === 'r'` */
  predicate IsKeyR(key: string) {
    key == "r" || key == "R"
  }

  function DataOf(e: Entry): TileData {
    TileData(e.number, e.symbol, e.name, e.mass, e.category)
  }

  /** The registry `collectElements` builds: one entry per tile, in page order. */
  function Collect(tiles: seq<TileData>): (r: seq<Entry>)
    ensures |r| == |tiles|
    ensures forall k :: 0 <= k < |r| ==> r[k].element == k && DataOf(r[k]) == tiles[k]
  {
    seq(|tiles|, k requires 0 <= k < |tiles| =>
      Entry(k, tiles[k].number, tiles[k].symbol, tiles[k].name, tiles[k].mass, tiles[k].category))
  }

  /** A registry entry names a tile of the page and carries that tile's attributes. */
  lemma RegistryEntry(tiles: seq<TileData>, e: Entry)
    requires e in Collect(tiles)
    ensures e.element < |tiles| && DataOf(e) == tiles[e.element]
    ensures e.symbol == tiles[e.element].symbol
  {
    var r := Collect(tiles);
    var k :| 0 <= k < |r| && r[k] == e;
    assert DataOf(r[k]) == tiles[k];
  }

  /** Well-formedness: the registry is the one collected from the page, and
      the target and the selection refer to tiles of the page. */
  predicate Wf(v: View) {
    |v.marks| == |v.tiles| &&
    v.elements == Collect(v.tiles) &&
    (v.question.Some? ==> v.question.value in v.elements) &&
    (v.selected.Some? ==> v.selected.value < |v.tiles|)
  }

  /** What every handler keeps: in Quiz mode there is a target, its symbol
      is in the target slot and nothing is selected; the streak never
      exceeds the number of correct answers. */
  predicate Inv(v: View) {
    Wf(v) &&
    (v.quiz ==> v.question.Some? && v.selected.None? && TargetShown(v)) &&
    v.streak <= v.correct
  }

  /** The target slot shows the target's symbol. */
  predicate TargetShown(v: View)
    requires v.question.Some?
  {
    QuizTarget in v.slots && v.slots[QuizTarget] == v.question.value.symbol
  }

  /** The three counter slots show the three counters. */
  predicate StatsShown(v: View) {
    CorrectCount in v.slots && v.slots[CorrectCount] == Decimal(v.correct) &&
    WrongCount in v.slots && v.slots[WrongCount] == Decimal(v.wrong) &&
    StreakCount in v.slots && v.slots[StreakCount] == Decimal(v.streak)
  }

  /** The info slots hold the "no element" placeholders. */
  predicate InfoPlaceholders(slots: map<Slot, string>) {
    ElementName in slots && slots[ElementName] == NamePlaceholder &&
    ElementSymbol in slots && slots[ElementSymbol] == DashPlaceholder &&
    ElementNumber in slots && slots[ElementNumber] == DashPlaceholder &&
    ElementMass in slots && slots[ElementMass] == DashPlaceholder &&
    ElementCategory in slots && slots[ElementCategory] == DashPlaceholder
  }

  /** The info slots show the attributes `d`, the mass with its unit. */
  predicate InfoShows(slots: map<Slot, string>, d: TileData) {
    ElementName in slots && slots[ElementName] == d.name &&
    ElementSymbol in slots && slots[ElementSymbol] == d.symbol &&
    ElementNumber in slots && slots[ElementNumber] == d.number &&
    ElementMass in slots && slots[ElementMass] == d.mass + MassUnit &&
    ElementCategory in slots && slots[ElementCategory] == d.category
  }

  /** No tile carries any marker. */
  predicate Unmarked(v: View) {
    forall k :: 0 <= k < |v.marks| ==> v.marks[k] == {}
  }

  /** `r` has the same registry, mode, target and counters as `v`. */
  predicate SameQuiz(v: View, r: View) {
    r.tiles == v.tiles && r.elements == v.elements &&
    r.quiz == v.quiz && r.question == v.question &&
    r.correct == v.correct && r.wrong == v.wrong && r.streak == v.streak
  }

  /** The info-panel slots. */
  const InfoSlots: set<Slot> := {ElementName, ElementSymbol, ElementNumber, ElementMass, ElementCategory}

  /** The three counter slots. */
  const CounterSlots: set<Slot> := {CorrectCount, WrongCount, StreakCount}

  /** Every slot of `v` outside `written` holds the same text in `r`. */
  predicate SlotsKept(v: View, r: View, written: set<Slot>) {
    forall s :: s in v.slots && s !in written ==> s in r.slots && r.slots[s] == v.slots[s]
  }

  // ---------------------------------------------------------------------
  // Page helpers (clearSelections, clearVisualEffects, the slot writers)

  /** `clearSelections`: no tile keeps `selected`, other markers stay, no
      selected element; nothing else changes. */
  function ClearSelections(v: View): (r: View)
    ensures r.selected.None? && |r.marks| == |v.marks|
    ensures forall k :: 0 <= k < |r.marks| ==> r.marks[k] == v.marks[k] - {Selected}
    ensures r.(marks := v.marks, selected := v.selected) == v
  {
    v.(marks := Strip(v.marks, {Selected}), selected := None)
  }

  /** `clearVisualEffects`: no tile keeps any marker; nothing else changes. */
  function ClearVisualEffects(v: View): (r: View)
    ensures Unmarked(r) && |r.marks| == |v.marks|
    ensures r.(marks := v.marks) == v
  {
    var r := v.(marks := Strip(v.marks, AllMarkers));
    assert Unmarked(r) by {
      forall k | 0 <= k < |r.marks| ensures r.marks[k] == {} {
        StripAllLeavesNone(v.marks, k);
      }
    }
    r
  }

  /** `resetElementInfo`: the info slots hold the placeholders; no other
      slot and nothing else changes. */
  function ResetElementInfo(v: View): (r: View)
    ensures InfoPlaceholders(r.slots) && SlotsKept(v, r, InfoSlots)
    ensures r.(slots := v.slots) == v
  {
    v.(slots := v.slots[ElementName := NamePlaceholder][ElementSymbol := DashPlaceholder]
                       [ElementNumber := DashPlaceholder][ElementMass := DashPlaceholder]
                       [ElementCategory := DashPlaceholder])
  }

  /** The record `getElementData` reads from a tile's data attributes. */
  function GetElementData(tiles: seq<TileData>, t: nat): (d: TileData)
    requires t < |tiles|
    ensures d == tiles[t]
  {
    TileData(tiles[t].number, tiles[t].symbol, tiles[t].name, tiles[t].mass, tiles[t].category)
  }

  /** `displayElementInfo(d)`: the info slots show `d`, the mass with its
      unit; no other slot and nothing else changes. */
  function DisplayElementInfo(v: View, d: TileData): (r: View)
    ensures InfoShows(r.slots, d) && SlotsKept(v, r, InfoSlots)
    ensures r.(slots := v.slots) == v
  {
    v.(slots := v.slots[ElementName := d.name][ElementSymbol := d.symbol]
                       [ElementNumber := d.number][ElementMass := d.mass + MassUnit]
                       [ElementCategory := d.category])
  }

  /** `updateQuizStats`: the counter slots show the counters; no other slot
      and nothing else changes. */
  function UpdateQuizStats(v: View): (r: View)
    ensures StatsShown(r) && SlotsKept(v, r, CounterSlots)
    ensures r.(slots := v.slots) == v
  {
    v.(slots := v.slots[CorrectCount := Decimal(v.correct)][WrongCount := Decimal(v.wrong)]
                       [StreakCount := Decimal(v.streak)])
  }

  /** `collectElements`: one registry entry per tile, entry k naming tile k
      and carrying its attributes; nothing else changes. */
  function CollectElements(v: View): (r: View)
    ensures |r.elements| == |v.tiles|
    ensures forall k :: 0 <= k < |r.elements| ==> r.elements[k].element == k && DataOf(r.elements[k]) == v.tiles[k]
    ensures r.(elements := v.elements) == v
    ensures |v.marks| == |v.tiles| && v.question.None? && v.selected.None? ==> Wf(r)
  {
    v.(elements := Collect(v.tiles))
  }

  // ---------------------------------------------------------------------
  // Handlers

  /** `showElementInfo(t)`: exactly tile `t` is selected, the info panel shows its data. */
  function ShowElementInfo(v: View, t: nat): (r: View)
    requires Wf(v) && t < |v.tiles|
    ensures Wf(r) && SameQuiz(v, r)
    ensures r.selected == Some(t)
    ensures |r.marks| == |v.marks|
    ensures forall k :: 0 <= k < |r.marks| ==> (Selected in r.marks[k] <==> k == t)
    ensures forall k :: 0 <= k < |r.marks| ==> r.marks[k] - {Selected} == v.marks[k] - {Selected}
    ensures InfoShows(r.slots, v.tiles[t]) && SlotsKept(v, r, InfoSlots)
    ensures r.quizPanelActive == v.quizPanelActive && r.infoPanelShown == v.infoPanelShown
    ensures StatsShown(v) ==> StatsShown(r)
  {
    var unselected := v.(marks := Strip(v.marks, {Selected}));
    var marked := unselected.(marks := unselected.marks[t := unselected.marks[t] + {Selected}], selected := Some(t));
    DisplayElementInfo(marked, GetElementData(v.tiles, t))
  }

  /** `showInfoMode`: Info mode, no selection, only `selected` markers removed,
      placeholders in the info panel. */
  function ShowInfoMode(v: View): (r: View)
    requires Wf(v)
    ensures Wf(r)
    ensures !r.quiz && r.selected.None?
    ensures r.tiles == v.tiles && r.elements == v.elements && r.question == v.question
    ensures r.correct == v.correct && r.wrong == v.wrong && r.streak == v.streak
    ensures |r.marks| == |v.marks|
    ensures forall k :: 0 <= k < |r.marks| ==> r.marks[k] == v.marks[k] - {Selected}
    ensures InfoPlaceholders(r.slots)
    ensures QuizButton in r.slots && r.slots[QuizButton] == StartQuizLabel
    ensures r.infoPanelShown && !r.quizPanelActive
    ensures SlotsKept(v, r, InfoSlots + {QuizButton})
    ensures StatsShown(v) ==> StatsShown(r)
  {
    var left := ClearSelections(v.(quiz := false));
    var shown := left.(slots := left.slots[QuizButton := StartQuizLabel], quizPanelActive := false, infoPanelShown := true);
    ResetElementInfo(shown)
  }

  /** `generateQuestion` with the random pick `i`: the target is the `i`-th
      registry entry, its symbol is shown, every marker is cleared. Nothing
      checks the mode. */
  function GenerateQuestion(v: View, i: nat): (r: View)
    requires Wf(v) && i < |v.elements|
    ensures Wf(r)
    ensures r.question == Some(v.elements[i]) && r.question.value in r.elements
    ensures QuizTarget in r.slots && r.slots[QuizTarget] == v.tiles[v.elements[i].element].symbol
    ensures Unmarked(r) && |r.marks| == |v.marks|
    ensures r.tiles == v.tiles && r.elements == v.elements && r.quiz == v.quiz && r.selected == v.selected
    ensures r.correct == v.correct && r.wrong == v.wrong && r.streak == v.streak
    ensures r.quizPanelActive == v.quizPanelActive && r.infoPanelShown == v.infoPanelShown
    ensures SlotsKept(v, r, {QuizTarget})
    ensures StatsShown(v) ==> StatsShown(r)
  {
    var q := v.elements[i];
    RegistryEntry(v.tiles, q);
    ClearVisualEffects(v.(question := Some(q), slots := v.slots[QuizTarget := q.symbol]))
  }

  /** `startQuizMode`: Quiz mode with a target from the registry, shown in
      the target slot, and no tile marked. */
  function StartQuizMode(v: View, i: nat): (r: View)
    requires Wf(v) && i < |v.elements|
    ensures Wf(r)
    ensures r.quiz && r.selected.None?
    ensures r.question.Some? && r.question.value in r.elements
    ensures QuizTarget in r.slots && r.slots[QuizTarget] == r.question.value.symbol
    ensures Unmarked(r)
    ensures QuizButton in r.slots && r.slots[QuizButton] == EndQuizLabel
    ensures r.quizPanelActive && !r.infoPanelShown
    ensures r.tiles == v.tiles && r.elements == v.elements
    ensures r.correct == v.correct && r.wrong == v.wrong && r.streak == v.streak
    ensures SlotsKept(v, r, {QuizButton, QuizTarget})
    ensures StatsShown(v) ==> StatsShown(r)
  {
    var entered := ClearSelections(v.(quiz := true));
    var shown := entered.(slots := entered.slots[QuizButton := EndQuizLabel], quizPanelActive := true, infoPanelShown := false);
    var r := GenerateQuestion(shown, i);
    RegistryEntry(v.tiles, v.elements[i]);
    r
  }

  /** `toggleQuizMode`: the mode flips. */
  function ToggleQuizMode(v: View, i: nat): (r: View)
    requires Wf(v) && (!v.quiz ==> i < |v.elements|)
    ensures Wf(r)
    ensures r.quiz == !v.quiz
    ensures r.tiles == v.tiles && r.elements == v.elements
    ensures r.correct == v.correct && r.wrong == v.wrong && r.streak == v.streak
    ensures r.quiz ==> r.question.Some? && r.selected.None? && TargetShown(r)
    ensures StatsShown(v) ==> StatsShown(r)
  {
    if v.quiz then ShowInfoMode(v) else StartQuizMode(v, i)
  }

  /** `handleCorrectAnswer(t)`: correct and streak up by one, wrong kept,
      tile `t` gains `correct`, the counters are shown; nothing else changes. */
  function HandleCorrectAnswer(v: View, t: nat): (r: View)
    requires t < |v.marks|
    ensures r.correct == v.correct + 1 && r.streak == v.streak + 1 && r.wrong == v.wrong
    ensures |r.marks| == |v.marks| && r.marks[t] == v.marks[t] + {Correct}
    ensures forall k :: 0 <= k < |v.marks| && k != t ==> r.marks[k] == v.marks[k]
    ensures StatsShown(r) && SlotsKept(v, r, CounterSlots)
    ensures r.(correct := v.correct, streak := v.streak, marks := v.marks, slots := v.slots) == v
  {
    var counted := v.(correct := v.correct + 1, streak := v.streak + 1);
    UpdateQuizStats(counted.(marks := counted.marks[t := counted.marks[t] + {Correct}]))
  }

  /** `handleIncorrectAnswer(t)`: wrong up by one, streak back to 0, correct
      kept, tile `t` gains `incorrect` and the target's tile gains `correct`,
      the counters are shown; nothing else changes. */
  function HandleIncorrectAnswer(v: View, t: nat): (r: View)
    requires t < |v.marks|
    requires v.question.Some? && v.question.value.element < |v.marks|
    ensures r.wrong == v.wrong + 1 && r.streak == 0 && r.correct == v.correct
    ensures |r.marks| == |v.marks|
    ensures var target := v.question.value.element;
      if t == target then r.marks[t] == v.marks[t] + {Incorrect, Correct}
      else r.marks[t] == v.marks[t] + {Incorrect} && r.marks[target] == v.marks[target] + {Correct}
    ensures forall k :: 0 <= k < |v.marks| && k != t && k != v.question.value.element ==> r.marks[k] == v.marks[k]
    ensures StatsShown(r) && SlotsKept(v, r, CounterSlots)
    ensures r.(wrong := v.wrong, streak := v.streak, marks := v.marks, slots := v.slots) == v
  {
    var target := v.question.value.element;
    var counted := v.(wrong := v.wrong + 1, streak := 0);
    var flagged := counted.marks[t := counted.marks[t] + {Incorrect}];
    UpdateQuizStats(counted.(marks := flagged[target := flagged[target] + {Correct}]))
  }

  /** `handleQuizAnswer(t)`: the clicked tile is compared by identity with the
      target's tile; exactly one of the two counts goes up by one, the
      streak goes up or back to 0, the counters are shown, and the mode,
      the target and the registry stay as they were. */
  function HandleQuizAnswer(v: View, t: nat): (r: View)
    requires Wf(v) && v.question.Some? && t < |v.tiles|
    ensures Wf(r)
    ensures r.tiles == v.tiles && r.elements == v.elements
    ensures r.quiz == v.quiz && r.question == v.question && r.selected == v.selected
    ensures r.quizPanelActive == v.quizPanelActive && r.infoPanelShown == v.infoPanelShown
    ensures StatsShown(r) && SlotsKept(v, r, CounterSlots)
    ensures |r.marks| == |v.marks|
    ensures t == v.question.value.element ==>
      r.correct == v.correct + 1 && r.streak == v.streak + 1 && r.wrong == v.wrong &&
      r.marks[t] == v.marks[t] + {Correct} &&
      (forall k :: 0 <= k < |v.marks| && k != t ==> r.marks[k] == v.marks[k])
    ensures t != v.question.value.element ==>
      var target := v.question.value.element;
      target < |v.marks| &&
      r.wrong == v.wrong + 1 && r.streak == 0 && r.correct == v.correct &&
      r.marks[t] == v.marks[t] + {Incorrect} && r.marks[target] == v.marks[target] + {Correct} &&
      (forall k :: 0 <= k < |v.marks| && k != t && k != target ==> r.marks[k] == v.marks[k])
  {
    RegistryEntry(v.tiles, v.question.value);
    if t == v.question.value.element then HandleCorrectAnswer(v, t) else HandleIncorrectAnswer(v, t)
  }

  /** `resetTool`: from any state, counters zero and shown, no target, Info
      mode, no selection, no marker on any tile, placeholders in the info panel. */
  function ResetTool(v: View): (r: View)
    requires Wf(v)
    ensures Inv(r)
    ensures r.correct == 0 && r.wrong == 0 && r.streak == 0
    ensures r.question.None? && !r.quiz && r.selected.None?
    ensures Unmarked(r) && |r.marks| == |v.marks|
    ensures InfoPlaceholders(r.slots) && StatsShown(r)
    ensures QuizButton in r.slots && r.slots[QuizButton] == StartQuizLabel
    ensures r.infoPanelShown && !r.quizPanelActive
    ensures r.tiles == v.tiles && r.elements == v.elements
    ensures SlotsKept(v, r, InfoSlots + CounterSlots + {QuizButton})
  {
    var zeroed := v.(correct := 0, wrong := 0, streak := 0, question := None);
    ClearVisualEffects(ResetElementInfo(UpdateQuizStats(ShowInfoMode(zeroed))))
  }

  /** `handleElementClick(t)`: an answer in Quiz mode, a selection in Info mode. */
  function HandleElementClick(v: View, t: nat): (r: View)
    requires Inv(v) && t < |v.tiles|
    ensures Inv(r)
    ensures r.tiles == v.tiles && r.elements == v.elements && r.quiz == v.quiz
    ensures v.quiz ==> r.correct + r.wrong == v.correct + v.wrong + 1 && StatsShown(r)
    ensures !v.quiz ==> r.selected == Some(t) && SameQuiz(v, r)
    ensures r.correct >= v.correct && r.wrong >= v.wrong
    ensures StatsShown(v) ==> StatsShown(r)
  {
    if v.quiz then HandleQuizAnswer(v, t) else ShowElementInfo(v, t)
  }

  /** `handleKeyPress`: Escape leaves Quiz mode (and does nothing in Info
      mode), Enter toggles the mode, Ctrl+R resets, any other key does nothing. */
  function HandleKeyPress(v: View, key: string, ctrl: bool, i: nat): (r: View)
    requires Inv(v) && (key == EnterKey && !v.quiz ==> i < |v.elements|)
    ensures Inv(r)
    ensures r.tiles == v.tiles && r.elements == v.elements
    ensures key == EscapeKey ==> !r.quiz && (!v.quiz ==> r == v)
    ensures key == EscapeKey && v.quiz ==> r == ShowInfoMode(v)
    ensures key == EnterKey ==> r.quiz == !v.quiz && r == ToggleQuizMode(v, i)
    ensures ctrl && IsKeyR(key) ==> r == ResetTool(v)
    ensures ctrl && IsKeyR(key) ==> !r.quiz && r.question.None? && r.correct == 0 && r.wrong == 0 && r.streak == 0
    ensures key != EscapeKey && key != EnterKey && !(ctrl && IsKeyR(key)) ==> r == v
    ensures !(ctrl && IsKeyR(key)) ==> r.correct == v.correct && r.wrong == v.wrong && r.streak == v.streak
    ensures StatsShown(v) ==> StatsShown(r)
  {
    var escaped := if key == EscapeKey && v.quiz then ShowInfoMode(v) else v;
    var entered := if key == EnterKey then ToggleQuizMode(escaped, i) else escaped;
    if IsKeyR(key) && ctrl then ResetTool(entered) else entered
  }

  /** The state right after construction: registry collected, Info mode. */
  function Initial(tiles: seq<TileData>, page: map<Slot, string>): (r: View)
    ensures Inv(r) && !r.quiz && r.question.None? && r.selected.None?
    ensures r.correct == 0 && r.wrong == 0 && r.streak == 0
    ensures r.tiles == tiles && |r.elements| == |tiles| && Unmarked(r)
    ensures InfoPlaceholders(r.slots)
  {
    var blank := View(tiles, seq(|tiles|, _ => {}), page, false, true, false, None, 0, 0, 0, [], None);
    ShowInfoMode(CollectElements(blank))
  }

  // ---------------------------------------------------------------------
  // Inputs

  /** Everything that can happen to the tool. `pick` stands for the random
      index `generateQuestion` draws; `TimerFired` is the deferred
      `generateQuestion` an answer schedules, and may arrive in any state. */
  datatype Event =
    | TileClick(tile: nat)
    | QuizButtonClick(pick: nat)
    | InfoButtonClick
    | ResetButtonClick
    | KeyDown(key: string, ctrl: bool, pick: nat)
    | TimerFired(pick: nat)

  /** The event refers to a tile of the page and, where it may draw a
      question, to an index of the registry. */
  predicate Admissible(v: View, e: Event) {
    match e
    case TileClick(t) => t < |v.tiles|
    case QuizButtonClick(i) => !v.quiz ==> i < |v.elements|
    case KeyDown(key, _, i) => key == EnterKey && !v.quiz ==> i < |v.elements|
    case TimerFired(i) => i < |v.elements|
    case InfoButtonClick => true
    case ResetButtonClick => true
  }

  predicate IsReset(e: Event) {
    e.ResetButtonClick? || (e.KeyDown? && e.ctrl && IsKeyR(e.key))
  }

  /** The handler each event runs. */
  function Step(v: View, e: Event): (r: View)
    requires Inv(v) && Admissible(v, e)
    ensures Inv(r)
    ensures r.tiles == v.tiles && r.elements == v.elements
    ensures StatsShown(v) ==> StatsShown(r)
    ensures !IsReset(e) ==> r.correct >= v.correct && r.wrong >= v.wrong
    ensures IsReset(e) ==> StatsShown(r)
  {
    match e
    case TileClick(t) => HandleElementClick(v, t)
    case QuizButtonClick(i) => ToggleQuizMode(v, i)
    case InfoButtonClick => ShowInfoMode(v)
    case ResetButtonClick => ResetTool(v)
    case KeyDown(key, ctrl, i) =>
      var r := HandleKeyPress(v, key, ctrl, i);
      assert ctrl && IsKeyR(key) ==> r == ResetTool(v);
      r
    case TimerFired(i) => GenerateQuestion(v, i)
  }

  /** Every index an event carries is below `n`, including the pick of a
      key press or quiz-button click that draws no question. On a page with
      no tiles this admits no key press at all, Ctrl+R included; no state is
      lost by that, because the reset button is still admitted. */
  predicate InRange(e: Event, n: nat) {
    match e
    case TileClick(t) => t < n
    case QuizButtonClick(i) => i < n
    case KeyDown(_, _, i) => i < n
    case TimerFired(i) => i < n
    case InfoButtonClick => true
    case ResetButtonClick => true
  }

  /** An in-range event can be handled in any state with the invariant. */
  lemma InRangeAdmissible(v: View, e: Event)
    requires Wf(v) && InRange(e, |v.tiles|)
    ensures Admissible(v, e)
  {
  }

  /** The state after a sequence of events. */
  function Run(v: View, evs: seq<Event>): (r: View)
    requires Inv(v)
    requires forall k :: 0 <= k < |evs| ==> InRange(evs[k], |v.tiles|)
    ensures Inv(r)
    ensures r.tiles == v.tiles && r.elements == v.elements
    ensures StatsShown(v) ==> StatsShown(r)
    decreases |evs|
  {
    if evs == [] then v
    else
      InRangeAdmissible(v, evs[0]);
      var next := Step(v, evs[0]);
      Run(next, evs[1..])
  }
}
