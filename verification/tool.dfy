/** The `PeriodicTableTool` object of script.js and the part of the page it
    drives. Each method does what its JavaScript namesake does, step by
    step, and is proved to leave the state its transition in module Quiz
    describes; what those transitions promise is proved there. */
module Tool {
  import opened Surface
  import opened Quiz

  class PeriodicTableTool {
    // The page: the tiles' data attributes, the markers on each tile, the
    // text of the display slots, and the two panels.
    const tiles: seq<TileData>
    const marks: array<set<Marker>>
    var slots: map<Slot, string>
    var quizPanelActive: bool
    var infoPanelShown: bool

    // The fields of the JavaScript object.
    var isQuizMode: bool
    var currentQuestion: Option<Entry>
    var correctCount: nat
    var wrongCount: nat
    var streakCount: nat
    var elements: seq<Entry>
    var selectedElement: Option<nat>

    /** The object and its page as one value. */
    ghost function State(): View
      reads this, marks
    {
      View(tiles, marks[..], slots, quizPanelActive, infoPanelShown,
           isQuizMode, currentQuestion, correctCount, wrongCount, streakCount,
           elements, selectedElement)
    }

    ghost predicate Wf()
      reads this, marks
    {
      Quiz.Wf(State())
    }

    ghost predicate Valid()
      reads this, marks
    {
      Inv(State())
    }

    /** `new PeriodicTableTool()` on a page with the tiles `page` (unmarked)
        and the slot texts `text`; runs `init`. */
    constructor (page: seq<TileData>, text: map<Slot, string>)
      ensures fresh(marks)
      ensures Valid() && State() == Initial(page, text)
    {
      tiles := page;
      marks := new set<Marker>[|page|](_ => {});
      slots := text;
      quizPanelActive := false;
      infoPanelShown := true;
      isQuizMode := false;
      currentQuestion := None;
      correctCount := 0;
      wrongCount := 0;
      streakCount := 0;
      elements := [];
      selectedElement := None;
      new;
      assert marks[..] == seq(|page|, _ => {});
      // init(): the event wiring of bindEvents is not modelled
      CollectElements();
      ShowInfoMode();
    }

    /** `collectElements`: the registry is read from the tiles, once. */
    method CollectElements()
      requires marks.Length == |tiles| && currentQuestion.None? && selectedElement.None?
      modifies this
      ensures Wf()
      ensures State() == Quiz.CollectElements(old(State()))
    {
      elements := Collect(tiles);
    }

    /** `handleElementClick`: route a tile click by mode. */
    method HandleElementClick(t: nat)
      requires Valid() && t < |tiles|
      modifies this, marks
      ensures Valid()
      ensures State() == Quiz.HandleElementClick(old(State()), t)
    {
      if isQuizMode {
        HandleQuizAnswer(t);
      } else {
        ShowElementInfo(t);
      }
    }

    /** Removes the `selected` marker from every tile that has it. */
    method UnmarkSelected()
      modifies marks
      ensures marks[..] == Strip(old(marks[..]), {Selected})
    {
      for k := 0 to marks.Length
        invariant forall j :: 0 <= j < k ==> marks[j] == old(marks[j]) - {Selected}
        invariant forall j :: k <= j < marks.Length ==> marks[j] == old(marks[j])
      {
        if Selected in marks[k] {
          marks[k] := marks[k] - {Selected};
        }
      }
    }

    /** `showElementInfo(t)` */
    method ShowElementInfo(t: nat)
      requires Wf() && t < |tiles|
      modifies this, marks
      ensures State() == Quiz.ShowElementInfo(old(State()), t)
    {
      UnmarkSelected();
      marks[t] := marks[t] + {Selected};
      selectedElement := Some(t);
      var data := GetElementData(tiles, t);
      DisplayElementInfo(data);
    }

    /** `displayElementInfo(data)` */
    method DisplayElementInfo(data: TileData)
      modifies this
      ensures State() == Quiz.DisplayElementInfo(old(State()), data)
    {
      slots := slots[ElementName := data.name];
      slots := slots[ElementSymbol := data.symbol];
      slots := slots[ElementNumber := data.number];
      slots := slots[ElementMass := data.mass + MassUnit];
      slots := slots[ElementCategory := data.category];
    }

    /** `toggleQuizMode` (the quiz button, and Enter) */
    method ToggleQuizMode(i: nat)
      requires Valid() && (!isQuizMode ==> i < |elements|)
      modifies this, marks
      ensures Valid()
      ensures State() == Quiz.ToggleQuizMode(old(State()), i)
    {
      if isQuizMode {
        ShowInfoMode();
      } else {
        StartQuizMode(i);
      }
    }

    /** `startQuizMode`, with `i` standing for the random pick */
    method StartQuizMode(i: nat)
      requires Wf() && i < |elements|
      modifies this, marks
      ensures State() == Quiz.StartQuizMode(old(State()), i)
    {
      isQuizMode := true;
      ClearSelections();
      slots := slots[QuizButton := EndQuizLabel];
      quizPanelActive := true;
      infoPanelShown := false;
      GenerateQuestion(i);
    }

    /** `showInfoMode` (the info button, Escape, and the end of a quiz) */
    method ShowInfoMode()
      requires Wf()
      modifies this, marks
      ensures State() == Quiz.ShowInfoMode(old(State()))
    {
      ghost var before := State();
      isQuizMode := false;
      ClearSelections();
      ghost var left := State();
      assert left == Quiz.ClearSelections(before.(quiz := false));
      slots := slots[QuizButton := StartQuizLabel];
      quizPanelActive := false;
      infoPanelShown := true;
      assert State() == left.(slots := left.slots[QuizButton := StartQuizLabel], quizPanelActive := false, infoPanelShown := true);
      ResetElementInfo();
    }

    /** `generateQuestion`, with `i` standing for `Math.floor(Math.random() * elements.length)` */
    method GenerateQuestion(i: nat)
      requires Wf() && i < |elements|
      modifies this, marks
      ensures State() == Quiz.GenerateQuestion(old(State()), i)
    {
      currentQuestion := Some(elements[i]);
      slots := slots[QuizTarget := currentQuestion.value.symbol];
      ClearVisualEffects();
    }

    /** The callback `handleQuizAnswer` schedules 1500 ms ahead. Nothing
        cancels it, so it may run in any later state. */
    method TimerFires(i: nat)
      requires Valid() && i < |elements|
      modifies this, marks
      ensures Valid()
      ensures State() == Step(old(State()), TimerFired(i))
    {
      GenerateQuestion(i);
    }

    /** `handleQuizAnswer(t)`; the `setTimeout` it ends with is `TimerFires`. */
    method HandleQuizAnswer(t: nat)
      requires Wf() && currentQuestion.Some? && t < |tiles|
      modifies this, marks
      ensures State() == Quiz.HandleQuizAnswer(old(State()), t)
    {
      RegistryEntry(tiles, currentQuestion.value);
      var isCorrect := t == currentQuestion.value.element;
      if isCorrect {
        HandleCorrectAnswer(t);
      } else {
        HandleIncorrectAnswer(t);
      }
    }

    /** `handleCorrectAnswer(t)` */
    method HandleCorrectAnswer(t: nat)
      requires t < marks.Length
      modifies this, marks
      ensures State() == Quiz.HandleCorrectAnswer(old(State()), t)
    {
      correctCount := correctCount + 1;
      streakCount := streakCount + 1;
      marks[t] := marks[t] + {Correct};
      UpdateQuizStats();
    }

    /** `handleIncorrectAnswer(t)` */
    method HandleIncorrectAnswer(t: nat)
      requires t < marks.Length
      requires currentQuestion.Some? && currentQuestion.value.element < marks.Length
      modifies this, marks
      ensures State() == Quiz.HandleIncorrectAnswer(old(State()), t)
    {
      wrongCount := wrongCount + 1;
      streakCount := 0;
      marks[t] := marks[t] + {Incorrect};
      var target := currentQuestion.value.element;
      marks[target] := marks[target] + {Correct};
      UpdateQuizStats();
    }

    /** `updateQuizStats` */
    method UpdateQuizStats()
      modifies this
      ensures State() == Quiz.UpdateQuizStats(old(State()))
      ensures StatsShown(State())
    {
      slots := slots[CorrectCount := Decimal(correctCount)];
      slots := slots[WrongCount := Decimal(wrongCount)];
      slots := slots[StreakCount := Decimal(streakCount)];
    }

    /** `clearVisualEffects`: every marker off every tile. */
    method ClearVisualEffects()
      modifies marks
      ensures State() == Quiz.ClearVisualEffects(old(State()))
    {
      for k := 0 to marks.Length
        invariant forall j :: 0 <= j < k ==> marks[j] == old(marks[j]) - AllMarkers
        invariant forall j :: k <= j < marks.Length ==> marks[j] == old(marks[j])
      {
        marks[k] := marks[k] - AllMarkers;
      }
      assert marks[..] == Strip(old(marks[..]), AllMarkers);
    }

    /** `clearSelections` */
    method ClearSelections()
      modifies this, marks
      ensures State() == Quiz.ClearSelections(old(State()))
    {
      UnmarkSelected();
      selectedElement := None;
    }

    /** `resetTool` (the reset button, and Ctrl+R) */
    method ResetTool()
      requires Wf()
      modifies this, marks
      ensures Valid()
      ensures State() == Quiz.ResetTool(old(State()))
    {
      ghost var before := State();
      correctCount := 0;
      wrongCount := 0;
      streakCount := 0;
      currentQuestion := None;
      ghost var zeroed := State();
      assert zeroed == before.(correct := 0, wrong := 0, streak := 0, question := None);
      ShowInfoMode();
      ghost var shown := State();
      assert shown == Quiz.ShowInfoMode(zeroed);
      UpdateQuizStats();
      ghost var counted := State();
      assert counted == Quiz.UpdateQuizStats(shown);
      ResetElementInfo();
      ghost var blanked := State();
      assert blanked == Quiz.ResetElementInfo(counted);
      ClearVisualEffects();
      assert State() == Quiz.ClearVisualEffects(blanked);
      assert State() == Quiz.ResetTool(before);
      // showResetConfirmation writes only the reset button's label and
      // background, neither of which is modelled
    }

    /** `resetElementInfo` */
    method ResetElementInfo()
      modifies this
      ensures State() == Quiz.ResetElementInfo(old(State()))
      ensures InfoPlaceholders(slots)
    {
      slots := slots[ElementName := NamePlaceholder];
      slots := slots[ElementSymbol := DashPlaceholder];
      slots := slots[ElementNumber := DashPlaceholder];
      slots := slots[ElementMass := DashPlaceholder];
      slots := slots[ElementCategory := DashPlaceholder];
    }

    /** `handleKeyPress`: the three checks run one after the other. */
    method HandleKeyPress(key: string, ctrl: bool, i: nat)
      requires Valid() && (key == EnterKey && !isQuizMode ==> i < |elements|)
      modifies this, marks
      ensures Valid()
      ensures State() == Quiz.HandleKeyPress(old(State()), key, ctrl, i)
    {
      if key == EscapeKey && isQuizMode {
        ShowInfoMode();
      }
      if key == EnterKey {
        ToggleQuizMode(i);
      }
      if IsKeyR(key) && ctrl {
        ResetTool();
      }
    }
  }
}
