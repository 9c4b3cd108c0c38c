/** Properties of the tool's transitions that relate several handlers or
    whole sequences of events. */
module QuizProps {
  import opened Surface
  import opened Quiz

  /** Switching to Info mode twice leaves the same state as switching once. */
  lemma ShowInfoModeIdempotent(v: View)
    requires Wf(v)
    ensures ShowInfoMode(ShowInfoMode(v)) == ShowInfoMode(v)
  {
    var once := ShowInfoMode(v);
    var twice := ShowInfoMode(once);
    assert twice.marks == once.marks by {
      StripIdempotent(v.marks, {Selected});
    }
    assert twice.slots == once.slots;
  }

  /** Selecting the same tile twice leaves the same state as selecting it once. */
  lemma ShowElementInfoIdempotent(v: View, t: nat)
    requires Wf(v) && t < |v.tiles|
    ensures ShowElementInfo(ShowElementInfo(v, t), t) == ShowElementInfo(v, t)
  {
    var once := ShowElementInfo(v, t);
    var twice := ShowElementInfo(once, t);
    assert twice.marks == once.marks;
    assert twice.slots == once.slots;
  }

  /** Resetting twice leaves the same state as resetting once. */
  lemma ResetToolIdempotent(v: View)
    requires Wf(v)
    ensures ResetTool(ResetTool(v)) == ResetTool(v)
  {
    var once := ResetTool(v);
    var twice := ResetTool(once);
    assert twice.marks == once.marks;
    assert twice.slots == once.slots;
  }

  /** Without a reset, neither the correct nor the wrong count ever goes down. */
  lemma {:induction false} CountsNeverDecreaseWithoutReset(v: View, evs: seq<Event>)
    requires Inv(v)
    requires forall k :: 0 <= k < |evs| ==> InRange(evs[k], |v.tiles|)
    requires forall k :: 0 <= k < |evs| ==> !IsReset(evs[k])
    ensures Run(v, evs).correct >= v.correct && Run(v, evs).wrong >= v.wrong
    decreases |evs|
  {
    if evs != [] {
      InRangeAdmissible(v, evs[0]);
      var next := Step(v, evs[0]);
      CountsNeverDecreaseWithoutReset(next, evs[1..]);
    }
  }

  /** Running two sequences one after the other is running their concatenation. */
  lemma {:induction false} RunAppend(v: View, a: seq<Event>, b: seq<Event>)
    requires Inv(v)
    requires forall k :: 0 <= k < |a| ==> InRange(a[k], |v.tiles|)
    requires forall k :: 0 <= k < |b| ==> InRange(b[k], |v.tiles|)
    ensures forall k :: 0 <= k < |a + b| ==> InRange((a + b)[k], |v.tiles|)
    ensures Run(v, a + b) == Run(Run(v, a), b)
    decreases |a|
  {
    if a != [] {
      InRangeAdmissible(v, a[0]);
      var next := Step(v, a[0]);
      assert (a + b)[0] == a[0] && (a + b)[1..] == a[1..] + b;
      assert Run(v, a) == Run(next, a[1..]);
      assert Run(v, a + b) == Run(next, a[1..] + b);
      RunAppend(next, a[1..], b);
    } else {
      assert a + b == b;
    }
  }

  /** The reset button and Ctrl+R do the same thing: they run `resetTool`. */
  lemma ResetEvents(v: View, e: Event)
    requires Inv(v) && IsReset(e)
    ensures Admissible(v, e) && Step(v, e) == ResetTool(v)
  {
    if e.KeyDown? {
      assert Step(v, e) == HandleKeyPress(v, e.key, e.ctrl, e.pick);
    }
  }

  /** From the first reset on (the reset button or Ctrl+R), whatever
      happens next, the three counter slots show the three counters. */
  lemma CountersShownAfterReset(v: View, before: seq<Event>, reset: Event, after: seq<Event>)
    requires Inv(v) && IsReset(reset) && InRange(reset, |v.tiles|)
    requires forall k :: 0 <= k < |before| ==> InRange(before[k], |v.tiles|)
    requires forall k :: 0 <= k < |after| ==> InRange(after[k], |v.tiles|)
    ensures forall k :: 0 <= k < |before + [reset] + after| ==>
              InRange((before + [reset] + after)[k], |v.tiles|)
    ensures StatsShown(Run(v, before + [reset] + after))
  {
    var mid := Run(v, before);
    RunAppend(v, before, [reset]);
    var cleared := Run(v, before + [reset]);
    assert StatsShown(cleared) by {
      assert [reset][1..] == [];
      InRangeAdmissible(mid, reset);
      assert Run(mid, [reset]) == Run(Step(mid, reset), []);
    }
    RunAppend(v, before + [reset], after);
  }

  /** A question timer that fires after a reset still sets a target, although
      the tool is in Info mode: nothing cancels the deferred `generateQuestion`. */
  lemma StaleTimerAfterReset(v: View, i: nat)
    requires Wf(v) && i < |v.elements|
    ensures var r := Step(ResetTool(v), TimerFired(i));
            !r.quiz && r.question == Some(v.elements[i])
  {
  }

  /** A question timer that fires after the user has gone back to Info mode
      and selected a tile removes that tile's `selected` marker while the
      tool still records it as the selected element. */
  lemma StaleTimerDropsSelection(v: View, answer: nat, shown: nat, i: nat)
    requires Inv(v) && v.quiz && answer < |v.tiles| && shown < |v.tiles| && i < |v.elements|
    ensures
      var answered := Step(v, TileClick(answer));
      var back := Step(answered, KeyDown(EscapeKey, false, i));
      var looked := Step(back, TileClick(shown));
      var fired := Step(looked, TimerFired(i));
      !looked.quiz && looked.selected == Some(shown) && Selected in looked.marks[shown] &&
      fired.selected == Some(shown) && Selected !in fired.marks[shown]
  {
    var answered := Step(v, TileClick(answer));
    assert answered.quiz;
    var back := Step(answered, KeyDown(EscapeKey, false, i));
    assert !back.quiz;
    var looked := Step(back, TileClick(shown));
    assert looked == ShowElementInfo(back, shown);
    var fired := Step(looked, TimerFired(i));
    assert fired == GenerateQuestion(looked, i);
    assert fired.marks[shown] == {};
  }

  const Hydrogen: TileData := TileData("1", "H", "Wasserstoff", "1.008", "Nichtmetall")
  const Helium: TileData := TileData("2", "He", "Helium", "4.003", "Edelgas")

  /** Registry [H], quiz started with target H, the H tile clicked:
      one correct answer, no wrong one, a streak of one, H marked correct. */
  lemma ScenarioCorrectAnswer(page: map<Slot, string>)
    ensures
      var started := Step(Initial([Hydrogen], page), QuizButtonClick(0));
      var r := Step(started, TileClick(0));
      started.question.Some? && started.question.value.symbol == "H" &&
      r.correct == 1 && r.wrong == 0 && r.streak == 1 && r.marks[0] == {Correct} &&
      r.slots[CorrectCount] == "1" && r.slots[WrongCount] == "0" && r.slots[StreakCount] == "1"
  {
    var started := Step(Initial([Hydrogen], page), QuizButtonClick(0));
    assert Unmarked(started);
    assert started.marks[0] == {};
  }

  /** Registry [H, He], target H, the He tile clicked: one wrong answer,
      streak 0, He marked incorrect and H marked correct at the same time. */
  lemma ScenarioWrongAnswer(page: map<Slot, string>)
    ensures
      var started := Step(Initial([Hydrogen, Helium], page), QuizButtonClick(0));
      var r := Step(started, TileClick(1));
      started.question.Some? && started.question.value.symbol == "H" &&
      r.correct == 0 && r.wrong == 1 && r.streak == 0 &&
      r.marks[1] == {Incorrect} && r.marks[0] == {Correct}
  {
    var started := Step(Initial([Hydrogen, Helium], page), QuizButtonClick(0));
    assert Unmarked(started);
    assert started.marks[0] == {} && started.marks[1] == {};
  }
}
