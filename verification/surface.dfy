/** The presentation surface the periodic-table tool reads and writes:
    the tile nodes with their data attributes, the class markers a tile can
    carry, the named text slots of the page, and the text a JavaScript
    number becomes when it is written into a slot. */
module Surface {

  /** The class markers the tool puts on a tile (`selected`, `correct`, `incorrect`). */
  datatype Marker = Selected | Correct | Incorrect

  /** Every marker the tool uses; `clearVisualEffects` strips all of them. */
  const AllMarkers: set<Marker> := {Selected, Correct, Incorrect}

  /** The data attributes of one `.element` tile (`data-number`, `data-symbol`, ...).
      The same five fields make up the record `getElementData` returns. */
  datatype TileData = TileData(number: string, symbol: string, name: string, mass: string, category: string)

  /** The page nodes whose text the tool writes. */
  datatype Slot =
    | ElementName | ElementSymbol | ElementNumber | ElementMass | ElementCategory
    | QuizTarget
    | CorrectCount | WrongCount | StreakCount
    | QuizButton

  /** Placeholder texts of the info panel when no element is shown. */
  const NamePlaceholder: string := "Element auswählen"
  const DashPlaceholder: string := "-"

  /** Labels of the quiz button in the two modes. */
  const StartQuizLabel: string := "Quiz starten"
  const EndQuizLabel: string := "Quiz beenden"

  /** Unit appended to the atomic mass in the info panel. */
  const MassUnit: string := " u"

  /** The marker sets of all tiles with the markers in `drop` removed from every tile. */
  function Strip(ms: seq<set<Marker>>, drop: set<Marker>): (r: seq<set<Marker>>)
    ensures |r| == |ms|
    ensures forall k :: 0 <= k < |ms| ==> r[k] == ms[k] - drop
  {
    if ms == [] then [] else [ms[0] - drop] + Strip(ms[1..], drop)
  }

  /** Removing the same markers a second time changes nothing. */
  lemma StripIdempotent(ms: seq<set<Marker>>, drop: set<Marker>)
    ensures Strip(Strip(ms, drop), drop) == Strip(ms, drop)
  {
    assert forall k :: 0 <= k < |ms| ==> Strip(ms, drop)[k] - drop == Strip(ms, drop)[k];
  }

  /** Once every marker is stripped, no tile carries any marker. */
  lemma StripAllLeavesNone(ms: seq<set<Marker>>, k: nat)
    requires k < |ms|
    ensures Strip(ms, AllMarkers)[k] == {}
  {
    forall m: Marker ensures m !in Strip(ms, AllMarkers)[k] {
      assert m in AllMarkers by { match m { case Selected => case Correct => case Incorrect => } }
    }
  }

  predicate IsDigit(c: char) {
    '0' <= c <= '9'
  }

  function DigitChar(d: nat): (c: char)
    requires d < 10
    ensures IsDigit(c)
  {
    "0123456789"[d]
  }

  function DigitValue(c: char): (d: nat)
    requires IsDigit(c)
    ensures d < 10
  {
    (c as int - '0' as int) as nat
  }

  /** The text a non-negative JavaScript number becomes when assigned to
      `textContent`: its decimal digits, without leading zeros. */
  function Decimal(n: nat): (r: string)
    ensures |r| >= 1
    ensures forall k :: 0 <= k < |r| ==> IsDigit(r[k])
    ensures r[0] == '0' ==> r == "0"
    decreases n
  {
    if n < 10 then [DigitChar(n)] else Decimal(n / 10) + [DigitChar(n % 10)]
  }

  /** Reads a string of decimal digits back as a number. */
  function ParseDecimal(s: string): (n: nat)
    requires forall k :: 0 <= k < |s| ==> IsDigit(s[k])
  {
    if s == [] then 0 else ParseDecimal(s[..|s| - 1]) * 10 + DigitValue(s[|s| - 1])
  }

  /** The counter text on the page gives back exactly the counter. */
  lemma {:induction false} DecimalRoundTrip(n: nat)
    ensures ParseDecimal(Decimal(n)) == n
    decreases n
  {
    var r := Decimal(n);
    if n < 10 {
      assert r[..|r| - 1] == [];
      assert DigitValue(DigitChar(n)) == n by {
        assert "0123456789"[n] as int - '0' as int == n;
      }
    } else {
      var d := DigitChar(n % 10);
      assert r[..|r| - 1] == Decimal(n / 10);
      assert r[|r| - 1] == d;
      assert DigitValue(d) == n % 10 by {
        assert "0123456789"[n % 10] as int - '0' as int == n % 10;
      }
      DecimalRoundTrip(n / 10);
    }
  }

  /** Two different counter values never show the same text. */
  lemma DecimalInjective(a: nat, b: nat)
    requires Decimal(a) == Decimal(b)
    ensures a == b
  {
    DecimalRoundTrip(a);
    DecimalRoundTrip(b);
  }
}
