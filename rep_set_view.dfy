/**
 * How an exercise's repetitions and sets are written, in the order the
 * user's preference names.
 */
module RepSetView {
  import opened Text
  import opened UserPreferencesSlice

  /** The number written first and the number written second. */
  function Sides(notation: RepSetNotation, reps: int, sets: int): (sides: (int, int))
    ensures multiset{sides.0, sides.1} == multiset{reps, sets}
    ensures notation == RepsThenSets ==> sides == (reps, sets)
    ensures notation == SetsThenReps ==> sides == (sets, reps)
  {
    var lhs := if notation == RepsThenSets then reps else sets;
    var rhs := if notation == SetsThenReps then reps else sets;
    assert multiset{lhs, rhs} == multiset{reps, sets} by {
      if notation == SetsThenReps {
        assert multiset{sets, reps} == multiset{reps, sets};
      }
    }
    (lhs, rhs)
  }

  /** The rendered text: the first number, "x", the second number. */
  function View(notation: RepSetNotation, reps: int, sets: int): (text: string)
    ensures |text| == |IntToString(reps)| + 1 + |IntToString(sets)|
  {
    var (lhs, rhs) := Sides(notation, reps, sets);
    IntToString(lhs) + "x" + IntToString(rhs)
  }

  lemma IntToStringHasNoX(n: int)
    ensures 'x' !in IntToString(n)
  {
    if n < 0 {
      assert IntToString(n) == "-" + NatToString(-n);
    }
  }

  /**
   * The "x" in the text is the separator and nothing else: the text is the
   * first number's digits, "x", then the second number's, and no other
   * character is an "x", so the two numbers can be read back.
   */
  lemma {:induction false} SeparatorIsUnique(notation: RepSetNotation, reps: int, sets: int)
    ensures var (lhs, rhs) := Sides(notation, reps, sets);
      var v := View(notation, reps, sets);
      var k := |IntToString(lhs)|;
      v[..k] == IntToString(lhs) && v[k] == 'x' && v[k + 1..] == IntToString(rhs) &&
      forall i :: 0 <= i < |v| && v[i] == 'x' ==> i == k
  {
    var (lhs, rhs) := Sides(notation, reps, sets);
    IntToStringHasNoX(lhs);
    IntToStringHasNoX(rhs);
    SeparatedAt(IntToString(lhs), IntToString(rhs));
  }

  /** Two texts without an "x" joined by one: the joint is the only "x" and splits them back. */
  lemma SeparatedAt(a: string, b: string)
    requires 'x' !in a && 'x' !in b
    ensures var v := a + "x" + b;
      v[..|a|] == a && v[|a|] == 'x' && v[|a| + 1..] == b && forall i :: 0 <= i < |v| && v[i] == 'x' ==> i == |a|
  {
    var v := a + "x" + b;
    assert forall i :: 0 <= i < |a| ==> v[i] == a[i];
    assert forall i :: |a| < i < |v| ==> v[i] == b[i - |a| - 1];
  }

  /** Six reps of three sets read "6x3" reps first and "3x6" sets first. */
  lemma Examples()
    ensures View(RepsThenSets, 6, 3) == "6x3"
    ensures View(SetsThenReps, 6, 3) == "3x6"
  {
    assert IntToString(6) == "6" && IntToString(3) == "3";
  }
}
