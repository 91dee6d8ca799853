/** The dehumanizer: reading a display string such as "3Gi" back into base
    units (`convertValueWithUnitsToBaseValue` and `units.dehumanize`). */
module Dehumanizer {
  import opened Values
  import opened UnitCatalog

  /** The `{value, unit}` pair `dehumanize` returns. */
  datatype Dehumanized = Dehumanized(value: JsValue, unit: string)

  /** `t` occurs in `s` starting at position `i`. */
  predicate OccursAt(s: string, t: string, i: int) {
    0 <= i && i + |t| <= |s| && s[i..i + |t|] == t
  }

  /** The first occurrence of `t` in `s` at or after `from`, or -1. */
  function IndexFrom(s: string, t: string, from: nat): (r: int)
    requires from <= |s|
    ensures r == -1 || from <= r
    ensures r >= 0 ==> OccursAt(s, t, r) && forall i :: from <= i < r ==> !OccursAt(s, t, i)
    ensures r == -1 ==> forall i :: from <= i ==> !OccursAt(s, t, i)
    decreases |s| - from
  {
    if from + |t| > |s| then -1
    else if s[from..from + |t|] == t then from
    else IndexFrom(s, t, from + 1)
  }

  /** JavaScript's `s.indexOf(t)`: the first position where `t` occurs in `s`, or -1. */
  function IndexOf(s: string, t: string): (r: int)
    ensures -1 <= r <= |s|
    ensures r >= 0 ==> OccursAt(s, t, r) && forall i :: 0 <= i < r ==> !OccursAt(s, t, i)
    ensures r == -1 <==> forall i :: !OccursAt(s, t, i)
  {
    IndexFrom(s, t, 0)
  }

  /** The ladder from the largest unit down to the base. */
  function Reverse(units: seq<string>): (r: seq<string>)
    ensures |r| == |units|
    ensures forall i :: 0 <= i < |units| ==> r[i] == units[|units| - 1 - i]
  {
    if units == [] then [] else Reverse(units[1..]) + [units[0]]
  }

  /** `_.findIndex(units, u => s.indexOf(u) > -1)`: the first unit occurring
      anywhere in `s`, or -1. */
  function FirstMatch(units: seq<string>, s: string): (j: int)
    ensures -1 <= j < |units|
    ensures j >= 0 ==> IndexOf(s, units[j]) >= 0
    ensures forall m {:trigger IndexOf(s, units[m])} :: 0 <= m < |units| && (j == -1 || m < j) ==> IndexOf(s, units[m]) == -1
  {
    if units == [] then -1
    else if IndexOf(s, units[0]) > -1 then 0
    else
      var j := FirstMatch(units[1..], s);
      if j == -1 then -1 else j + 1
  }

  /** What `convertValueWithUnitsToBaseValue` returns. A non-string, a string
      in which no unit occurs, and a string in which the largest unit occurs
      (the first entry of the reversed ladder) come back unchanged with an
      empty unit. Otherwise the text before the matched unit is read as a
      number by `toNumber` (lodash's `_.toNumber`) and multiplied by the
      divisor once per tier from the base up to the matched unit; the unit is
      the base unit. */
  function BaseValue(value: JsValue, unitArray: seq<string>, divisor: real, toNumber: string -> Num): Dehumanized
    requires divisor > 0.0
  {
    if !value.Str? then Dehumanized(value, "")
    else
      var rev := Reverse(unitArray);
      var j := FirstMatch(rev, value.s);
      if j <= 0 then Dehumanized(value, "")
      else
        var at := IndexOf(value.s, rev[j]);
        Dehumanized(Number(Times(toNumber(value.s[..at]), Pow(divisor, |unitArray| - 1 - j))), unitArray[0])
  }

  /** The search `_.findIndex` runs with the callback of
      `convertValueWithUnitsToBaseValue`: the first unit that occurs in `s`,
      and where it first occurs (the callback's `truncateStringAt`). */
  method FindUnit(units: seq<string>, s: string) returns (startingUnitIndex: int, truncateStringAt: int)
    ensures startingUnitIndex == FirstMatch(units, s)
    ensures startingUnitIndex >= 0 ==> truncateStringAt == IndexOf(s, units[startingUnitIndex])
  {
    truncateStringAt := -1;
    startingUnitIndex := -1;
    var m := 0;
    while m < |units| && startingUnitIndex == -1
      invariant 0 <= m <= |units|
      invariant startingUnitIndex == -1 ==> forall q :: 0 <= q < m ==> IndexOf(s, units[q]) == -1
      invariant startingUnitIndex != -1 ==>
                  && startingUnitIndex == m - 1
                  && truncateStringAt == IndexOf(s, units[m - 1]) >= 0
                  && forall q :: 0 <= q < m - 1 ==> IndexOf(s, units[q]) == -1
    {
      var index := IndexOf(s, units[m]);
      if index > -1 {
        truncateStringAt := index;
        startingUnitIndex := m;
      }
      m := m + 1;
    }
  }

  /** `convertValueWithUnitsToBaseValue`: finds the first unit, from the
      largest down, occurring in the string, cuts the string there, and
      multiplies the number back down the ladder. */
  method ConvertValueWithUnitsToBaseValue(value: JsValue, unitArray: seq<string>, divisor: real, toNumber: string -> Num)
    returns (r: Dehumanized)
    requires divisor > 0.0
    ensures r == BaseValue(value, unitArray, divisor, toNumber)
  {
    var defaultReturn := Dehumanized(value, "");
    if !value.Str? {
      return defaultReturn;
    }
    var s := value.s;
    var units_ := Reverse(unitArray);

    // search the reversed ladder for the first unit that occurs
    var startingUnitIndex, truncateStringAt := FindUnit(units_, s);
    if startingUnitIndex <= 0 {
      // no unit, or the largest unit: returned unparsed
      return defaultReturn;
    }

    // cut at the match, read the number, and step down to the base unit
    units_ := units_[startingUnitIndex..];
    var n := toNumber(s[..truncateStringAt]);
    var unit := units_[0];
    units_ := units_[1..];
    unit, n := ShiftDown(units_, unit, n, divisor);
    BaseValueAt(value, unitArray, divisor, toNumber, startingUnitIndex, truncateStringAt);
    r := Dehumanized(Number(n), unit);
  }

  /** The closing loop of `convertValueWithUnitsToBaseValue`: one
      multiplication by the divisor per unit still on the list, ending at the
      last unit. */
  method ShiftDown(units: seq<string>, unit: string, n: Num, divisor: real) returns (unit': string, n': Num)
    requires divisor > 0.0
    ensures unit' == if units == [] then unit else units[|units| - 1]
    ensures n' == Times(n, Pow(divisor, |units|))
  {
    var units_ := units;
    unit', n' := unit, n;
    ghost var steps: nat := 0;
    TimesPowZero(n, divisor);
    while |units_| > 0
      invariant steps <= |units| && units_ == units[steps..]
      invariant unit' == if steps == 0 then unit else units[steps - 1]
      invariant n' == Times(n, Pow(divisor, steps))
    {
      TimesPowStep(n, divisor, steps);
      ShiftSuffix(units, steps);
      n' := Times(n', divisor);
      unit' := units_[0];
      units_ := units_[1..];
      steps := steps + 1;
    }
  }

  /** `BaseValue` once the search has found unit `j` of the reversed ladder,
      first occurring at `at`. */
  lemma BaseValueAt(value: JsValue, unitArray: seq<string>, divisor: real, toNumber: string -> Num, j: int, at: int)
    requires divisor > 0.0 && value.Str?
    requires j == FirstMatch(Reverse(unitArray), value.s) && j > 0
    requires at == IndexOf(value.s, Reverse(unitArray)[j])
    ensures var units := Reverse(unitArray)[j..][1..];
            && unitArray != []
            && (if units == [] then Reverse(unitArray)[j] else units[|units| - 1]) == unitArray[0]
            && BaseValue(value, unitArray, divisor, toNumber)
               == Dehumanized(Number(Times(toNumber(value.s[..at]), Pow(divisor, |units|))), unitArray[0])
  {
    var rev := Reverse(unitArray);
    ShiftSuffix(rev, j);
  }

  /** `units.dehumanize`: the kind name picks the ladder and divisor. */
  method Dehumanize(value: JsValue, typeName: string, toNumber: string -> Num) returns (r: Dehumanized)
    ensures r == Dehumanization(value, typeName, toNumber)
  {
    var t := GetType(typeName);
    r := ConvertValueWithUnitsToBaseValue(value, t.units, t.divisor, toNumber);
  }

  /** What `units.dehumanize` returns for a kind name. */
  function Dehumanization(value: JsValue, typeName: string, toNumber: string -> Num): Dehumanized {
    var t := GetType(typeName);
    BaseValue(value, t.units, t.divisor, toNumber)
  }

  /** A unit whose first character is missing from `s` does not occur in it. */
  lemma AbsentLead(s: string, t: string)
    requires |t| > 0 && t[0] !in s
    ensures IndexOf(s, t) == -1
  {
  }

  /** A unit at least as long as `s`, and different from it, does not occur in it. */
  lemma AbsentWhole(s: string, t: string)
    requires |t| >= |s| && s != t
    ensures IndexOf(s, t) == -1
  {
  }

  /** A unit written right after a prefix that lacks the unit's first
      character is first found exactly where the prefix ends. */
  lemma FoundAfterPrefix(prefix: string, t: string)
    requires |t| > 0 && t[0] !in prefix
    ensures IndexOf(prefix + t, t) == |prefix|
  {
    var s := prefix + t;
    assert s[|prefix|..|prefix| + |t|] == t;
    assert OccursAt(s, t, |prefix|);
  }

  /** The search over the reversed ladder, read on the ladder itself: it finds
      nothing exactly when no unit occurs, and otherwise it stops at the
      largest unit that occurs. */
  lemma {:induction false} FirstMatchReversed(unitArray: seq<string>, s: string)
    ensures var j := FirstMatch(Reverse(unitArray), s);
            && (j == -1 <==> forall i :: 0 <= i < |unitArray| ==> IndexOf(s, unitArray[i]) == -1)
            && (j >= 0 ==> var i := |unitArray| - 1 - j;
                           && IndexOf(s, unitArray[i]) >= 0
                           && forall k :: i < k < |unitArray| ==> IndexOf(s, unitArray[k]) == -1)
  {
    var rev := Reverse(unitArray);
    var j := FirstMatch(rev, s);
    if j == -1 {
      forall i | 0 <= i < |unitArray|
        ensures IndexOf(s, unitArray[i]) == -1
      {
        assert rev[|unitArray| - 1 - i] == unitArray[i];
      }
    } else {
      forall k | |unitArray| - 1 - j < k < |unitArray|
        ensures IndexOf(s, unitArray[k]) == -1
      {
        assert rev[|unitArray| - 1 - k] == unitArray[k];
      }
    }
  }

  /** Dehumanizing gives the input back, with an empty unit, exactly when the
      input is not a string, when no unit of the ladder occurs in it, or when
      the largest unit occurs in it. */
  lemma DehumanizeFailsExactly(value: JsValue, unitArray: seq<string>, divisor: real, toNumber: string -> Num)
    requires divisor > 0.0
    ensures BaseValue(value, unitArray, divisor, toNumber) == Dehumanized(value, "")
        <==> || !value.Str?
             || (forall i :: 0 <= i < |unitArray| ==> IndexOf(value.s, unitArray[i]) == -1)
             || (|unitArray| > 0 && IndexOf(value.s, unitArray[|unitArray| - 1]) >= 0)
  {
    if value.Str? {
      FirstMatchReversed(unitArray, value.s);
    }
  }

  /** When a unit below the largest occurs in the string and no larger unit
      does, the text before its first occurrence is read as a number and
      multiplied by the divisor once per tier above the base; the unit is the
      base unit. */
  lemma DehumanizeSuccess(s: string, unitArray: seq<string>, divisor: real, toNumber: string -> Num, i: nat)
    requires divisor > 0.0
    requires i < |unitArray| - 1
    requires IndexOf(s, unitArray[i]) >= 0
    requires forall k :: i < k < |unitArray| ==> IndexOf(s, unitArray[k]) == -1
    ensures BaseValue(Str(s), unitArray, divisor, toNumber)
         == Dehumanized(Number(Times(toNumber(s[..IndexOf(s, unitArray[i])]), Pow(divisor, i))), unitArray[0])
  {
    FirstMatchReversed(unitArray, s);
    var j := FirstMatch(Reverse(unitArray), s);
    assert j == |unitArray| - 1 - i;
    assert Reverse(unitArray)[j] == unitArray[i];
  }

  /** Worked example: "3Gi" on the `binaryBytesWithoutB` ladder is 3 * 1024^3
      in the base unit "i" (the text before "Gi" goes through `toNumber`). */
  lemma DehumanizeGibi(toNumber: string -> Num)
    ensures Pow(1024.0, 3) == 1073741824.0
    ensures Dehumanization(Str("3Gi"), "binaryBytesWithoutB", toNumber)
         == Dehumanized(Number(Times(toNumber("3"), 1073741824.0)), "i")
  {
    var L := BinaryBytesWithoutB.units;
    assert GetType("binaryBytesWithoutB") == BinaryBytesWithoutB;
    assert "3" + "Gi" == "3Gi";
    FoundAfterPrefix("3", "Gi");
    AbsentLead("3Gi", "Ti");
    AbsentLead("3Gi", "Pi");
    AbsentLead("3Gi", "Ei");
    assert L[3] == "Gi" && L[4] == "Ti" && L[5] == "Pi" && L[6] == "Ei";
    DehumanizeSuccess("3Gi", L, 1024.0, toNumber, 3);
    assert "3Gi"[..1] == "3";
  }

  /** Worked example: "3Gi" is not on the `binaryBytes` ladder (whose units
      end in "B"), so it comes back unparsed. */
  lemma DehumanizeOtherLadder(toNumber: string -> Num)
    ensures Dehumanization(Str("3Gi"), "binaryBytes", toNumber) == Dehumanized(Str("3Gi"), "")
  {
    var L := BinaryBytes.units;
    assert GetType("binaryBytes") == BinaryBytes;
    AbsentLead("3Gi", "B");
    AbsentLead("3Gi", "KiB");
    AbsentLead("3Gi", "MiB");
    AbsentLead("3Gi", "TiB");
    AbsentLead("3Gi", "PiB");
    assert "3Gi"[0] != "GiB"[0];
    AbsentWhole("3Gi", "GiB");
    assert L == ["B", "KiB", "MiB", "GiB", "TiB", "PiB"];
    assert forall i :: 0 <= i < |L| ==> IndexOf("3Gi", L[i]) == -1;
    DehumanizeFailsExactly(Str("3Gi"), L, 1024.0, toNumber);
    assert Dehumanization(Str("3Gi"), "binaryBytes", toNumber) == BaseValue(Str("3Gi"), L, 1024.0, toNumber);
  }

  /** Worked example: "abc" contains "b", the largest `numeric` unit, so it
      comes back unparsed. */
  lemma DehumanizeWord(toNumber: string -> Num)
    ensures Dehumanization(Str("abc"), "numeric", toNumber) == Dehumanized(Str("abc"), "")
  {
    assert GetType("numeric") == Numeric;
    assert OccursAt("abc", "b", 1);
    DehumanizeFailsExactly(Str("abc"), Numeric.units, 1000.0, toNumber);
  }

  /** Worked example: the largest unit is never parsed, so "3Ei" comes back
      unparsed. */
  lemma DehumanizeLargestUnit(toNumber: string -> Num)
    ensures Dehumanization(Str("3Ei"), "binaryBytesWithoutB", toNumber) == Dehumanized(Str("3Ei"), "")
  {
    assert GetType("binaryBytesWithoutB") == BinaryBytesWithoutB;
    assert OccursAt("3Ei", "Ei", 1);
    DehumanizeFailsExactly(Str("3Ei"), BinaryBytesWithoutB.units, 1024.0, toNumber);
  }

  /** Worked example: on the `numeric` ladder the empty base unit occurs at
      the start of every string, so a bare number is cut to the empty text,
      which is what `toNumber` reads. */
  lemma DehumanizeBareNumber(toNumber: string -> Num)
    ensures Dehumanization(Str("5"), "numeric", toNumber) == Dehumanized(Number(toNumber("")), "")
  {
    var L := Numeric.units;
    assert GetType("numeric") == Numeric;
    assert OccursAt("5", "", 0);
    AbsentLead("5", "k");
    AbsentLead("5", "m");
    AbsentLead("5", "b");
    assert L[0] == "" && L[1] == "k" && L[2] == "m" && L[3] == "b";
    DehumanizeSuccess("5", L, 1000.0, toNumber, 0);
    TimesPowZero(toNumber(""), 1000.0);
  }
}
