/** The humanizer: scaling a base-unit value up the unit ladder of its kind
    (`convertBaseValueToUnits`), and `humanize` with its rounding pass and the
    three fixed-kind wrappers. */
module Humanizer {
  import opened Values
  import opened UnitCatalog
  import opened Rounder

  /** The `{value, unit}` pair the scaling loop produces; `None` is `undefined`. */
  datatype Converted = Converted(value: real, unit: Option<string>)

  /** What `humanize` returns: its `string` field (the display text, or the
      number NaN when the unit is `undefined`), the scaled value and the
      displayed unit (with its leading space, if any). */
  datatype HumanizedValue = HumanizedValue(str: JsValue, value: real, unit: Option<string>)

  /** `unitArray.indexOf(u)`: the first position of `u`, or -1. */
  function IndexOfUnit(units: seq<string>, u: string): (i: int)
    ensures -1 <= i < |units|
    ensures i >= 0 ==> units[i] == u && forall j :: 0 <= j < i ==> units[j] != u
    ensures i == -1 <==> u !in units
  {
    if |units| == 0 then -1
    else if units[0] == u then 0
    else
      var i := IndexOfUnit(units[1..], u);
      if i == -1 then -1 else i + 1
  }

  /** Where the slice of the ladder starts: the base when there is no initial
      unit or it is the empty string (both falsy), else the initial unit's
      position; an absent unit gives -1, which `slice` counts from the end. */
  function SliceStart(units: seq<string>, initialUnit: Option<string>): (s: nat)
    ensures s <= |units|
    ensures s == |units| <==> units == []
    ensures initialUnit == None ==> s == 0
    ensures initialUnit == Some("") ==> s == 0
    ensures initialUnit.Some? && initialUnit.value !in units && units != [] && initialUnit.value != "" ==>
              s == |units| - 1
    ensures initialUnit.Some? && initialUnit.value != "" && initialUnit.value in units ==>
              units[s] == initialUnit.value
  {
    if initialUnit.None? || initialUnit.value == "" then 0
    else
      var i := IndexOfUnit(units, initialUnit.value);
      if i >= 0 then i else if |units| > 0 then |units| - 1 else 0
  }

  /** In a ladder without repeated units, starting from one of its units starts at its position. */
  lemma SliceStartAtUnit(units: seq<string>, i: nat)
    requires DistinctUnits(units) && EmptyOnlyAtBase(units) && i < |units|
    ensures SliceStart(units, Some(units[i])) == i
  {
  }

  /** How many times the scaling loop divides, with `room` units left above the start. */
  function ScaleSteps(value: real, divisor: real, room: nat): (k: nat)
    requires divisor > 0.0
    ensures k <= room
    decreases room
  {
    if value >= divisor && room > 0 then 1 + ScaleSteps(value / divisor, divisor, room - 1) else 0
  }

  /** One more iteration of the scaling loop. */
  lemma ScaleStepsClimb(value: real, divisor: real, room: nat)
    requires divisor > 0.0 && value >= divisor && room > 0
    ensures ScaleSteps(value, divisor, room) == 1 + ScaleSteps(value / divisor, divisor, room - 1)
  {
  }

  /** The scaling loop stops. */
  lemma ScaleStepsStop(value: real, divisor: real, room: nat)
    requires divisor > 0.0 && !(value >= divisor && room > 0)
    ensures ScaleSteps(value, divisor, room) == 0
  {
  }

  /** The value after `j` divisions by the divisor. */
  function After(value: real, divisor: real, j: nat): real
    requires divisor > 0.0
  {
    if j == 0 then value else After(value, divisor, j - 1) / divisor
  }

  /** Dividing first and then `j` more times is dividing `j + 1` times. */
  lemma {:induction false} AfterShift(value: real, divisor: real, j: nat)
    requires divisor > 0.0
    ensures After(value / divisor, divisor, j) == After(value, divisor, j + 1)
  {
    if j > 0 {
      AfterShift(value, divisor, j - 1);
    }
  }

  /** `j` divisions divide by the `j`-th power. */
  lemma {:induction false} AfterIsQuotient(value: real, divisor: real, j: nat)
    requires divisor > 0.0
    ensures After(value, divisor, j) == value / Pow(divisor, j)
  {
    if j > 0 {
      AfterIsQuotient(value, divisor, j - 1);
      var p := Pow(divisor, j - 1);
      assert value / p / divisor * (divisor * p) == value;
    }
  }

  /** The step count is the least number of divisions after which the value is
      below one divisor step, unless the ladder runs out first. */
  lemma {:induction false} ScaleStepsLeast(value: real, divisor: real, room: nat)
    requires divisor > 0.0
    ensures var k := ScaleSteps(value, divisor, room);
            After(value, divisor, k) < divisor || k == room
    ensures forall j :: 0 <= j < ScaleSteps(value, divisor, room) ==> After(value, divisor, j) >= divisor
    decreases room
  {
    var k := ScaleSteps(value, divisor, room);
    if value >= divisor && room > 0 {
      ScaleStepsLeast(value / divisor, divisor, room - 1);
      AfterShift(value, divisor, k - 1);
      forall j | 0 < j < k
        ensures After(value, divisor, j) >= divisor
      {
        AfterShift(value, divisor, j - 1);
      }
    }
  }

  /** Conversely, any step count with the properties above is the step count. */
  lemma {:induction false} ScaleStepsUnique(value: real, divisor: real, room: nat, k: nat)
    requires divisor > 0.0 && k <= room
    requires forall j :: 0 <= j < k ==> After(value, divisor, j) >= divisor
    requires After(value, divisor, k) < divisor || k == room
    ensures ScaleSteps(value, divisor, room) == k
    decreases k
  {
    if k == 0 {
      assert After(value, divisor, 0) == value;
    } else {
      assert After(value, divisor, 0) >= divisor;
      var w := value / divisor;
      forall j | 0 <= j < k - 1
        ensures After(w, divisor, j) >= divisor
      {
        AfterShift(value, divisor, j);
        assert After(value, divisor, j + 1) >= divisor;
      }
      AfterShift(value, divisor, k - 1);
      ScaleStepsUnique(w, divisor, room - 1, k - 1);
    }
  }

  /** The ladder position the scaling loop ends at. */
  function Tier(value: real, units: seq<string>, divisor: real, initialUnit: Option<string>): (i: nat)
    requires divisor > 0.0 && units != []
    ensures SliceStart(units, initialUnit) <= i < |units|
  {
    var s := SliceStart(units, initialUnit);
    s + ScaleSteps(value, divisor, |units| - 1 - s)
  }

  /** What `convertBaseValueToUnits` returns: the unit at the tier reached and
      the value after one division per step climbed; no unit on an empty ladder. */
  function Scaled(value: real, units: seq<string>, divisor: real, initialUnit: Option<string>): (c: Converted)
    requires divisor > 0.0
    ensures units == [] ==> c == Converted(value, None)
    ensures units != [] ==> c.unit == Some(units[Tier(value, units, divisor, initialUnit)])
  {
    if units == [] then Converted(value, None)
    else
      var s := SliceStart(units, initialUnit);
      Converted(After(value, divisor, ScaleSteps(value, divisor, |units| - 1 - s)), Some(units[s + ScaleSteps(value, divisor, |units| - 1 - s)]))
  }

  /** The scaled value is the input divided by the divisor to the number of
      steps climbed; it is below one divisor step unless the unit reached is
      the largest, and stopping at any lower tier above the start would have
      left it at least one step. */
  lemma ScaledMeaning(value: real, units: seq<string>, divisor: real, initialUnit: Option<string>)
    requires divisor > 0.0 && units != []
    ensures var c := Scaled(value, units, divisor, initialUnit);
            var i := Tier(value, units, divisor, initialUnit);
            var s := SliceStart(units, initialUnit);
            && c.value == value / Pow(divisor, i - s)
            && (c.value < divisor || i == |units| - 1)
            && forall j :: 0 <= j < i - s ==> After(value, divisor, j) >= divisor
  {
    var s := SliceStart(units, initialUnit);
    ScaleStepsLeast(value, divisor, |units| - 1 - s);
    AfterIsQuotient(value, divisor, ScaleSteps(value, divisor, |units| - 1 - s));
  }

  /** `Scaled` once the number of steps is known. */
  lemma ScaledAfterSteps(value: real, units: seq<string>, divisor: real, initialUnit: Option<string>, k: nat)
    requires divisor > 0.0 && units != []
    requires ScaleSteps(value, divisor, |units| - 1 - SliceStart(units, initialUnit)) == k
    ensures SliceStart(units, initialUnit) + k < |units|
    ensures Scaled(value, units, divisor, initialUnit)
         == Converted(After(value, divisor, k), Some(units[SliceStart(units, initialUnit) + k]))
  {
  }

  /** A one-unit ladder, such as `percentage`, never scales its value. */
  lemma OneUnitLadder(value: real, u: string, divisor: real, initialUnit: Option<string>)
    requires divisor > 0.0
    ensures Scaled(value, [u], divisor, initialUnit) == Converted(value, Some(u))
  {
    ScaleStepsStop(value, divisor, 0);
  }

  /** `convertBaseValueToUnits`: walks up the ladder from the initial unit,
      dividing by the divisor while the value is at least one step and a larger
      unit remains. */
  method ConvertBaseValueToUnits(value: real, unitArray: seq<string>, divisor: real, initialUnit: Option<string>)
    returns (c: Converted)
    requires divisor > 0.0
    ensures c == Scaled(value, unitArray, divisor, initialUnit)
  {
    var sliceIndex := SliceStart(unitArray, initialUnit);
    var units_ := unitArray[sliceIndex..];
    if |units_| == 0 {
      assert unitArray == [];
      return Converted(value, None);
    }
    ShiftSuffix(unitArray, sliceIndex);
    var unit := units_[0];
    units_ := units_[1..];
    var v := value;
    ghost var k: nat := 0;
    ghost var room: nat := |unitArray| - 1 - sliceIndex;
    while v >= divisor && |units_| > 0
      invariant sliceIndex + k < |unitArray| && unit == unitArray[sliceIndex + k]
      invariant units_ == unitArray[sliceIndex + k + 1..]
      invariant v == After(value, divisor, k)
      invariant forall j :: 0 <= j < k ==> After(value, divisor, j) >= divisor
      decreases |units_|
    {
      ShiftSuffix(unitArray, sliceIndex + k + 1);
      v := v / divisor;
      unit := units_[0];
      units_ := units_[1..];
      k := k + 1;
    }
    ScaleStepsUnique(value, divisor, room, k);
    ScaledAfterSteps(value, unitArray, divisor, initialUnit, k);
    c := Converted(v, Some(unit));
  }

  /** The unit as displayed: one leading space when the kind asks for it and the unit is non-empty. */
  function DisplayUnit(unit: Option<string>, space: bool): (d: Option<string>)
    ensures d.None? <==> unit.None?
    ensures unit.Some? && space && unit.value != "" ==> d == Some(" " + unit.value)
    ensures unit.Some? && !(space && unit.value != "") ==> d == unit
  {
    match unit
    case None => None
    case Some(u) => if space && |u| > 0 then Some(" " + u) else Some(u)
  }

  /** JavaScript's `value + unit` for a number and a unit: a string unit makes
      it text, the rendered number followed by the unit; with `undefined`
      neither operand is a string, so `+` adds numbers and gives NaN. */
  function Concatenated(value: real, unit: Option<string>, render: real -> string): (j: JsValue)
    ensures j.Str? <==> unit.Some?
    ensures unit.Some? ==> |j.s| == |render(value)| + |unit.value| && j.s[..|render(value)|] == render(value)
    ensures unit.Some? ==> j.s[|render(value)|..] == unit.value
    ensures unit.None? ==> j == Number(NaN)
  {
    match unit
    case None => Number(NaN)
    case Some(u) => Str(render(value) + u)
  }

  /** What `humanize` returns for an already resolved kind. `render` is
      JavaScript's number-to-text conversion. */
  function HumanizeKind(value: Num, t: QuantityKind, useRound: bool, render: real -> string): HumanizedValue
    requires t.divisor > 0.0
  {
    var v := if IsFinite(value) then value.r else 0.0;
    var c1 := Scaled(v, t.units, t.divisor, None);
    var c := if useRound then Scaled(Round(Finite(c1.value)), t.units, t.divisor, c1.unit) else c1;
    var u := DisplayUnit(c.unit, t.space);
    HumanizedValue(Concatenated(c.value, u, render), c.value, u)
  }

  /** What `humanize` returns for a kind name. */
  function Humanization(value: Num, typeName: string, useRound: bool, render: real -> string): HumanizedValue
  {
    HumanizeKind(value, GetType(typeName), useRound, render)
  }

  /** `humanize` on a finite value, given the results of its two scaling
      passes and of the rounding between them. */
  lemma HumanizeKindSteps(v: real, t: QuantityKind, render: real -> string, c1: Converted, r: real, c2: Converted)
    requires t.divisor > 0.0
    requires Scaled(v, t.units, t.divisor, None) == c1
    requires Round(Finite(c1.value)) == r
    requires Scaled(r, t.units, t.divisor, c1.unit) == c2
    ensures HumanizeKind(Finite(v), t, true, render)
         == HumanizedValue(Concatenated(c2.value, DisplayUnit(c2.unit, t.space), render), c2.value, DisplayUnit(c2.unit, t.space))
  {
  }

  /** The second pass starts from the tier the first pass reached, so it can
      only climb higher; the value it shows is the rounded value divided once
      per further step. */
  lemma {:induction false} SecondPassNeverLowers(v: real, t: QuantityKind)
    requires WellFormedKind(t) && t.units != []
    ensures var i := Tier(v, t.units, t.divisor, None);
            var c1 := Scaled(v, t.units, t.divisor, None);
            var r := Round(Finite(c1.value));
            var j := Tier(r, t.units, t.divisor, c1.unit);
            && c1.value == v / Pow(t.divisor, i)
            && c1.unit == Some(t.units[i])
            && i <= j
            && Scaled(r, t.units, t.divisor, c1.unit) == Converted(r / Pow(t.divisor, j - i), Some(t.units[j]))
  {
    var i := Tier(v, t.units, t.divisor, None);
    ScaledMeaning(v, t.units, t.divisor, None);
    SliceStartAtUnit(t.units, i);
    var c1 := Scaled(v, t.units, t.divisor, None);
    ScaledMeaning(Round(Finite(c1.value)), t.units, t.divisor, c1.unit);
  }

  /** On a registered kind, the plain result is displayed at the tier the
      first pass reaches; the rounded result at a tier at least as high,
      reached by scaling the rounded value again from there; the text is the
      rendered value followed by the displayed unit. */
  lemma HumanizeKnownKind(value: Num, t: QuantityKind, render: real -> string)
    requires WellFormedKind(t) && t.units != []
    ensures var v := if IsFinite(value) then value.r else 0.0;
            var i := Tier(v, t.units, t.divisor, None);
            var r := Round(Finite(v / Pow(t.divisor, i)));
            var j := Tier(r, t.units, t.divisor, Some(t.units[i]));
            var plain := HumanizeKind(value, t, false, render);
            var rounded := HumanizeKind(value, t, true, render);
            && i <= j
            && plain.value == v / Pow(t.divisor, i)
            && plain.unit == DisplayUnit(Some(t.units[i]), t.space)
            && plain.str == Str(render(plain.value) + plain.unit.value)
            && rounded.value == r / Pow(t.divisor, j - i)
            && rounded.unit == DisplayUnit(Some(t.units[j]), t.space)
            && rounded.str == Str(render(rounded.value) + rounded.unit.value)
  {
    var v := if IsFinite(value) then value.r else 0.0;
    SecondPassNeverLowers(v, t);
  }

  /** On an unregistered kind nothing is scaled, the unit is `undefined`, and
      the `string` field is not text at all but the number NaN. */
  lemma HumanizeUnknownKind(value: Num, typeName: string, useRound: bool, render: real -> string)
    requires typeName !in Types
    ensures var v := if IsFinite(value) then value.r else 0.0;
            var w := if useRound then Round(Finite(v)) else v;
            Humanization(value, typeName, useRound, render) == HumanizedValue(Number(NaN), w, None)
  {
  }

  /** Worked example: 0 stays plain, with the empty base unit. */
  lemma HumanizeZero(render: real -> string)
    ensures Humanization(Finite(0.0), "numeric", false, render) == HumanizedValue(Str(render(0.0)), 0.0, Some(""))
  {
    ScaleStepsStop(0.0, 1000.0, 3);
  }

  lemma RoundedAlready(v: real)
    requires v == 1.0 || v == 1.5
    ensures Round(Finite(v)) == v
  {
    assert (100.0).Floor == 100 && (150.0).Floor == 150;
    RoundUnique(v, v);
  }

  lemma ScaledThousands()
    ensures Scaled(1500.0, Numeric.units, 1000.0, None) == Converted(1.5, Some("k"))
    ensures Scaled(1.5, Numeric.units, 1000.0, Some("k")) == Converted(1.5, Some("k"))
  {
    ScaleStepsClimb(1500.0, 1000.0, 3);
    ScaleStepsStop(1.5, 1000.0, 2);
    assert IndexOfUnit(Numeric.units, "k") == 1;
  }

  /** Worked example: 1500 is shown as 1.5k. */
  lemma HumanizeThousands(render: real -> string)
    ensures Humanization(Finite(1500.0), "numeric", true, render) == HumanizedValue(Str(render(1.5) + "k"), 1.5, Some("k"))
  {
    assert GetType("numeric") == Numeric;
    ScaledThousands();
    RoundedAlready(1.5);
  }

  lemma ScaledGibibyteFirst()
    ensures Scaled(1073741824.0, BinaryBytes.units, 1024.0, None) == Converted(1.0, Some("GiB"))
  {
    ScaleStepsClimb(1073741824.0, 1024.0, 5);
    ScaleStepsClimb(1048576.0, 1024.0, 4);
    ScaleStepsClimb(1024.0, 1024.0, 3);
    ScaleStepsStop(1.0, 1024.0, 2);
    assert After(1073741824.0, 1024.0, 3) == 1.0;
  }

  lemma ScaledGibibyteSecond()
    ensures Scaled(1.0, BinaryBytes.units, 1024.0, Some("GiB")) == Converted(1.0, Some("GiB"))
  {
    assert BinaryBytes.units[3] == "GiB" && WellFormedKind(GetType("binaryBytes"));
    SliceStartAtUnit(BinaryBytes.units, 3);
    ScaleStepsStop(1.0, 1024.0, 2);
  }

  lemma SpacedGibibyte()
    ensures DisplayUnit(Some("GiB"), true) == Some(" GiB")
  {
    var d := " " + "GiB";
    assert |d| == 4 && d[0] == ' ' && d[1] == 'G' && d[2] == 'i' && d[3] == 'B';
    assert d == " GiB";
    assert |"GiB"| > 0;
  }

  lemma GibibyteOfKind(render: real -> string)
    ensures HumanizeKind(Finite(1073741824.0), BinaryBytes, true, render)
         == HumanizedValue(Str(render(1.0) + " GiB"), 1.0, Some(" GiB"))
  {
    ScaledGibibyteFirst();
    RoundedAlready(1.0);
    ScaledGibibyteSecond();
    SpacedGibibyte();
    HumanizeKindSteps(1073741824.0, BinaryBytes, render, Converted(1.0, Some("GiB")), 1.0, Converted(1.0, Some("GiB")));
  }

  /** Worked example: 2^30 bytes are shown as 1 GiB, with the space. */
  lemma HumanizeGibibyte(render: real -> string)
    ensures Humanization(Finite(1073741824.0), "binaryBytes", true, render)
         == HumanizedValue(Str(render(1.0) + " GiB"), 1.0, Some(" GiB"))
  {
    assert GetType("binaryBytes") == BinaryBytes;
    GibibyteOfKind(render);
  }

  lemma ScaledSecondPass()
    ensures Scaled(999960.0, Numeric.units, 1000.0, None) == Converted(999.96, Some("k"))
    ensures Scaled(1000.0, Numeric.units, 1000.0, Some("k")) == Converted(1.0, Some("m"))
  {
    ScaleStepsClimb(999960.0, 1000.0, 3);
    ScaleStepsStop(999.96, 1000.0, 2);
    assert IndexOfUnit(Numeric.units, "k") == 1;
    ScaleStepsClimb(1000.0, 1000.0, 2);
    ScaleStepsStop(1.0, 1000.0, 1);
  }

  /** Worked example: 999960 is 999.96k unrounded; rounding gives 1000k,
      which only the second pass turns into 1m. */
  lemma HumanizeSecondPass(render: real -> string)
    ensures Humanization(Finite(999960.0), "numeric", false, render)
         == HumanizedValue(Str(render(999.96) + "k"), 999.96, Some("k"))
    ensures Humanization(Finite(999960.0), "numeric", true, render) == HumanizedValue(Str(render(1.0) + "m"), 1.0, Some("m"))
  {
    assert GetType("numeric") == Numeric;
    ScaledSecondPass();
    RoundCarries();
  }

  /** `humanize`: non-finite values count as 0; one scaling pass from the base;
      with `useRound`, the value is rounded and scaled again from the tier
      already reached; then the unit gets its display space. */
  method Humanize(value: Num, typeName: string, useRound: bool, render: real -> string)
    returns (h: HumanizedValue)
    ensures h == Humanization(value, typeName, useRound, render)
  {
    var t := GetType(typeName);
    var v := value;
    if !IsFinite(v) {
      v := Finite(0.0);
    }
    var converted := ConvertBaseValueToUnits(v.r, t.units, t.divisor, None);
    if useRound {
      converted := converted.(value := Round(Finite(converted.value)));
      converted := ConvertBaseValueToUnits(converted.value, t.units, t.divisor, converted.unit);
    }
    if t.space && converted.unit.Some? && |converted.unit.value| > 0 {
      converted := converted.(unit := Some(" " + converted.unit.value));
    }
    var str := if converted.unit.Some? then Str(render(converted.value) + converted.unit.value) else Number(NaN);
    h := HumanizedValue(str, converted.value, converted.unit);
  }

  /** `humanizeMem`: binary bytes, rounded, text only. */
  method HumanizeMem(value: Num, render: real -> string) returns (s: JsValue)
    ensures s == Humanization(value, "binaryBytes", true, render).str
    ensures s.Str?
  {
    HumanizeKnownKind(value, GetType("binaryBytes"), render);
    var h := Humanize(value, "binaryBytes", true, render);
    s := h.str;
  }

  /** `humanizeCPU`: plain numeric suffixes, rounded, text only. */
  method HumanizeCPU(value: Num, render: real -> string) returns (s: JsValue)
    ensures s == Humanization(value, "numeric", true, render).str
    ensures s.Str?
  {
    HumanizeKnownKind(value, GetType("numeric"), render);
    var h := Humanize(value, "numeric", true, render);
    s := h.str;
  }

  /** `humanizeNumber`: the same as `humanizeCPU`. */
  method HumanizeNumber(value: Num, render: real -> string) returns (s: JsValue)
    ensures s == Humanization(value, "numeric", true, render).str
    ensures s.Str?
  {
    HumanizeKnownKind(value, GetType("numeric"), render);
    var h := Humanize(value, "numeric", true, render);
    s := h.str;
  }
}
