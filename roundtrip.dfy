/** How `dehumanize` reads back what `humanize` writes: without rounding, and
    away from the two tiers `dehumanize` cannot parse, the display string of a
    value is read back as that value in the base unit. */
module RoundTrip {
  import opened Values
  import opened UnitCatalog
  import opened Humanizer
  import opened Dehumanizer

  /** A character that can appear when a finite JavaScript number is written
      out: digits, the decimal point, signs and the exponent marker. */
  predicate IsNumberChar(c: char) {
    ('0' <= c <= '9') || c == '.' || c == '-' || c == '+' || c == 'e'
  }

  /** What `humanize` puts between the number and a non-empty unit. */
  function Separator(space: bool): (sep: string)
    ensures sep == [] || sep == [' ']
    ensures |sep| == 1 <==> space
  {
    if space then " " else ""
  }

  /** Every non-empty unit starts with a character that cannot be part of a
      written number or the separator, and that no smaller unit contains. */
  predicate LeadsFresh(units: seq<string>) {
    && (forall k :: 0 <= k < |units| && units[k] != "" ==> !IsNumberChar(units[k][0]) && units[k][0] != ' ')
    && (forall i, k :: 0 <= i < k < |units| ==> units[k] != "" && units[k][0] !in units[i])
  }

  lemma NumericLeadsFresh()
    ensures LeadsFresh(Numeric.units)
  {
    var L := Numeric.units;
    assert L[0] == "" && L[1] == "k" && L[2] == "m" && L[3] == "b";
  }

  lemma DecimalBytesLeadsFresh()
    ensures LeadsFresh(DecimalBytes.units)
  {
    var L := DecimalBytes.units;
    assert L[0] == "B" && L[1] == "KB" && L[2] == "MB" && L[3] == "GB";
    assert L[4] == "TB" && L[5] == "PB" && L[6] == "EB";
  }

  lemma BinaryBytesLeadsFresh()
    ensures LeadsFresh(BinaryBytes.units)
  {
    var L := BinaryBytes.units;
    assert L[0] == "B" && L[1] == "KiB" && L[2] == "MiB" && L[3] == "GiB";
    assert L[4] == "TiB" && L[5] == "PiB";
  }

  lemma BinaryBytesWithoutBLeadsFresh()
    ensures LeadsFresh(BinaryBytesWithoutB.units)
  {
    var L := BinaryBytesWithoutB.units;
    assert L[0] == "i" && L[1] == "Ki" && L[2] == "Mi" && L[3] == "Gi";
    assert L[4] == "Ti" && L[5] == "Pi" && L[6] == "Ei";
  }

  /** Every registered ladder has fresh leading characters. */
  lemma CatalogLeadsFresh(name: string)
    requires name in Types
    ensures LeadsFresh(GetType(name).units)
  {
    NumericLeadsFresh();
    DecimalBytesLeadsFresh();
    BinaryBytesLeadsFresh();
    BinaryBytesWithoutBLeadsFresh();
    assert LeadsFresh(Percentage.units);
  }

  /** The unrounded display string at a non-empty tier is the rendered value,
      the separator and the unit; the value times the divisor to the tier is
      the input. */
  lemma PlainHumanizedString(x: real, t: QuantityKind, render: real -> string)
    requires WellFormedKind(t) && t.units != []
    requires t.units[Tier(x, t.units, t.divisor, None)] != ""
    ensures var h := HumanizeKind(Finite(x), t, false, render);
            var i := Tier(x, t.units, t.divisor, None);
            && h.str == Str(render(h.value) + Separator(t.space) + t.units[i])
            && Times(Finite(h.value), Pow(t.divisor, i)) == Finite(x)
  {
    var h := HumanizeKind(Finite(x), t, false, render);
    var i := Tier(x, t.units, t.divisor, None);
    var c := Scaled(x, t.units, t.divisor, None);
    ScaledMeaning(x, t.units, t.divisor, None);
    assert c.value == x / Pow(t.divisor, i);
    assert h.value == c.value && h.str == Concatenated(c.value, DisplayUnit(c.unit, t.space), render);
    var p := Pow(t.divisor, i);
    assert c.value * p == x;
    assert render(h.value) + (" " + t.units[i]) == render(h.value) + " " + t.units[i];
  }

  /** A number followed by a unit below the largest, on a ladder with fresh
      leading characters, is read as that number times the divisor to the
      unit's tier. */
  lemma ReadBack(prefix: string, units: seq<string>, divisor: real, toNumber: string -> Num, i: nat)
    requires divisor > 0.0 && LeadsFresh(units)
    requires i < |units| - 1 && units[i] != ""
    requires forall c :: c in prefix ==> IsNumberChar(c) || c == ' '
    ensures BaseValue(Str(prefix + units[i]), units, divisor, toNumber)
         == Dehumanized(Number(Times(toNumber(prefix), Pow(divisor, i))), units[0])
  {
    var s := prefix + units[i];
    FoundAfterPrefix(prefix, units[i]);
    forall k | i < k < |units|
      ensures IndexOf(s, units[k]) == -1
    {
      assert units[k][0] !in units[i];
      AbsentLead(s, units[k]);
    }
    DehumanizeSuccess(s, units, divisor, toNumber, i);
    assert s[..|prefix|] == prefix;
  }

  /** The unrounded display string of `x` on a kind whose ladder has fresh
      leading characters is read back as `x` in the base unit, provided the
      tier shown is neither the largest nor an empty unit, the rendered number
      uses number characters only, and `toNumber` reads the rendered number
      (followed by the separator) back. */
  lemma DehumanizeHumanizedKind(x: real, t: QuantityKind, render: real -> string, toNumber: string -> Num)
    requires WellFormedKind(t) && t.units != [] && LeadsFresh(t.units)
    requires Tier(x, t.units, t.divisor, None) < |t.units| - 1
    requires t.units[Tier(x, t.units, t.divisor, None)] != ""
    requires forall c :: c in render(HumanizeKind(Finite(x), t, false, render).value) ==> IsNumberChar(c)
    requires var v := HumanizeKind(Finite(x), t, false, render).value;
             toNumber(render(v) + Separator(t.space)) == Finite(v)
    ensures BaseValue(HumanizeKind(Finite(x), t, false, render).str, t.units, t.divisor, toNumber)
         == Dehumanized(Number(Finite(x)), t.units[0])
  {
    var i := Tier(x, t.units, t.divisor, None);
    var h := HumanizeKind(Finite(x), t, false, render);
    PlainHumanizedString(x, t, render);
    var prefix := render(h.value) + Separator(t.space);
    ReadBack(prefix, t.units, t.divisor, toNumber, i);
  }

  /** The same for a registered kind name. */
  lemma DehumanizeHumanized(x: real, name: string, render: real -> string, toNumber: string -> Num)
    requires name in Types
    requires Tier(x, GetType(name).units, GetType(name).divisor, None) < |GetType(name).units| - 1
    requires GetType(name).units[Tier(x, GetType(name).units, GetType(name).divisor, None)] != ""
    requires forall c :: c in render(Humanization(Finite(x), name, false, render).value) ==> IsNumberChar(c)
    requires var v := Humanization(Finite(x), name, false, render).value;
             toNumber(render(v) + Separator(GetType(name).space)) == Finite(v)
    ensures Dehumanization(Humanization(Finite(x), name, false, render).str, name, toNumber)
         == Dehumanized(Number(Finite(x)), GetType(name).units[0])
  {
    CatalogLeadsFresh(name);
    DehumanizeHumanizedKind(x, GetType(name), render, toNumber);
  }
}
