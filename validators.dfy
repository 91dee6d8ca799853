/** Validation of user-entered resource quantities (`validateNumber`,
    `validate.CPU`, `validate.memory`, `validate.time`): a valid input gives
    no message, an invalid one a message for the user. */
module Validators {
  import opened Values

  const WhiteSpaceMessage := "white space is not allowed"
  const NotANumberMessage := "must be a number"
  const NegativeMessage := "must be positive"
  const InfiniteMessage := "use a value smaller than infinity"
  const UnitRequiredMessage := "number and unit required"
  const UnrecognizedUnitPrefix := "unrecongnized unit: "

  /** The message for a unit outside the allowed set (the misspelling is the
      program's own). */
  function UnrecognizedUnit(unit: string): (m: string)
    ensures |m| == |UnrecognizedUnitPrefix| + |unit| && m[..|UnrecognizedUnitPrefix|] == UnrecognizedUnitPrefix
    ensures m[|UnrecognizedUnitPrefix|..] == unit
  {
    UnrecognizedUnitPrefix + unit
  }

  /** A character of the regular-expression class `\s`: the ASCII blanks and
      the Unicode space separators, line and paragraph separators, and the
      byte order mark. */
  predicate IsWhiteSpace(c: char) {
    || c == '\t' || c == '\n' || c == '\U{000B}' || c == '\U{000C}' || c == '\r' || c == ' '
    || c == '\U{00A0}' || c == '\U{1680}' || ('\U{2000}' <= c <= '\U{200A}')
    || c == '\U{2028}' || c == '\U{2029}' || c == '\U{202F}' || c == '\U{205F}'
    || c == '\U{3000}' || c == '\U{FEFF}'
  }

  /** A character of the class `[a-zA-Z]`. */
  predicate IsAsciiLetter(c: char) {
    ('a' <= c <= 'z') || ('A' <= c <= 'Z')
  }

  /** `s.search(re)` for a one-character class `p`: the first position of a
      character in the class, or -1. */
  function Search(s: string, p: char -> bool): (i: int)
    ensures -1 <= i < |s|
    ensures i >= 0 ==> p(s[i])
    ensures forall j :: 0 <= j < |s| && (i == -1 || j < i) ==> !p(s[j])
  {
    if s == [] then -1
    else if p(s[0]) then 0
    else
      var i := Search(s[1..], p);
      if i == -1 then -1 else i + 1
  }

  predicate HasWhiteSpace(s: string) {
    exists i :: 0 <= i < |s| && IsWhiteSpace(s[i])
  }

  /** `parseFloat`'s result is a finite number that is not negative. */
  predicate NonNegativeFinite(n: Num) {
    n.Finite? && n.r >= 0.0
  }

  /** `float < 0` in JavaScript: a negative finite number or minus infinity. */
  predicate IsNegative(n: Num) {
    n == NegInf || (n.Finite? && n.r < 0.0)
  }

  /** `validateNumber`: whitespace, then a failed parse, then a negative
      number, then an infinite one; otherwise no message. `parseFloat` is
      JavaScript's `parseFloat`, read as a parameter. */
  function ValidateNumber(value: string, parseFloat: string -> Num): (r: Option<string>)
    ensures r == None <==> !HasWhiteSpace(value) && NonNegativeFinite(parseFloat(value))
    ensures r == Some(WhiteSpaceMessage) <==> HasWhiteSpace(value)
    ensures r == Some(NotANumberMessage) <==> !HasWhiteSpace(value) && parseFloat(value) == NaN
    ensures r == Some(NegativeMessage) <==> !HasWhiteSpace(value) && IsNegative(parseFloat(value))
    ensures r == Some(InfiniteMessage) <==> !HasWhiteSpace(value) && parseFloat(value) == PosInf
  {
    if Search(value, IsWhiteSpace) != -1 then Some(WhiteSpaceMessage)
    else
      var float := parseFloat(value);
      if float == NaN then Some(NotANumberMessage)
      else if IsNegative(float) then Some(NegativeMessage)
      else if !float.Finite? then Some(InfiniteMessage)
      else None
  }

  const CpuUnits: set<string> := {"p", "m", "c", "d", "n", "K", "M", "G"}
  const MemoryUnits: set<string> := {"E", "P", "T", "G", "M", "k", "Pi", "Ti", "Gi", "Mi", "Ki"}
  const TimeUnits: set<string> := {"s", "m", "h", "d", "M", "y"}

  /** The unit-set checkers: exact membership, else the unrecognized-unit message. */
  function ValidateUnit(units: set<string>, value: string): (r: Option<string>)
    ensures r == None <==> value in units
    ensures r.Some? ==> r.value == UnrecognizedUnit(value)
  {
    if value in units then None else Some(UnrecognizedUnit(value))
  }

  /** `a || b` on two validation results: a non-empty message in `a` wins. */
  function FirstMessage(a: Option<string>, b: Option<string>): (r: Option<string>)
    ensures a.Some? && a.value != "" ==> r == a
    ensures (a.None? || a.value == "") ==> r == b
  {
    if a.Some? && a.value != "" then a else b
  }

  /** The declarative reading of a valid quantity: `s` splits at `k` into a
      letter-free number accepted by `parseFloat` and a unit from the set that
      starts with a letter; an empty unit is allowed unless a unit is
      required. */
  predicate SplitsAt(s: string, k: int, units: set<string>, unitRequired: bool, parseFloat: string -> Num) {
    && 0 <= k <= |s|
    && (forall q :: 0 <= q < k ==> !IsAsciiLetter(s[q]))
    && (k < |s| ==> IsAsciiLetter(s[k]) && s[k..] in units)
    && (k == |s| ==> !unitRequired)
    && NonNegativeFinite(parseFloat(s[..k]))
  }

  /** A value the validators accept: missing, empty, or free of whitespace
      and made of an accepted number and an allowed unit. */
  predicate Accepted(value: Option<string>, units: set<string>, unitRequired: bool, parseFloat: string -> Num) {
    || value.None?
    || value.value == ""
    || (!HasWhiteSpace(value.value) && exists k :: 0 <= k <= |value.value| && SplitsAt(value.value, k, units, unitRequired, parseFloat))
  }

  /** The messages the validators can give: the fixed ones and the
      unrecognized-unit message for a suffix starting with a letter. */
  predicate IsValidatorMessage(m: string) {
    || m == WhiteSpaceMessage || m == NotANumberMessage || m == NegativeMessage
    || m == InfiniteMessage || m == UnitRequiredMessage
    || (|m| > |UnrecognizedUnitPrefix| && m[..|UnrecognizedUnitPrefix|] == UnrecognizedUnitPrefix
        && IsAsciiLetter(m[|UnrecognizedUnitPrefix|]))
  }

  /** The shape shared by `validate.CPU`, `validate.memory` and
      `validate.time`: missing or empty is valid; whitespace is rejected; the
      string is split at the first letter; with no letter, the whole string
      is checked as a number or, when a unit is required, rejected; otherwise
      the number's message comes before the unit's. */
  function ValidateQuantity(value: Option<string>, units: set<string>, unitRequired: bool, parseFloat: string -> Num)
    : (r: Option<string>)
    ensures value.None? || value.value == "" ==> r == None
    ensures r.Some? ==> r.value != ""
  {
    if value.None? || |value.value| == 0 then None
    else
      var s := value.value;
      if Search(s, IsWhiteSpace) != -1 then Some(WhiteSpaceMessage)
      else
        var index := Search(s, IsAsciiLetter);
        if index == -1 then
          if unitRequired then Some(UnitRequiredMessage) else ValidateNumber(s, parseFloat)
        else
          FirstMessage(ValidateNumber(s[..index], parseFloat), ValidateUnit(units, s[index..]))
  }

  /** A prefix of a whitespace-free string is whitespace-free. */
  lemma NoWhiteSpaceInPrefix(s: string, k: nat)
    requires k <= |s| && !HasWhiteSpace(s)
    ensures !HasWhiteSpace(s[..k])
  {
    forall i | 0 <= i < k
      ensures !IsWhiteSpace(s[..k][i])
    {
      assert s[..k][i] == s[i];
    }
  }

  /** The split is where the first letter is, or the end when there is none. */
  lemma {:induction false} SplitIsFirstLetter(s: string, k: int, units: set<string>, unitRequired: bool, parseFloat: string -> Num)
    requires SplitsAt(s, k, units, unitRequired, parseFloat)
    ensures var index := Search(s, IsAsciiLetter);
            k == if index == -1 then |s| else index
  {
    var index := Search(s, IsAsciiLetter);
    if k < |s| {
      assert IsAsciiLetter(s[k]);
    }
  }

  /** The validators accept exactly the values of `Accepted`. */
  lemma ValidateQuantityAccepts(value: Option<string>, units: set<string>, unitRequired: bool, parseFloat: string -> Num)
    ensures ValidateQuantity(value, units, unitRequired, parseFloat) == None <==> Accepted(value, units, unitRequired, parseFloat)
  {
    if value.Some? && value.value != "" && !HasWhiteSpace(value.value) {
      var s := value.value;
      var index := Search(s, IsAsciiLetter);
      var k := if index == -1 then |s| else index;
      NoWhiteSpaceInPrefix(s, k);
      assert s[..|s|] == s;
      if ValidateQuantity(value, units, unitRequired, parseFloat) == None {
        assert SplitsAt(s, k, units, unitRequired, parseFloat);
      }
      if exists k' :: 0 <= k' <= |s| && SplitsAt(s, k', units, unitRequired, parseFloat) {
        var k' :| 0 <= k' <= |s| && SplitsAt(s, k', units, unitRequired, parseFloat);
        SplitIsFirstLetter(s, k', units, unitRequired, parseFloat);
      }
    }
  }

  /** The whitespace message comes from the whole-string check alone: the
      number check on the prefix never reports whitespace, since the prefix
      of a whitespace-free string has none. */
  lemma ValidateQuantityWhiteSpace(value: Option<string>, units: set<string>, unitRequired: bool, parseFloat: string -> Num)
    ensures ValidateQuantity(value, units, unitRequired, parseFloat) == Some(WhiteSpaceMessage)
        <==> value.Some? && HasWhiteSpace(value.value)
  {
    if value.Some? && value.value != "" && !HasWhiteSpace(value.value) {
      var s := value.value;
      var index := Search(s, IsAsciiLetter);
      if index != -1 {
        NoWhiteSpaceInPrefix(s, index);
        assert UnrecognizedUnit(s[index..])[0] != WhiteSpaceMessage[0];
      } else {
        assert UnitRequiredMessage[0] != WhiteSpaceMessage[0];
      }
    }
  }

  /** "number and unit required" is given exactly when a unit is required and
      the non-empty, whitespace-free value has no letter at all. */
  lemma ValidateQuantityUnitRequired(value: Option<string>, units: set<string>, unitRequired: bool, parseFloat: string -> Num)
    ensures ValidateQuantity(value, units, unitRequired, parseFloat) == Some(UnitRequiredMessage)
        <==> && unitRequired && value.Some? && value.value != "" && !HasWhiteSpace(value.value)
             && forall i :: 0 <= i < |value.value| ==> !IsAsciiLetter(value.value[i])
  {
    if value.Some? && value.value != "" && !HasWhiteSpace(value.value) {
      var s := value.value;
      var index := Search(s, IsAsciiLetter);
      if index != -1 {
        assert UnrecognizedUnit(s[index..])[0] != UnitRequiredMessage[0];
      }
    } else if value.Some? && value.value != "" {
      assert WhiteSpaceMessage[0] != UnitRequiredMessage[0];
    }
  }

  /** A number followed by a unit: the number's message, when it has one, is
      reported whatever the unit. */
  lemma NumberErrorFirst(n: string, u: string, units: set<string>, unitRequired: bool, parseFloat: string -> Num)
    requires !HasWhiteSpace(n + u)
    requires forall i :: 0 <= i < |n| ==> !IsAsciiLetter(n[i])
    requires u != "" && IsAsciiLetter(u[0])
    requires ValidateNumber(n, parseFloat).Some?
    ensures ValidateQuantity(Some(n + u), units, unitRequired, parseFloat) == ValidateNumber(n, parseFloat)
  {
    NumberUnitSplit(n, u);
  }

  /** A number followed by a unit: the unit is reported exactly when the
      number is accepted and the unit is not in the set. */
  lemma UnitErrorExactly(n: string, u: string, units: set<string>, unitRequired: bool, parseFloat: string -> Num)
    requires !HasWhiteSpace(n + u)
    requires forall i :: 0 <= i < |n| ==> !IsAsciiLetter(n[i])
    requires u != "" && IsAsciiLetter(u[0])
    ensures ValidateQuantity(Some(n + u), units, unitRequired, parseFloat) == Some(UnrecognizedUnit(u))
        <==> NonNegativeFinite(parseFloat(n)) && u !in units
  {
    NumberUnitSplit(n, u);
    var m := ValidateNumber(n, parseFloat);
    if m.Some? {
      assert UnrecognizedUnit(u)[0] == 'u';
      assert UnrecognizedUnit(u)[1] == 'n';
      assert m.value[1] != 'n';
    }
  }

  /** The first letter of a number followed by a unit starting with a letter
      is where the unit starts; the number has no whitespace. */
  lemma NumberUnitSplit(n: string, u: string)
    requires !HasWhiteSpace(n + u)
    requires forall i :: 0 <= i < |n| ==> !IsAsciiLetter(n[i])
    requires u != "" && IsAsciiLetter(u[0])
    ensures Search(n + u, IsAsciiLetter) == |n|
    ensures (n + u)[..|n|] == n && (n + u)[|n|..] == u
    ensures !HasWhiteSpace(n)
  {
    var s := n + u;
    assert s[|n|] == u[0];
    NoWhiteSpaceInPrefix(s, |n|);
    assert s[..|n|] == n;
  }

  /** Every message the validators give is one of the fixed messages or the
      unrecognized-unit message for a suffix that starts with a letter. */
  lemma ValidatorMessages(value: Option<string>, units: set<string>, unitRequired: bool, parseFloat: string -> Num)
    ensures var r := ValidateQuantity(value, units, unitRequired, parseFloat);
            r.Some? ==> IsValidatorMessage(r.value)
  {
    if value.Some? && value.value != "" && !HasWhiteSpace(value.value) {
      var s := value.value;
      var index := Search(s, IsAsciiLetter);
      if index != -1 {
        var m := UnrecognizedUnit(s[index..]);
        assert m[|UnrecognizedUnitPrefix|] == s[index];
      }
    }
  }

  /** `validate.CPU`: a unit is optional. */
  function ValidateCPU(value: Option<string>, parseFloat: string -> Num): (r: Option<string>)
    ensures r == None <==> Accepted(value, CpuUnits, false, parseFloat)
    ensures r.Some? ==> IsValidatorMessage(r.value)
  {
    ValidateQuantityAccepts(value, CpuUnits, false, parseFloat);
    ValidatorMessages(value, CpuUnits, false, parseFloat);
    ValidateQuantity(value, CpuUnits, false, parseFloat)
  }

  /** `validate.memory`: a unit is optional. */
  function ValidateMemory(value: Option<string>, parseFloat: string -> Num): (r: Option<string>)
    ensures r == None <==> Accepted(value, MemoryUnits, false, parseFloat)
    ensures r.Some? ==> IsValidatorMessage(r.value)
  {
    ValidateQuantityAccepts(value, MemoryUnits, false, parseFloat);
    ValidatorMessages(value, MemoryUnits, false, parseFloat);
    ValidateQuantity(value, MemoryUnits, false, parseFloat)
  }

  /** `validate.time`: a unit is required. */
  function ValidateTime(value: Option<string>, parseFloat: string -> Num): (r: Option<string>)
    ensures r == None <==> Accepted(value, TimeUnits, true, parseFloat)
    ensures r.Some? ==> IsValidatorMessage(r.value)
  {
    ValidateQuantityAccepts(value, TimeUnits, true, parseFloat);
    ValidatorMessages(value, TimeUnits, true, parseFloat);
    ValidateQuantity(value, TimeUnits, true, parseFloat)
  }

  /** Without any letter, a time is rejected for lacking its unit, while CPU
      and memory check the whole string as a number. */
  lemma NoLetterTimeVersusOthers(s: string, parseFloat: string -> Num)
    requires s != "" && !HasWhiteSpace(s)
    requires forall i :: 0 <= i < |s| ==> !IsAsciiLetter(s[i])
    ensures ValidateTime(Some(s), parseFloat) == Some(UnitRequiredMessage)
    ensures ValidateCPU(Some(s), parseFloat) == ValidateNumber(s, parseFloat)
    ensures ValidateMemory(Some(s), parseFloat) == ValidateNumber(s, parseFloat)
  {
    ValidateQuantityUnitRequired(Some(s), TimeUnits, true, parseFloat);
  }

  /** A whitespace-free number followed by a unit starting with a letter:
      the number's message if any, else the unit's. */
  lemma NumberThenUnit(n: string, u: string, units: set<string>, unitRequired: bool, parseFloat: string -> Num)
    requires !HasWhiteSpace(n + u)
    requires forall i :: 0 <= i < |n| ==> !IsAsciiLetter(n[i])
    requires u != "" && IsAsciiLetter(u[0])
    ensures ValidateQuantity(Some(n + u), units, unitRequired, parseFloat)
         == FirstMessage(ValidateNumber(n, parseFloat), ValidateUnit(units, u))
  {
    NumberUnitSplit(n, u);
  }

  /** Worked example: missing and empty values are valid. */
  lemma MissingIsValid(parseFloat: string -> Num)
    ensures ValidateCPU(None, parseFloat) == None && ValidateCPU(Some(""), parseFloat) == None
    ensures ValidateTime(None, parseFloat) == None && ValidateTime(Some(""), parseFloat) == None
    ensures ValidateMemory(None, parseFloat) == None && ValidateMemory(Some(""), parseFloat) == None
  {
  }

  /** Worked example: "100m" is a valid CPU quantity. */
  lemma CpuMillicores(parseFloat: string -> Num)
    requires parseFloat("100") == Finite(100.0)
    ensures ValidateCPU(Some("100m"), parseFloat) == None
  {
    assert "100" + "m" == "100m";
    assert !HasWhiteSpace("100m");
    NumberThenUnit("100", "m", CpuUnits, false, parseFloat);
    assert ValidateNumber("100", parseFloat) == None;
  }

  /** Worked example: "100 m" is rejected for its whitespace. */
  lemma CpuWithSpace(parseFloat: string -> Num)
    ensures ValidateCPU(Some("100 m"), parseFloat) == Some(WhiteSpaceMessage)
  {
    assert IsWhiteSpace("100 m"[3]);
    ValidateQuantityWhiteSpace(Some("100 m"), CpuUnits, false, parseFloat);
  }

  /** Worked example: "x" is not a CPU unit. */
  lemma CpuUnknownUnit(parseFloat: string -> Num)
    requires parseFloat("100") == Finite(100.0)
    ensures ValidateCPU(Some("100x"), parseFloat) == Some("unrecongnized unit: x")
  {
    assert "100" + "x" == "100x";
    assert !HasWhiteSpace("100x");
    NumberThenUnit("100", "x", CpuUnits, false, parseFloat);
    assert ValidateNumber("100", parseFloat) == None;
    assert "x" !in CpuUnits;
    assert UnrecognizedUnit("x") == "unrecongnized unit: x";
  }

  /** Worked example: "5" needs a unit as a time but not as memory. */
  lemma BareNumberTimeAndMemory(parseFloat: string -> Num)
    requires parseFloat("5") == Finite(5.0)
    ensures ValidateTime(Some("5"), parseFloat) == Some(UnitRequiredMessage)
    ensures ValidateMemory(Some("5"), parseFloat) == None
  {
    assert !HasWhiteSpace("5");
    NoLetterTimeVersusOthers("5", parseFloat);
  }

  /** Worked example: "5d" is a valid time. */
  lemma TimeInDays(parseFloat: string -> Num)
    requires parseFloat("5") == Finite(5.0)
    ensures ValidateTime(Some("5d"), parseFloat) == None
  {
    assert "5" + "d" == "5d";
    assert !HasWhiteSpace("5d");
    NumberThenUnit("5", "d", TimeUnits, true, parseFloat);
    assert ValidateNumber("5", parseFloat) == None;
  }

  /** Worked example: in "-1x" the negative number is reported before the
      unknown unit. */
  lemma NegativeBeforeUnknownUnit(parseFloat: string -> Num)
    requires parseFloat("-1") == Finite(-1.0)
    ensures ValidateMemory(Some("-1x"), parseFloat) == Some(NegativeMessage)
  {
    assert "-1" + "x" == "-1x";
    assert !HasWhiteSpace("-1x");
    NumberThenUnit("-1", "x", MemoryUnits, false, parseFloat);
    assert ValidateNumber("-1", parseFloat) == Some(NegativeMessage);
  }
}
