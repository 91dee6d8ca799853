# Quantity formatting and validation of the console UI, in Dafny

This project models the quantity module of a Kubernetes/OpenShift web
console (`frontend/public/components/utils/units.js`). The module:

- turns machine quantities (bytes, CPU cores, plain counts, percentages)
  into display strings such as `1.5k` or `1 GiB` (`humanize`);
- reads such strings back (`dehumanize`);
- validates user-entered CPU, memory and time quantities (`validate.*`).

The model has six modules, one per piece of the program:

- `UnitCatalog` (`catalog.dfy`): the five quantity kinds (`TYPES`) and their lookup (`getType`).
- `Rounder` (`rounder.dfy`): magnitude-adaptive rounding (`round`).
- `Humanizer` (`humanizer.dfy`):
  - the scaling loop `convertBaseValueToUnits`, as a method with loop invariants;
  - `humanize` and its three wrappers, as methods;
  - the functions that specify them, and lemmas about those functions.
- `Dehumanizer` (`dehumanizer.dfy`):
  - `convertValueWithUnitsToBaseValue`, as a method: the unit search and then the multiplication loop;
  - `dehumanize`;
  - the specification function `BaseValue`, and lemmas characterising when parsing fails and what it returns when it succeeds.
- `RoundTrip` (`roundtrip.dfy`): when the display string of `humanize` is read back exactly by `dehumanize`.
- `Validators` (`validators.dfy`):
  - `validateNumber`, the unit-set checkers, and `validate.CPU`, `validate.memory` and `validate.time`, as pure functions;
  - a declarative definition of the accepted inputs (`Accepted`), which the validators are proved to match exactly.

`Values` (`values.dfy`) holds the shared types:

- JavaScript numbers: `Num`, finite reals plus NaN and the two infinities;
- `Option`, where `None` is `undefined`;
- powers.

Some calls go into code this model does not contain. They are parameters of the functions and methods that need them:

- `render: real -> string`: JavaScript's number-to-text conversion in `value + unit`;
- `toNumber: string -> Num`: lodash's `_.toNumber`;
- `parseFloat: string -> Num`: JavaScript's `parseFloat`.

Behaviour of the code worth knowing:

- **Which match fails.** `dehumanize` gives up when the first unit found is the largest unit of the ladder, i.e. index 0 of the reversed ladder (units.js:75, `startingUnitIndex <= 0`). It does not give up on the base unit. So "3Ei" is not parsed, while "3Ki" is.
- **Bare numbers on the `numeric` ladder.** The base unit of `numeric` is the empty string, which occurs at position 0 of every string. A bare number such as "5" is therefore cut to the empty text and read as `toNumber("")`, with unit `''`.
- **"3Gi" on `binaryBytes`.** That ladder's units all end in "B", so no unit occurs and the string comes back unparsed. It is the `binaryBytesWithoutB` ladder that reads "3Gi" as 3 * 1024^3.
- **Unknown kinds in `humanize`.** The ladder is empty, so the unit is `undefined` (units.js:49). In `converted.value + converted.unit` neither operand is a string, so JavaScript adds them as numbers, and the `string` field is the number NaN, not text (units.js:129).
- **Binary byte display.** `binaryBytes` puts a space before its unit, so 2^30 bytes display as `1 GiB`.
- **The unit error.** The message is spelled "unrecongnized unit: ".

## Model

| member | source | states |
|---|---|---|
| UnitCatalog.GetType | frontend/public/components/utils/units.js:6-44 | A registered name gives its table entry. Any other name gives the empty ladder with no space and divisor 1000, and no error. The ladder is empty exactly for unknown names. Every result is well formed: divisor 1000 or 1024, distinct units, only the base may be empty, spaced kinds have no empty unit. |
| Rounder.Digits | frontend/public/components/utils/units.js:98-105 | One digit from 100 up, two from 1 up, three below 1 (negatives included). |
| Rounder.Multiplier | frontend/public/components/utils/units.js:106 | The multiplier is 10 to the number of digits: 10, 100 or 1000 by magnitude. |
| Rounder.MathRound | frontend/public/components/utils/units.js:107 | `Math.round` gives the integer within half a unit, with halves rounded up. |
| Rounder.Round | frontend/public/components/utils/units.js:94-108 | Non-finite input gives 0. Otherwise the result is a multiple of 1/m within half a step of the input, halves up, where m is 10, 100 or 1000 by magnitude. |
| Rounder.RoundUnique | frontend/public/components/utils/units.js:94-108 | Those rounding conditions determine the result uniquely. |
| Rounder.RoundOneDigit | frontend/public/components/utils/units.js:99-100 | 150.44 rounds to 150.4. |
| Rounder.RoundTwoDigits | frontend/public/components/utils/units.js:101-102 | 1.2345 rounds to 1.23. |
| Rounder.RoundThreeDigits | frontend/public/components/utils/units.js:103-104 | 0.12345 rounds to 0.123, and -1.2345 to -1.234. |
| Rounder.RoundCarries | frontend/public/components/utils/units.js:95-107 | 999.96 rounds up to 1000. Infinity gives 0. |
| Humanizer.IndexOfUnit | frontend/public/components/utils/units.js:47 | `indexOf` gives the first position holding the unit, or -1 exactly when the unit is absent. |
| Humanizer.SliceStart | frontend/public/components/utils/units.js:47-48 | No initial unit, or the empty one, starts at the base. A unit on the ladder starts at its position. A non-empty unit not on a non-empty ladder gives `indexOf` -1, and `slice(-1)` keeps only the last unit. The start is past the end only for an empty ladder. |
| Humanizer.SliceStartAtUnit | frontend/public/components/utils/units.js:47 | On a well-formed ladder, starting from the unit at position i starts at i. |
| Humanizer.ScaleStepsLeast | frontend/public/components/utils/units.js:50-53 | The loop's step count k is least. After k divisions the value is below the divisor or the ladder is exhausted, and after every fewer number of divisions it was still at least the divisor. |
| Humanizer.ScaleStepsUnique | frontend/public/components/utils/units.js:50-53 | Conversely, any k with those properties is the loop's step count. |
| Humanizer.AfterIsQuotient | frontend/public/components/utils/units.js:51 | k successive divisions divide by divisor^k. |
| Humanizer.Scaled | frontend/public/components/utils/units.js:46-55 | An empty ladder gives the value unchanged with an `undefined` unit. Otherwise the unit is the ladder entry at the tier reached. |
| Humanizer.ScaledMeaning | frontend/public/components/utils/units.js:46-55 | The result value is input / divisor^(tier - start). It is below the divisor unless the tier is the last one. Every earlier tier would have left it at least the divisor. |
| Humanizer.OneUnitLadder | frontend/public/components/utils/units.js:48-53 | A one-unit ladder such as `percentage` never scales the value. |
| Humanizer.ConvertBaseValueToUnits | frontend/public/components/utils/units.js:46-55 | The loop computes exactly `Scaled`: the unit at the tier reached and the value after one division per step. |
| Humanizer.Concatenated | frontend/public/components/utils/units.js:129 | `value + unit` is text exactly when the unit is a string. That text is the rendered number followed by exactly the unit's characters. With an `undefined` unit it is the number NaN. |
| Humanizer.DisplayUnit | frontend/public/components/utils/units.js:124-126 | The displayed unit gets one leading space exactly when the kind is spaced and the unit is non-empty. `undefined` stays `undefined`. |
| Humanizer.SecondPassNeverLowers | frontend/public/components/utils/units.js:117-122 | The rounded second pass starts at the first pass's tier i and ends at a tier j ≥ i. It shows the rounded value divided by divisor^(j-i), with unit ladder[j]. |
| Humanizer.HumanizeKnownKind | frontend/public/components/utils/units.js:110-133 | Covers a registered kind. Plain output: value / divisor^i at tier i. Rounded output: a tier j ≥ i reached from the rounded value. In both, the `string` field is text: the rendered value followed by the displayed unit. |
| Humanizer.HumanizeUnknownKind | frontend/public/components/utils/units.js:110-133 | For an unknown kind, the value is not scaled (only rounded when asked), the unit is `undefined`, and the `string` field is the number NaN. |
| Humanizer.HumanizeZero | frontend/public/components/utils/units.js:110-133 | 0 stays 0 with the empty `numeric` base unit. |
| Humanizer.HumanizeThousands | frontend/public/components/utils/units.js:110-133 | 1500 on `numeric` shows as 1.5 with unit "k". |
| Humanizer.HumanizeGibibyte | frontend/public/components/utils/units.js:110-133 | 2^30 on `binaryBytes` shows as 1 with unit " GiB". |
| Humanizer.HumanizeSecondPass | frontend/public/components/utils/units.js:117-122 | 999960 is 999.96k unrounded. Rounding gives 1000k, which the second pass turns into 1m. |
| Humanizer.Humanize | frontend/public/components/utils/units.js:110-133 | The method returns exactly `Humanization`: non-finite input counts as 0, then the first pass, the optional rounding and second pass, and the display space. |
| Humanizer.HumanizeMem | frontend/public/components/utils/units.js:135 | The `string` field of `humanize` on `binaryBytes` with rounding, which on this registered kind is always text. |
| Humanizer.HumanizeCPU | frontend/public/components/utils/units.js:136 | The `string` field of `humanize` on `numeric` with rounding, which on this registered kind is always text. |
| Humanizer.HumanizeNumber | frontend/public/components/utils/units.js:137 | The `string` field of `humanize` on `numeric` with rounding, which on this registered kind is always text. |
| Dehumanizer.IndexOf | frontend/public/components/utils/units.js:68 | `indexOf` gives the first position where the unit occurs, or -1 exactly when it occurs nowhere. |
| Dehumanizer.Reverse | frontend/public/components/utils/units.js:63 | The reversed ladder: entry i is ladder entry n-1-i. |
| Dehumanizer.FirstMatch | frontend/public/components/utils/units.js:67-74 | `findIndex` gives the first unit occurring in the string. No earlier unit occurs. -1 means none occurs. |
| Dehumanizer.FindUnit | frontend/public/components/utils/units.js:66-74 | The search returns `FirstMatch`. The callback leaves the first occurrence of the found unit in `truncateStringAt`. |
| Dehumanizer.ConvertValueWithUnitsToBaseValue | frontend/public/components/utils/units.js:57-92 | The method returns exactly `BaseValue`. |
| Dehumanizer.ShiftDown | frontend/public/components/utils/units.js:85-89 | The closing loop multiplies once per remaining unit and ends on the last one. |
| Dehumanizer.FirstMatchReversed | frontend/public/components/utils/units.js:63-74 | The search over the reversed ladder finds nothing exactly when no unit occurs. Otherwise it stops at the largest unit that occurs. |
| Dehumanizer.DehumanizeFailsExactly | frontend/public/components/utils/units.js:57-78 | The input comes back unchanged with unit '' exactly when one of these holds: it is not a string; no ladder unit occurs in it; or the largest unit occurs in it. |
| Dehumanizer.DehumanizeSuccess | frontend/public/components/utils/units.js:80-91 | Suppose unit i, below the largest, occurs and no larger unit does. Then the result is `toNumber` of the text before its first occurrence times divisor^i, with the base unit. |
| Dehumanizer.Dehumanize | frontend/public/components/utils/units.js:139-143 | Returns `BaseValue` on the ladder and divisor of the named kind. |
| Dehumanizer.DehumanizeGibi | frontend/public/components/utils/units.js:57-92 | "3Gi" on `binaryBytesWithoutB` is `toNumber("3")` * 1073741824 in unit "i". |
| Dehumanizer.DehumanizeOtherLadder | frontend/public/components/utils/units.js:57-78 | "3Gi" on `binaryBytes` comes back unparsed. |
| Dehumanizer.DehumanizeWord | frontend/public/components/utils/units.js:57-78 | "abc" on `numeric` comes back unparsed, because it contains "b", the largest unit. |
| Dehumanizer.DehumanizeLargestUnit | frontend/public/components/utils/units.js:75-78 | "3Ei" comes back unparsed, because "Ei" is the largest unit. |
| Dehumanizer.DehumanizeBareNumber | frontend/public/components/utils/units.js:57-92 | "5" on `numeric` is `toNumber("")` with unit ''. |
| RoundTrip.CatalogLeadsFresh | frontend/public/components/utils/units.js:6-33 | Every registered ladder's non-empty units start with a character that cannot appear in a written number or the separator. No smaller unit contains that character. |
| RoundTrip.PlainHumanizedString | frontend/public/components/utils/units.js:110-133 | At a non-empty tier, the unrounded `string` field is the text rendered value + separator + unit, and value * divisor^tier is the input. |
| RoundTrip.ReadBack | frontend/public/components/utils/units.js:57-92 | A number followed by a unit below the largest reads back as the number times divisor^tier, in the base unit. |
| RoundTrip.DehumanizeHumanized | frontend/public/components/utils/units.js:110-143 | Dehumanizing the unrounded `string` field of x gives x in the base unit back. This holds for a registered kind, unless the tier shown is the largest or an empty unit, provided `render` writes number characters and `toNumber` reads its own rendering back. |
| Validators.UnrecognizedUnit | frontend/public/components/utils/units.js:166 | The unit message is the fixed, misspelled prefix followed by the unit. |
| Validators.Search | frontend/public/components/utils/units.js:147 | `search` with a one-character class gives the first matching position, or -1 when nothing matches. |
| Validators.ValidateNumber | frontend/public/components/utils/units.js:146-160 | No message exactly when there is no whitespace and the parse is finite and non-negative. Each message is given exactly under its own condition, in order: whitespace, then NaN, then negative (minus infinity included), then infinite. |
| Validators.ValidateUnit | frontend/public/components/utils/units.js:161-167 | Valid exactly on set members. Otherwise the unrecognized-unit message for the whole suffix. |
| Validators.FirstMessage | frontend/public/components/utils/units.js:184 | JavaScript's logical or on two results: a non-empty message in the first wins; an absent or empty first result gives the second. |
| Validators.ValidateQuantity | frontend/public/components/utils/units.js:169-234 | The shared shape of the three validators: a missing or empty value is valid, and every message it gives is non-empty text. |
| Validators.ValidateQuantityAccepts | frontend/public/components/utils/units.js:169-234 | The validators accept exactly `Accepted`: missing, empty, or whitespace-free with a split into a letter-free non-negative number and an allowed unit starting with a letter (or no unit where none is required). |
| Validators.ValidateQuantityWhiteSpace | frontend/public/components/utils/units.js:173-175 | The whitespace message is given exactly when the input has whitespace. The number check on the prefix never reports it. |
| Validators.ValidateQuantityUnitRequired | frontend/public/components/utils/units.js:210-213 | "number and unit required" is given exactly when a unit is required and the non-empty, whitespace-free input has no letter. |
| Validators.NumberErrorFirst | frontend/public/components/utils/units.js:182-184 | The number's message wins over any unit. |
| Validators.UnitErrorExactly | frontend/public/components/utils/units.js:182-184 | The unit message is given exactly when the number is accepted and the suffix is not in the set. |
| Validators.NumberUnitSplit | frontend/public/components/utils/units.js:177-183 | The split falls where the unit's first letter is. |
| Validators.ValidatorMessages | frontend/public/components/utils/units.js:146-234 | Every message is one of the five fixed texts, or the unit message for a suffix starting with a letter. |
| Validators.ValidateCPU | frontend/public/components/utils/units.js:169-185 | Accepts exactly `Accepted` with the CPU units {p, m, c, d, n, K, M, G}, a unit being optional. Every message is a validator message. |
| Validators.ValidateMemory | frontend/public/components/utils/units.js:219-234 | Accepts exactly `Accepted` with the memory units {E, P, T, G, M, k, Pi, Ti, Gi, Mi, Ki}, a unit being optional. Every message is a validator message. |
| Validators.ValidateTime | frontend/public/components/utils/units.js:203-217 | Accepts exactly `Accepted` with the time units {s, m, h, d, M, y}, a unit being required. Every message is a validator message. |
| Validators.NoLetterTimeVersusOthers | frontend/public/components/utils/units.js:177-180 | Covers input with no letter. Time reports "number and unit required". CPU and memory check the whole string as a number. |
| Validators.MissingIsValid | frontend/public/components/utils/units.js:169-172 | A missing value or the empty string is valid for CPU, time and memory alike. |
| Validators.CpuMillicores | frontend/public/components/utils/units.js:169-185 | "100m" is valid CPU. |
| Validators.CpuWithSpace | frontend/public/components/utils/units.js:173-175 | "100 m" is rejected for whitespace. |
| Validators.CpuUnknownUnit | frontend/public/components/utils/units.js:161-167 | "100x" gives "unrecongnized unit: x". |
| Validators.BareNumberTimeAndMemory | frontend/public/components/utils/units.js:210-213 | "5" needs a unit as a time but is valid memory. |
| Validators.TimeInDays | frontend/public/components/utils/units.js:203-217 | "5d" is a valid time. |
| Validators.NegativeBeforeUnknownUnit | frontend/public/components/utils/units.js:231-233 | "-1x" as memory reports "must be positive", not the unit. |

## Left out

- IEEE-754 binary floating point. Finite numbers are exact reals, so division, multiplication and rounding carry no representation error, and there is no overflow to infinity.
- JavaScript's number-to-text conversion, `_.toNumber` and `parseFloat`. They are parameters (`render`, `toNumber`, `parseFloat`); their grammars are not modelled.
- `isFinite`'s coercion of non-number arguments in `round` and `humanize`. Their input is a number (`Num`).
- `dehumanize`'s input. Its non-string values are collapsed into `Number` and `OtherValue`; only strings are parsed.
- `_.isPlainObject` in `getType`. It is a map lookup, so names such as `__proto__` or `toString`, which reach prototype properties in JavaScript, are treated as unknown kinds. For `toString` the code agrees: a function is not a plain object, so it gets the fallback. For `__proto__` it does not: `TYPES['__proto__']` is `Object.prototype`, which `_.isPlainObject` accepts, so `type.units` is `undefined`, and `humanize` (units.js:48), like `dehumanize` of a string (units.js:63), throws a `TypeError`. The model has no exceptions and does not capture this.
- The `TypeError` that `converted.unit.length` would throw on an `undefined` unit. It cannot happen: only the empty fallback ladder yields `undefined`, and it has no space.
- RoundTrip.DehumanizeHumanized: stated for the unrounded display string only. After rounding, the value read back is the rounded one.
- The default parameter `value=''` of the validators is folded into `None`: `undefined` and `null` are both valid, like the empty string.
- frontend/packages/kubevirt-plugin/integration-tests-cypress/enums/provisionSource.ts and frontend/public/components/utils/index.jsx are not part of this model. They hold a table of constants and a re-export barrel, with no behaviour of their own.
