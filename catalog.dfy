/** The unit catalogue: the fixed table of quantity kinds (`TYPES`) and its
    lookup (`getType`). */
module UnitCatalog {

  /** A quantity kind: its unit ladder from the base (smallest) unit up to the
      largest, the factor between neighbouring units, and whether a space goes
      between a number and its unit when displayed. */
  datatype QuantityKind = QuantityKind(units: seq<string>, space: bool, divisor: real)

  const Numeric := QuantityKind(["", "k", "m", "b"], false, 1000.0)
  const Percentage := QuantityKind(["%"], false, 1000.0)
  const DecimalBytes := QuantityKind(["B", "KB", "MB", "GB", "TB", "PB", "EB"], true, 1000.0)
  const BinaryBytes := QuantityKind(["B", "KiB", "MiB", "GiB", "TiB", "PiB"], true, 1024.0)
  const BinaryBytesWithoutB := QuantityKind(["i", "Ki", "Mi", "Gi", "Ti", "Pi", "Ei"], true, 1024.0)

  /** What an unregistered kind name resolves to. */
  const Fallback := QuantityKind([], false, 1000.0)

  /** The registry, keyed by kind name. */
  const Types: map<string, QuantityKind> := map[
    "numeric" := Numeric,
    "percentage" := Percentage,
    "decimalBytes" := DecimalBytes,
    "binaryBytes" := BinaryBytes,
    "binaryBytesWithoutB" := BinaryBytesWithoutB
  ]

  /** No unit occurs twice in a ladder. */
  predicate DistinctUnits(units: seq<string>) {
    forall i, j :: 0 <= i < j < |units| ==> units[i] != units[j]
  }

  /** Only the base unit may be the empty string. */
  predicate EmptyOnlyAtBase(units: seq<string>) {
    forall i :: 0 < i < |units| ==> units[i] != ""
  }

  /** Kinds displayed with a space before the unit have no empty unit. */
  predicate SpacedUnitsNonEmpty(k: QuantityKind) {
    k.space ==> forall i :: 0 <= i < |k.units| ==> k.units[i] != ""
  }

  /** What every kind in the catalogue satisfies. */
  predicate WellFormedKind(k: QuantityKind) {
    && (k.divisor == 1000.0 || k.divisor == 1024.0)
    && DistinctUnits(k.units)
    && EmptyOnlyAtBase(k.units)
    && SpacedUnitsNonEmpty(k)
  }

  /** Looks a kind up by name; an unknown name is not an error but resolves to
      the empty-ladder fallback. */
  function GetType(name: string): (k: QuantityKind)
    ensures name in Types ==> k == Types[name]
    ensures name !in Types ==> k == Fallback
    ensures k.units == [] <==> name !in Types
    ensures WellFormedKind(k)
  {
    if name in Types then Types[name] else Fallback
  }
}
