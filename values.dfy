/** Values shared by the quantity formatting modules: an optional value standing
    for JavaScript's `undefined`, JavaScript numbers over the reals, and powers. */
module Values {

  /** `None` stands for JavaScript's `undefined` (or `null` where the source treats both alike). */
  datatype Option<+T> = None | Some(value: T)

  /** A JavaScript number. Finite values are exact reals; binary floating-point
      rounding is not modelled. */
  datatype Num = Finite(r: real) | NaN | PosInf | NegInf

  /** A JavaScript value that may be a string or a number: what `humanize`
      puts in its `string` field, and what `dehumanize` is handed (it parses
      only strings). */
  datatype JsValue = Str(s: string) | Number(n: Num) | OtherValue

  /** JavaScript's `isFinite` on a number. */
  predicate IsFinite(n: Num) {
    n.Finite?
  }

  /** `n * f` for a positive finite factor `f`: NaN and the infinities are absorbing. */
  function Times(n: Num, f: real): (m: Num)
    requires f > 0.0
    ensures m.Finite? <==> n.Finite?
    ensures n.Finite? ==> m.r == n.r * f
    ensures !n.Finite? ==> m == n
  {
    match n
    case Finite(x) => Finite(x * f)
    case _ => n
  }

  /** `d` raised to the `k`-th power. */
  function Pow(d: real, k: nat): (p: real)
    ensures d > 0.0 ==> p > 0.0
  {
    if k == 0 then 1.0 else d * Pow(d, k - 1)
  }

  /** Multiplying by the zeroth power changes nothing. */
  lemma TimesPowZero(n: Num, d: real)
    requires d > 0.0
    ensures Times(n, Pow(d, 0)) == n
  {
    assert Pow(d, 0) == 1.0;
  }

  /** Multiplying by the divisor once more is the next power. */
  lemma {:induction false} TimesPowStep(n: Num, d: real, k: nat)
    requires d > 0.0
    ensures Pow(d, k) > 0.0 && Pow(d, k + 1) > 0.0
    ensures Times(Times(n, Pow(d, k)), d) == Times(n, Pow(d, k + 1))
  {
    if n.Finite? {
      calc {
        n.r * Pow(d, k) * d;
        n.r * (d * Pow(d, k));
        n.r * Pow(d, k + 1);
      }
    }
  }

  /** Shifting the first element off a suffix leaves the next suffix. */
  lemma ShiftSuffix<T>(s: seq<T>, i: nat)
    requires i < |s|
    ensures s[i..][0] == s[i] && s[i..][1..] == s[i + 1..]
  {
  }
}
