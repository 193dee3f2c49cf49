/**
 * The JavaScript values the pass stores in its records, and the two
 * numeric coercions its comparators and score apply to them.
 */
module Values {
  import opened Wrappers
  import Text

  /**
   * A field value. `Undefined` is a key that is present with value
   * `undefined` (as `moonRank: moonrank[id]` leaves it for an identifier
   * the moonrank file lacks), which is not the same as an absent key.
   */
  datatype Value = Num(x: real) | NaN | NegInfinity | Str(s: string) | Undefined

  /** The property names the pass's records use (`MoonRank` is `moonRank`, `RarityURL` is `rarityURL`, ...). */
  datatype Field =
    | Id | Price | MoonRank | Rank
    | Background | Skin | Hair | Mouth | Eyes | Eyebrows | Clothes
    | HeadAccessory | FaceAccessory | Glasses
    | RarityURL | MeURL | SolanartURL | Score

  /** A plain JavaScript object: its own keys and their values. */
  type Record = map<Field, Value>

  /** Property read `r.key`: `undefined` when the key is absent. */
  function Get(r: Record, key: Field): (v: Value)
    ensures key !in r ==> v == Undefined
    ensures key in r ==> v == r[key]
  {
    if key in r then r[key] else Undefined
  }

  /** The value `parseInt` gives, as a field value. */
  function FromParsed(n: Option<int>): (v: Value)
    ensures v.Num? <==> n.Some?
    ensures n.Some? ==> v.x == n.value as real
  {
    match n
    case Some(k) => Num(k as real)
    case None => NaN
  }

  /** `Math.trunc`: the integer part, rounding toward zero. */
  function Trunc(x: real): (n: int)
    ensures 0.0 <= x ==> n as real <= x < n as real + 1.0
    ensures x < 0.0 ==> n as real - 1.0 < x <= n as real
  {
    if 0.0 <= x then x.Floor else -((-x).Floor)
  }

  /**
   * `parseInt(v || "")`: a falsy value (`undefined`, `NaN`, `""`, `0`)
   * becomes `""`, which does not parse; a string is parsed; a number is
   * parsed from its spelling, which keeps its integer part.
   */
  function ParseIntOf(v: Value): (n: Option<int>)
    ensures v.Undefined? || v.NaN? || v == Str("") ==> n.None?
    ensures v.Str? ==> n == Text.ParseInt(v.s)
  {
    match v
    case Str(s) => Text.ParseInt(s)
    case Num(x) => if x == 0.0 then None else Some(Trunc(x))
    case _ => None
  }

  /**
   * The unary numeric coercion behind `a.id - b.id`: numbers stay, the
   * empty string is 0, a string of digits is its value, and everything
   * else is NaN (None).
   */
  function ToNumber(v: Value): (n: Option<real>)
    ensures v.Num? ==> n == Some(v.x)
    ensures v.Undefined? || v.NaN? ==> n.None?
    ensures v == Str("") ==> n == Some(0.0)
    ensures v.Str? && v.s != [] ==> (n.Some? <==> Text.ParseInt(v.s).Some?)
  {
    match v
    case Num(x) => Some(x)
    case Str(s) =>
      if s == [] then Some(0.0)
      else (match Text.ParseInt(s) case Some(k) => Some(k as real) case None => None)
    case _ => None
  }

  /** A string id spelled in decimal, such as a rarity row's `id` column, coerces to its number. */
  lemma ToNumberDecimal(k: nat)
    ensures ToNumber(Str(Text.Decimal(k))) == Some(k as real)
  {
    Text.ParseDecimal(k);
  }

  /** `parseInt` of a decimal string field, such as a `rank` or `moonRank` column, is its number. */
  lemma ParseIntOfDecimal(k: nat)
    ensures ParseIntOf(Str(Text.Decimal(k))) == Some(k)
  {
    Text.ParseDecimal(k);
  }
}
