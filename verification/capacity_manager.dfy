/** The NGO capacity panel: loading the stored capacity, editing a field, the
    usage colour and risk level of a gauge, the bar width, and the overflow
    forecast. Division follows IEEE rules for a zero maximum (a positive use is
    infinite, a zero use is not a number); otherwise arithmetic is exact. */
module CapacityManager {
  import opened Wrappers
  import JsNumber

  type Capacity = map<string, int>

  const Defaults: Capacity := map[
    "refrigerationMax" := 100, "refrigerationUsed" := 0,
    "storageMax" := 500, "storageUsed" := 0, "volunteerLimit" := 10]

  /** The panel's state after the stored capacity loads: each field falls back
      to its default when absent or zero. Without a stored capacity the state is
      left as it was. */
  function Load(current: Capacity, stored: Option<map<string, int>>): (c: Capacity)
    ensures stored.None? ==> c == current
    ensures stored.Some? ==> c.Keys == Defaults.Keys
    ensures stored.Some? ==> forall k :: k in Defaults ==>
      c[k] == if k in stored.value && stored.value[k] != 0 then stored.value[k] else Defaults[k]
  {
    match stored
    case None => current
    case Some(s) =>
      map k | k in Defaults :: if k in s && s[k] != 0 then s[k] else Defaults[k]
  }

  /** A stored maximum of zero shows the default maximum. */
  lemma ZeroMaxShowsDefault(current: Capacity, stored: map<string, int>)
    requires "refrigerationMax" in stored && stored["refrigerationMax"] == 0
    requires "storageMax" in stored && stored["storageMax"] == 0
    ensures Load(current, Some(stored))["refrigerationMax"] == 100
    ensures Load(current, Some(stored))["storageMax"] == 500
  {
  }

  /** `parseInt(value) || 0` stored under the input's name. */
  function OnChange(c: Capacity, name: string, value: string): (r: Capacity)
    ensures JsNumber.ParseInt(value).None? ==> r == c[name := 0]
    ensures JsNumber.ParseInt(value).Some? ==> r == c[name := JsNumber.ParseInt(value).value]
  {
    c[name := JsNumber.ParseInt(value).GetOr(0)]
  }

  /** Typing a number's decimal form stores that number; typing no digits stores 0. */
  lemma OnChangeParses(c: Capacity, name: string, n: int, junk: string)
    requires JsNumber.ParseInt(junk).None?
    ensures OnChange(c, name, JsNumber.Show(n))[name] == n
    ensures OnChange(c, name, junk)[name] == 0
  {
    JsNumber.ParseShow(n);
  }

  /** A JavaScript number as the gauges compute it. */
  datatype Num = Finite(v: real) | PosInf | NegInf | NaN

  /** `used / max * 100`. */
  function Percent(used: int, max: int): Num {
    if max == 0 then (if used > 0 then PosInf else if used < 0 then NegInf else NaN)
    else Finite(used as real / max as real * 100.0)
  }

  /** `p > t` with IEEE comparisons: false for NaN. */
  predicate Above(p: Num, t: real) {
    p.PosInf? || (p.Finite? && p.v > t)
  }

  /** For a positive maximum the percentage test is the integer comparison
      `100 * used > t * max`. */
  lemma AboveExact(used: int, max: int, t: int)
    ensures max > 0 ==> (Above(Percent(used, max), t as real) <==> 100 * used > t * max)
  {
    if max <= 0 {
      return;
    }
    var x := used as real / max as real;
    assert x * max as real == used as real;
    if x * 100.0 > t as real {
      assert x * 100.0 * max as real > t as real * max as real;
    } else {
      assert x * 100.0 * max as real <= t as real * max as real;
    }
  }

  datatype Colour = Red | Orange | Emerald

  /** Red above 90 %, orange above 70 %, emerald otherwise. */
  function UsageColour(used: int, max: int): (c: Colour)
    ensures max > 0 ==> (c == Red <==> 100 * used > 90 * max)
    ensures max > 0 ==> (c == Orange <==> 70 * max < 100 * used <= 90 * max)
    ensures max == 0 ==> (c == Red <==> used > 0) && c != Orange
  {
    var p := Percent(used, max);
    AboveExact(used, max, 90);
    AboveExact(used, max, 70);
    if Above(p, 90.0) then Red else if Above(p, 70.0) then Orange else Emerald
  }

  datatype Risk = Critical | HighRisk | Normal

  /** CRITICAL above 90 %, HIGH above 75 %, NORMAL otherwise. */
  function RiskLevel(used: int, max: int): (r: Risk)
    ensures max > 0 ==> (r == Critical <==> 100 * used > 90 * max)
    ensures max > 0 ==> (r == HighRisk <==> 75 * max < 100 * used <= 90 * max)
    ensures max == 0 ==> (r == Critical <==> used > 0) && r != HighRisk
  {
    var p := Percent(used, max);
    AboveExact(used, max, 90);
    AboveExact(used, max, 75);
    if Above(p, 90.0) then Critical else if Above(p, 75.0) then HighRisk else Normal
  }

  /** Between 70 % and 75 % the bar is orange while the risk reads NORMAL. */
  lemma ColourAndRiskDisagree()
    ensures UsageColour(72, 100) == Orange && RiskLevel(72, 100) == Normal
  {
  }

  /** `Math.min(p, 100)`: the bar never exceeds 100 %. */
  function BarWidth(used: int, max: int): (w: Num)
    ensures !w.PosInf?
    ensures w.Finite? ==> w.v <= 100.0
    ensures max > 0 && 100 * used >= 100 * max ==> w == Finite(100.0)
  {
    var p := Percent(used, max);
    AboveExact(used, max, 100);
    match p
    case PosInf => Finite(100.0)
    case Finite(v) => Finite(if v < 100.0 then v else 100.0)
    case NegInf => NegInf
    case NaN => NaN
  }

  /** The projected cold-storage load exceeds the maximum: 20 kg expected. */
  predicate Overflow(c: Capacity) {
    "refrigerationUsed" in c && "refrigerationMax" in c && c["refrigerationUsed"] + 20 > c["refrigerationMax"]
  }

  datatype Recommendation = PauseIntake | SafeToAccept

  function Recommend(c: Capacity): (r: Recommendation)
    ensures r == PauseIntake <==> Overflow(c)
  {
    if Overflow(c) then PauseIntake else SafeToAccept
  }

  predicate ShowsOverflowWarning(c: Capacity) {
    Overflow(c)
  }

  /** The warning and the pause recommendation appear together; with the
      defaults neither does. */
  lemma WarningMatchesRecommendation(c: Capacity)
    ensures ShowsOverflowWarning(c) <==> Recommend(c) == PauseIntake
    ensures !Overflow(Defaults)
  {
  }
}
