/**
 * The small per-field rules of one scrape: client signal quality and band,
 * radio band, AP role and model fallbacks, online status and memory usage.
 */
module Rules {
  import opened Js

  datatype Quality = Good | Moderate | Poor

  /** The label text of a quality bucket. */
  function QualityLabel(q: Quality): string {
    match q
    case Good => "good"
    case Moderate => "moderate"
    case Poor => "poor"
  }

  /** Good ranks highest. */
  function Rank(q: Quality): nat {
    match q
    case Good => 2
    case Moderate => 1
    case Poor => 0
  }

  const Zero := Finite(0.0)

  /**
   * Signal quality of a client from its cleaned RSSI: none for 0; a negative
   * (dBm) reading is good from -67 up and moderate from -75 up; any other
   * reading (a quality index, or NaN) is good from 30 up and moderate from 20 up.
   */
  function SignalQuality(rssi: Number): (q: Option<Quality>)
    ensures q.None? <==> rssi == Zero
    ensures rssi.NaN? ==> q == Some(Poor)
    ensures rssi.Finite? && rssi.r < 0.0 ==>
      q == Some(if rssi.r >= -67.0 then Good else if rssi.r >= -75.0 then Moderate else Poor)
    ensures rssi.Finite? && rssi.r > 0.0 ==>
      q == Some(if rssi.r >= 30.0 then Good else if rssi.r >= 20.0 then Moderate else Poor)
  {
    if rssi == Zero then None
    else
      var quality :=
        if Greater(Zero, rssi) then
          if AtLeast(rssi, Finite(-67.0)) then Good
          else if AtLeast(rssi, Finite(-75.0)) then Moderate
          else Poor
        else
          if AtLeast(rssi, Finite(30.0)) then Good
          else if AtLeast(rssi, Finite(20.0)) then Moderate
          else Poor;
      Some(quality)
  }

  /** On each scale a stronger reading never gets a worse bucket. */
  lemma SignalQualityMonotone(x: real, y: real)
    requires x <= y && x != 0.0 && y != 0.0
    requires (x < 0.0) == (y < 0.0)
    ensures Rank(SignalQuality(Finite(x)).value) <= Rank(SignalQuality(Finite(y)).value)
  {
  }

  /** Sample readings on each side of each threshold. */
  lemma SignalQualityExamples()
    ensures SignalQuality(Finite(-65.0)) == Some(Good)
    ensures SignalQuality(Finite(-70.0)) == Some(Moderate)
    ensures SignalQuality(Finite(-80.0)) == Some(Poor)
    ensures SignalQuality(Finite(35.0)) == Some(Good)
    ensures SignalQuality(Finite(15.0)) == Some(Poor)
    ensures SignalQuality(Finite(0.0)) == None
  {
  }

  /** `String(c["radio-band"] || "").includes("5") ? "5g" : "2.4g"`. */
  function ClientBand(radioBand: Value): (band: string)
    ensures band == "5g" || band == "2.4g"
    ensures band == "5g" <==> Truthy(radioBand) && '5' in Text(radioBand.value)
  {
    if '5' in ToText(Or(radioBand, Some(Str("")))) then "5g" else "2.4g"
  }

  /** A band label that is missing or mentions no `5` is 2.4 GHz; a numeric band 5 is 5 GHz. */
  lemma ClientBandExamples()
    ensures ClientBand(None) == "2.4g"
    ensures ClientBand(Some(Str("2.4GHz"))) == "2.4g"
    ensures ClientBand(Some(Str("5GHz"))) == "5g"
    ensures ClientBand(Some(Num(5, 0))) == "5g"
  {
    assert ClientBand(None) == "2.4g" by {
      assert ToText(Some(Str(""))) == "";
    }
    assert ClientBand(Some(Str("2.4GHz"))) == "2.4g" by {
      var t := "2.4GHz";
      assert ToText(Some(Str(t))) == t;
      assert forall i :: 0 <= i < |t| ==> t[i] != '5';
    }
    assert ClientBand(Some(Str("5GHz"))) == "5g" by {
      assert ToText(Some(Str("5GHz"))) == "5GHz";
      assert "5GHz"[0] == '5';
    }
    assert ClientBand(Some(Num(5, 0))) == "5g" by {
      assert ToText(Some(Num(5, 0))) == NumText(5, 0);
      assert NumText(5, 0) == "5";
    }
  }

  /**
   * The band of a radio sub-record: its `radio-band` value when truthy,
   * otherwise "2.4g" exactly when `radio-id` is the string "0", else "5g".
   */
  function RadioBand(radio: Node): (band: string)
    ensures Truthy(Get(radio, "radio-band")) ==> band == Text(Get(radio, "radio-band").value)
    ensures !Truthy(Get(radio, "radio-band")) ==>
      (band == "2.4g" <==> Get(radio, "radio-id") == Some(Str("0"))) && (band == "2.4g" || band == "5g")
  {
    var fallback := if Get(radio, "radio-id") == Some(Str("0")) then "2.4g" else "5g";
    ToText(Or(Get(radio, "radio-band"), Some(Str(fallback))))
  }

  /** The comparison with "0" is strict: a numeric radio id 0 is not 2.4 GHz. */
  lemma RadioBandStrict()
    ensures RadioBand(Obj([("radio-id", Num(0, 0))])) == "5g"
    ensures RadioBand(Obj([("radio-id", Str("0"))])) == "2.4g"
  {
  }

  /**
   * `(ap.role || "member").toLowerCase()`: a missing or falsy role is
   * "member"; a truthy value that is not a string has no `toLowerCase` and throws.
   */
  function Role(ap: Node): (r: Result<string>)
    ensures !Truthy(Get(ap, "role")) ==> r == Ok("member")
    ensures Truthy(Get(ap, "role")) ==>
      (r.Ok? <==> Get(ap, "role").value.Str?) &&
      (r.Ok? ==> r.value == Lower(Get(ap, "role").value.s))
  {
    assert Lower("member") == "member";
    match Or(Get(ap, "role"), Some(Str("member")))
    case Some(Str(s)) => Ok(Lower(s))
    case _ => TypeError
  }

  /** Any capitalisation of "master" is the master role, compared lower-cased. */
  lemma RoleMasterAnyCase()
    ensures Role(Obj([("role", Str("Master"))])) == Ok("master")
    ensures Role(Obj([("role", Str("MASTER"))])) == Ok("master")
  {
    assert Get(Obj([("role", Str("Master"))]), "role") == Some(Str("Master"));
    assert Lower("Master") == "master";
    assert Get(Obj([("role", Str("MASTER"))]), "role") == Some(Str("MASTER"));
    assert Lower("MASTER") == "master";
  }

  /**
   * `(ap.model || "unknown").toUpperCase()`: throws when the model is a truthy
   * value other than a string.
   */
  function FallbackModel(ap: Node): (r: Result<string>)
    ensures !Truthy(Get(ap, "model")) ==> r == Ok("UNKNOWN")
    ensures Truthy(Get(ap, "model")) ==>
      (r.Ok? <==> Get(ap, "model").value.Str?) &&
      (r.Ok? ==> r.value == Upper(Get(ap, "model").value.s))
  {
    assert Upper("unknown") == "UNKNOWN";
    match Or(Get(ap, "model"), Some(Str("unknown")))
    case Some(Str(s)) => Ok(Upper(s))
    case _ => TypeError
  }

  /** `v == "1"` in JavaScript's loose equality. */
  predicate LooselyOne(v: Value) {
    match v
    case None => false
    case Some(Str(s)) => s == "1"
    case Some(Num(m, e)) => NumValue(m, e) == 1.0
    case Some(Bool(b)) => b
    case Some(Arr(_)) => Text(v.value) == "1"
    case Some(Obj(_)) => false
  }

  /** `v == "up"` in JavaScript's loose equality ("up" is NaN as a number). */
  predicate LooselyUp(v: Value) {
    match v
    case Some(Str(s)) => s == "up"
    case Some(Arr(_)) => Text(v.value) == "up"
    case _ => false
  }

  /** The case analysis of `LooselyOne` is IsLooselyEqual against the string "1". */
  lemma LooselyOneIsLooseEquality(v: Value)
    ensures LooselyOne(v) <==> LooselyEqualsString(v, "1")
  {
    if v.Some? && v.value.Arr? {
      LooselyOneArray(v);
    } else if v.Some? && v.value.Obj? {
      LooselyOneObject(v);
    } else {
      StringToNumberOne();
    }
  }

  lemma LooselyOneArray(v: Value)
    requires v.Some? && v.value.Arr?
    ensures LooselyOne(v) <==> LooselyEqualsString(v, "1")
  {
    LooselyEqualsObject(v, "1");
    var t := Text(v.value);
    assert LooselyOne(v) == (t == "1");
  }

  lemma LooselyOneObject(v: Value)
    requires v.Some? && v.value.Obj?
    ensures LooselyOne(v) <==> LooselyEqualsString(v, "1")
  {
    LooselyEqualsObject(v, "1");
    ObjectText(v.value);
    assert !LooselyOne(v);
  }

  /** The case analysis of `LooselyUp` is IsLooselyEqual against the string "up". */
  lemma LooselyUpIsLooseEquality(v: Value)
    ensures LooselyUp(v) <==> LooselyEqualsString(v, "up")
  {
    if v.Some? && v.value.Arr? {
      LooselyUpArray(v);
    } else if v.Some? && v.value.Obj? {
      LooselyUpObject(v);
    } else {
      StringToNumberUp();
    }
  }

  lemma LooselyUpArray(v: Value)
    requires v.Some? && v.value.Arr?
    ensures LooselyUp(v) <==> LooselyEqualsString(v, "up")
  {
    LooselyEqualsObject(v, "up");
    var t := Text(v.value);
    assert LooselyUp(v) == (t == "up");
  }

  lemma LooselyUpObject(v: Value)
    requires v.Some? && v.value.Obj?
    ensures LooselyUp(v) <==> LooselyEqualsString(v, "up")
  {
    LooselyEqualsObject(v, "up");
    ObjectText(v.value);
    assert !LooselyUp(v);
  }

  /** `ap.state == "1" || ap.status == "up" ? 1 : 0`. */
  function OnlineStatus(ap: Node): (r: real)
    ensures r == 1.0 || r == 0.0
    ensures r == 1.0 <==> LooselyEqualsString(Get(ap, "state"), "1") || LooselyEqualsString(Get(ap, "status"), "up")
  {
    LooselyOneIsLooseEquality(Get(ap, "state"));
    LooselyUpIsLooseEquality(Get(ap, "status"));
    if LooselyOne(Get(ap, "state")) || LooselyUp(Get(ap, "status")) then 1.0 else 0.0
  }

  /** The loose comparison accepts the number 1 as well as the string "1", but not " 1". */
  lemma OnlineStatusExamples()
    ensures OnlineStatus(Obj([("state", Str("1"))])) == 1.0
    ensures OnlineStatus(Obj([("state", Num(1, 0))])) == 1.0
    ensures OnlineStatus(Obj([("state", Num(10, 1))])) == 1.0
    ensures OnlineStatus(Obj([("state", Str(" 1"))])) == 0.0
    ensures OnlineStatus(Obj([("status", Str("up"))])) == 1.0
    ensures OnlineStatus(Obj([("status", Str("UP"))])) == 0.0
    ensures OnlineStatus(Obj([])) == 0.0
  {
    assert NumValue(10, 1) == 1.0;
    assert LooselyOne(Some(Str("1"))) && LooselyOne(Some(Num(1, 0))) && LooselyOne(Some(Num(10, 1)));
    assert !LooselyOne(Some(Str(" 1"))) && !LooselyUp(Some(Str("UP")));
  }

  /**
   * Memory usage `(total - free) / total * 100`, emitted only when the cleaned
   * total is greater than zero.
   */
  function MemoryUsage(total: Number, free: Number): (r: Option<Number>)
    ensures r.Some? <==> Greater(total, Zero)
    ensures r.Some? && total.Finite? && free.Finite? ==>
      r.value == Finite((total.r - free.r) / total.r * 100.0)
  {
    if Greater(total, Zero) then Some(Percent(total, free)) else None
  }

  /** `((total - free) / total) * 100` in JavaScript arithmetic. */
  function Percent(total: Number, free: Number): Number {
    Mul(Div(Sub(total, free), total), Finite(100.0))
  }

  /** With a finite free amount between zero and the total, the usage is a percentage. */
  lemma MemoryUsageBounded(total: real, free: real)
    requires 0.0 <= free <= total && total > 0.0
    ensures
      var u := MemoryUsage(Finite(total), Finite(free)).value;
      u.Finite? && 0.0 <= u.r <= 100.0
  {
    var q := (total - free) / total;
    assert 0.0 <= q <= 1.0 by {
      assert total - free <= total;
      assert q * total == total - free;
    }
  }

  /** A zero, negative or NaN total suppresses the usage instead of dividing by it. */
  lemma MemoryUsageSuppressed(free: Number)
    ensures MemoryUsage(Zero, free).None?
    ensures MemoryUsage(NaN, free).None?
    ensures MemoryUsage(Finite(-1.0), free).None?
  {
  }

  /** The per-AP memory gauge: the cleaned `mem_total` and `mem_avail` fields. */
  function ApMemory(ap: Node): (r: Option<Number>)
    ensures r.Some? <==> Greater(Clean(Get(ap, "mem_total")), Zero)
  {
    CleanOrZero(Get(ap, "mem_total"));
    CleanOrZero(Get(ap, "mem_avail"));
    MemoryUsage(Clean(Or(Get(ap, "mem_total"), Some(Num(0, 0)))), Clean(Or(Get(ap, "mem_avail"), Some(Num(0, 0)))))
  }

  /**
   * The controller memory gauge as the code computes it: guarded by the
   * truthiness of the raw `mem_total` field rather than of its cleaned value.
   */
  function ControllerMemoryAsWritten(ap: Node): (r: Option<Number>)
    ensures r.Some? <==> Truthy(Get(ap, "mem_total"))
    ensures Greater(Clean(Get(ap, "mem_total")), Zero) ==> r == ApMemory(ap)
  {
    var total := Get(ap, "mem_total");
    CleanOrZero(total);
    CleanOrZero(Get(ap, "mem_avail"));
    if Truthy(total) then Some(Percent(Clean(total), Clean(Get(ap, "mem_avail")))) else None
  }

  /**
   * A master whose `mem_total` attribute is the text "0" gets a controller
   * memory gauge that is not a percentage at all: NaN when nothing is reported
   * free, minus infinity when some memory is.
   */
  lemma ControllerMemoryZeroTotal(ap: Node)
    requires Get(ap, "mem_total") == Some(Str("0"))
    ensures ControllerMemoryAsWritten(ap).Some? && !ControllerMemoryAsWritten(ap).value.Finite?
    ensures Clean(Get(ap, "mem_avail")) == Zero ==> ControllerMemoryAsWritten(ap) == Some(NaN)
    ensures Greater(Clean(Get(ap, "mem_avail")), Zero) ==> ControllerMemoryAsWritten(ap) == Some(NegInf)
  {
    var total := Get(ap, "mem_total");
    CleanZeroText(total);
    var free := Clean(Get(ap, "mem_avail"));
    assert ControllerMemoryAsWritten(ap) == Some(Percent(Zero, free));
    PercentOverZero(free);
  }

  /** `(0 - free) / 0 * 100` for a parsed `free`. */
  lemma PercentOverZero(free: Number)
    requires Parsed(free)
    ensures
      var p := Mul(Div(Sub(Zero, free), Zero), Finite(100.0));
      !p.Finite? && (free == Zero ==> p == NaN) && (Greater(free, Zero) ==> p == NegInf)
  {
    var d := Sub(Zero, free);
    if free.NaN? {
      assert d == NaN;
    } else if free.r == 0.0 {
      assert d == Finite(0.0);
    } else if free.r > 0.0 {
      assert Div(d, Zero) == NegInf;
    } else {
      assert Div(d, Zero) == PosInf;
    }
  }

  /** The text "0" is truthy, and cleans to zero. */
  lemma CleanZeroText(v: Value)
    requires v == Some(Str("0"))
    ensures Truthy(v) && Clean(v) == Zero
  {
    CleanDecimal(false, "0", "");
    assert DecimalText(false, "0", "") == "0";
  }

  /** The controller memory gauge under the same guard as the per-AP gauge. */
  function ControllerMemory(ap: Node): (r: Option<Number>)
    ensures r.Some? <==> Greater(Clean(Get(ap, "mem_total")), Zero)
    ensures r.Some? ==> Clean(Get(ap, "mem_total")).Finite? && Clean(Get(ap, "mem_total")).r > 0.0
    ensures r.Some? && Clean(Get(ap, "mem_avail")).Finite? ==> r.value.Finite?
    ensures r == ApMemory(ap)
  {
    CleanOrZero(Get(ap, "mem_total"));
    CleanOrZero(Get(ap, "mem_avail"));
    MemoryUsage(Clean(Get(ap, "mem_total")), Clean(Get(ap, "mem_avail")))
  }

  /** Where the code's guard divides by a zero total, no gauge is set. */
  lemma ControllerMemoryZeroTotalSuppressed(ap: Node)
    requires Get(ap, "mem_total") == Some(Str("0"))
    ensures ControllerMemory(ap) == None
  {
    CleanZeroText(Get(ap, "mem_total"));
  }
}
