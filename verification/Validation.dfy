// The two validators of a trade event: early returns over typed fields (Python), and a SQL
// WHEN chain over nullable columns with fixed-point casts (Spark).
module Validation {
  import opened Decimals
  import opened Options
  import opened Reals

  datatype Code = NullPrice | InvalidPrice | NullQuantity | NegativeQuantity
                | InvalidTimestamp | LateEvent | InvalidSymbol

  // The text of a numeric field: blank, not a number, or a finite decimal.
  datatype Text = Blank | Garbage | Numeral(value: real)

  // An event as the stream reads it: every column is nullable.
  datatype KafkaRow = KafkaRow(symbol: Option<string>, price: Option<Text>, quantity: Option<Text>, timeMs: Option<int>)

  // Settings shared by a validation run. `lateAfter` is None where late routing is off.
  datatype Config = Config(allowed: set<string>, skew: int, lateAfter: Option<int>)

  // ---------- Python ----------

  const DEFAULT_SYMBOLS: set<string> := {"BTCUSDT", "ETHUSDT"}

  // The fields of a TradeEvent that the rules read; the schema has already refused NULLs.
  datatype TradeEvent = TradeEvent(symbol: string, price: Text, quantity: Text, timeMs: int)

  function PriceIssue(t: Text): Option<Code> {
    match t
    case Blank => Some(NullPrice)
    case Garbage => Some(InvalidPrice)
    case Numeral(v) => if v <= 0.0 then Some(InvalidPrice) else None
  }

  function QuantityIssue(t: Text): Option<Code> {
    match t
    case Blank => Some(NullQuantity)
    case Garbage => Some(NegativeQuantity)
    case Numeral(v) => if v < 0.0 then Some(NegativeQuantity) else None
  }

  // An empty set of symbols falls back to the defaults.
  function Symbols(allowed: set<string>): set<string> {
    if allowed == {} then DEFAULT_SYMBOLS else allowed
  }

  predicate BadTime(t: int, now: int, skew: int) {
    t <= 0 || t < now - skew || t > now + skew
  }

  // validate_trade after schema validation: the issue found first, if any.
  function PythonIssue(e: TradeEvent, cfg: Config, now: int): Option<Code> {
    if PriceIssue(e.price).Some? then PriceIssue(e.price)
    else if QuantityIssue(e.quantity).Some? then QuantityIssue(e.quantity)
    else if e.symbol !in Symbols(cfg.allowed) then Some(InvalidSymbol)
    else if BadTime(e.timeMs, now, cfg.skew) then Some(InvalidTimestamp)
    else None
  }

  // ---------- Spark: three-valued logic ----------

  // SQL booleans, None being UNKNOWN.
  type Tri = Option<bool>

  function And3(a: Tri, b: Tri): Tri {
    if a == Some(false) || b == Some(false) then Some(false)
    else if a.None? || b.None? then None
    else Some(true)
  }

  function Not3(a: Tri): Tri {
    if a.None? then None else Some(!a.value)
  }

  function Or3(a: Tri, b: Tri): Tri {
    Not3(And3(Not3(a), Not3(b)))
  }

  function Less3(a: Option<int>, b: int): Tri {
    if a.None? then None else Some(a.value < b)
  }

  function Greater3(a: Option<int>, b: int): Tri {
    if a.None? then None else Some(a.value > b)
  }

  function IsIn3(s: Option<string>, set_: set<string>): Tri {
    if s.None? then None else Some(s.value in set_)
  }

  // A WHEN branch is taken only on TRUE.
  predicate Taken(c: Tri) {
    c == Some(true)
  }

  // ---------- Spark: fixed-point casts ----------

  // CAST(text AS DECIMAL(precision, scale)): round half up at the scale, NULL when the result
  // needs more than the precision or the text is not a number.
  function FixedPoint(v: real, precision: nat, scale: nat): Option<real>
    requires scale <= precision
  {
    var r := RoundHalfUp(v, scale);
    if Abs(r) < Pow10(precision - scale) then Some(r) else None
  }

  function CastText(t: Option<Text>, precision: nat, scale: nat): Option<real>
    requires scale <= precision
  {
    if t.Some? && t.value.Numeral? then FixedPoint(t.value.value, precision, scale) else None
  }

  function PriceDec(t: Option<Text>): Option<real> {
    CastText(t, 20, 8)
  }

  function QuantityDec(t: Option<Text>): Option<real> {
    CastText(t, 38, 12)
  }

  function TextMissing(t: Option<Text>): Tri {
    Or3(Some(t.None?), if t.None? then None else Some(t.value.Blank?))
  }

  function CastFailed(dec: Option<real>, missing: Tri): Tri {
    And3(Some(dec.None?), Not3(missing))
  }

  function BadTime3(t: Option<int>, now: int, skew: int): Tri {
    Or3(Or3(Or3(Some(t.None?), Less3(t, 1)), Less3(t, now - skew)), Greater3(t, now + skew))
  }

  function Late3(t: Option<int>, now: int, lateAfter: Option<int>): Tri {
    if lateAfter.None? then Some(false) else Less3(t, now - lateAfter.value)
  }

  // The error_code column.
  function SparkCode(r: KafkaRow, cfg: Config, now: int): Option<Code> {
    var price, quantity := PriceDec(r.price), QuantityDec(r.quantity);
    if Taken(TextMissing(r.price)) then Some(NullPrice)
    else if Taken(Or3(CastFailed(price, TextMissing(r.price)), if price.None? then None else Some(price.value <= 0.0))) then
      Some(InvalidPrice)
    else if Taken(TextMissing(r.quantity)) then Some(NullQuantity)
    else if Taken(Or3(CastFailed(quantity, TextMissing(r.quantity)), if quantity.None? then None else Some(quantity.value < 0.0))) then
      Some(NegativeQuantity)
    else if Taken(BadTime3(r.timeMs, now, cfg.skew)) then Some(InvalidTimestamp)
    else if Taken(Late3(r.timeMs, now, cfg.lateAfter)) then Some(LateEvent)
    else if Taken(Not3(IsIn3(r.symbol, cfg.allowed))) then Some(InvalidSymbol)
    else None
  }

  function AsRow(e: TradeEvent): KafkaRow {
    KafkaRow(Some(e.symbol), Some(e.price), Some(e.quantity), Some(e.timeMs))
  }

  predicate IsLate(t: int, now: int, lateAfter: Option<int>) {
    lateAfter.Some? && t < now - lateAfter.value
  }

  // ---------- where the field rules disagree ----------

  // v in units of the last place.
  function InUnits(v: real, scale: nat): real {
    v * Pow10(scale)
  }

  // Positive, but less than half a unit in the last place.
  predicate Vanishes(v: real, scale: nat) {
    0.0 < v && InUnits(v, scale) < 0.5
  }

  // v, positive, does not fit the decimal type after rounding.
  predicate Overflows(v: real, precision: nat, scale: nat)
    requires scale <= precision
  {
    v > 0.0 && RoundHalfUp(v, scale) >= Pow10(precision - scale)
  }

  predicate CastPositive(v: real, precision: nat, scale: nat)
    requires scale <= precision
  {
    var d := FixedPoint(v, precision, scale);
    d.Some? && d.value > 0.0
  }

  predicate CastNonNegative(v: real, precision: nat, scale: nat)
    requires scale <= precision
  {
    var d := FixedPoint(v, precision, scale);
    d.Some? && d.value >= 0.0
  }

  // The sign of a rounded decimal.
  lemma RoundSign(v: real, s: nat)
    ensures RoundHalfUp(v, s) > 0.0 <==> v > 0.0 && InUnits(v, s) >= 0.5
    ensures RoundHalfUp(v, s) < 0.0 <==> v < 0.0 && InUnits(-v, s) >= 0.5
  {
    UnitsSign(if v < 0.0 then -v else v, Pow10(s));
  }

  lemma UnitsSign(a: real, p: real)
    requires p > 0.0 && a >= 0.0
    ensures RoundUnits(a, p) >= 0.0
    ensures RoundUnits(a, p) > 0.0 <==> a * p >= 0.5
  {
    var n := (a * p + 0.5).Floor;
    assert a * p >= 0.0;
    if a * p >= 0.5 {
      assert n >= 1;
      PositiveQuotient(n as real, p);
    } else {
      assert n == 0;
    }
  }

  lemma PositiveQuotient(x: real, p: real)
    requires x > 0.0 && p > 0.0
    ensures x / p > 0.0
  {
  }

  // Over all finite decimals the price rules disagree exactly on prices that round to zero and
  // on prices that overflow the decimal type; Python accepts both.
  lemma PriceDisagreement(v: real, precision: nat, scale: nat)
    requires scale <= precision
    ensures (PriceIssue(Numeral(v)).None? != CastPositive(v, precision, scale))
       <==> Vanishes(v, scale) || Overflows(v, precision, scale)
    ensures CastPositive(v, precision, scale) ==> PriceIssue(Numeral(v)).None?
  {
    hide RoundHalfUp, Pow10, InUnits;
    RoundSign(v, scale);
  }

  // The quantity rules disagree exactly on negative quantities that round to zero, which only
  // Spark accepts, and on quantities that overflow the decimal type, which only Python accepts.
  lemma QuantityDisagreement(v: real, precision: nat, scale: nat)
    requires scale <= precision
    ensures (QuantityIssue(Numeral(v)).None? != CastNonNegative(v, precision, scale))
       <==> Vanishes(-v, scale) || Overflows(v, precision, scale)
    ensures Vanishes(-v, scale) ==> CastNonNegative(v, precision, scale)
    ensures Overflows(v, precision, scale) ==> QuantityIssue(Numeral(v)).None?
  {
    hide RoundHalfUp, Pow10, InUnits;
    RoundSign(v, scale);
    var limit := Pow10(precision - scale);
    assert limit > 0.0;
  }

  predicate PriceFieldOk(t: Text) {
    t.Numeral? && CastPositive(t.value, 20, 8)
  }

  predicate QuantityFieldOk(t: Text) {
    t.Numeral? && CastNonNegative(t.value, 38, 12)
  }

  // The Spark column, branch by branch, in two-valued terms.
  lemma SparkTwoValued(e: TradeEvent, cfg: Config, now: int)
    ensures SparkCode(AsRow(e), cfg, now) ==
      if e.price.Blank? then Some(NullPrice)
      else if !PriceFieldOk(e.price) then Some(InvalidPrice)
      else if e.quantity.Blank? then Some(NullQuantity)
      else if !QuantityFieldOk(e.quantity) then Some(NegativeQuantity)
      else if e.timeMs <= 0 || e.timeMs < now - cfg.skew || now + cfg.skew < e.timeMs then Some(InvalidTimestamp)
      else if cfg.lateAfter.Some? && e.timeMs < now - cfg.lateAfter.value then Some(LateEvent)
      else if e.symbol !in cfg.allowed then Some(InvalidSymbol)
      else None
  {
  }

  // The same over every row: a NULL text reads as a blank one, a NULL time as a bad one, and a
  // NULL symbol is never invalid.
  lemma {:induction false} SparkNullable(r: KafkaRow, cfg: Config, now: int)
    ensures SparkCode(r, cfg, now) ==
      if r.price.None? || r.price.value.Blank? then Some(NullPrice)
      else if !PriceFieldOk(r.price.value) then Some(InvalidPrice)
      else if r.quantity.None? || r.quantity.value.Blank? then Some(NullQuantity)
      else if !QuantityFieldOk(r.quantity.value) then Some(NegativeQuantity)
      else if r.timeMs.None? || r.timeMs.value <= 0 || r.timeMs.value < now - cfg.skew || now + cfg.skew < r.timeMs.value then
        Some(InvalidTimestamp)
      else if cfg.lateAfter.Some? && r.timeMs.value < now - cfg.lateAfter.value then Some(LateEvent)
      else if r.symbol.Some? && r.symbol.value !in cfg.allowed then Some(InvalidSymbol)
      else None
  {
    hide FixedPoint;
  }

  // ---------- the casts in plain numbers ----------

  lemma {:induction false} Powers()
    ensures Pow10(8) == 100000000.0 && Pow10(12) == 1000000000000.0
    ensures Pow10(26) == 100000000000000000000000000.0
  {
    assert Pow10(4) == 10000.0;
    assert Pow10(8) == 100000000.0;
    assert Pow10(12) == 1000000000000.0;
    assert Pow10(16) == 10000000000000000.0;
    assert Pow10(20) == 100000000000000000000.0;
    assert Pow10(24) == 1000000000000000000000000.0;
  }

  // The rounded value in units of the last place.
  lemma WholeUnits(a: real, p: real) returns (n: int)
    requires p > 0.0
    ensures RoundUnits(a, p) * p == n as real && a * p - 0.5 < n as real <= a * p + 0.5
  {
    var x := a * p + 0.5;
    n := x.Floor;
    QuotientBack(n as real, p);
  }

  lemma Negated(x: real, y: real)
    ensures (-x) * y == -(x * y)
  {
  }

  lemma UnitsOf(v: real, p: real) returns (n: int)
    requires p > 0.0
    ensures (if v < 0.0 then -RoundUnits(-v, p) else RoundUnits(v, p)) * p == n as real
    ensures v >= 0.0 ==> v * p - 0.5 < n as real <= v * p + 0.5
    ensures v < 0.0 ==> v * p - 0.5 <= n as real < v * p + 0.5
  {
    hide RoundUnits;
    if v < 0.0 {
      n := WholeUnits(-v, p);
      Negated(RoundUnits(-v, p), p);
      Negated(v, p);
      n := -n;
    } else {
      n := WholeUnits(v, p);
    }
  }

  lemma RoundedInUnits(v: real, scale: nat) returns (n: int)
    ensures RoundHalfUp(v, scale) * Pow10(scale) == n as real
    ensures v >= 0.0 ==> v * Pow10(scale) - 0.5 < n as real <= v * Pow10(scale) + 0.5
    ensures v < 0.0 ==> v * Pow10(scale) - 0.5 <= n as real < v * Pow10(scale) + 0.5
  {
    hide Pow10, RoundUnits;
    n := UnitsOf(v, Pow10(scale));
  }

  lemma Compare(x: real, y: real, p: real)
    requires p > 0.0
    ensures x < y <==> x * p < y * p
  {
  }

  // A price cast is the numeral rounded half away from zero to units of 1e-8, and NULL from half a
  // unit below 1e12 on.
  lemma {:induction false} PriceCast(v: real) returns (n: int)
    ensures PriceDec(Some(Numeral(v))).Some? <==> -999999999999.999999995 < v < 999999999999.999999995
    ensures PriceDec(Some(Numeral(v))).Some? ==> PriceDec(Some(Numeral(v))).value * 100000000.0 == n as real
    ensures v >= 0.0 ==> v * 100000000.0 - 0.5 < n as real <= v * 100000000.0 + 0.5
    ensures v < 0.0 ==> v * 100000000.0 - 0.5 <= n as real < v * 100000000.0 + 0.5
  {
    hide RoundHalfUp, Pow10;
    Powers();
    n := RoundedInUnits(v, 8);
    var d := RoundHalfUp(v, 8);
    Compare(d, 1000000000000.0, 100000000.0);
    Compare(-1000000000000.0, d, 100000000.0);
  }

  // A quantity, or quote, cast likewise in units of 1e-12 below 1e26.
  lemma {:induction false} QuantityCast(v: real) returns (n: int)
    ensures QuantityDec(Some(Numeral(v))).Some?
       <==> -99999999999999999999999999.9999999999995 < v < 99999999999999999999999999.9999999999995
    ensures QuantityDec(Some(Numeral(v))).Some? ==> QuantityDec(Some(Numeral(v))).value * 1000000000000.0 == n as real
    ensures v >= 0.0 ==> v * 1000000000000.0 - 0.5 < n as real <= v * 1000000000000.0 + 0.5
    ensures v < 0.0 ==> v * 1000000000000.0 - 0.5 <= n as real < v * 1000000000000.0 + 0.5
  {
    hide RoundHalfUp, Pow10;
    Powers();
    n := RoundedInUnits(v, 12);
    var d := RoundHalfUp(v, 12);
    Compare(d, 100000000000000000000000000.0, 1000000000000.0);
    Compare(-100000000000000000000000000.0, d, 1000000000000.0);
  }

  // So the stream takes exactly these prices and quantities.
  lemma {:induction false} FieldBounds(v: real)
    ensures PriceFieldOk(Numeral(v)) <==> 0.000000005 <= v < 999999999999.999999995
    ensures QuantityFieldOk(Numeral(v)) <==> -0.0000000000005 < v < 99999999999999999999999999.9999999999995
  {
    hide RoundHalfUp, Pow10, FixedPoint;
    var n := PriceCast(v);
    var m := QuantityCast(v);
    if PriceDec(Some(Numeral(v))).Some? {
      Compare(0.0, PriceDec(Some(Numeral(v))).value, 100000000.0);
    }
    if QuantityDec(Some(Numeral(v))).Some? {
      Compare(QuantityDec(Some(Numeral(v))).value, 0.0, 1000000000000.0);
    }
  }

  // A numeral the fixed-point casts represent exactly.
  predicate ExactFields(e: TradeEvent) {
    && (e.price.Numeral? ==> FixedPoint(e.price.value, 20, 8) == Some(e.price.value))
    && (e.quantity.Numeral? ==> FixedPoint(e.quantity.value, 38, 12) == Some(e.quantity.value))
  }

  // On exact numerals and a non-empty symbol set the stream accepts exactly what the producer
  // accepts and is not late. When the producer rejects, both give the same code unless the
  // symbol is bad and the time is bad or late: Spark looks at the time first.
  lemma ValidatorsAgree(e: TradeEvent, cfg: Config, now: int)
    requires ExactFields(e) && cfg.allowed != {}
    ensures SparkCode(AsRow(e), cfg, now).None?
       <==> PythonIssue(e, cfg, now).None? && !IsLate(e.timeMs, now, cfg.lateAfter)
    ensures PythonIssue(e, cfg, now).Some? ==>
      (SparkCode(AsRow(e), cfg, now) != PythonIssue(e, cfg, now) <==>
        PythonIssue(e, cfg, now) == Some(InvalidSymbol) &&
        (BadTime(e.timeMs, now, cfg.skew) || IsLate(e.timeMs, now, cfg.lateAfter)))
  {
    hide FixedPoint, SparkCode;
    SparkTwoValued(e, cfg, now);
  }

  predicate OtherRulesPass(e: TradeEvent, cfg: Config, now: int) {
    e.symbol in cfg.allowed && !BadTime(e.timeMs, now, cfg.skew) && !IsLate(e.timeMs, now, cfg.lateAfter)
  }

  // The prices, and the quantities, on which the field rules disagree.
  predicate OddPrice(p: real) {
    Vanishes(p, 8) || Overflows(p, 20, 8)
  }

  // Over all schema-valid events: the verdicts differ exactly when the symbol and time rules pass
  // and either Python alone accepts (the price vanishes or overflows, or the quantity overflows)
  // or Spark alone does (the quantity is a vanishing negative).
  lemma VerdictsDiffer(e: TradeEvent, cfg: Config, now: int)
    requires cfg.allowed != {}
    ensures (SparkCode(AsRow(e), cfg, now).None? !=
             (PythonIssue(e, cfg, now).None? && !IsLate(e.timeMs, now, cfg.lateAfter)))
       <==> && OtherRulesPass(e, cfg, now) && e.price.Numeral? && e.quantity.Numeral?
            && var p, q := e.price.value, e.quantity.value;
               || (p > 0.0 && q >= 0.0 && (OddPrice(p) || Overflows(q, 38, 12)))
               || (p > 0.0 && !OddPrice(p) && Vanishes(-q, 12))
  {
    hide FixedPoint, SparkCode, RoundHalfUp, Pow10, CastPositive, CastNonNegative;
    SparkTwoValued(e, cfg, now);
    if e.price.Numeral? && e.quantity.Numeral? {
      PriceDisagreement(e.price.value, 20, 8);
      QuantityDisagreement(e.quantity.value, 38, 12);
    }
  }

  // A fault of Python's rules after the price.
  predicate PythonRejectsAfterPrice(e: TradeEvent, cfg: Config, now: int) {
    QuantityIssue(e.quantity).Some? || e.symbol !in cfg.allowed || BadTime(e.timeMs, now, cfg.skew)
  }

  // Over all schema-valid events: both validators reject, with different codes, exactly when
  // * the price passes in Python and only there, and Python finds a later fault; or the prices agree and
  // * a negative quantity vanishes, and Spark finds a later fault;
  // * a quantity overflows, and Python finds a later fault; or
  // * the quantities agree, the symbol is bad and the time is bad or late.
  lemma {:induction false} CodesDiffer(e: TradeEvent, cfg: Config, now: int)
    requires cfg.allowed != {}
    ensures SparkCode(AsRow(e), cfg, now).Some? && PythonIssue(e, cfg, now).Some?
            && SparkCode(AsRow(e), cfg, now) != PythonIssue(e, cfg, now)
       <==> && e.price.Numeral? && e.price.value > 0.0
            && (if OddPrice(e.price.value) then PythonRejectsAfterPrice(e, cfg, now)
                else
                  && e.quantity.Numeral?
                  && if Vanishes(-e.quantity.value, 12) then !OtherRulesPass(e, cfg, now)
                     else if e.quantity.value < 0.0 then false
                     else if Overflows(e.quantity.value, 38, 12) then
                       e.symbol !in cfg.allowed || BadTime(e.timeMs, now, cfg.skew)
                     else
                       e.symbol !in cfg.allowed &&
                       (BadTime(e.timeMs, now, cfg.skew) || IsLate(e.timeMs, now, cfg.lateAfter)))
  {
    hide FixedPoint, SparkCode, RoundHalfUp, Pow10, CastPositive, CastNonNegative, InUnits;
    SparkTwoValued(e, cfg, now);
    if e.price.Numeral? {
      PriceDisagreement(e.price.value, 20, 8);
    }
    if e.quantity.Numeral? {
      QuantityDisagreement(e.quantity.value, 38, 12);
    }
  }

  // A NULL symbol is UNKNOWN to the symbol rule, which then never fires: such a row is valid
  // whenever its numbers and time are.
  lemma NullSymbolPasses(r: KafkaRow, cfg: Config, now: int)
    requires r.symbol.None?
    ensures SparkCode(r, cfg, now) != Some(InvalidSymbol)
    ensures forall s :: s in cfg.allowed ==> SparkCode(r, cfg, now) == SparkCode(r.(symbol := Some(s)), cfg, now)
  {
  }

  // With no symbols configured Spark rejects every event, Python accepts the default ones.
  lemma NoSymbolsConfigured(e: TradeEvent, cfg: Config, now: int)
    requires cfg.allowed == {}
    ensures SparkCode(AsRow(e), cfg, now).Some?
    ensures PythonIssue(e, cfg, now) == PythonIssue(e, cfg.(allowed := {"BTCUSDT", "ETHUSDT"}), now)
  {
  }
}
