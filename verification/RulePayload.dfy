/** Rule payloads before and after the typed-payload migration: the translation
    of conditions and actions, its inverse, and the laws between the two. */
module RulePayload {
  import opened Options
  import opened DecimalScalar
  import opened RuleGroups

  datatype Json = JNull | JBool(b: bool) | JNumber(text: string) | JString(s: string)
                | JArray(items: seq<Json>) | JObject(fields: map<string, Json>)

  /** How scalars are read: `Decimal(str(v))`, ISO deadlines, and tickers. The
      laws below hold whatever these readers do. */
  datatype Readers = Readers(decimal: Json -> Option<Dec>, isDeadline: Json -> bool,
                             ticker: string -> Option<string>)

  type Fields = map<string, Json>

  datatype Row = Row(id: int, ticker: string, condition: Option<Json>, action: Option<Json>, state: State,
                     planId: Option<int>, kind: string, fraction: Option<string>, highWaterMark: Option<string>,
                     deadline: Option<string>, preApproved: bool)

  const KINDS: set<string> := {"price", "entry", "target", "stop", "trailing", "time"}
  const ACTION_KEYS: set<string> := {"side", "order_type", "qty", "notional", "limit_price"}

  // ------------------------------------------------------------------ readings

  predicate Positive(rd: Readers, v: Json) {
    match rd.decimal(v)
    case Some(Finite(negative, coefficient, _)) => !negative && coefficient > 0
    case _ => false
  }

  predicate AtMost(rd: Readers, v: Json, bound: nat) {
    match rd.decimal(v)
    case Some(Finite(negative, coefficient, exponent)) => negative || !Exceeds(Scaled(coefficient, exponent), bound)
    case _ => false
  }

  /** A missing scalar is fine, a present one must fit its column. */
  predicate ScalarFits(rd: Readers, v: Option<Json>, precision: nat, scale: nat, maximum: Option<nat>) {
    v.None? || (rd.decimal(v.value).Some? && Accepted(rd.decimal(v.value).value, precision, scale, maximum))
  }

  const MAX_TICKER: nat := 16

  /** `_normalized_ticker` over any trimming and upper-casing: the length is that
      of the text as stored. */
  function NormalizedTicker(trim: string -> string, upper: string -> string, ticker: string): Option<string> {
    if !(1 <= |ticker| <= MAX_TICKER) || upper(trim(ticker)) == "" then None else Some(upper(trim(ticker)))
  }

  ghost predicate ReadsTickers(rd: Readers, trim: string -> string, upper: string -> string) {
    forall t :: rd.ticker(t) == NormalizedTicker(trim, upper, t)
  }

  function Get(m: Fields, key: string): Json { if key in m then m[key] else JNull }

  // ---------------------------------------------------------------- conditions

  function PriceCondition(direction: string, price: Json): Json {
    JObject(map["type" := JString("price"), "direction" := JString(direction), "price" := price])
  }

  function TrailingCondition(percent: Json): Json {
    JObject(map["type" := JString("trailing"), "percent" := percent])
  }

  function TimeCondition(deadline: Json): Json {
    JObject(map["type" := JString("time"), "deadline" := deadline])
  }

  predicate IsPercent(rd: Readers, v: Json) { Positive(rd, v) && AtMost(rd, v, 100) }

  /** The legacy shapes, each with its typed form. */
  function LegacyCondition(rd: Readers, row: Row, m: Fields): (r: Option<Json>) {
    if m.Keys == {"price_below"} && Positive(rd, m["price_below"]) then
      Some(PriceCondition("below", m["price_below"]))
    else if m.Keys == {"price_above"} && Positive(rd, m["price_above"]) then
      Some(PriceCondition("above", m["price_above"]))
    else if m.Keys == {"trailing_stop_pct"} && IsPercent(rd, m["trailing_stop_pct"]) then
      Some(TrailingCondition(m["trailing_stop_pct"]))
    else if row.kind == "time" && m == map[] && row.deadline.Some? && rd.isDeadline(JString(row.deadline.value)) then
      Some(TimeCondition(JString(row.deadline.value)))
    else
      None
  }

  /** Rows a staged deployment already stored in typed form. */
  function TypedCondition(rd: Readers, m: Fields): (r: Option<Json>) {
    if m.Keys == {"type", "direction", "price"} && m["type"] == JString("price") &&
       (m["direction"] == JString("below") || m["direction"] == JString("above")) && Positive(rd, m["price"]) then
      Some(JObject(m))
    else if m.Keys == {"type", "percent"} && m["type"] == JString("trailing") && IsPercent(rd, m["percent"]) then
      Some(JObject(m))
    else if m.Keys == {"type", "deadline"} && m["type"] == JString("time") && rd.isDeadline(m["deadline"]) then
      Some(JObject(m))
    else
      None
  }

  function ConvertCondition(rd: Readers, row: Row): (r: Option<Json>)
    ensures r.Some? ==> r.value.JObject? && "type" in r.value.fields
  {
    match row.condition
    case Some(JObject(m)) =>
      var legacy := LegacyCondition(rd, row, m);
      if legacy.Some? then legacy else TypedCondition(rd, m)
    case _ => None
  }

  /** What the downgrade writes for a typed condition, if it knows its type. */
  function RevertCondition(c: Json): (r: Option<Json>) {
    match c
    case JObject(m) =>
      var t := Get(m, "type");
      if t == JString("price") && "price" in m && "direction" in m && m["direction"].JString? then
        Some(JObject(map["price_" + m["direction"].s := m["price"]]))
      else if t == JString("trailing") && "percent" in m then
        Some(JObject(map["trailing_stop_pct" := m["percent"]]))
      else if t == JString("time") then
        Some(JObject(map[]))
      else
        None
    case _ => None
  }

  // ------------------------------------------------------------------- actions

  function Present(v: Json): Option<Json> { if v == JNull then None else Some(v) }

  predicate ValidAction(rd: Readers, m: Fields) {
    var qty, notional := Present(Get(m, "qty")), Present(Get(m, "notional"));
    var limitPrice := Present(Get(m, "limit_price"));
    var orderType := if "order_type" in m then m["order_type"] else JString("market");
    && m.Keys <= ACTION_KEYS
    && (Get(m, "side") == JString("buy") || Get(m, "side") == JString("sell"))
    && (qty.None? != notional.None?)
    && ScalarFits(rd, qty, 20, 6, None) && ScalarFits(rd, notional, 20, 6, None)
    && (orderType == JString("market") || orderType == JString("limit"))
    && ((orderType == JString("limit")) == limitPrice.Some?)
    && ScalarFits(rd, limitPrice, 20, 6, None)
  }

  function ConvertAction(rd: Readers, action: Option<Json>): (r: Option<Json>) {
    match action
    case Some(JObject(m)) =>
      if ValidAction(rd, m) then
        Some(JObject(m["order_type" := if "order_type" in m then m["order_type"] else JString("market")]))
      else None
    case _ => None
  }

  function RevertAction(a: Json): (r: Json) {
    match a
    case JObject(m) => if Get(m, "order_type") == JString("market") then JObject(m - {"order_type"}) else a
    case _ => a
  }

  // ---------------------------------------------------------------- whole rows

  datatype Conversion = Conversion(condition: Json, action: Json, ticker: string)

  function ExpectedType(kind: string): string {
    if kind == "trailing" then "trailing" else if kind == "time" then "time" else "price"
  }

  function Converted(rd: Readers, row: Row): (r: Option<Conversion>) {
    var ticker := rd.ticker(row.ticker);
    var fraction := if row.fraction.None? then None else Some(JString(row.fraction.value));
    var mark := if row.highWaterMark.None? then None else Some(JString(row.highWaterMark.value));
    if ticker.None? || !ScalarFits(rd, fraction, 8, 6, Some(1)) || !ScalarFits(rd, mark, 20, 6, None) ||
       row.kind !in KINDS then None else
      var condition := ConvertCondition(rd, row);
      var action := ConvertAction(rd, row.action);
      if condition.None? || action.None? then None
      else if condition.value.fields["type"] != JString(ExpectedType(row.kind)) then None
      else Some(Conversion(condition.value, action.value, ticker.value))
  }

  // ------------------------------------------------------------------- the laws

  /** A legacy condition, as opposed to one stored in typed form already. */
  ghost predicate IsLegacy(rd: Readers, row: Row) {
    row.condition.Some? && row.condition.value.JObject? &&
    LegacyCondition(rd, row, row.condition.value.fields).Some?
  }

  /** Downgrading an upgraded legacy condition gives it back unchanged. */
  lemma ConditionRoundTrip(rd: Readers, row: Row)
    requires IsLegacy(rd, row)
    ensures ConvertCondition(rd, row).Some?
    ensures RevertCondition(ConvertCondition(rd, row).value) == row.condition
  {
    var m := row.condition.value.fields;
    var c := ConvertCondition(rd, row).value;
    if m.Keys == {"price_below"} && Positive(rd, m["price_below"]) {
      assert "price_" + "below" == "price_below";
      assert m == map["price_below" := m["price_below"]];
    } else if m.Keys == {"price_above"} && Positive(rd, m["price_above"]) {
      assert "price_" + "above" == "price_above";
      assert m == map["price_above" := m["price_above"]];
    } else if m.Keys == {"trailing_stop_pct"} {
      assert m == map["trailing_stop_pct" := m["trailing_stop_pct"]];
    }
  }

  /** An explicit market order type is the default the downgrade drops. */
  ghost function WithoutDefault(m: Fields): Fields {
    if Get(m, "order_type") == JString("market") then m - {"order_type"} else m
  }

  lemma ActionRoundTrip(rd: Readers, m: Fields)
    requires ValidAction(rd, m)
    ensures RevertAction(ConvertAction(rd, Some(JObject(m))).value) == JObject(WithoutDefault(m))
  {
    if "order_type" !in m {
      assert m["order_type" := JString("market")] - {"order_type"} == m;
    }
  }

  /** Upgrading the downgraded action again gives the same typed action. */
  lemma ActionStable(rd: Readers, m: Fields)
    requires ValidAction(rd, m)
    ensures var typed := ConvertAction(rd, Some(JObject(m))).value;
            ConvertAction(rd, Some(RevertAction(typed))) == Some(typed)
  {
    var typed := ConvertAction(rd, Some(JObject(m))).value;
    ActionRoundTrip(rd, m);
    var back := WithoutDefault(m);
    assert ValidAction(rd, back);
    assert back["order_type" := if "order_type" in back then back["order_type"] else JString("market")] == typed.fields;
  }

  /** A condition that already names a deadline of its own. */
  ghost predicate IsTypedTime(rd: Readers, row: Row) {
    !IsLegacy(rd, row) && ConvertCondition(rd, row).Some? &&
    ConvertCondition(rd, row).value.fields["type"] == JString("time")
  }

  /** The deadline column repeats the stored deadline. */
  ghost predicate DeadlineMatchesColumn(row: Row, typed: Json)
    requires typed.JObject?
  {
    row.deadline.Some? && Get(typed.fields, "deadline") == JString(row.deadline.value)
  }

  /** Upgrade, downgrade, upgrade again: the typed condition comes back exactly
      when it is not a stored deadline that the deadline column does not repeat. */
  lemma ConditionStable(rd: Readers, row: Row)
    requires Converted(rd, row).Some?
    ensures var typed := Converted(rd, row).value.condition;
            && RevertCondition(typed).Some?
            && (ConvertCondition(rd, row.(condition := RevertCondition(typed))) == Some(typed) <==>
                (IsTypedTime(rd, row) ==> DeadlineMatchesColumn(row, typed)))
  {
    var typed := Converted(rd, row).value.condition;
    if IsLegacy(rd, row) {
      ConditionRoundTrip(rd, row);
    } else {
      var m := row.condition.value.fields;
      assert typed == JObject(m);
      if m["type"] == JString("price") {
        TypedPriceStable(rd, row, m);
      } else if m["type"] == JString("trailing") {
        assert TrailingCondition(m["percent"]).fields == m;
      } else {
        assert row.kind == "time";
        TypedTimeStable(rd, row, m);
      }
    }
  }

  lemma TypedPriceStable(rd: Readers, row: Row, m: Fields)
    requires m.Keys == {"type", "direction", "price"} && m["type"] == JString("price") && Positive(rd, m["price"])
    requires m["direction"] == JString("below") || m["direction"] == JString("above")
    ensures RevertCondition(JObject(m)).Some?
    ensures ConvertCondition(rd, row.(condition := RevertCondition(JObject(m)))) == Some(JObject(m))
  {
    assert "price_" + "below" == "price_below" && "price_" + "above" == "price_above";
    assert PriceCondition(m["direction"].s, m["price"]).fields == m;
  }

  lemma TypedTimeStable(rd: Readers, row: Row, m: Fields)
    requires m.Keys == {"type", "deadline"} && m["type"] == JString("time") && rd.isDeadline(m["deadline"])
    requires row.kind == "time"
    ensures ConvertCondition(rd, row.(condition := Some(JObject(map[])))) == Some(JObject(m)) <==>
            DeadlineMatchesColumn(row, JObject(m))
  {
    if row.deadline.Some? {
      var d := JString(row.deadline.value);
      assert TimeCondition(d).fields["deadline"] == d;
      if m["deadline"] == d { assert TimeCondition(d).fields == m; }
    }
  }

  /** The other case is real: a stored deadline that differs from the deadline
      column is lost, and the second conversion takes the column's instead. */
  lemma TypedDeadlineLost(rd: Readers, row: Row, stored: string, column: string)
    requires row.kind == "time" && stored != column && row.deadline == Some(column)
    requires row.condition == Some(TimeCondition(JString(stored)))
    requires rd.isDeadline(JString(stored)) && rd.isDeadline(JString(column))
    ensures ConvertCondition(rd, row) == Some(TimeCondition(JString(stored)))
    ensures var back := row.(condition := RevertCondition(TimeCondition(JString(stored))));
            && ConvertCondition(rd, back) == Some(TimeCondition(JString(column)))
            && ConvertCondition(rd, back) != ConvertCondition(rd, row)
  {
    var m := TimeCondition(JString(stored)).fields;
    assert m.Keys == {"type", "deadline"} && "type" in m;
    assert m["deadline"] == JString(stored) && TimeCondition(JString(column)).fields["deadline"] == JString(column);
  }
}
