/**
 * The vocabulary of `src/store/configuratorStore.ts`: the configuration a
 * customer builds, the fixed price table, the order record, and
 * `calculateTotalPrice`.
 *
 * The typed configuration holds its optionals as a list of codes. The price
 * function itself is modelled on the value the `optionals` field may hold at
 * run time (any JSON value after the persisted state is rehydrated), because
 * the source guards against a non-array there.
 */
module Catalog {
  import opened Common
  import opened Json

  datatype ExteriorColor = GlacierBlue | MidnightBlack | LunarWhite
  datatype InteriorColor = CarbonBlack | DeepBlue
  datatype WheelType = Aero | Sport
  datatype ViewMode = Exterior | Interior
  datatype PaymentMethod = Avista | Financiamento
  datatype OrderStatus = Aprovado | Reprovado | EmAnalise

  /** The string codes the source stores for each enumerated value. */
  function ExteriorCode(c: ExteriorColor): string {
    match c
    case GlacierBlue => "glacier-blue"
    case MidnightBlack => "midnight-black"
    case LunarWhite => "lunar-white"
  }

  function WheelCode(w: WheelType): string {
    match w
    case Aero => "aero"
    case Sport => "sport"
  }

  function PaymentCode(m: PaymentMethod): string {
    match m
    case Avista => "avista"
    case Financiamento => "financiamento"
  }

  function StatusCode(s: OrderStatus): string {
    match s
    case Aprovado => "APROVADO"
    case Reprovado => "REPROVADO"
    case EmAnalise => "EM_ANALISE"
  }

  datatype Configuration = Configuration(
    exteriorColor: ExteriorColor,
    interiorColor: InteriorColor,
    wheelType: WheelType,
    optionals: seq<string>)

  /** The configuration a fresh store starts with and `resetConfiguration` restores. */
  const DefaultConfiguration := Configuration(GlacierBlue, CarbonBlack, Aero, [])

  const PrecisionPark := "precision-park"
  const FluxCapacitor := "flux-capacitor"

  const BasePrice: int := 40000
  const SportWheelsPrice: int := 2000
  const PrecisionParkPrice: int := 5500
  const FluxCapacitorPrice: int := 5000

  /** `OPTIONAL_PRICES`: the own keys of the price table and their surcharges. */
  const OptionalPrices: map<string, int> := map[PrecisionPark := PrecisionParkPrice, FluxCapacitor := FluxCapacitorPrice]

  /** A code the price table knows. */
  predicate IsPricedCode(k: string) {
    k in OptionalPrices
  }

  /**
   * The names every plain JavaScript object inherits from
   * `Object.prototype`; the `in` operator answers true for them on the
   * price table too.
   */
  const ObjectPrototypeKeys: set<string> := {
    "constructor", "hasOwnProperty", "isPrototypeOf", "propertyIsEnumerable",
    "toLocaleString", "toString", "valueOf", "__proto__",
    "__defineGetter__", "__defineSetter__", "__lookupGetter__", "__lookupSetter__"
  }

  /** `k in OPTIONAL_PRICES` as JavaScript evaluates it: own keys and inherited ones. */
  predicate InPriceTableAsWritten(k: string) {
    k in OptionalPrices || k in ObjectPrototypeKeys
  }

  /** The customer block of an order. */
  datatype Customer = Customer(
    name: string,
    surname: string,
    email: string,
    phone: string,
    cpf: string,
    store: string)

  /**
   * The configuration carried by an order read back from the database; its
   * fields are the stored strings, cast without checking.
   */
  datatype OrderConfiguration = OrderConfiguration(
    exteriorColor: string,
    interiorColor: string,
    wheelType: string,
    optionals: seq<string>)

  /** `Order` of configuratorStore.ts. */
  datatype Order = Order(
    id: string,
    configuration: OrderConfiguration,
    totalPrice: real,
    customer: Customer,
    paymentMethod: string,
    installmentValue: Option<real>,
    status: string,
    createdAt: string)

  // ---------------------------------------------------------------------
  // calculateTotalPrice
  // ---------------------------------------------------------------------

  /**
   * The price-table key an optional item converts to, when that key could
   * be a table key at all. JavaScript converts the index of
   * `OPTIONAL_PRICES[item]` to a string: a string is itself, and a
   * one-element array converts as its element does. Every other value
   * converts to a string holding a comma, an empty string, a number,
   * `true`/`false`, `null` or `[object Object]`, none of which is a key of
   * the table; those are `None`.
   */
  function TableKey(v: JsValue): Option<string>
    decreases v
  {
    match v
    case JString(s) => Some(s)
    case JArray(items) => if |items| == 1 then TableKey(items[0]) else None
    case _ => None
  }

  /**
   * Whether converting `v` to a property key throws a TypeError. An object
   * converts through its `toString` and then its `valueOf`: a JSON object
   * with its own `toString` member holds a value there that cannot be
   * called, and its `valueOf` (its own, likewise not callable, or the
   * inherited one, which returns the object itself) yields no primitive
   * either. Without its own `toString` an object converts to
   * `[object Object]`. An array converts by joining its items, each
   * converted the same way (`null` becomes empty). Strings, numbers,
   * booleans and `null` always convert.
   */
  predicate KeyConversionThrows(v: JsValue)
    decreases v
  {
    match v
    case JObject(fields) => "toString" in fields
    case JArray(items) => exists i :: 0 <= i < |items| && KeyConversionThrows(items[i])
    case _ => false
  }

  /** Some item of the list cannot be converted to a property key. */
  predicate AnyKeyConversionThrows(items: seq<JsValue>) {
    exists i :: 0 <= i < |items| && KeyConversionThrows(items[i])
  }

  /** A list has a throwing item exactly when one of its two parts has. */
  lemma AnyKeyConversionThrowsConcat(a: seq<JsValue>, b: seq<JsValue>)
    ensures AnyKeyConversionThrows(a + b) <==> AnyKeyConversionThrows(a) || AnyKeyConversionThrows(b)
  {
    if AnyKeyConversionThrows(a + b) {
      var i :| 0 <= i < |a + b| && KeyConversionThrows((a + b)[i]);
      if i >= |a| {
        assert (a + b)[i] == b[i - |a|];
      }
    }
    if AnyKeyConversionThrows(b) {
      var j :| 0 <= j < |b| && KeyConversionThrows(b[j]);
      assert (a + b)[|a| + j] == b[j];
    }
    if AnyKeyConversionThrows(a) {
      var j :| 0 <= j < |a| && KeyConversionThrows(a[j]);
      assert (a + b)[j] == a[j];
    }
  }

  /**
   * What one optional item adds once its key is converted: its surcharge
   * when it names a code of the table, and nothing otherwise (the inherited
   * `Object.prototype` members are functions or objects, which the
   * `typeof price === 'number'` test rejects).
   */
  function ItemPrice(v: JsValue): (p: int)
    ensures p == 0 || p == PrecisionParkPrice || p == FluxCapacitorPrice
    ensures p > 0 <==> TableKey(v).Some? && IsPricedCode(TableKey(v).value)
  {
    match TableKey(v)
    case Some(k) => if k in OptionalPrices then OptionalPrices[k] else 0
    case None => 0
  }

  /** The surcharges of a list of optional items, added in list order. */
  function OptionalsTotal(items: seq<JsValue>): (t: int)
    ensures t >= 0
    decreases |items|
  {
    if |items| == 0 then 0 else ItemPrice(items[0]) + OptionalsTotal(items[1..])
  }

  function WheelSurcharge(w: WheelType): int {
    if w == Sport then SportWheelsPrice else 0
  }

  /**
   * The `forEach` of `calculateTotalPrice`: the items in list order, each
   * adding its surcharge to the running total. The first item whose key
   * conversion throws ends the loop with the throw (`None`); otherwise the
   * running total ends up increased by the surcharges of all the items.
   */
  function AddOptionals(total: int, items: seq<JsValue>): (r: Option<int>)
    ensures r.None? <==> AnyKeyConversionThrows(items)
    ensures r.Some? ==> r.value == total + OptionalsTotal(items)
    decreases |items|
  {
    if |items| == 0 then Some(total)
    else
      assert forall i :: 1 <= i < |items| ==> items[i] == items[1..][i - 1];
      if KeyConversionThrows(items[0]) then None
      else AddOptionals(total + ItemPrice(items[0]), items[1..])
  }

  /**
   * `calculateTotalPrice`: base price, the sport-wheel surcharge, and the
   * surcharge of every item of `optionals` when it is an array. It throws
   * (`None`) exactly when `optionals` is an array holding an item whose
   * key conversion throws. Otherwise the total is at least the base price,
   * and a value that is not an array adds nothing.
   */
  function CalculateTotalPrice(wheelType: WheelType, optionals: Option<JsValue>): (total: Option<int>)
    ensures total.None? <==> optionals.Some? && optionals.value.JArray? && AnyKeyConversionThrows(optionals.value.items)
    ensures total.Some? ==> total.value == BasePrice + WheelSurcharge(wheelType) + OptionalsTotal(ArrayItems(optionals))
    ensures total.Some? ==> total.value >= BasePrice
    ensures total.Some? && wheelType == Sport ==> total.value >= BasePrice + SportWheelsPrice
    ensures !(optionals.Some? && optionals.value.JArray?) ==> total == Some(BasePrice + WheelSurcharge(wheelType))
  {
    AddOptionals(BasePrice + WheelSurcharge(wheelType), ArrayItems(optionals))
  }

  /**
   * One item whose key conversion throws makes the whole price calculation
   * throw, wherever it sits in the list.
   */
  lemma ThrowingItemFailsPrice(w: WheelType, before: seq<JsValue>, item: JsValue, after: seq<JsValue>)
    requires KeyConversionThrows(item)
    ensures CalculateTotalPrice(w, Some(JArray(before + [item] + after))).None?
  {
    assert (before + [item] + after)[|before|] == item;
  }

  /**
   * An object with its own `toString` member throws, alone or inside a
   * one-element array; an object without one converts to
   * `[object Object]` and costs nothing.
   */
  lemma ObjectItemExamples()
    ensures CalculateTotalPrice(Aero, Some(JArray([JString(PrecisionPark), JObject(map["toString" := JNumber(1.0)])]))).None?
    ensures CalculateTotalPrice(Aero, Some(JArray([JArray([JObject(map["toString" := JNumber(1.0)])])]))).None?
    ensures CalculateTotalPrice(Aero, Some(JArray([JObject(map["valueOf" := JNumber(1.0)])]))) == Some(BasePrice)
  {
    var inner := JObject(map["toString" := JNumber(1.0)]);
    assert KeyConversionThrows(inner);
    assert [JString(PrecisionPark), inner][1] == inner;
    assert KeyConversionThrows(JArray([inner])) by { assert [inner][0] == inner; }
    assert [JArray([inner])][0] == JArray([inner]);
    var plain := JObject(map["valueOf" := JNumber(1.0)]);
    assert !AnyKeyConversionThrows([plain]);
  }

  /** The surcharges of two lists laid end to end add up. */
  lemma {:induction false} OptionalsTotalConcat(a: seq<JsValue>, b: seq<JsValue>)
    ensures OptionalsTotal(a + b) == OptionalsTotal(a) + OptionalsTotal(b)
    decreases |a|
  {
    if |a| > 0 {
      assert (a + b)[1..] == a[1..] + b;
      OptionalsTotalConcat(a[1..], b);
    } else {
      assert a + b == b;
    }
  }

  /**
   * An item that does not name a code of the table (an unknown code, an
   * inherited name such as `toString`, a number, an object) leaves the
   * price unchanged wherever it sits in the list.
   */
  lemma UnknownItemAddsNothing(w: WheelType, before: seq<JsValue>, item: JsValue, after: seq<JsValue>)
    requires !KeyConversionThrows(item)
    requires !(TableKey(item).Some? && IsPricedCode(TableKey(item).value))
    ensures CalculateTotalPrice(w, Some(JArray(before + [item] + after)))
         == CalculateTotalPrice(w, Some(JArray(before + after)))
  {
    DropItemTotal(before, item, after);
    DropItemThrows(before, item, after);
  }

  lemma DropItemTotal(before: seq<JsValue>, item: JsValue, after: seq<JsValue>)
    requires !(TableKey(item).Some? && IsPricedCode(TableKey(item).value))
    ensures OptionalsTotal(before + [item] + after) == OptionalsTotal(before + after)
  {
    OptionalsTotalConcat(before + [item], after);
    OptionalsTotalConcat(before, [item]);
    OptionalsTotalConcat(before, after);
  }

  lemma DropItemThrows(before: seq<JsValue>, item: JsValue, after: seq<JsValue>)
    requires !KeyConversionThrows(item)
    ensures AnyKeyConversionThrows(before + [item] + after) <==> AnyKeyConversionThrows(before + after)
  {
    AnyKeyConversionThrowsConcat(before + [item], after);
    AnyKeyConversionThrowsConcat(before, [item]);
    AnyKeyConversionThrowsConcat(before, after);
    assert !AnyKeyConversionThrows([item]) by { assert forall i :: 0 <= i < |[item]| ==> [item][i] == item; }
  }

  /**
   * The price of a typed configuration, whose optionals are strings: no
   * string throws on key conversion, so `calculateTotalPrice` of its codes
   * as the JSON array the store holds always returns, and returns this.
   */
  function Price(c: Configuration): (p: int)
    ensures p >= BasePrice
    ensures CalculateTotalPrice(c.wheelType, Some(JArray(StringArray(c.optionals)))) == Some(p)
  {
    BasePrice + WheelSurcharge(c.wheelType) + OptionalsTotal(StringArray(c.optionals))
  }

  /** The surcharges of a list of codes, counted per code. */
  lemma {:induction false} CodesTotal(codes: seq<string>)
    ensures OptionalsTotal(StringArray(codes))
         == PrecisionParkPrice * multiset(codes)[PrecisionPark]
          + FluxCapacitorPrice * multiset(codes)[FluxCapacitor]
    decreases |codes|
  {
    if |codes| > 0 {
      var rest := codes[1..];
      assert StringArray(codes)[1..] == StringArray(rest);
      assert OptionalsTotal(StringArray(codes)) == ItemPrice(JString(codes[0])) + OptionalsTotal(StringArray(rest));
      CodesTotal(rest);
      CodePrice(codes[0]);
      assert codes == [codes[0]] + rest;
      assert multiset(codes) == multiset{codes[0]} + multiset(rest);
    }
  }

  /** The surcharge of one code: 5500, 5000 or nothing. */
  lemma CodePrice(code: string)
    ensures ItemPrice(JString(code)) == PrecisionParkPrice * multiset{code}[PrecisionPark]
                                     + FluxCapacitorPrice * multiset{code}[FluxCapacitor]
  {
  }

  /** No string throws on key conversion. */
  lemma StringsConvert(items: seq<JsValue>)
    requires forall i :: 0 <= i < |items| ==> items[i].JString?
    ensures !AnyKeyConversionThrows(items)
  {
    forall i | 0 <= i < |items| ensures !KeyConversionThrows(items[i]) {
      assert items[i] == JString(items[i].s);
    }
  }

  /**
   * The price of a configuration is the base price, plus 2000 for sport
   * wheels, plus 5500 per `precision-park` and 5000 per `flux-capacitor`
   * in its list; any other code costs nothing.
   */
  lemma PriceFormula(c: Configuration)
    ensures Price(c) == BasePrice + WheelSurcharge(c.wheelType)
                      + PrecisionParkPrice * multiset(c.optionals)[PrecisionPark]
                      + FluxCapacitorPrice * multiset(c.optionals)[FluxCapacitor]
  {
    CodesTotal(c.optionals);
  }

  /** With no duplicates each optional is paid at most once, so the price lies between 40000 and 52500. */
  lemma PriceOfDuplicateFree(c: Configuration)
    requires NoDuplicates(c.optionals)
    ensures Price(c) == BasePrice + WheelSurcharge(c.wheelType)
                      + (if PrecisionPark in c.optionals then PrecisionParkPrice else 0)
                      + (if FluxCapacitor in c.optionals then FluxCapacitorPrice else 0)
    ensures BasePrice <= Price(c) <= 52500
  {
    PriceFormula(c);
    AtMostOnce(c.optionals, PrecisionPark);
    AtMostOnce(c.optionals, FluxCapacitor);
  }

  /** In a duplicate-free list a value occurs once if present and never otherwise. */
  lemma {:induction false} AtMostOnce(s: seq<string>, x: string)
    requires NoDuplicates(s)
    ensures multiset(s)[x] == if x in s then 1 else 0
    decreases |s|
  {
    if |s| > 0 {
      assert s == [s[0]] + s[1..];
      ConsNoDuplicates(s[0], s[1..]);
      AtMostOnce(s[1..], x);
      assert multiset(s) == multiset{s[0]} + multiset(s[1..]);
    }
  }

  /** The two worked examples: the default configuration costs 40000; sport wheels with both optionals cost 52500. */
  lemma PriceExamples()
    ensures Price(DefaultConfiguration) == 40000
    ensures Price(Configuration(GlacierBlue, CarbonBlack, Sport, [PrecisionPark, FluxCapacitor])) == 52500
  {
    PriceFormula(Configuration(GlacierBlue, CarbonBlack, Sport, [PrecisionPark, FluxCapacitor]));
    assert multiset([PrecisionPark, FluxCapacitor])[PrecisionPark] == 1;
    assert multiset([PrecisionPark, FluxCapacitor])[FluxCapacitor] == 1;
  }
}
