/**
 * The configuration store of `src/store/configuratorStore.ts`: the current
 * configuration, the view mode, the locally kept orders and the e-mail of
 * the "logged in" customer, the actions that change them, and the
 * migration applied to an older persisted state.
 *
 * Each action is a function from the state before to the state after.
 */
module ConfiguratorStore {
  import opened Common
  import opened Json
  import opened Catalog

  datatype StoreState = StoreState(
    configuration: Configuration,
    viewMode: ViewMode,
    orders: seq<Order>,
    currentUserEmail: Option<string>)

  /** The state a fresh store starts in. */
  const InitialState := StoreState(DefaultConfiguration, Exterior, [], None)

  // ---------------------------------------------------------------------
  // Configuration setters
  // ---------------------------------------------------------------------

  /** Picking an exterior colour switches the stage to the exterior view; the price does not move. */
  function SetExteriorColor(s: StoreState, color: ExteriorColor): (r: StoreState)
    ensures r.configuration.exteriorColor == color && r.viewMode == Exterior
    ensures r.configuration.(exteriorColor := s.configuration.exteriorColor) == s.configuration
    ensures r.orders == s.orders && r.currentUserEmail == s.currentUserEmail
    ensures Price(r.configuration) == Price(s.configuration)
  {
    s.(configuration := s.configuration.(exteriorColor := color), viewMode := Exterior)
  }

  /** Picking an interior colour switches the stage to the interior view; the price does not move. */
  function SetInteriorColor(s: StoreState, color: InteriorColor): (r: StoreState)
    ensures r.configuration.interiorColor == color && r.viewMode == Interior
    ensures r.configuration.(interiorColor := s.configuration.interiorColor) == s.configuration
    ensures r.orders == s.orders && r.currentUserEmail == s.currentUserEmail
    ensures Price(r.configuration) == Price(s.configuration)
  {
    s.(configuration := s.configuration.(interiorColor := color), viewMode := Interior)
  }

  /**
   * Picking wheels changes only the wheel type; the price moves by exactly
   * the difference of the two wheel surcharges.
   */
  function SetWheelType(s: StoreState, w: WheelType): (r: StoreState)
    ensures r.configuration.wheelType == w
    ensures r.configuration.(wheelType := s.configuration.wheelType) == s.configuration
    ensures r.viewMode == s.viewMode && r.orders == s.orders && r.currentUserEmail == s.currentUserEmail
    ensures Price(r.configuration) - WheelSurcharge(w)
         == Price(s.configuration) - WheelSurcharge(s.configuration.wheelType)
  {
    s.(configuration := s.configuration.(wheelType := w))
  }

  /** `setViewMode` changes the view mode and nothing else. */
  function SetViewMode(s: StoreState, mode: ViewMode): (r: StoreState)
    ensures r.viewMode == mode
    ensures r.(viewMode := s.viewMode) == s
  {
    s.(viewMode := mode)
  }

  // ---------------------------------------------------------------------
  // toggleOptional
  // ---------------------------------------------------------------------

  /**
   * Adds `code` at the end when it is absent and removes it when present.
   * Afterwards `code` is present exactly when it was absent before, every
   * other code keeps its presence, and a duplicate-free list stays
   * duplicate-free.
   */
  function Toggle(codes: seq<string>, code: string): (r: seq<string>)
    ensures code in r <==> code !in codes
    ensures forall i :: 0 <= i < |codes| && codes[i] != code ==> codes[i] in r
    ensures forall i :: 0 <= i < |r| && r[i] != code ==> r[i] in codes
    ensures NoDuplicates(codes) ==> NoDuplicates(r)
  {
    if code in codes then
      FilterNoDuplicatesIf(codes, code);
      Without(codes, code)
    else
      ConsNoDuplicatesAtEnd(codes, code);
      codes + [code]
  }

  lemma FilterNoDuplicatesIf(codes: seq<string>, code: string)
    ensures NoDuplicates(codes) ==> NoDuplicates(Without(codes, code))
  {
    if NoDuplicates(codes) {
      FilterNoDuplicates(codes, Differs(code));
    }
  }

  lemma ConsNoDuplicatesAtEnd(codes: seq<string>, code: string)
    requires code !in codes
    ensures NoDuplicates(codes) ==> NoDuplicates(codes + [code])
  {
  }

  /** `toggleOptional` changes the optionals and nothing else. */
  function ToggleOptional(s: StoreState, code: string): (r: StoreState)
    ensures r.configuration.optionals == Toggle(s.configuration.optionals, code)
    ensures r.configuration.(optionals := s.configuration.optionals) == s.configuration
    ensures r.viewMode == s.viewMode && r.orders == s.orders && r.currentUserEmail == s.currentUserEmail
  {
    s.(configuration := s.configuration.(optionals := Toggle(s.configuration.optionals, code)))
  }

  /** Toggling an absent code twice gives back exactly the list it started from. */
  lemma ToggleTwiceAbsent(codes: seq<string>, code: string)
    requires code !in codes
    ensures Toggle(Toggle(codes, code), code) == codes
  {
    assert code in codes + [code];
    FilterConcat(codes, [code], Differs(code));
    FilterAllPass(codes, Differs(code));
  }

  /**
   * Toggling a present code twice keeps the same codes: with no duplicates
   * the same multiset, the toggled code now last.
   */
  lemma ToggleTwicePresent(codes: seq<string>, code: string)
    requires code in codes
    ensures forall x :: x in Toggle(Toggle(codes, code), code) <==> x in codes
    ensures NoDuplicates(codes) ==> multiset(Toggle(Toggle(codes, code), code)) == multiset(codes)
    ensures Toggle(Toggle(codes, code), code) == Without(codes, code) + [code]
  {
    var once := Toggle(codes, code);
    assert once == Without(codes, code);
    var twice := once + [code];
    forall x ensures x in twice <==> x in codes {
      if x != code && x in codes {
        var i :| 0 <= i < |codes| && codes[i] == x;
        assert codes[i] in once;
      }
      if x != code && x in once {
        var i :| 0 <= i < |once| && once[i] == x;
        assert once[i] in codes;
      }
    }
    if NoDuplicates(codes) {
      WithoutOnce(codes, code);
    }
  }

  /** Toggling on the store, twice with the same absent code, restores the state. */
  lemma ToggleOptionalTwice(s: StoreState, code: string)
    requires code !in s.configuration.optionals
    ensures ToggleOptional(ToggleOptional(s, code), code) == s
  {
    ToggleTwiceAbsent(s.configuration.optionals, code);
  }

  // ---------------------------------------------------------------------
  // Orders and the customer "session"
  // ---------------------------------------------------------------------

  /** `addOrder` appends the order and changes nothing else. */
  function AddOrder(s: StoreState, o: Order): (r: StoreState)
    ensures r.orders == s.orders + [o]
    ensures r.(orders := s.orders) == s
  {
    s.(orders := s.orders + [o])
  }

  /** `orders.some(o => o.customer.email === email)` */
  predicate HasOrdersFor(orders: seq<Order>, email: string)
    decreases |orders|
  {
    |orders| > 0 && (orders[0].customer.email == email || HasOrdersFor(orders[1..], email))
  }

  lemma {:induction false} HasOrdersForMeans(orders: seq<Order>, email: string)
    ensures HasOrdersFor(orders, email) <==> exists i :: 0 <= i < |orders| && orders[i].customer.email == email
    decreases |orders|
  {
    if |orders| > 0 {
      HasOrdersForMeans(orders[1..], email);
      if exists i :: 0 <= i < |orders| && orders[i].customer.email == email {
        var i :| 0 <= i < |orders| && orders[i].customer.email == email;
        if i > 0 {
          assert orders[1..][i - 1].customer.email == email;
        }
      }
    }
  }

  datatype LoginResult = LoginResult(accepted: bool, state: StoreState)

  /**
   * `login(email)` accepts exactly when some stored order was placed with
   * that e-mail, and then records it as the current user; otherwise the
   * state is left as it was.
   */
  function Login(s: StoreState, email: string): (r: LoginResult)
    ensures r.accepted <==> exists i :: 0 <= i < |s.orders| && s.orders[i].customer.email == email
    ensures r.accepted ==> r.state == s.(currentUserEmail := Some(email))
    ensures !r.accepted ==> r.state == s
  {
    HasOrdersForMeans(s.orders, email);
    if HasOrdersFor(s.orders, email) then LoginResult(true, s.(currentUserEmail := Some(email)))
    else LoginResult(false, s)
  }

  /** `logout` forgets the current user and nothing else. */
  function Logout(s: StoreState): (r: StoreState)
    ensures r.currentUserEmail.None?
    ensures r.(currentUserEmail := s.currentUserEmail) == s
  {
    s.(currentUserEmail := None)
  }

  /**
   * `getUserOrders`: nothing without a (non-empty) current user; otherwise
   * exactly the stored orders placed with that e-mail, in stored order and
   * as many times as each is stored.
   */
  function GetUserOrders(s: StoreState): (r: seq<Order>)
    ensures s.currentUserEmail.None? || s.currentUserEmail.value == "" ==> r == []
    ensures s.currentUserEmail.Some? && s.currentUserEmail.value != "" ==>
      && IsSubsequence(r, s.orders)
      && (forall i :: 0 <= i < |r| ==> r[i].customer.email == s.currentUserEmail.value)
      && (forall i :: 0 <= i < |s.orders| && s.orders[i].customer.email == s.currentUserEmail.value ==> s.orders[i] in r)
      && (forall o {:trigger multiset(r)[o]} :: multiset(r)[o] ==
            if o.customer.email == s.currentUserEmail.value then multiset(s.orders)[o] else 0)
  {
    match s.currentUserEmail
    case None => []
    case Some(email) =>
      if email == "" then []
      else
        var placedWith := (o: Order) => o.customer.email == email;
        FilterCounts(s.orders, placedWith);
        Filter(s.orders, placedWith)
  }

  /** After logging out, no orders are listed. */
  lemma LogoutHidesOrders(s: StoreState)
    ensures GetUserOrders(Logout(s)) == []
  {
  }

  /**
   * After an order is added, its customer can log in with the order's
   * e-mail and then sees that order among theirs.
   */
  lemma AddedOrderIsListed(s: StoreState, o: Order)
    requires o.customer.email != ""
    ensures Login(AddOrder(s, o), o.customer.email).accepted
    ensures o in GetUserOrders(Login(AddOrder(s, o), o.customer.email).state)
  {
    var orders := s.orders + [o];
    assert orders[|s.orders|] == o;
  }

  /** `resetConfiguration` restores the default configuration (price 40000) and nothing else. */
  function ResetConfiguration(s: StoreState): (r: StoreState)
    ensures r.configuration == Configuration(GlacierBlue, CarbonBlack, Aero, [])
    ensures Price(r.configuration) == BasePrice
    ensures r.viewMode == s.viewMode && r.orders == s.orders && r.currentUserEmail == s.currentUserEmail
  {
    s.(configuration := DefaultConfiguration)
  }

  /**
   * A fresh store shows the exterior of the default configuration at the
   * base price, with no user and so no listed orders; resetting it changes
   * nothing.
   */
  lemma FreshStore()
    ensures Price(InitialState.configuration) == BasePrice
    ensures GetUserOrders(InitialState) == []
    ensures ResetConfiguration(InitialState) == InitialState
  {
  }

  // ---------------------------------------------------------------------
  // migrate (persisted state of an older version)
  // ---------------------------------------------------------------------

  /** `typeof opt === 'string' && opt in OPTIONAL_PRICES`, with `in` meaning an own key of the table. */
  predicate IsPricedString(v: JsValue) {
    v.JString? && IsPricedCode(v.s)
  }

  /** The same test as JavaScript evaluates it, where `in` also sees `Object.prototype`. */
  predicate IsStringInTableAsWritten(v: JsValue) {
    v.JString? && InPriceTableAsWritten(v.s)
  }

  /** The fields of the persisted `configuration`, when the state holds an object there. */
  function StoredConfiguration(p: JsValue): Option<map<string, JsValue>> {
    if p.JObject? && "configuration" in p.fields && p.fields["configuration"].JObject?
    then Some(p.fields["configuration"].fields)
    else None
  }

  /** The migration, parameterised by the test it keeps optionals with. */
  function MigrateWith(p: JsValue, keep: JsValue -> bool): JsValue {
    match StoredConfiguration(p)
    case None => p
    case Some(c) =>
      var optionals := Filter(ArrayItems(Member(JObject(c), "optionals")), keep);
      JObject(p.fields["configuration" := JObject(c["optionals" := JArray(optionals)])])
  }

  /**
   * `migrate`, with the price-table test corrected to own keys. A state
   * without a configuration object passes through untouched. Otherwise only
   * `configuration.optionals` changes: it becomes an array (empty when it
   * was not one) of the input's items that are strings naming a priced
   * code, every such item kept, in the original order.
   */
  function Migrate(p: JsValue): (r: JsValue)
    ensures StoredConfiguration(p).None? ==> r == p
    ensures StoredConfiguration(p).Some? ==>
      && r.JObject? && p.JObject?
      && r.fields.Keys == p.fields.Keys
      && (forall k :: k in p.fields && k != "configuration" ==> r.fields[k] == p.fields[k])
      && StoredConfiguration(r).Some?
      && MigratedOnlyOptionals(StoredConfiguration(p).value, StoredConfiguration(r).value)
  {
    match StoredConfiguration(p)
    case None => MigrateWith(p, IsPricedString)
    case Some(c) =>
      FilterCounts(ArrayItems(Member(JObject(c), "optionals")), IsPricedString);
      MigrateWith(p, IsPricedString)
  }

  /**
   * `after` is `before` with `optionals` replaced by an array holding, in
   * order, exactly the priced-code strings of the old array, each as many
   * times as it occurred there.
   */
  ghost predicate MigratedOnlyOptionals(before: map<string, JsValue>, after: map<string, JsValue>) {
    var previous := ArrayItems(Member(JObject(before), "optionals"));
    && after.Keys == before.Keys + {"optionals"}
    && (forall k :: k in before && k != "optionals" ==> after[k] == before[k])
    && after["optionals"].JArray?
    && IsSubsequence(after["optionals"].items, previous)
    && (forall i :: 0 <= i < |after["optionals"].items| ==> IsPricedString(after["optionals"].items[i]))
    && (forall i :: 0 <= i < |previous| && IsPricedString(previous[i]) ==> previous[i] in after["optionals"].items)
    && (forall v {:trigger multiset(after["optionals"].items)[v]} :: multiset(after["optionals"].items)[v] == if IsPricedString(v) then multiset(previous)[v] else 0)
  }

  /** Migrating an already migrated state changes nothing. */
  lemma MigrateIdempotent(p: JsValue)
    ensures Migrate(Migrate(p)) == Migrate(p)
  {
    match StoredConfiguration(p)
    case None =>
    case Some(c) =>
      var kept := Filter(ArrayItems(Member(JObject(c), "optionals")), IsPricedString);
      var c' := c["optionals" := JArray(kept)];
      var p' := JObject(p.fields["configuration" := JObject(c')]);
      assert Migrate(p) == p';
      assert StoredConfiguration(p') == Some(c');
      FilterIdempotent(ArrayItems(Member(JObject(c), "optionals")), IsPricedString);
      assert c'["optionals" := JArray(kept)] == c';
      assert p'.fields["configuration" := JObject(c')] == p'.fields;
  }

  /**
   * The migration removes every item that could make pricing throw: the
   * optionals it leaves are priced-code strings, so `calculateTotalPrice`
   * of the migrated configuration returns, and charges each kept code.
   */
  lemma MigratedPriceDefined(p: JsValue, w: WheelType)
    requires StoredConfiguration(p).Some?
    ensures var items := StoredConfiguration(Migrate(p)).value["optionals"].items;
      CalculateTotalPrice(w, Some(JArray(items))) == Some(BasePrice + WheelSurcharge(w) + OptionalsTotal(items))
  {
    var after := StoredConfiguration(Migrate(p)).value;
    assert MigratedOnlyOptionals(StoredConfiguration(p).value, after);
    PricedItemsConvert(after["optionals"].items);
  }

  lemma PricedItemsConvert(items: seq<JsValue>)
    requires forall i :: 0 <= i < |items| ==> IsPricedString(items[i])
    ensures !AnyKeyConversionThrows(items)
  {
    assert forall i :: 0 <= i < |items| ==> items[i].JString?;
    StringsConvert(items);
  }

  /** A stored `optionals` that is not an array migrates to the empty array. */
  lemma MigrateNonArray(p: JsValue)
    requires StoredConfiguration(p).Some?
    requires var c := StoredConfiguration(p).value; !("optionals" in c && c["optionals"].JArray?)
    ensures StoredConfiguration(Migrate(p)).Some?
    ensures StoredConfiguration(Migrate(p)).value["optionals"] == JArray([])
  {
  }

  /** `migrate` exactly as written: the `in` test also accepts inherited `Object.prototype` names. */
  function MigrateAsWritten(p: JsValue): JsValue {
    MigrateWith(p, IsStringInTableAsWritten)
  }

  /** No item is a string naming a member inherited from `Object.prototype`. */
  predicate NoInheritedNames(items: seq<JsValue>) {
    forall i :: 0 <= i < |items| ==> !(items[i].JString? && items[i].s in ObjectPrototypeKeys)
  }

  /**
   * When the stored optionals hold no inherited name, the migration as
   * written and the corrected one give the same state.
   */
  lemma MigrateAgreesOffPrototype(p: JsValue)
    requires StoredConfiguration(p).Some? ==>
      NoInheritedNames(ArrayItems(Member(JObject(StoredConfiguration(p).value), "optionals")))
    ensures MigrateAsWritten(p) == Migrate(p)
  {
    match StoredConfiguration(p)
    case None =>
    case Some(c) =>
      FilterAgrees(ArrayItems(Member(JObject(c), "optionals")), IsStringInTableAsWritten, IsPricedString);
  }

  /**
   * A persisted configuration whose optionals are `["toString"]` keeps
   * `toString` through the migration as written, although it is no code
   * of the price table; the corrected migration drops it.
   */
  lemma MigrateAsWrittenKeepsInheritedName()
    ensures var p := JObject(map["configuration" := JObject(map["optionals" := JArray([JString("toString")])])]);
      && !IsPricedCode("toString")
      && StoredConfiguration(MigrateAsWritten(p)).value["optionals"] == JArray([JString("toString")])
      && StoredConfiguration(Migrate(p)).value["optionals"] == JArray([])
  {
    var items := [JString("toString")];
    assert IsStringInTableAsWritten(items[0]) && !IsPricedString(items[0]);
    assert items[1..] == [];
  }
}
