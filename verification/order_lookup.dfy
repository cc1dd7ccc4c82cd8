/**
 * The order lookup page of `src/pages/OrderLookup.tsx`: its four pieces of
 * state, `handleSearch` (the read is an oracle, as in `getOrderByNumber`),
 * when the search button is disabled, and the colour of the status badge.
 */
module OrderLookup {
  import opened Common
  import opened Strings
  import opened Catalog
  import opened Orders

  /** `orderId`, `searchedOrder`, `notFound` and `isLoading`. */
  datatype LookupPage = LookupPage(orderId: string, searched: Option<Order>, notFound: bool, isLoading: bool)

  const InitialPage := LookupPage("", None, false, false)

  /** The input's `onChange`: only the typed text changes. */
  function EditOrderId(p: LookupPage, text: string): (q: LookupPage)
    ensures q.orderId == text
    ensures q.searched == p.searched && q.notFound == p.notFound && q.isLoading == p.isLoading
  {
    p.(orderId := text)
  }

  /**
   * `disabled={!orderId.trim() || isLoading}`: the button is disabled
   * exactly while a search runs or when the input is all whitespace
   * (empty included).
   */
  function SearchDisabled(p: LookupPage): (disabled: bool)
    ensures disabled <==> p.isLoading || forall k :: 0 <= k < |p.orderId| ==> IsJsWhitespace(p.orderId[k])
  {
    TrimEmpty(p.orderId);
    |Trim(p.orderId)| == 0 || p.isLoading
  }

  /** While the read is awaited: previous result and message cleared, loading. */
  function SearchInFlight(p: LookupPage): (q: LookupPage)
    ensures q.orderId == p.orderId && q.isLoading
    ensures q.searched.None? && !q.notFound
  {
    p.(notFound := false, searched := None, isLoading := true)
  }

  /**
   * `handleSearch` once the read has answered: loading is over, and exactly
   * one of the result card and the not-found card shows — the order when
   * the read found a row, the not-found card on a read error or no row.
   */
  function HandleSearch(p: LookupPage, db: string -> ReadReply): (q: LookupPage)
    ensures q.orderId == p.orderId && !q.isLoading
    ensures q.searched.Some? <==> db(NormalizeOrderNumber(p.orderId)).RowFound?
    ensures q.notFound <==> !q.searched.Some?
    ensures q.searched.Some? ==> q.searched.value == DbOrderToOrder(db(NormalizeOrderNumber(p.orderId)).row)
  {
    var pending := SearchInFlight(p);
    var reply := GetOrderByNumber(pending.orderId, db);
    var done := pending.(isLoading := false);
    if reply.error.Some? then done.(notFound := true)
    else match reply.order
      case Some(o) => done.(searched := Some(o))
      case None => done.(notFound := true)
  }

  /** The page opens with an empty input, so the search button starts disabled. */
  lemma InitialSearchDisabled()
    ensures SearchDisabled(InitialPage)
    ensures InitialPage.searched.None? && !InitialPage.notFound
  {
  }

  /** The search button is disabled while a search is in flight. */
  lemma InFlightDisablesSearch(p: LookupPage)
    ensures SearchDisabled(SearchInFlight(p))
  {
  }

  /** A search depends only on the typed text: what the page showed before is forgotten. */
  lemma SearchForgetsPreviousResult(p: LookupPage, p2: LookupPage, db: string -> ReadReply)
    requires p.orderId == p2.orderId
    ensures HandleSearch(p, db) == HandleSearch(p2, db)
  {
  }

  /** A search the button allows never queries the empty key. */
  lemma EnabledSearchHasKey(p: LookupPage)
    requires !SearchDisabled(p)
    ensures |NormalizeOrderNumber(p.orderId)| > 0
  {
    TrimEmpty(p.orderId);
  }

  /** The two looks of the status badge: green with a check, or red with a cross. */
  datatype Badge = GreenCheck | RedCross

  /** Green exactly for `APROVADO`; every other status, in analysis included, is red. */
  function StatusBadge(status: string): (b: Badge)
    ensures b == GreenCheck <==> status == StatusCode(Aprovado)
  {
    if status == "APROVADO" then GreenCheck else RedCross
  }

  /** Of the decided statuses only approval is green; an order in analysis shows red, like a refused one. */
  lemma BadgeOfDecision(s: OrderStatus)
    ensures StatusBadge(StatusCode(s)) == GreenCheck <==> s == Aprovado
    ensures StatusBadge(StatusCode(EmAnalise)) == StatusBadge(StatusCode(Reprovado))
  {
  }

  /**
   * Searching for the code `createOrder` generated, typed in lower case and
   * padded or not, shows that order: its id is the code, and its badge is
   * green exactly when the credit decision approved it.
   */
  lemma SearchShowsCreatedOrder(
    req: OrderRequest, draws: seq<Draw>, id: string, createdAt: string, updatedAt: string,
    db: string -> ReadReply, p: LookupPage)
    requires |draws| == 6
    requires var out := CreateOrder(req, draws, Inserted(id, createdAt, updatedAt));
      && db(out.row.orderNumber) == RowFound(StoredRow(out.row, id, createdAt, updatedAt))
      && NormalizeOrderNumber(p.orderId) == out.row.orderNumber
    ensures var q := HandleSearch(p, db);
      && q.searched.Some? && !q.notFound
      && q.searched.value.id == CreateOrder(req, draws, Inserted(id, createdAt, updatedAt)).row.orderNumber
      && (StatusBadge(q.searched.value.status) == GreenCheck <==> req.status == Aprovado)
  {
    var out := CreateOrder(req, draws, Inserted(id, createdAt, updatedAt));
    CreatedOrderMatchesRequest(req, draws, id, createdAt, updatedAt);
    CreatedOrderIsFound(req, draws, id, createdAt, updatedAt, db);
    OrderCodeIsNormal(out.row.orderNumber);
  }
}
