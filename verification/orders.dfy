/**
 * `src/hooks/useOrders.ts`: the order code, the database row written by
 * `createOrder`, the mapping of a row back to an `Order`, and the keyed
 * read of `getOrderByNumber`.
 *
 * The database is an oracle: `createOrder` receives the insert's reply and
 * `getOrderByNumber` a function from the queried key to the read's reply.
 * `Math.random` is replaced by the six draws it would have produced.
 */
module Orders {
  import opened Common
  import opened Strings
  import opened Catalog

  // ---------------------------------------------------------------------
  // generateOrderNumber
  // ---------------------------------------------------------------------

  const CodeAlphabet := "ABCDEFGHIJKLMNOPQRSTUVWXYZ0123456789"
  const CodePrefix := "VLO-"

  /** One draw of `Math.floor(Math.random() * chars.length)`. */
  type Draw = i: int | 0 <= i < 36

  predicate IsCodeChar(c: char) {
    'A' <= c <= 'Z' || '0' <= c <= '9'
  }

  /** `VLO-` followed by six characters from `[A-Z0-9]`. */
  predicate IsOrderCode(s: string) {
    |s| == 10 && s[..4] == CodePrefix && forall i :: 4 <= i < 10 ==> IsCodeChar(s[i])
  }

  /** The alphabet's letters come first, then its digits. */
  lemma AlphabetLayout(d: Draw)
    ensures d < 26 ==> CodeAlphabet[d] as int == 'A' as int + d
    ensures d >= 26 ==> CodeAlphabet[d] as int == '0' as int + d - 26
  {
  }

  /** The position of a code character in the alphabet. */
  function DrawOf(c: char): (d: Draw)
    requires IsCodeChar(c)
    ensures CodeAlphabet[d] == c
  {
    if 'A' <= c <= 'Z' then
      AlphabetLayout(c as int - 'A' as int);
      c as int - 'A' as int
    else
      AlphabetLayout(c as int - '0' as int + 26);
      c as int - '0' as int + 26
  }

  /**
   * `generateOrderNumber` with its six random draws supplied: `VLO-` and one
   * alphabet character per draw, so always a well-formed order code.
   */
  function GenerateOrderNumber(draws: seq<Draw>): (code: string)
    requires |draws| == 6
    ensures IsOrderCode(code)
    ensures forall i :: 0 <= i < 6 ==> code[4 + i] == CodeAlphabet[draws[i]]
  {
    var suffix := seq(6, i requires 0 <= i < 6 => CodeAlphabet[draws[i]]);
    forall i | 0 <= i < 6 ensures IsCodeChar(suffix[i]) {
      AlphabetLayout(draws[i]);
    }
    CodePrefix + suffix
  }

  /** The draws a code was generated from, read back off the code. */
  function DrawsOf(code: string): (draws: seq<Draw>)
    requires IsOrderCode(code)
    ensures |draws| == 6
  {
    seq(6, i requires 0 <= i < 6 => DrawOf(code[4 + i]))
  }

  /** Every well-formed code is generated by exactly the draws read off it. */
  lemma EveryCodeIsGenerated(code: string)
    requires IsOrderCode(code)
    ensures GenerateOrderNumber(DrawsOf(code)) == code
  {
    var g := GenerateOrderNumber(DrawsOf(code));
    assert g[..4] == code[..4];
    forall i | 0 <= i < 10 ensures g[i] == code[i] {
      if i < 4 {
        assert g[i] == g[..4][i] && code[i] == code[..4][i];
      }
    }
  }

  /** Different draws give different codes: the code determines the draws. */
  lemma DrawsRecovered(draws: seq<Draw>)
    requires |draws| == 6
    ensures DrawsOf(GenerateOrderNumber(draws)) == draws
  {
    var code := GenerateOrderNumber(draws);
    forall i | 0 <= i < 6 ensures DrawsOf(code)[i] == draws[i] {
      AlphabetLayout(draws[i]);
      AlphabetLayout(DrawsOf(code)[i]);
    }
  }

  // ---------------------------------------------------------------------
  // Rows, and reading them back
  // ---------------------------------------------------------------------

  /** What `handleSubmit` hands to `createOrder`. */
  datatype OrderRequest = OrderRequest(
    configuration: Configuration,
    totalPrice: real,
    customer: Customer,
    paymentMethod: PaymentMethod,
    status: OrderStatus)

  /** The object passed to `insert`. */
  datatype NewOrderRow = NewOrderRow(
    orderNumber: string,
    color: string,
    wheelType: string,
    optionals: seq<string>,
    customerName: string,
    customerEmail: string,
    customerPhone: string,
    customerCpf: string,
    paymentMethod: string,
    totalPrice: real,
    status: string)

  /** `DbOrder`: a row of the `orders` table. `optionals` may be null there. */
  datatype DbOrder = DbOrder(
    id: string,
    orderNumber: string,
    color: string,
    wheelType: string,
    optionals: Option<seq<string>>,
    customerName: string,
    customerEmail: string,
    customerPhone: string,
    customerCpf: string,
    paymentMethod: string,
    totalPrice: real,
    status: string,
    createdAt: string,
    updatedAt: string)

  /**
   * The row `createOrder` inserts: the one name column holds name and
   * surname separated by one space, the interior colour and the store are
   * not stored, and every other field is copied (enumerations as their
   * string codes).
   */
  function BuildRow(req: OrderRequest, orderNumber: string): (row: NewOrderRow)
    ensures row.customerName == req.customer.name + " " + req.customer.surname
    ensures row.orderNumber == orderNumber
    ensures row.customerEmail == req.customer.email && row.customerPhone == req.customer.phone
    ensures row.customerCpf == req.customer.cpf
    ensures row.totalPrice == req.totalPrice && row.optionals == req.configuration.optionals
    ensures row.color == ExteriorCode(req.configuration.exteriorColor)
    ensures row.wheelType == WheelCode(req.configuration.wheelType)
    ensures row.paymentMethod == PaymentCode(req.paymentMethod)
    ensures row.status == StatusCode(req.status)
  {
    NewOrderRow(
      orderNumber,
      ExteriorCode(req.configuration.exteriorColor),
      WheelCode(req.configuration.wheelType),
      req.configuration.optionals,
      req.customer.name + " " + req.customer.surname,
      req.customer.email,
      req.customer.phone,
      req.customer.cpf,
      PaymentCode(req.paymentMethod),
      req.totalPrice,
      StatusCode(req.status))
  }

  datatype FullName = FullName(name: string, surname: string)

  /**
   * `split(' ')` of the stored name: the first piece is the name, the other
   * pieces joined again with `' '` the surname. So the name is the text
   * before the first space (all of it when there is none) and the surname
   * the text after that space.
   */
  function SplitCustomerName(full: string): (n: FullName)
    ensures ' ' !in n.name
    ensures ' ' in full ==> full == n.name + " " + n.surname
    ensures ' ' !in full ==> n.name == full && n.surname == ""
  {
    var parts := Split(full, ' ');
    assert |parts| > 1 ==> full == parts[0] + " " + Join(parts[1..], ' ');
    assert |parts| == 1 ==> full == parts[0];
    FullName(parts[0], Join(parts[1..], ' '))
  }

  /**
   * Joining name and surname with a space and splitting again gives both
   * back exactly when the name holds no space; a space in the name moves
   * its tail into the surname.
   */
  lemma NameRoundTrip(name: string, surname: string)
    ensures SplitCustomerName(name + " " + surname) == FullName(name, surname) <==> ' ' !in name
  {
    if ' ' !in name {
      SplitAtFirst(name, surname, ' ');
      assert name + " " + surname == name + [' '] + surname;
    }
  }

  /** A concrete instance of the lossy case: "Ana Maria" "Silva" reads back as "Ana" "Maria Silva". */
  lemma NameWithSpaceReadsBackDifferently()
    ensures SplitCustomerName("Ana Maria" + " " + "Silva") == FullName("Ana", "Maria Silva")
  {
    var full := "Ana Maria" + " " + "Silva";
    assert full == "Ana" + [' '] + "Maria Silva";
    SplitAtFirst("Ana", "Maria Silva", ' ');
    var parts := Split(full, ' ');
    assert parts[0] == "Ana";
    assert parts[1..] == Split("Maria Silva", ' ');
  }

  /**
   * `dbOrderToOrder`: the order code becomes the id, the name column is
   * split into name and surname, a null optionals column reads as the empty
   * list, the interior colour is always `cream`, the store is empty and no
   * installment value is set. Colour, wheels, price, payment method, status
   * and creation time are copied from their columns.
   */
  function DbOrderToOrder(row: DbOrder): (o: Order)
    ensures o.id == row.orderNumber
    ensures FullName(o.customer.name, o.customer.surname) == SplitCustomerName(row.customerName)
    ensures o.customer.email == row.customerEmail && o.customer.phone == row.customerPhone
    ensures o.customer.cpf == row.customerCpf && o.customer.store == ""
    ensures o.configuration.exteriorColor == row.color && o.configuration.wheelType == row.wheelType
    ensures o.configuration.interiorColor == "cream"
    ensures o.totalPrice == row.totalPrice && o.paymentMethod == row.paymentMethod
    ensures o.status == row.status && o.createdAt == row.createdAt
    ensures o.configuration.optionals == (if row.optionals.Some? then row.optionals.value else [])
    ensures o.installmentValue.None?
  {
    var n := SplitCustomerName(row.customerName);
    Order(
      row.orderNumber,
      OrderConfiguration(row.color, "cream", row.wheelType,
        match row.optionals case Some(list) => list case None => []),
      row.totalPrice,
      Customer(n.name, n.surname, row.customerEmail, row.customerPhone, row.customerCpf, ""),
      row.paymentMethod,
      None,
      row.status,
      row.createdAt)
  }

  // ---------------------------------------------------------------------
  // createOrder
  // ---------------------------------------------------------------------

  /** The reply of `insert(...).select().single()`: an error, or the columns the database filled in. */
  datatype InsertReply = InsertFailed(message: string) | Inserted(id: string, createdAt: string, updatedAt: string)

  /** The row as stored, taking the database to keep the inserted values as given. */
  function StoredRow(row: NewOrderRow, id: string, createdAt: string, updatedAt: string): DbOrder {
    DbOrder(id, row.orderNumber, row.color, row.wheelType, Some(row.optionals), row.customerName,
      row.customerEmail, row.customerPhone, row.customerCpf, row.paymentMethod, row.totalPrice,
      row.status, createdAt, updatedAt)
  }

  /** `{ order, error }` as both functions of useOrders.ts return it. */
  datatype OrderReply = OrderReply(order: Option<Order>, error: Option<string>)

  /** The row handed to the database and what `createOrder` returns. */
  datatype CreateOutcome = CreateOutcome(row: NewOrderRow, reply: OrderReply)

  /**
   * `createOrder`: the row carries a freshly generated code. A failed insert
   * gives no order and the store's message; a successful one gives the row
   * read back as an order whose id is the new code and whose store is the
   * caller's.
   */
  function CreateOrder(req: OrderRequest, draws: seq<Draw>, insert: InsertReply): (out: CreateOutcome)
    requires |draws| == 6
    ensures IsOrderCode(out.row.orderNumber)
    ensures out.row.orderNumber == GenerateOrderNumber(draws)
    ensures out.row == BuildRow(req, out.row.orderNumber)
    ensures insert.InsertFailed? ==> out.reply == OrderReply(None, Some(insert.message))
    ensures insert.Inserted? ==>
      && out.reply.error.None? && out.reply.order.Some?
      && out.reply.order.value.id == out.row.orderNumber
      && out.reply.order.value.customer.store == req.customer.store
      && out.reply.order.value.totalPrice == req.totalPrice
      && out.reply.order.value.status == StatusCode(req.status)
      && out.reply.order.value.installmentValue.None?
  {
    var row := BuildRow(req, GenerateOrderNumber(draws));
    match insert
    case InsertFailed(message) => CreateOutcome(row, OrderReply(None, Some(message)))
    case Inserted(id, createdAt, updatedAt) =>
      var o := DbOrderToOrder(StoredRow(row, id, createdAt, updatedAt));
      CreateOutcome(row, OrderReply(Some(o.(customer := o.customer.(store := req.customer.store))), None))
  }

  /**
   * What a successful `createOrder` returns matches the request: the
   * customer block exactly when the name holds no space, and in every case
   * the price, status, payment method, colour, wheels and optionals.
   */
  lemma CreatedOrderMatchesRequest(req: OrderRequest, draws: seq<Draw>, id: string, createdAt: string, updatedAt: string)
    requires |draws| == 6
    ensures var o := CreateOrder(req, draws, Inserted(id, createdAt, updatedAt)).reply.order.value;
      && (o.customer == req.customer <==> ' ' !in req.customer.name)
      && o.totalPrice == req.totalPrice
      && o.status == StatusCode(req.status)
      && o.paymentMethod == PaymentCode(req.paymentMethod)
      && o.configuration.exteriorColor == ExteriorCode(req.configuration.exteriorColor)
      && o.configuration.wheelType == WheelCode(req.configuration.wheelType)
      && o.configuration.optionals == req.configuration.optionals
      && o.createdAt == createdAt
  {
    NameRoundTrip(req.customer.name, req.customer.surname);
  }

  // ---------------------------------------------------------------------
  // getOrderByNumber
  // ---------------------------------------------------------------------

  /**
   * The key `getOrderByNumber` queries: the input trimmed and upper-cased.
   * It has no whitespace at either end and no lower-case letter; it is as
   * long as the trimmed input, and each of its characters is the capital
   * of the input character at the same place after the leading whitespace.
   */
  function NormalizeOrderNumber(input: string): (key: string)
    ensures IsTrimmed(key) && NoLowerCase(key)
    ensures |key| == |Trim(input)| <= |input|
    ensures forall i :: 0 <= i < |key| ==> key[i] == UpperChar(input[Leading(input) + i])
  {
    ToUpperKeepsTrimmed(Trim(input));
    ToUpper(Trim(input))
  }

  /**
   * Two inputs query the same key exactly when their trimmed texts differ
   * at most in the case of ASCII letters.
   */
  lemma SameKeyUpToCase(a: string, b: string)
    ensures NormalizeOrderNumber(a) == NormalizeOrderNumber(b) <==> SameUpToCase(Trim(a), Trim(b))
  {
    ToUpperEqual(Trim(a), Trim(b));
  }

  /** Whitespace typed before or after the code does not change the key. */
  lemma NormalizeIgnoresPadding(p: string, s: string, q: string)
    requires AllWhitespace(p) && AllWhitespace(q)
    ensures NormalizeOrderNumber(p + s + q) == NormalizeOrderNumber(s)
  {
    TrimIgnoresPadding(p, s, q);
  }

  /** Normalising a normalised key changes nothing. */
  lemma NormalizeIdempotent(input: string)
    ensures NormalizeOrderNumber(NormalizeOrderNumber(input)) == NormalizeOrderNumber(input)
  {
    var key := NormalizeOrderNumber(input);
    TrimTrimmed(key);
    ToUpperNoLowerCase(key);
  }

  /** A well-formed order code is its own key, so a generated code finds its row. */
  lemma OrderCodeIsNormal(code: string)
    requires IsOrderCode(code)
    ensures NormalizeOrderNumber(code) == code
  {
    assert code[0] == code[..4][0] == 'V';
    TrimTrimmed(code);
    forall i | 0 <= i < |code| ensures !('a' <= code[i] <= 'z') {
      if i < 4 {
        assert code[i] == code[..4][i];
      }
    }
    ToUpperNoLowerCase(code);
  }

  /** Lower case and surrounding spaces do not matter: " vlo-abc123 " and "VLO-ABC123" query the same key. */
  lemma NormalizeExample()
    ensures NormalizeOrderNumber(" vlo-abc123 ") == "VLO-ABC123"
    ensures NormalizeOrderNumber("VLO-ABC123") == "VLO-ABC123"
  {
    TrimExample();
    UpperExample();
    OrderCodeIsNormal("VLO-ABC123");
  }

  lemma TrimExample()
    ensures Trim(" vlo-abc123 ") == "vlo-abc123"
  {
    var t := "vlo-abc123";
    assert " vlo-abc123 " == [' '] + t + [' '];
    assert t[0] == 'v' && t[|t| - 1] == '3';
    TrimPadded(t);
  }

  lemma UpperExample()
    ensures ToUpper("vlo-abc123") == "VLO-ABC123"
  {
    var u := ToUpper("vlo-abc123");
    assert forall i :: 0 <= i < 10 ==> u[i] == "VLO-ABC123"[i];
  }

  /** One space on either side of a trimmed, non-empty string is all `trim` removes. */
  lemma TrimPadded(t: string)
    requires |t| > 0 && IsTrimmed(t)
    ensures Trim([' '] + t + [' ']) == t
  {
    var s := [' '] + t + [' '];
    assert s[1..] == t + [' '];
    assert Leading(s) == 1;
    assert s[..|s| - 1] == [' '] + t;
    assert End(s) == |t| + 1;
    assert s[1..|t| + 1] == t;
  }

  /** The read's reply for one key: a failure, no row, or the row. */
  datatype ReadReply = ReadFailed(message: string) | NoRow | RowFound(row: DbOrder)

  /**
   * `getOrderByNumber`: queries the normalised key and keeps the three
   * outcomes apart — a read error gives no order and the message, no row
   * gives neither, a row gives the mapped order and no error.
   */
  function GetOrderByNumber(input: string, db: string -> ReadReply): (r: OrderReply)
    ensures db(NormalizeOrderNumber(input)).ReadFailed? <==> r.error.Some?
    ensures db(NormalizeOrderNumber(input)).ReadFailed? ==> r == OrderReply(None, Some(db(NormalizeOrderNumber(input)).message))
    ensures db(NormalizeOrderNumber(input)).NoRow? <==> r == OrderReply(None, None)
    ensures db(NormalizeOrderNumber(input)).RowFound? <==> r.order.Some?
    ensures r.order.Some? ==> r.error.None? && r.order.value == DbOrderToOrder(db(NormalizeOrderNumber(input)).row)
  {
    match db(NormalizeOrderNumber(input))
    case ReadFailed(message) => OrderReply(None, Some(message))
    case NoRow => OrderReply(None, None)
    case RowFound(row) => OrderReply(Some(DbOrderToOrder(row)), None)
  }

  /**
   * Letter case and surrounding whitespace do not matter to a lookup: two
   * inputs whose trimmed texts differ at most in ASCII letter case get the
   * same reply, and so do an input and its normalised form.
   */
  lemma LookupIgnoresCaseAndPadding(a: string, b: string, db: string -> ReadReply)
    requires SameUpToCase(Trim(a), Trim(b))
    ensures GetOrderByNumber(a, db) == GetOrderByNumber(b, db)
    ensures GetOrderByNumber(a, db) == GetOrderByNumber(NormalizeOrderNumber(a), db)
  {
    SameKeyUpToCase(a, b);
    NormalizeIdempotent(a);
  }

  /**
   * An order created with some code is found again under that code: if the
   * database returns the stored row for the code, the lookup gives the
   * order `createOrder` returned, except that the store reads back empty.
   */
  lemma CreatedOrderIsFound(req: OrderRequest, draws: seq<Draw>, id: string, createdAt: string, updatedAt: string, db: string -> ReadReply)
    requires |draws| == 6
    requires var out := CreateOrder(req, draws, Inserted(id, createdAt, updatedAt));
      db(out.row.orderNumber) == RowFound(StoredRow(out.row, id, createdAt, updatedAt))
    ensures var out := CreateOrder(req, draws, Inserted(id, createdAt, updatedAt));
      var found := GetOrderByNumber(out.row.orderNumber, db);
      && found.error.None? && found.order.Some?
      && found.order.value == out.reply.order.value.(customer := out.reply.order.value.customer.(store := ""))
  {
    var out := CreateOrder(req, draws, Inserted(id, createdAt, updatedAt));
    OrderCodeIsNormal(out.row.orderNumber);
  }
}
