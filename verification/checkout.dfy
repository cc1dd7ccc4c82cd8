/**
 * The checkout of `src/pages/Order.tsx`: the form schema, the credit rule
 * table, the financing arithmetic, the sanitising of optionals, and
 * `handleSubmit`, which strings them together with the credit service and
 * `createOrder`.
 *
 * The credit service's reply and the insert's reply are inputs; the
 * submission records, in order, the external calls it makes, so what is
 * NOT called is visible too. Money is exact `real` arithmetic.
 */
module Checkout {
  import opened Common
  import opened Json
  import opened Catalog
  import opened Orders

  // ---------------------------------------------------------------------
  // Credit rule table
  // ---------------------------------------------------------------------

  /** One row of the decision table: when it applies, and the status it gives. */
  datatype CreditRule = CreditRule(applies: (real, real) -> bool, status: OrderStatus)

  /**
   * The rules in evaluation order, over (score, entry ratio):
   * 1. a high entry (at least half the total) with a score below 700 is approved;
   * 2. a score above 700 is approved;
   * 3. a score from 501 to 700 goes to analysis;
   * 4. anything else is refused.
   */
  const CreditRules: seq<CreditRule> := [
    CreditRule((score: real, ratio: real) => ratio >= 0.5 && score < 700.0, Aprovado),
    CreditRule((score: real, ratio: real) => score > 700.0, Aprovado),
    CreditRule((score: real, ratio: real) => 501.0 <= score <= 700.0, EmAnalise),
    CreditRule((score: real, ratio: real) => true, Reprovado)
  ]

  /** The status of the first rule that applies, if any does. */
  function FirstMatch(rules: seq<CreditRule>, score: real, ratio: real): Option<OrderStatus>
    decreases |rules|
  {
    if |rules| == 0 then None
    else if rules[0].applies(score, ratio) then Some(rules[0].status)
    else FirstMatch(rules[1..], score, ratio)
  }

  /** The table is total: some rule always applies (the last one always does). */
  lemma CreditRulesTotal(score: real, ratio: real)
    ensures FirstMatch(CreditRules, score, ratio).Some?
  {
    assert CreditRules[3..][0].applies(score, ratio);
  }

  /**
   * The decision for a financed order, first match wins. Approved exactly
   * when rule 1 or 2 applies; in analysis exactly when the score is 501 to
   * 700 and rule 1 does not apply; refused exactly when the score is below
   * 501 and the entry below half the total.
   */
  function DecideCredit(score: real, ratio: real): (status: OrderStatus)
    ensures status == Aprovado <==> (ratio >= 0.5 && score < 700.0) || score > 700.0
    ensures status == EmAnalise <==> 501.0 <= score <= 700.0 && !(ratio >= 0.5 && score < 700.0)
    ensures status == Reprovado <==> score < 501.0 && ratio < 0.5
  {
    CreditRulesTotal(score, ratio);
    assert CreditRules[1..][0] == CreditRules[1];
    assert CreditRules[1..][1..][0] == CreditRules[2];
    assert CreditRules[1..][1..][1..][0] == CreditRules[3];
    FirstMatch(CreditRules, score, ratio).value
  }

  /** Rule 1 comes first: a high entry approves even a score of 500 or less. */
  lemma HighEntryTakesPrecedence(score: real, ratio: real)
    requires ratio >= 0.5 && score <= 500.0
    ensures DecideCredit(score, ratio) == Aprovado
  {
  }

  /** A score of exactly 700 falls between rules 1 and 2 and goes to analysis, whatever the entry. */
  lemma ScoreSevenHundredInAnalysis(ratio: real)
    ensures DecideCredit(700.0, ratio) == EmAnalise
  {
  }

  /** For whole-number scores, without a high entry: above 700 approved, 501..700 in analysis, up to 500 refused. */
  lemma IntegerScoreBands(score: int, ratio: real)
    requires ratio < 0.5
    ensures score > 700 ==> DecideCredit(score as real, ratio) == Aprovado
    ensures 501 <= score <= 700 ==> DecideCredit(score as real, ratio) == EmAnalise
    ensures score <= 500 ==> DecideCredit(score as real, ratio) == Reprovado
  {
  }

  /** The boundary cases. */
  lemma CreditBoundaryTable()
    ensures DecideCredit(700.0, 0.5) == EmAnalise
    ensures DecideCredit(701.0, 0.0) == Aprovado
    ensures DecideCredit(700.0, 0.9) == EmAnalise
    ensures DecideCredit(500.0, 0.0) == Reprovado
    ensures DecideCredit(501.0, 0.0) == EmAnalise
    ensures DecideCredit(650.0, 0.5) == Aprovado
    ensures DecideCredit(500.5, 0.0) == Reprovado
  {
  }

  // ---------------------------------------------------------------------
  // Financing arithmetic
  // ---------------------------------------------------------------------

  /** `Math.max(0, totalPrice - entryValue)`: never negative, zero exactly when the entry covers the total. */
  function AmountToFinance(total: real, entry: real): (a: real)
    ensures a >= 0.0
    ensures a == 0.0 <==> entry >= total
    ensures a > 0.0 ==> entry + a == total
  {
    if total - entry > 0.0 then total - entry else 0.0
  }

  /** `(amountToFinance / 12) * 1.02`, shown as the monthly installment. */
  function InstallmentValue(total: real, entry: real): real {
    (AmountToFinance(total, entry) / 12.0) * 1.02
  }

  /** `installmentValue * 12`: the financed amount with 2% added once. */
  function TotalFinanced(total: real, entry: real): (t: real)
    ensures t == AmountToFinance(total, entry) * 1.02
    ensures t >= AmountToFinance(total, entry)
  {
    InstallmentValue(total, entry) * 12.0
  }

  /**
   * The interest — what financing adds to the financed amount — is 2% of
   * that amount: never negative, and positive exactly when something is
   * financed.
   */
  lemma InterestIsTwoPercent(total: real, entry: real)
    ensures TotalFinanced(total, entry) - AmountToFinance(total, entry) == AmountToFinance(total, entry) / 50.0
    ensures TotalFinanced(total, entry) - AmountToFinance(total, entry) >= 0.0
    ensures TotalFinanced(total, entry) - AmountToFinance(total, entry) > 0.0 <==> entry < total
  {
  }

  /**
   * The price that reaches `createOrder`. Cash pays the total. Financing
   * with an entry up to the total costs the total plus 2% of what is still
   * owed, so with a non-negative entry it lies between the total and 1.02
   * times it, and is exactly the total when the entry pays it all. An entry
   * above the total is itself the price.
   */
  function FinalPrice(payment: PaymentMethod, total: int, entry: real): (p: real)
    ensures payment == Avista ==> p == total as real
    ensures payment == Financiamento && entry <= total as real ==>
      p == total as real + (total as real - entry) / 50.0
    ensures payment == Financiamento && 0.0 <= entry <= total as real ==>
      total as real <= p <= total as real * 1.02
    ensures payment == Financiamento && entry == total as real ==> p == total as real
    ensures payment == Financiamento && entry >= total as real ==> p == entry
  {
    if payment == Financiamento then entry + TotalFinanced(total as real, entry) else total as real
  }

  // ---------------------------------------------------------------------
  // orderSchema
  // ---------------------------------------------------------------------

  datatype Field = NameField | SurnameField | EmailField | PhoneField | CpfField | StoreField | TermsField

  datatype OrderForm = OrderForm(
    name: string,
    surname: string,
    email: string,
    phone: string,
    cpf: string,
    store: string,
    terms: bool)

  const NameMessage := "Nome deve ter pelo menos 2 caracteres"
  const SurnameMessage := "Sobrenome deve ter pelo menos 2 caracteres"
  const EmailMessage := "Email inválido"
  const PhoneMessage := "Telefone inválido"
  const CpfMessage := "CPF inválido"
  const StoreMessage := "Selecione uma loja"
  const TermsMessage := "Aceite os termos"

  function AddErrorIf(errors: map<Field, string>, failed: bool, field: Field, message: string): map<Field, string> {
    if failed then errors[field := message] else errors
  }

  /**
   * `orderSchema.safeParse` and the per-field error map: a field has an
   * error exactly when its rule fails — name and surname at least 2
   * characters, a well-formed e-mail (`isEmail`), phone and CPF at least 14
   * characters (their masked forms), a store chosen, the terms accepted —
   * and the error carries that rule's message.
   */
  function ValidateForm(form: OrderForm, isEmail: string -> bool): (errors: map<Field, string>)
    ensures NameField in errors <==> |form.name| < 2
    ensures SurnameField in errors <==> |form.surname| < 2
    ensures EmailField in errors <==> !isEmail(form.email)
    ensures PhoneField in errors <==> |form.phone| < 14
    ensures CpfField in errors <==> |form.cpf| < 14
    ensures StoreField in errors <==> |form.store| < 1
    ensures TermsField in errors <==> !form.terms
    ensures NameField in errors ==> errors[NameField] == NameMessage
    ensures SurnameField in errors ==> errors[SurnameField] == SurnameMessage
    ensures EmailField in errors ==> errors[EmailField] == EmailMessage
    ensures PhoneField in errors ==> errors[PhoneField] == PhoneMessage
    ensures CpfField in errors ==> errors[CpfField] == CpfMessage
    ensures StoreField in errors ==> errors[StoreField] == StoreMessage
    ensures TermsField in errors ==> errors[TermsField] == TermsMessage
  {
    var e := map[];
    var e := AddErrorIf(e, |form.name| < 2, NameField, NameMessage);
    var e := AddErrorIf(e, |form.surname| < 2, SurnameField, SurnameMessage);
    var e := AddErrorIf(e, !isEmail(form.email), EmailField, EmailMessage);
    var e := AddErrorIf(e, |form.phone| < 14, PhoneField, PhoneMessage);
    var e := AddErrorIf(e, |form.cpf| < 14, CpfField, CpfMessage);
    var e := AddErrorIf(e, |form.store| < 1, StoreField, StoreMessage);
    AddErrorIf(e, !form.terms, TermsField, TermsMessage)
  }

  /** Every rule of the schema holds. */
  predicate FormValid(form: OrderForm, isEmail: string -> bool) {
    && |form.name| >= 2 && |form.surname| >= 2 && isEmail(form.email)
    && |form.phone| >= 14 && |form.cpf| >= 14 && |form.store| >= 1 && form.terms
  }

  /** The form passes exactly when no field has an error. */
  lemma ValidateFormPasses(form: OrderForm, isEmail: string -> bool)
    ensures ValidateForm(form, isEmail) == map[] <==> FormValid(form, isEmail)
  {
    var errors := ValidateForm(form, isEmail);
    if !FormValid(form, isEmail) {
      assert exists f :: f in errors;
    }
  }

  // ---------------------------------------------------------------------
  // Sanitising optionals
  // ---------------------------------------------------------------------

  /**
   * The optionals persisted with an order, with the price-table test taken
   * as own keys: the priced codes of the list, every occurrence of each,
   * in order.
   * Sanitising twice is sanitising once, and it never changes the price.
   */
  function SanitizeOptionals(codes: seq<string>): (r: seq<string>)
    ensures IsSubsequence(r, codes)
    ensures forall i :: 0 <= i < |r| ==> IsPricedCode(r[i])
    ensures forall i :: 0 <= i < |codes| && IsPricedCode(codes[i]) ==> codes[i] in r
    ensures forall c {:trigger multiset(r)[c]} :: multiset(r)[c] == if IsPricedCode(c) then multiset(codes)[c] else 0
    ensures SanitizedFixpoint(r)
  {
    FilterIdempotent(codes, IsPricedCode);
    FilterCounts(codes, IsPricedCode);
    Filter(codes, IsPricedCode)
  }

  /** Sanitising `r` again changes nothing. */
  predicate SanitizedFixpoint(r: seq<string>) {
    Filter(r, IsPricedCode) == r
  }

  /** Dropping the codes the table does not price leaves the price as it was. */
  lemma {:induction false} SanitizeKeepsPrice(codes: seq<string>)
    ensures OptionalsTotal(Json.StringArray(SanitizeOptionals(codes))) == OptionalsTotal(Json.StringArray(codes))
    decreases |codes|
  {
    if |codes| > 0 {
      SanitizeKeepsPrice(codes[1..]);
      assert Json.StringArray(codes)[1..] == Json.StringArray(codes[1..]);
      if IsPricedCode(codes[0]) {
        assert Filter(codes, IsPricedCode) == [codes[0]] + Filter(codes[1..], IsPricedCode);
        assert Json.StringArray([codes[0]] + Filter(codes[1..], IsPricedCode))[1..] == Json.StringArray(Filter(codes[1..], IsPricedCode));
      }
    }
  }

  /** The sanitised configuration costs what the configuration costs. */
  lemma SanitizedPrice(c: Configuration)
    ensures Price(c.(optionals := SanitizeOptionals(c.optionals))) == Price(c)
  {
    SanitizeKeepsPrice(c.optionals);
  }

  /** The filter exactly as written: the `in` test also lets inherited `Object.prototype` names through. */
  function SanitizeOptionalsAsWritten(codes: seq<string>): seq<string> {
    Filter(codes, InPriceTableAsWritten)
  }

  /**
   * The filter as written and the corrected one agree exactly on the lists
   * that hold no name inherited from `Object.prototype`; so everything
   * proved about submissions holds for the code as written whenever the
   * optionals avoid those names.
   */
  lemma AsWrittenAgreesOffPrototype(codes: seq<string>)
    ensures SanitizeOptionalsAsWritten(codes) == SanitizeOptionals(codes)
        <==> forall i :: 0 <= i < |codes| ==> codes[i] !in ObjectPrototypeKeys
  {
    if forall i :: 0 <= i < |codes| ==> codes[i] !in ObjectPrototypeKeys {
      FilterAgrees(codes, InPriceTableAsWritten, IsPricedCode);
    } else {
      var i :| 0 <= i < |codes| && codes[i] in ObjectPrototypeKeys;
      assert codes[i] in SanitizeOptionalsAsWritten(codes);
      assert !IsPricedCode(codes[i]);
    }
  }

  /** Without inherited names among the optionals, the request carries what the filter as written keeps. */
  lemma RequestAsWritten(form: OrderForm, config: Configuration, payment: PaymentMethod, entry: real, status: OrderStatus)
    requires forall i :: 0 <= i < |config.optionals| ==> config.optionals[i] !in ObjectPrototypeKeys
    ensures OrderRequestFor(form, config, payment, entry, status).configuration.optionals
         == SanitizeOptionalsAsWritten(config.optionals)
  {
    AsWrittenAgreesOffPrototype(config.optionals);
  }

  /** `["precision-park", "toString"]` keeps `toString` when sanitised as written; the corrected filter drops it. */
  lemma SanitizeAsWrittenKeepsInheritedName()
    ensures SanitizeOptionalsAsWritten([PrecisionPark, "toString"]) == [PrecisionPark, "toString"]
    ensures SanitizeOptionals([PrecisionPark, "toString"]) == [PrecisionPark]
    ensures !IsPricedCode("toString")
  {
    var codes := [PrecisionPark, "toString"];
    assert InPriceTableAsWritten(codes[0]) && InPriceTableAsWritten(codes[1]);
    FilterAllPass(codes, InPriceTableAsWritten);
    assert codes[1..] == ["toString"];
    assert codes[1..][1..] == [];
    assert IsPricedCode(codes[0]) && !IsPricedCode("toString");
  }

  // ---------------------------------------------------------------------
  // handleSubmit
  // ---------------------------------------------------------------------

  /**
   * The reply of `supabase.functions.invoke('credit-analysis', ...)`: it
   * threw, or it returned `{ data, error }`.
   */
  datatype CreditReply = InvokeThrew | Invoked(data: Option<JsValue>, error: Option<string>)

  /**
   * The score handed to the rule table: none when the call threw, returned
   * an error, returned no (or falsy) data, or data whose `score` is not a
   * number.
   */
  function CreditScore(reply: CreditReply): (score: Option<real>)
    ensures score.Some? ==> reply.Invoked? && reply.error.None? && reply.data.Some?
    ensures score.Some? ==> NumberMember(reply.data.value, "score") == score
    ensures reply.Invoked? && reply.error.None? && reply.data.Some? && NumberMember(reply.data.value, "score").Some? ==> score.Some?
  {
    match reply
    case InvokeThrew => None
    case Invoked(data, error) =>
      if error.Some? || data.None? || !Truthy(data.value) then None
      else NumberMember(data.value, "score")
  }

  /** The external effects of a submission, in the order they happen. */
  datatype Call = InvokeCreditAnalysis(cpf: string) | CreateOrderCall(request: OrderRequest) | ResetConfigurationCall

  datatype SubmitOutcome =
    | FormRejected(errors: map<Field, string>)
    | CreditCheckFailed
    | OrderFailed(message: string)
    | OrderPlaced(order: Order)

  /** What a submission ends with: its outcome, the calls it made, and the `isSubmitting` flag. */
  datatype Submission = Submission(outcome: SubmitOutcome, calls: seq<Call>, submitting: bool)

  const RetryMessage := "Tente novamente mais tarde."

  /**
   * The status an order gets: approved for cash without asking anyone; for
   * financing, the rule table on the score and entry/total, or nothing when
   * no score could be obtained.
   */
  function OrderStatusFor(payment: PaymentMethod, credit: CreditReply, total: int, entry: real): (s: Option<OrderStatus>)
    requires total > 0
    ensures payment == Avista ==> s == Some(Aprovado)
    ensures payment == Financiamento ==> (s.Some? <==> CreditScore(credit).Some?)
    ensures payment == Financiamento && s.Some? ==> s.value == DecideCredit(CreditScore(credit).value, entry / total as real)
  {
    if payment == Avista then Some(Aprovado)
    else match CreditScore(credit)
      case None => None
      case Some(score) => Some(DecideCredit(score, entry / total as real))
  }

  /** The request built for `createOrder` once a status is known. */
  function OrderRequestFor(form: OrderForm, config: Configuration, payment: PaymentMethod, entry: real, status: OrderStatus): (req: OrderRequest)
    ensures req.configuration == config.(optionals := SanitizeOptionals(config.optionals))
    ensures req.totalPrice == FinalPrice(payment, Price(config), entry)
    ensures req.customer == Customer(form.name, form.surname, form.email, form.phone, form.cpf, form.store)
    ensures req.paymentMethod == payment && req.status == status
  {
    OrderRequest(
      config.(optionals := SanitizeOptionals(config.optionals)),
      FinalPrice(payment, Price(config), entry),
      Customer(form.name, form.surname, form.email, form.phone, form.cpf, form.store),
      payment,
      status)
  }

  /**
   * Everything after the status is known: `createOrder` is called with the
   * request; a failure shows the store's message, or a generic one when
   * there is none, and clears `isSubmitting`; a success returns the order
   * `createOrder` returned, under the code generated from the draws, with
   * the installment added (for financing), and resets the configuration.
   */
  function PlaceOrder(
    req: OrderRequest, creditCalls: seq<Call>, total: int, entry: real,
    draws: seq<Draw>, insert: InsertReply): (sub: Submission)
    requires |draws| == 6
    ensures insert.InsertFailed? ==> sub == Submission(
      OrderFailed(if insert.message != "" then insert.message else RetryMessage),
      creditCalls + [CreateOrderCall(req)], false)
    ensures insert.Inserted? ==>
      && sub.outcome.OrderPlaced? && sub.submitting
      && sub.calls == creditCalls + [CreateOrderCall(req), ResetConfigurationCall]
      && sub.outcome.order.id == GenerateOrderNumber(draws) && IsOrderCode(sub.outcome.order.id)
      && sub.outcome.order.(installmentValue := None) == CreateOrder(req, draws, insert).reply.order.value
      && sub.outcome.order.customer.store == req.customer.store
      && sub.outcome.order.status == StatusCode(req.status)
      && sub.outcome.order.totalPrice == req.totalPrice
      && sub.outcome.order.installmentValue ==
           (if req.paymentMethod == Financiamento then Some(InstallmentValue(total as real, entry)) else None)
  {
    var out := CreateOrder(req, draws, insert);
    var calls := creditCalls + [CreateOrderCall(req)];
    match out.reply.order
    case None =>
      var message := if out.reply.error.Some? && out.reply.error.value != "" then out.reply.error.value else RetryMessage;
      Submission(OrderFailed(message), calls, false)
    case Some(o) =>
      var installment := if req.paymentMethod == Financiamento then Some(InstallmentValue(total as real, entry)) else o.installmentValue;
      var placed := o.(installmentValue := installment, customer := o.customer.(store := req.customer.store));
      assert calls + [ResetConfigurationCall] == creditCalls + [CreateOrderCall(req), ResetConfigurationCall];
      Submission(OrderPlaced(placed), calls + [ResetConfigurationCall], true)
  }

  /**
   * `handleSubmit`. An invalid form records its errors and calls nothing. A
   * cash order never calls the credit service and is approved. A financed
   * order calls it once with the CPF; without a usable score it stops
   * there, before `createOrder`. Otherwise `createOrder` is called, after
   * the credit call, with the sanitised configuration, the final price and
   * the decided status (see `PlaceOrder` for what follows).
   */
  function HandleSubmit(
    form: OrderForm, isEmail: string -> bool, config: Configuration, payment: PaymentMethod,
    entry: real, credit: CreditReply, draws: seq<Draw>, insert: InsertReply): (sub: Submission)
    requires |draws| == 6
    ensures sub.outcome.FormRejected? <==> !FormValid(form, isEmail)
    ensures sub.outcome.FormRejected? ==> sub == Submission(FormRejected(ValidateForm(form, isEmail)), [], false)
    ensures sub.outcome.CreditCheckFailed? <==> FormValid(form, isEmail) && payment == Financiamento && CreditScore(credit).None?
    ensures sub.outcome.CreditCheckFailed? ==> sub == Submission(CreditCheckFailed, [InvokeCreditAnalysis(form.cpf)], false)
    ensures FormValid(form, isEmail) && OrderStatusFor(payment, credit, Price(config), entry).Some? ==>
      var req := OrderRequestFor(form, config, payment, entry, OrderStatusFor(payment, credit, Price(config), entry).value);
      var creditCalls := if payment == Financiamento then [InvokeCreditAnalysis(form.cpf)] else [];
      sub == PlaceOrder(req, creditCalls, Price(config), entry, draws, insert)
  {
    var errors := ValidateForm(form, isEmail);
    ValidateFormPasses(form, isEmail);
    if errors != map[] then
      Submission(FormRejected(errors), [], false)
    else
      var total := Price(config);
      var creditCalls := if payment == Financiamento then [InvokeCreditAnalysis(form.cpf)] else [];
      match OrderStatusFor(payment, credit, total, entry)
      case None => Submission(CreditCheckFailed, creditCalls, false)
      case Some(status) =>
        PlaceOrder(OrderRequestFor(form, config, payment, entry, status), creditCalls, total, entry, draws, insert)
  }

  /** A cash order never calls the credit service; when placed it is approved. */
  lemma CashSkipsCreditCheck(
    form: OrderForm, isEmail: string -> bool, config: Configuration,
    entry: real, credit: CreditReply, draws: seq<Draw>, insert: InsertReply)
    requires |draws| == 6
    ensures var sub := HandleSubmit(form, isEmail, config, Avista, entry, credit, draws, insert);
      && (forall i :: 0 <= i < |sub.calls| ==> !sub.calls[i].InvokeCreditAnalysis?)
      && (sub.outcome.OrderPlaced? ==> sub.outcome.order.status == "APROVADO" && sub.outcome.order.totalPrice == Price(config) as real)
  {
  }

  /**
   * The trace of a submission that reached `createOrder`: the credit call
   * when financing, then `createOrder`, then the reset when it succeeded.
   */
  lemma SubmitTrace(
    form: OrderForm, isEmail: string -> bool, config: Configuration, payment: PaymentMethod,
    entry: real, credit: CreditReply, draws: seq<Draw>, insert: InsertReply)
    requires |draws| == 6
    requires FormValid(form, isEmail) && OrderStatusFor(payment, credit, Price(config), entry).Some?
    ensures var sub := HandleSubmit(form, isEmail, config, payment, entry, credit, draws, insert);
      var req := OrderRequestFor(form, config, payment, entry, OrderStatusFor(payment, credit, Price(config), entry).value);
      sub.calls == (if payment == Financiamento then [InvokeCreditAnalysis(form.cpf)] else [])
                   + [CreateOrderCall(req)]
                   + (if insert.Inserted? then [ResetConfigurationCall] else [])
  {
    var req := OrderRequestFor(form, config, payment, entry, OrderStatusFor(payment, credit, Price(config), entry).value);
    var creditCalls := if payment == Financiamento then [InvokeCreditAnalysis(form.cpf)] else [];
    if insert.Inserted? {
      assert creditCalls + [CreateOrderCall(req), ResetConfigurationCall] == creditCalls + [CreateOrderCall(req)] + [ResetConfigurationCall];
    } else {
      assert creditCalls + [CreateOrderCall(req)] == creditCalls + [CreateOrderCall(req)] + [];
    }
  }

  /** Where each kind of call sits in a trace of that shape. */
  lemma TraceShapeFacts(calls: seq<Call>, financed: bool, cpf: string, req: OrderRequest, placed: bool)
    requires calls == (if financed then [InvokeCreditAnalysis(cpf)] else []) + [CreateOrderCall(req)]
                      + (if placed then [ResetConfigurationCall] else [])
    ensures forall i :: 0 <= i < |calls| && calls[i].InvokeCreditAnalysis? ==> i == 0 && financed && calls[i].cpf == cpf
    ensures forall i :: 0 <= i < |calls| && calls[i].CreateOrderCall? ==>
      calls[i].request == req && i == (if financed then 1 else 0)
    ensures forall i :: 0 <= i < |calls| && calls[i].ResetConfigurationCall? ==> i == |calls| - 1 && placed
  {
  }

  /** A submission that stops before `createOrder` made no call, or only the credit call of a financed order. */
  lemma StoppedEarlyCalls(
    form: OrderForm, isEmail: string -> bool, config: Configuration, payment: PaymentMethod,
    entry: real, credit: CreditReply, draws: seq<Draw>, insert: InsertReply)
    requires |draws| == 6
    requires !(FormValid(form, isEmail) && OrderStatusFor(payment, credit, Price(config), entry).Some?)
    ensures var sub := HandleSubmit(form, isEmail, config, payment, entry, credit, draws, insert);
      && !sub.outcome.OrderPlaced?
      && (sub.calls == [] || (payment == Financiamento && sub.calls == [InvokeCreditAnalysis(form.cpf)]))
  {
  }

  /** The credit service is called at most once, first, only for financing, and with the form's CPF. */
  lemma CreditCallComesFirst(
    form: OrderForm, isEmail: string -> bool, config: Configuration, payment: PaymentMethod,
    entry: real, credit: CreditReply, draws: seq<Draw>, insert: InsertReply)
    requires |draws| == 6
    ensures var sub := HandleSubmit(form, isEmail, config, payment, entry, credit, draws, insert);
      forall i :: 0 <= i < |sub.calls| && sub.calls[i].InvokeCreditAnalysis? ==>
        i == 0 && payment == Financiamento && sub.calls[i].cpf == form.cpf
  {
    var sub := HandleSubmit(form, isEmail, config, payment, entry, credit, draws, insert);
    if FormValid(form, isEmail) && OrderStatusFor(payment, credit, Price(config), entry).Some? {
      var req := OrderRequestFor(form, config, payment, entry, OrderStatusFor(payment, credit, Price(config), entry).value);
      SubmitTrace(form, isEmail, config, payment, entry, credit, draws, insert);
      TraceShapeFacts(sub.calls, payment == Financiamento, form.cpf, req, insert.Inserted?);
    } else {
      StoppedEarlyCalls(form, isEmail, config, payment, entry, credit, draws, insert);
    }
  }

  /**
   * `createOrder` is called at most once, only for a valid form with a
   * decided status, and with the request built from them.
   */
  lemma CreateOrderCalledOnce(
    form: OrderForm, isEmail: string -> bool, config: Configuration, payment: PaymentMethod,
    entry: real, credit: CreditReply, draws: seq<Draw>, insert: InsertReply)
    requires |draws| == 6
    ensures var sub := HandleSubmit(form, isEmail, config, payment, entry, credit, draws, insert);
      forall i :: 0 <= i < |sub.calls| && sub.calls[i].CreateOrderCall? ==>
        && FormValid(form, isEmail)
        && OrderStatusFor(payment, credit, Price(config), entry).Some?
        && sub.calls[i].request == OrderRequestFor(form, config, payment, entry, OrderStatusFor(payment, credit, Price(config), entry).value)
        && (forall j :: 0 <= j < |sub.calls| && sub.calls[j].CreateOrderCall? ==> j == i)
  {
    var sub := HandleSubmit(form, isEmail, config, payment, entry, credit, draws, insert);
    if FormValid(form, isEmail) && OrderStatusFor(payment, credit, Price(config), entry).Some? {
      var req := OrderRequestFor(form, config, payment, entry, OrderStatusFor(payment, credit, Price(config), entry).value);
      SubmitTrace(form, isEmail, config, payment, entry, credit, draws, insert);
      TraceShapeFacts(sub.calls, payment == Financiamento, form.cpf, req, insert.Inserted?);
    } else {
      StoppedEarlyCalls(form, isEmail, config, payment, entry, credit, draws, insert);
    }
  }

  /** The configuration is reset only after a placed order, and as the last call. */
  lemma ResetComesLast(
    form: OrderForm, isEmail: string -> bool, config: Configuration, payment: PaymentMethod,
    entry: real, credit: CreditReply, draws: seq<Draw>, insert: InsertReply)
    requires |draws| == 6
    ensures var sub := HandleSubmit(form, isEmail, config, payment, entry, credit, draws, insert);
      forall i :: 0 <= i < |sub.calls| && sub.calls[i].ResetConfigurationCall? ==>
        i == |sub.calls| - 1 && sub.outcome.OrderPlaced?
  {
    var sub := HandleSubmit(form, isEmail, config, payment, entry, credit, draws, insert);
    if FormValid(form, isEmail) && OrderStatusFor(payment, credit, Price(config), entry).Some? {
      var req := OrderRequestFor(form, config, payment, entry, OrderStatusFor(payment, credit, Price(config), entry).value);
      SubmitTrace(form, isEmail, config, payment, entry, credit, draws, insert);
      TraceShapeFacts(sub.calls, payment == Financiamento, form.cpf, req, insert.Inserted?);
      assert insert.Inserted? ==> sub.outcome.OrderPlaced?;
    } else {
      StoppedEarlyCalls(form, isEmail, config, payment, entry, credit, draws, insert);
    }
  }

  /**
   * Every submission that does not place an order leaves `isSubmitting`
   * false, so the button is usable again; an order fails exactly when the
   * form is valid, a status was decided, and the insert failed.
   */
  lemma SubmitFailureOutcomes(
    form: OrderForm, isEmail: string -> bool, config: Configuration, payment: PaymentMethod,
    entry: real, credit: CreditReply, draws: seq<Draw>, insert: InsertReply)
    requires |draws| == 6
    ensures var sub := HandleSubmit(form, isEmail, config, payment, entry, credit, draws, insert);
      && (!sub.outcome.OrderPlaced? <==> !sub.submitting)
      && (sub.outcome.OrderFailed? <==>
            FormValid(form, isEmail) && OrderStatusFor(payment, credit, Price(config), entry).Some? && insert.InsertFailed?)
  {
  }

  /** The monthly installment is one twelfth of the financed total. */
  lemma InstallmentIsTwelfth(total: real, entry: real)
    ensures InstallmentValue(total, entry) == TotalFinanced(total, entry) / 12.0
  {
  }

  /** A placed order went through every step: a valid form, a decided status, a successful insert. */
  lemma PlacedOrderSteps(
    form: OrderForm, isEmail: string -> bool, config: Configuration, payment: PaymentMethod,
    entry: real, credit: CreditReply, draws: seq<Draw>, insert: InsertReply)
    requires |draws| == 6
    requires HandleSubmit(form, isEmail, config, payment, entry, credit, draws, insert).outcome.OrderPlaced?
    ensures FormValid(form, isEmail) && OrderStatusFor(payment, credit, Price(config), entry).Some? && insert.Inserted?
    ensures var req := OrderRequestFor(form, config, payment, entry, OrderStatusFor(payment, credit, Price(config), entry).value);
      var creditCalls := if payment == Financiamento then [InvokeCreditAnalysis(form.cpf)] else [];
      HandleSubmit(form, isEmail, config, payment, entry, credit, draws, insert)
        == PlaceOrder(req, creditCalls, Price(config), entry, draws, insert)
  {
  }

  /** A placed order is shown under the order code generated from the draws. */
  lemma PlacedOrderCarriesCode(
    form: OrderForm, isEmail: string -> bool, config: Configuration, payment: PaymentMethod,
    entry: real, credit: CreditReply, draws: seq<Draw>, insert: InsertReply)
    requires |draws| == 6
    requires HandleSubmit(form, isEmail, config, payment, entry, credit, draws, insert).outcome.OrderPlaced?
    ensures var o := HandleSubmit(form, isEmail, config, payment, entry, credit, draws, insert).outcome.order;
      o.id == GenerateOrderNumber(draws) && IsOrderCode(o.id)
  {
    PlacedOrderSteps(form, isEmail, config, payment, entry, credit, draws, insert);
  }

  /**
   * A placed financed order records the price the customer agreed to: the
   * entry plus the financed amount with 2%, and the monthly installment
   * that is one twelfth of that financed total.
   */
  lemma PlacedFinancedOrder(
    form: OrderForm, isEmail: string -> bool, config: Configuration,
    entry: real, credit: CreditReply, draws: seq<Draw>, insert: InsertReply)
    requires |draws| == 6
    requires HandleSubmit(form, isEmail, config, Financiamento, entry, credit, draws, insert).outcome.OrderPlaced?
    ensures var o := HandleSubmit(form, isEmail, config, Financiamento, entry, credit, draws, insert).outcome.order;
      && o.totalPrice == entry + AmountToFinance(Price(config) as real, entry) * 1.02
      && o.installmentValue == Some(TotalFinanced(Price(config) as real, entry) / 12.0)
  {
    PlacedOrderSteps(form, isEmail, config, Financiamento, entry, credit, draws, insert);
    InstallmentIsTwelfth(Price(config) as real, entry);
  }
}
