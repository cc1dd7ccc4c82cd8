/**
 * The `credit-analysis` edge function: the CORS preflight, reading the CPF
 * from the request body, stripping its mask, one call to the credit bureau,
 * and the mapping of every outcome to an HTTP status.
 *
 * The request body and the bureau's reply are inputs. Throwing anywhere in
 * the `try` block lands in the `catch`, which answers 503. The random bearer
 * token and the log lines are not modelled.
 */
module CreditAnalysis {
  import opened Common
  import opened Json

  /** A body as `.json()` reads it: parsed, or not JSON at all (which throws). */
  datatype Body = Parsed(value: JsValue) | Malformed

  datatype Request = Request(httpMethod: string, body: Body)

  /** What `fetch` gives: it threw (network failure, timeout), or a response. */
  datatype Upstream = FetchFailed | Fetched(ok: bool, body: Body)

  datatype ResponseBody =
    | NoBody
    | ErrorBody(error: string)
    | ScoreBody(status: JsValue, score: real)

  datatype Response = Response(status: int, headers: map<string, string>, body: ResponseBody)

  /** The query sent to the bureau: the bare CPF digits, asking for the score only. */
  datatype CreditQuery = CreditQuery(documento: string, tipoDocumento: string, consultarScore: bool, exibirNegativacoes: bool)

  /** The response, and the query sent to the bureau if one was sent. */
  datatype Handled = Handled(response: Response, query: Option<CreditQuery>)

  const CorsHeaders: map<string, string> := map[
    "Access-Control-Allow-Origin" := "*",
    "Access-Control-Allow-Headers" := "authorization, x-client-info, apikey, content-type"
  ]

  /** The headers of every JSON answer: the CORS headers and the content type. */
  const JsonHeaders: map<string, string> := CorsHeaders["Content-Type" := "application/json"]

  const MissingCpfMessage := "CPF é obrigatório"
  const BureauErrorMessage := "Erro na consulta de crédito"
  const InvalidReplyMessage := "Resposta inválida da API de crédito"
  const UnavailableMessage := "Falha na comunicação com serviço de crédito"

  function JsonError(status: int, message: string): Response {
    Response(status, JsonHeaders, ErrorBody(message))
  }

  // ---------------------------------------------------------------------
  // cpf.replace(/\D/g, '')
  // ---------------------------------------------------------------------

  predicate IsDigit(c: char) {
    '0' <= c <= '9'
  }

  predicate AllDigits(s: string) {
    forall i :: 0 <= i < |s| ==> IsDigit(s[i])
  }

  /** Removes every character that is not an ASCII digit: the digits of `s`, every occurrence, in order. */
  function DigitsOnly(s: string): (d: string)
    ensures AllDigits(d)
    ensures IsSubsequence(d, s)
    ensures forall i :: 0 <= i < |s| && IsDigit(s[i]) ==> s[i] in d
    ensures forall c {:trigger multiset(d)[c]} :: multiset(d)[c] == if IsDigit(c) then multiset(s)[c] else 0
    ensures |d| <= |s|
  {
    FilterCounts(s, IsDigit);
    Filter(s, IsDigit)
  }

  /** Stripping twice is stripping once; digits are kept as they are. */
  lemma DigitsOnlyIdempotent(s: string)
    ensures DigitsOnly(DigitsOnly(s)) == DigitsOnly(s)
  {
    FilterIdempotent(s, IsDigit);
  }

  /** Stripping distributes over concatenation. */
  lemma DigitsOnlyConcat(a: string, b: string)
    ensures DigitsOnly(a + b) == DigitsOnly(a) + DigitsOnly(b)
  {
    FilterConcat(a, b, IsDigit);
  }

  /** A string of digits is unchanged; a string without any becomes empty. */
  lemma {:induction false} DigitsOnlyOfDigits(s: string)
    ensures AllDigits(s) ==> DigitsOnly(s) == s
    ensures (forall i :: 0 <= i < |s| ==> !IsDigit(s[i])) ==> DigitsOnly(s) == []
    decreases |s|
  {
    if AllDigits(s) {
      FilterAllPass(s, IsDigit);
    }
    if |s| > 0 {
      DigitsOnlyOfDigits(s[1..]);
    }
  }

  /** The checkout's CPF mask `999.999.999-99` applied to eleven digits. */
  function MaskCpf(d: string): (m: string)
    requires |d| == 11
    ensures |m| == 14
  {
    d[..3] + ['.'] + (d[3..6] + ['.'] + (d[6..9] + ['-'] + d[9..]))
  }

  /** A separator that is not a digit vanishes, and the two sides are stripped separately. */
  lemma SkipSeparator(x: string, c: char, y: string)
    requires !IsDigit(c)
    ensures DigitsOnly(x + [c] + y) == DigitsOnly(x) + DigitsOnly(y)
  {
    DigitsOnlyConcat(x + [c], y);
    DigitsOnlyConcat(x, [c]);
    assert DigitsOnly([c]) == [] by { assert [c][1..] == []; }
  }

  /** Digits followed by a non-digit separator: the digits stay, the separator goes. */
  lemma DigitsThenSeparator(x: string, c: char, y: string)
    requires AllDigits(x) && !IsDigit(c)
    ensures DigitsOnly(x + [c] + y) == x + DigitsOnly(y)
  {
    SkipSeparator(x, c, y);
    DigitsOnlyOfDigits(x);
  }

  /** Four groups of digits with the mask's separators between them strip to the groups laid end to end. */
  lemma StripMaskShape(a: string, b: string, c: string, e: string)
    requires AllDigits(a) && AllDigits(b) && AllDigits(c) && AllDigits(e)
    ensures DigitsOnly(a + ['.'] + (b + ['.'] + (c + ['-'] + e))) == a + (b + (c + e))
  {
    DigitsThenSeparator(c, '-', e);
    DigitsOnlyOfDigits(e);
    DigitsThenSeparator(b, '.', c + ['-'] + e);
    DigitsThenSeparator(a, '.', b + ['.'] + (c + ['-'] + e));
  }

  /** A masked CPF reaches the bureau as its eleven digits: stripping undoes the mask. */
  lemma StripUndoesMask(d: string)
    requires |d| == 11 && AllDigits(d)
    ensures DigitsOnly(MaskCpf(d)) == d
  {
    StripMaskShape(d[..3], d[3..6], d[6..9], d[9..]);
    assert d[..3] + (d[3..6] + (d[6..9] + d[9..])) == d;
  }

  // ---------------------------------------------------------------------
  // The handler
  // ---------------------------------------------------------------------

  /**
   * `const { cpf } = await req.json()`: the CPF field, `undefined` when the
   * body is not an object or has no such field; `None` when it throws (the
   * body is not JSON, or is `null`).
   */
  function ReadCpf(body: Body): (cpf: Option<Option<JsValue>>)
    ensures cpf.None? <==> body.Malformed? || body.value.JNull?
    ensures cpf.Some? ==> cpf.value == Member(body.value, "cpf")
  {
    match body
    case Malformed => None
    case Parsed(v) => if v.JNull? then None else Some(Member(v, "cpf"))
  }

  /**
   * The answer to the bureau's reply: 502 when it is not ok; 503 when its
   * body is not JSON or is `null` (reading `score` throws); 502 when its
   * `score` is not a number; otherwise 200 with that score and the reply's
   * `status`, or `"Done"` when that is falsy or absent.
   */
  function AnswerReply(reply: Upstream): (r: Response)
    requires reply.Fetched?
    ensures r.headers == JsonHeaders
    ensures !reply.ok ==> r == JsonError(502, BureauErrorMessage)
    ensures reply.ok && (reply.body.Malformed? || reply.body.value.JNull?) ==> r == JsonError(503, UnavailableMessage)
    ensures reply.ok && reply.body.Parsed? && !reply.body.value.JNull? && NumberMember(reply.body.value, "score").None? ==>
      r == JsonError(502, InvalidReplyMessage)
    ensures r.status == 200 <==> reply.ok && reply.body.Parsed? && NumberMember(reply.body.value, "score").Some?
    ensures r.status == 200 ==>
      var data := reply.body.value;
      && r.body == ScoreBody(
           if TruthyOrUndefined(Member(data, "status")) then Member(data, "status").value else JString("Done"),
           NumberMember(data, "score").value)
    ensures r.status in {200, 502, 503}
  {
    if !reply.ok then JsonError(502, BureauErrorMessage)
    else match reply.body
      case Malformed => JsonError(503, UnavailableMessage)
      case Parsed(data) =>
        if data.JNull? then JsonError(503, UnavailableMessage)
        else match NumberMember(data, "score")
          case None => JsonError(502, InvalidReplyMessage)
          case Some(score) =>
            var status := Member(data, "status");
            Response(200, JsonHeaders, ScoreBody(if TruthyOrUndefined(status) then status.value else JString("Done"), score))
  }

  /**
   * The edge function. A preflight gets 200 with the CORS headers and no
   * body. Otherwise: an unreadable or `null` body gives 503; a falsy or
   * absent CPF gives 400; a CPF that is truthy but not a string throws at
   * `replace` and gives 503; only a non-empty string CPF reaches the
   * bureau, as its digits, and the bureau's outcome decides the rest (a
   * failed `fetch` is 503).
   */
  function HandleRequest(req: Request, upstream: Upstream): (h: Handled)
    ensures req.httpMethod == "OPTIONS" ==> h == Handled(Response(200, CorsHeaders, NoBody), None)
    ensures h.query.Some? <==>
      && req.httpMethod != "OPTIONS"
      && ReadCpf(req.body).Some? && ReadCpf(req.body).value.Some?
      && ReadCpf(req.body).value.value.JString? && |ReadCpf(req.body).value.value.s| > 0
    ensures h.query.Some? ==>
      h.query.value == CreditQuery(DigitsOnly(ReadCpf(req.body).value.value.s), "CPF", true, false)
    ensures req.httpMethod != "OPTIONS" ==> h.response.headers == JsonHeaders
    ensures h.response.status == 400 <==>
      req.httpMethod != "OPTIONS" && ReadCpf(req.body).Some? && !TruthyOrUndefined(ReadCpf(req.body).value)
    ensures h.response.status == 400 ==> h.response.body == ErrorBody(MissingCpfMessage)
    ensures h.query.Some? && upstream.FetchFailed? ==> h.response == JsonError(503, UnavailableMessage)
    ensures h.query.Some? && upstream.Fetched? ==> h.response == AnswerReply(upstream)
    ensures h.query.None? && req.httpMethod != "OPTIONS" ==> h.response.status in {400, 503}
  {
    if req.httpMethod == "OPTIONS" then
      Handled(Response(200, CorsHeaders, NoBody), None)
    else match ReadCpf(req.body)
      case None => Handled(JsonError(503, UnavailableMessage), None)
      case Some(cpf) =>
        if !TruthyOrUndefined(cpf) then Handled(JsonError(400, MissingCpfMessage), None)
        else if !cpf.value.JString? then Handled(JsonError(503, UnavailableMessage), None)
        else
          var query := CreditQuery(DigitsOnly(cpf.value.s), "CPF", true, false);
          match upstream
          case FetchFailed => Handled(JsonError(503, UnavailableMessage), Some(query))
          case Fetched(_, _) => Handled(AnswerReply(upstream), Some(query))
  }

  /** Every answer carries `Access-Control-Allow-Origin: *`, and its status is one of 200, 400, 502 and 503. */
  lemma EveryAnswerAllowsAnyOrigin(req: Request, upstream: Upstream)
    ensures var r := HandleRequest(req, upstream).response;
      && "Access-Control-Allow-Origin" in r.headers && r.headers["Access-Control-Allow-Origin"] == "*"
      && r.status in {200, 400, 502, 503}
  {
  }

  /**
   * A 200 answer to a POST carries exactly the bureau's score: the request
   * held a non-empty string CPF, the bureau was asked about its digits and
   * replied ok with a numeric score.
   */
  lemma ScoreComesFromBureau(req: Request, upstream: Upstream)
    requires req.httpMethod != "OPTIONS"
    requires HandleRequest(req, upstream).response.status == 200
    ensures var h := HandleRequest(req, upstream);
      && h.query.Some? && AllDigits(h.query.value.documento)
      && upstream.Fetched? && upstream.ok && upstream.body.Parsed?
      && h.response.body.ScoreBody?
      && Some(h.response.body.score) == NumberMember(upstream.body.value, "score")
  {
  }

  /** A masked CPF is queried as its eleven digits, and the bureau's reply decides the answer. */
  lemma MaskedCpfQuery(d: string, upstream: Upstream)
    requires |d| == 11 && AllDigits(d)
    ensures var h := HandleRequest(Request("POST", Parsed(JObject(map["cpf" := JString(MaskCpf(d))]))), upstream);
      h.query == Some(CreditQuery(d, "CPF", true, false))
  {
    StripUndoesMask(d);
  }

  /** A CPF that is `0`, `""`, `false`, `null` or missing is refused with 400 before any call. */
  lemma MissingCpfRefused(fields: map<string, JsValue>, upstream: Upstream)
    requires "cpf" !in fields || !Truthy(fields["cpf"])
    ensures HandleRequest(Request("POST", Parsed(JObject(fields))), upstream)
         == Handled(JsonError(400, MissingCpfMessage), None)
  {
  }
}
