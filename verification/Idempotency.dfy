/** Order results and their recorded form: services/executor/app/idempotency.py.  The text
    encoding of JSON is taken as faithful. */
module Idempotency {
  import opened Options
  import opened OrderIds

  /** A JSON value; IdText is the text of an order id. */
  datatype Json = Null | IdText(id: OrderId) | Text(s: string) | Number(x: real) | Flag(b: bool) | Object(fields: map<string, Json>)

  /** A stored blob: parsable JSON or not. */
  datatype Blob = Garbage | Parsed(value: Json)

  datatype OrderResult = OrderResult(clientOrderId: OrderId, exchangeOrderId: Option<string>, status: string,
                                     filledQty: real, averageFillPrice: Option<real>, fee: real,
                                     feeCurrency: Option<string>, slippageBps: real,
                                     rejectionReason: Option<string>, rawResponse: Json)

  const REPLAYED := Object(map["replayed" := Flag(true)])

  /** The result as a replay sees it. */
  function Replayed(result: OrderResult): OrderResult {
    result.(rawResponse := REPLAYED)
  }

  function OptionalText(s: Option<string>): Json {
    match s
    case None => Null
    case Some(s) => Text(s)
  }

  function OptionalNumber(x: Option<real>): Json {
    match x
    case None => Null
    case Some(x) => Number(x)
  }

  /** Everything but the raw exchange response. */
  function SerializeResult(r: OrderResult): Blob {
    Parsed(Object(map["client_order_id" := IdText(r.clientOrderId), "exchange_order_id" := OptionalText(r.exchangeOrderId),
                      "status" := Text(r.status), "filled_qty" := Number(r.filledQty),
                      "average_fill_price" := OptionalNumber(r.averageFillPrice), "fee" := Number(r.fee),
                      "fee_currency" := OptionalText(r.feeCurrency), "slippage_bps" := Number(r.slippageBps),
                      "rejection_reason" := OptionalText(r.rejectionReason)]))
  }

  /** data.get(key) */
  function Get(fields: map<string, Json>, key: string): Json {
    if key in fields then fields[key] else Null
  }

  function TextOf(j: Json): Option<string> {
    if j.Text? then Some(j.s) else None
  }

  function NumberOf(j: Json): Option<real> {
    if j.Number? then Some(j.x) else None
  }

  /** None for a blob that is no object or lacks a mandatory field of its type. */
  function DeserializeResult(blob: Blob): (r: Option<OrderResult>)
    ensures r.Some? ==> Replayed(r.value) == r.value && r.value.rawResponse == Object(map["replayed" := Flag(true)])
  {
    if !blob.Parsed? || !blob.value.Object? then None
    else
      var f := blob.value.fields;
      var id, status := Get(f, "client_order_id"), Get(f, "status");
      var filled, fee, slippage := Get(f, "filled_qty"), Get(f, "fee"), Get(f, "slippage_bps");
      if !id.IdText? || !status.Text? || !filled.Number? || !fee.Number? || !slippage.Number? then None
      else
        Some(OrderResult(id.id, TextOf(Get(f, "exchange_order_id")), status.s, filled.x,
                         NumberOf(Get(f, "average_fill_price")), fee.x, TextOf(Get(f, "fee_currency")), slippage.x,
                         TextOf(Get(f, "rejection_reason")), REPLAYED))
  }

  /** Reading back a recorded result yields it with only the raw response replaced, and
      recording the replay writes the same blob again. */
  lemma RecordedResultRoundTrip(r: OrderResult)
    ensures DeserializeResult(SerializeResult(r)) == Some(Replayed(r))
    ensures SerializeResult(Replayed(r)) == SerializeResult(r)
  {
  }

  /** Two results recorded under one blob agree on every field but the raw response. */
  lemma SerializeInjective(a: OrderResult, b: OrderResult)
    ensures SerializeResult(a) == SerializeResult(b) <==> Replayed(a) == Replayed(b)
  {
    hide SerializeResult, DeserializeResult;
    RecordedResultRoundTrip(a);
    RecordedResultRoundTrip(b);
  }

  // ---- The recorded results under their keys ------------------------------------------------

  /** recover_result */
  function Recovered(recorded: map<OrderId, Blob>, id: OrderId): (r: Option<OrderResult>)
    ensures r.Some? ==> Replayed(r.value) == r.value
  {
    if id in recorded then DeserializeResult(recorded[id]) else None
  }

  /** record_result */
  function Recorded(recorded: map<OrderId, Blob>, id: OrderId, result: OrderResult): map<OrderId, Blob> {
    recorded[id := SerializeResult(result)]
  }

  /** What was recorded under an id is what is recovered there, and no other id is touched. */
  lemma RecoveredAfterRecord(recorded: map<OrderId, Blob>, id: OrderId, result: OrderResult)
    ensures Recovered(Recorded(recorded, id, result), id) == Some(Replayed(result))
    ensures forall other :: other != id ==> Recovered(Recorded(recorded, id, result), other) == Recovered(recorded, other)
  {
    hide SerializeResult, DeserializeResult;
    RecordedResultRoundTrip(result);
  }
}
