/**
 * The order script: pending `pedidos` rows are deduplicated and flagged by
 * `id_pedido`, and each new order is sent as one five-field AD_TGSCAB
 * record whose date is rendered `dd/mm/yyyy`.
 *
 * When the reply carries `status == "ERROR"`, the script's log line reads
 * `pedido['']`, which raises KeyError; the row's handler catches it, so the
 * row ends as every rejected row does: not flagged, and the loop goes on.
 * The model gives that reply the verdict AppError, whose effect is the same.
 */
module OrderSync {
  import opened Wrappers
  import opened Sankhya
  import RowSync

  /** A calendar date, as `datetime.date` holds it. */
  datatype Date = Date(year: nat, month: nat, day: nat)

  predicate ValidDate(d: Date)
  {
    1 <= d.year <= 9999 && 1 <= d.month <= 12 && 1 <= d.day <= 31
  }

  /** An order row: `data_pedido` is assumed to be a DATE column, so NULL or a date. */
  datatype Pedido = Pedido(
    idPedido: Value, idCliente: Value, formaPagamento: Value, dataPedido: Option<Date>, observacao: Value)

  const Entity := "AD_TGSCAB"

  const Fields: seq<string> := ["NUPED", "ID", "PGTO", "DTPED", "OBSERVACAO"]

  /** `%d` and `%m`: two digits, zero-padded. */
  function Pad2(n: nat): string
  {
    if n < 10 then "0" + Key(n) else Key(n)
  }

  /** `strftime("%d/%m/%Y")`; `%Y` is the year in decimal. */
  function FormatDate(d: Date): string
  {
    Pad2(d.day) + "/" + Pad2(d.month) + "/" + Key(d.year)
  }

  /** Reads `dd/mm/y...` back into a date. */
  function ParseDate(s: string): Option<Date>
  {
    if |s| >= 7 && s[2] == '/' && s[5] == '/' && IsDigits(s[..2]) && IsDigits(s[3..5]) && IsDigits(s[6..])
    then Some(Date(DecimalValue(s[6..]), DecimalValue(s[3..5]), DecimalValue(s[..2])))
    else None
  }

  lemma Pad2Value(n: nat)
    requires n < 100
    ensures |Pad2(n)| == 2 && IsDigits(Pad2(n)) && DecimalValue(Pad2(n)) == n
  {
    KeyRoundTrip(n);
    if n < 10 {
      var s := Pad2(n);
      assert s[..1] == "0";
      assert s[..1][..0] == [];
    } else {
      assert n / 10 < 10;
    }
  }

  /** The length of `%Y` for a four-digit year. */
  lemma FourDigitYear(y: nat)
    requires 1000 <= y <= 9999
    ensures |Key(y)| == 4
  {
    assert |Key(y)| == |Key(y / 10)| + 1;
    assert |Key(y / 10)| == |Key(y / 100)| + 1;
    assert |Key(y / 100)| == |Key(y / 1000)| + 1;
    assert y / 1000 < 10;
  }

  lemma SplitDate(a: string, b: string, c: string)
    requires |a| == 2 && |b| == 2
    ensures var s := a + "/" + b + "/" + c;
      && |s| == 6 + |c| && s[2] == '/' && s[5] == '/' && s[..2] == a && s[3..5] == b && s[6..] == c
  {
  }

  /** A rendered date reads back as the same date, and has the shape `dd/mm/yyyy` for four-digit years. */
  lemma FormatDateRoundTrip(d: Date)
    requires ValidDate(d)
    ensures ParseDate(FormatDate(d)) == Some(d)
    ensures 1000 <= d.year ==> |FormatDate(d)| == 10
  {
    Pad2Value(d.day);
    Pad2Value(d.month);
    KeyRoundTrip(d.year);
    SplitDate(Pad2(d.day), Pad2(d.month), Key(d.year));
    if 1000 <= d.year {
      FourDigitYear(d.year);
    }
  }

  /** Builds the values map; fails, before anything is sent, when `data_pedido` is NULL (no `strftime`). */
  function Payload(p: Pedido): Option<Request>
  {
    match p.dataPedido
    case None => None
    case Some(d) => Some(Save(Entity, Fields, [p.idPedido, p.idCliente, p.formaPagamento, Text(FormatDate(d)), p.observacao]))
  }

  const Policy: RowSync.Policy<Pedido> :=
    RowSync.Policy((p: Pedido) => p.idPedido, (p: Pedido) => p.idPedido, Payload)

  lemma FieldAt(p: Pedido, d: Date, i: nat)
    requires p.dataPedido == Some(d) && i < |Fields|
    ensures FieldValue(Payload(p).value, 0, Fields[i])
         == Some([p.idPedido, p.idCliente, p.formaPagamento, Text(FormatDate(d)), p.observacao][i])
  {
    assert Distinct(Fields);
    SaveRecordsFields(Entity, Fields, [[p.idPedido, p.idCliente, p.formaPagamento, Text(FormatDate(d)), p.observacao]]);
  }

  /**
   * A payload exists exactly when the date is not NULL; it is one
   * well-formed AD_TGSCAB record, each field read by name gives its column,
   * and DTPED holds the date rendered as `dd/mm/yyyy`.
   */
  lemma PayloadFields(p: Pedido)
    ensures Payload(p).Some? <==> p.dataPedido.Some?
    ensures Payload(p).Some? ==>
      var req := Payload(p).value;
      && req.serviceName == SaveService && req.entityName == Entity && !req.standAlone
      && |req.fields| == 5 && |req.records| == 1 && WellFormed(req)
      && FieldValue(req, 0, "NUPED") == Some(p.idPedido)
      && FieldValue(req, 0, "ID") == Some(p.idCliente)
      && FieldValue(req, 0, "PGTO") == Some(p.formaPagamento)
      && FieldValue(req, 0, "DTPED") == Some(Text(FormatDate(p.dataPedido.value)))
      && FieldValue(req, 0, "OBSERVACAO") == Some(p.observacao)
  {
    if Payload(p).Some? {
      var d := p.dataPedido.value;
      assert Distinct(Fields);
      SaveRecordsFields(Entity, Fields, [[p.idPedido, p.idCliente, p.formaPagamento, Text(FormatDate(d)), p.observacao]]);
      FieldAt(p, d, 0); FieldAt(p, d, 1); FieldAt(p, d, 2); FieldAt(p, d, 3); FieldAt(p, d, 4);
    }
  }

  /**
   * The loop over `pedidos`. Every row is processed; an order is flagged
   * only when its row repeats an earlier order or its own POST was
   * accepted; each distinct `id_pedido` costs one token fetch and at most one POST.
   */
  method Sync(pedidos: seq<Pedido>, net: RowSync.Network, table: map<Value, bool>)
    returns (flags: map<Value, bool>, sent: seq<Request>, fetches: nat, outcomes: seq<RowSync.Outcome>)
    ensures var r := RowSync.Run(Policy, net, pedidos, table);
      flags == r.table && sent == r.sent && fetches == r.fetches && outcomes == r.outcomes
    ensures |outcomes| == |pedidos|
    ensures forall f :: Integrated(flags, f) <==>
      Integrated(table, f)
      || (f != Null && exists i :: 0 <= i < |pedidos| && pedidos[i].idPedido == f && RowSync.Settles(Policy, net, pedidos, i))
    ensures fetches == |RowSync.KeysOf(Policy, pedidos)| && |sent| <= fetches
    ensures sent == RowSync.SentOf(Policy, net, pedidos)
  {
    flags, sent, fetches, outcomes := RowSync.Sync(Policy, net, pedidos, table);
    RowSync.RunOutcomes(Policy, net, pedidos, table);
    RowSync.RunFlags(Policy, net, pedidos, table);
    RowSync.RunCalls(Policy, net, pedidos, table);
    RowSync.RunSent(Policy, net, pedidos, table);
  }

  /** A repeated `id_pedido` is recorded as a duplicate, with no send, and flagged. */
  lemma RepeatedOrderFlagged(pedidos: seq<Pedido>, net: RowSync.Network, table: map<Value, bool>, i: nat, j: nat)
    requires i < j < |pedidos| && pedidos[i].idPedido == pedidos[j].idPedido
    ensures |RowSync.Run(Policy, net, pedidos, table).outcomes| == |pedidos|
    ensures RowSync.Run(Policy, net, pedidos, table).outcomes[j] == RowSync.Duplicate
    ensures pedidos[j].idPedido != Null ==> Integrated(RowSync.Run(Policy, net, pedidos, table).table, pedidos[j].idPedido)
    ensures var before := RowSync.Run(Policy, net, pedidos[..j], table);
      var after := RowSync.Run(Policy, net, pedidos[..j + 1], table);
      after.sent == before.sent && after.fetches == before.fetches
  {
    assert RowSync.Repeats(Policy, pedidos, j);
    RowSync.RepeatStep(Policy, net, pedidos, table, j);
    RowSync.RunOutcomes(Policy, net, pedidos, table);
    RowSync.RunFlags(Policy, net, pedidos, table);
    assert RowSync.Settles(Policy, net, pedidos, j);
  }

  /**
   * The first row of an `id_pedido` that does not appear again and was not
   * flagged before ends flagged exactly when its token fetch succeeded, its
   * date was not NULL, and its POST was accepted.
   */
  lemma FirstOrderFlaggedIffAccepted(pedidos: seq<Pedido>, net: RowSync.Network, table: map<Value, bool>, i: nat)
    requires i < |pedidos| && !RowSync.Repeats(Policy, pedidos, i)
    requires pedidos[i].idPedido != Null && !Integrated(table, pedidos[i].idPedido)
    requires forall j :: i < j < |pedidos| ==> pedidos[j].idPedido != pedidos[i].idPedido
    ensures Integrated(RowSync.Run(Policy, net, pedidos, table).table, pedidos[i].idPedido)
        <==> net.auth(i) && pedidos[i].dataPedido.Some? && RowVerdict(net.post(i)) == Accepted
  {
    RowSync.FirstOccurrenceFlags(Policy, net, pedidos, table, i);
  }

  /**
   * An HTTP 200 reply with `status == "ERROR"` (the branch whose log line
   * raises KeyError) leaves the order pending, and the rows after it are
   * still processed.
   */
  lemma ErrorReplyLeavesOrderPending(pedidos: seq<Pedido>, net: RowSync.Network, table: map<Value, bool>, i: nat)
    requires i < |pedidos| && !RowSync.Repeats(Policy, pedidos, i)
    requires pedidos[i].idPedido != Null && !Integrated(table, pedidos[i].idPedido)
    requires forall j :: i < j < |pedidos| ==> pedidos[j].idPedido != pedidos[i].idPedido
    requires net.auth(i) && pedidos[i].dataPedido.Some?
    requires net.post(i) == Replied(Response(200, Object(Some(ErrorStatus))))
    ensures var r := RowSync.Run(Policy, net, pedidos, table);
      && |r.outcomes| == |pedidos|
      && r.outcomes[i] == RowSync.Sent(AppError)
      && !Integrated(r.table, pedidos[i].idPedido)
  {
    RowSync.RunOutcomes(Policy, net, pedidos, table);
    FirstOrderFlaggedIffAccepted(pedidos, net, table, i);
  }
}
