/**
 * The order-item script: pending `pedido_itens` rows are deduplicated and
 * flagged by `id_item`, and each new item is sent as one six-field
 * AD_TGSITE record whose price and discount pass through `float()`.
 */
module ItemSync {
  import opened Wrappers
  import opened Sankhya
  import RowSync

  /**
   * The projection the script selects from `pedido_itens`. The price and
   * the discount are assumed to be DECIMAL columns: NULL or a number.
   */
  datatype Item = Item(
    idItem: Value, idPedido: Value, idProduto: Value, quantidade: Value,
    precoUnitario: Option<real>, desconto: Option<real>)

  const Entity := "AD_TGSITE"

  const Fields: seq<string> := ["IDITEM", "NUPED", "QTDNEG", "VLRUNIT", "DESCONTO", "CODPROD"]

  /** `float(x)`: a number converts, `float(None)` raises TypeError. */
  function ToFloat(x: Option<real>): Option<Value>
  {
    match x
    case None => None
    case Some(r) => Some(Float(r))
  }

  /** Builds the values map; fails, before anything is sent, when a `float()` call raises. */
  function Payload(it: Item): Option<Request>
  {
    match (ToFloat(it.precoUnitario), ToFloat(it.desconto))
    case (Some(preco), Some(desc)) =>
      Some(Save(Entity, Fields, [it.idItem, it.idPedido, it.quantidade, preco, desc, it.idProduto]))
    case _ => None
  }

  const Policy: RowSync.Policy<Item> :=
    RowSync.Policy((it: Item) => it.idItem, (it: Item) => it.idItem, Payload)

  lemma FieldAt(it: Item, p: real, d: real, i: nat)
    requires it.precoUnitario == Some(p) && it.desconto == Some(d) && i < |Fields|
    ensures FieldValue(Payload(it).value, 0, Fields[i])
         == Some([it.idItem, it.idPedido, it.quantidade, Float(p), Float(d), it.idProduto][i])
  {
    assert Distinct(Fields);
    SaveRecordsFields(Entity, Fields, [[it.idItem, it.idPedido, it.quantidade, Float(p), Float(d), it.idProduto]]);
  }

  /**
   * A payload exists exactly when price and discount are both non-NULL; it
   * is one well-formed AD_TGSITE record, and each field read by name gives
   * the column it stands for, the price and discount as floats.
   */
  lemma PayloadFields(it: Item)
    ensures Payload(it).Some? <==> it.precoUnitario.Some? && it.desconto.Some?
    ensures Payload(it).Some? ==>
      var req := Payload(it).value;
      && req.serviceName == SaveService && req.entityName == Entity && !req.standAlone
      && |req.fields| == 6 && |req.records| == 1 && WellFormed(req)
      && FieldValue(req, 0, "IDITEM") == Some(it.idItem)
      && FieldValue(req, 0, "NUPED") == Some(it.idPedido)
      && FieldValue(req, 0, "QTDNEG") == Some(it.quantidade)
      && FieldValue(req, 0, "VLRUNIT") == Some(Float(it.precoUnitario.value))
      && FieldValue(req, 0, "DESCONTO") == Some(Float(it.desconto.value))
      && FieldValue(req, 0, "CODPROD") == Some(it.idProduto)
  {
    if Payload(it).Some? {
      var p, d := it.precoUnitario.value, it.desconto.value;
      assert Distinct(Fields);
      SaveRecordsFields(Entity, Fields, [[it.idItem, it.idPedido, it.quantidade, Float(p), Float(d), it.idProduto]]);
      FieldAt(it, p, d, 0); FieldAt(it, p, d, 1); FieldAt(it, p, d, 2);
      FieldAt(it, p, d, 3); FieldAt(it, p, d, 4); FieldAt(it, p, d, 5);
    }
  }

  /**
   * The loop over `pedido_itens`. Every row is processed; an item is flagged
   * only when its row repeats an earlier item or its own POST was accepted;
   * each distinct `id_item` costs one token fetch and at most one POST.
   */
  method Sync(items: seq<Item>, net: RowSync.Network, table: map<Value, bool>)
    returns (flags: map<Value, bool>, sent: seq<Request>, fetches: nat, outcomes: seq<RowSync.Outcome>)
    ensures var r := RowSync.Run(Policy, net, items, table);
      flags == r.table && sent == r.sent && fetches == r.fetches && outcomes == r.outcomes
    ensures |outcomes| == |items|
    ensures forall f :: Integrated(flags, f) <==>
      Integrated(table, f)
      || (f != Null && exists i :: 0 <= i < |items| && items[i].idItem == f && RowSync.Settles(Policy, net, items, i))
    ensures fetches == |RowSync.KeysOf(Policy, items)| && |sent| <= fetches
    ensures sent == RowSync.SentOf(Policy, net, items)
  {
    flags, sent, fetches, outcomes := RowSync.Sync(Policy, net, items, table);
    RowSync.RunOutcomes(Policy, net, items, table);
    RowSync.RunFlags(Policy, net, items, table);
    RowSync.RunCalls(Policy, net, items, table);
    RowSync.RunSent(Policy, net, items, table);
  }

  /** A repeated `id_item` is recorded as a duplicate, with no send, and flagged. */
  lemma RepeatedItemFlagged(items: seq<Item>, net: RowSync.Network, table: map<Value, bool>, i: nat, j: nat)
    requires i < j < |items| && items[i].idItem == items[j].idItem
    ensures |RowSync.Run(Policy, net, items, table).outcomes| == |items|
    ensures RowSync.Run(Policy, net, items, table).outcomes[j] == RowSync.Duplicate
    ensures items[j].idItem != Null ==> Integrated(RowSync.Run(Policy, net, items, table).table, items[j].idItem)
    ensures var before := RowSync.Run(Policy, net, items[..j], table);
      var after := RowSync.Run(Policy, net, items[..j + 1], table);
      after.sent == before.sent && after.fetches == before.fetches
  {
    assert RowSync.Repeats(Policy, items, j);
    RowSync.RepeatStep(Policy, net, items, table, j);
    RowSync.RunOutcomes(Policy, net, items, table);
    RowSync.RunFlags(Policy, net, items, table);
    assert RowSync.Settles(Policy, net, items, j);
  }

  /**
   * The first row of an `id_item` that does not appear again and was not
   * flagged before ends flagged exactly when its token fetch succeeded, both
   * `float()` calls succeeded, and its POST was accepted. So a NULL price or
   * discount leaves the item pending, and so does any rejected reply.
   */
  lemma FirstItemFlaggedIffAccepted(items: seq<Item>, net: RowSync.Network, table: map<Value, bool>, i: nat)
    requires i < |items| && !RowSync.Repeats(Policy, items, i)
    requires items[i].idItem != Null && !Integrated(table, items[i].idItem)
    requires forall j :: i < j < |items| ==> items[j].idItem != items[i].idItem
    ensures Integrated(RowSync.Run(Policy, net, items, table).table, items[i].idItem)
        <==> net.auth(i) && items[i].precoUnitario.Some? && items[i].desconto.Some?
             && RowVerdict(net.post(i)) == Accepted
  {
    RowSync.FirstOccurrenceFlags(Policy, net, items, table, i);
  }
}
