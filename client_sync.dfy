/**
 * The client script: pending `clientes` rows are deduplicated on
 * `documento` but flagged by `id_cliente`, and each new document is sent
 * as one twelve-field AD_TGSPAR record.
 */
module ClientSync {
  import opened Wrappers
  import opened Sankhya
  import RowSync

  /** The projection the script selects from `clientes`, column by column. */
  datatype Cliente = Cliente(
    idCliente: Value, nome: Value, documento: Value, email: Value, telefone: Value, rua: Value,
    numero: Value, cep: Value, bairro: Value, cidade: Value, estado: Value, complemento: Value)

  const Entity := "AD_TGSPAR"

  const Fields: seq<string> :=
    ["ID", "RAZAOSOCIAL", "DOCUMENTO", "EMAIL", "TELEFONE", "ENDERECO", "NUMERO", "CEP", "BAIRRO", "CODCID", "SIGLA", "COMPLEMENTO"]

  function Columns(c: Cliente): seq<Value>
  {
    [c.idCliente, c.nome, c.documento, c.email, c.telefone, c.rua, c.numero, c.cep, c.bairro, c.cidade, c.estado, c.complemento]
  }

  function Payload(c: Cliente): Request
  {
    Save(Entity, Fields, Columns(c))
  }

  const Policy: RowSync.Policy<Cliente> :=
    RowSync.Policy((c: Cliente) => c.documento, (c: Cliente) => c.idCliente, (c: Cliente) => Some(Payload(c)))

  lemma FieldAt(c: Cliente, i: nat)
    requires i < |Fields|
    ensures FieldValue(Payload(c), 0, Fields[i]) == Some(Columns(c)[i])
  {
    assert Distinct(Fields);
    SaveRecordsFields(Entity, Fields, [Columns(c)]);
  }

  /**
   * The payload is one well-formed AD_TGSPAR record with one value per
   * field, and reading each field by name gives the column it stands for.
   */
  lemma PayloadFields(c: Cliente)
    ensures var req := Payload(c);
      && req.serviceName == SaveService && req.entityName == Entity && !req.standAlone
      && |req.fields| == 12 && |req.records| == 1 && WellFormed(req)
      && |req.records[0].values.Keys| == |req.fields|
      && FieldValue(req, 0, "ID") == Some(c.idCliente)
      && FieldValue(req, 0, "RAZAOSOCIAL") == Some(c.nome)
      && FieldValue(req, 0, "DOCUMENTO") == Some(c.documento)
      && FieldValue(req, 0, "EMAIL") == Some(c.email)
      && FieldValue(req, 0, "TELEFONE") == Some(c.telefone)
      && FieldValue(req, 0, "ENDERECO") == Some(c.rua)
      && FieldValue(req, 0, "NUMERO") == Some(c.numero)
      && FieldValue(req, 0, "CEP") == Some(c.cep)
      && FieldValue(req, 0, "BAIRRO") == Some(c.bairro)
      && FieldValue(req, 0, "CODCID") == Some(c.cidade)
      && FieldValue(req, 0, "SIGLA") == Some(c.estado)
      && FieldValue(req, 0, "COMPLEMENTO") == Some(c.complemento)
  {
    assert Distinct(Fields);
    SaveRecordsFields(Entity, Fields, [Columns(c)]);
    PositionalAt(Columns(c));
    FieldAt(c, 0); FieldAt(c, 1); FieldAt(c, 2); FieldAt(c, 3); FieldAt(c, 4); FieldAt(c, 5);
    FieldAt(c, 6); FieldAt(c, 7); FieldAt(c, 8); FieldAt(c, 9); FieldAt(c, 10); FieldAt(c, 11);
  }

  /**
   * The loop over `clientes`. Every row is processed; a client is flagged
   * only when its row repeats an earlier document or its own POST was
   * accepted; each distinct document costs one token fetch and at most one POST.
   */
  method Sync(clientes: seq<Cliente>, net: RowSync.Network, table: map<Value, bool>)
    returns (flags: map<Value, bool>, sent: seq<Request>, fetches: nat, outcomes: seq<RowSync.Outcome>)
    ensures var r := RowSync.Run(Policy, net, clientes, table);
      flags == r.table && sent == r.sent && fetches == r.fetches && outcomes == r.outcomes
    ensures |outcomes| == |clientes|
    ensures forall f :: Integrated(flags, f) <==>
      Integrated(table, f)
      || (f != Null && exists i :: 0 <= i < |clientes| && clientes[i].idCliente == f && RowSync.Settles(Policy, net, clientes, i))
    ensures fetches == |RowSync.KeysOf(Policy, clientes)| && |sent| <= fetches
    ensures sent == RowSync.SentOf(Policy, net, clientes)
  {
    flags, sent, fetches, outcomes := RowSync.Sync(Policy, net, clientes, table);
    RowSync.RunOutcomes(Policy, net, clientes, table);
    RowSync.RunFlags(Policy, net, clientes, table);
    RowSync.RunCalls(Policy, net, clientes, table);
    RowSync.RunSent(Policy, net, clientes, table);
  }

  /**
   * A row whose `documento` was already seen is flagged under its own
   * `id_cliente` (when that is not NULL) and sends nothing, whatever
   * happened to the earlier row.
   */
  lemma RepeatedDocumentFlagsOwnClient(clientes: seq<Cliente>, net: RowSync.Network, table: map<Value, bool>, i: nat, j: nat)
    requires i < j < |clientes| && clientes[i].documento == clientes[j].documento
    ensures |RowSync.Run(Policy, net, clientes, table).outcomes| == |clientes|
    ensures RowSync.Run(Policy, net, clientes, table).outcomes[j] == RowSync.Duplicate
    ensures clientes[j].idCliente != Null ==> Integrated(RowSync.Run(Policy, net, clientes, table).table, clientes[j].idCliente)
    ensures var before := RowSync.Run(Policy, net, clientes[..j], table);
      var after := RowSync.Run(Policy, net, clientes[..j + 1], table);
      after.sent == before.sent && after.fetches == before.fetches
  {
    assert RowSync.Repeats(Policy, clientes, j);
    RowSync.RepeatStep(Policy, net, clientes, table, j);
    RowSync.RunOutcomes(Policy, net, clientes, table);
    RowSync.RunFlags(Policy, net, clientes, table);
    assert RowSync.Settles(Policy, net, clientes, j);
  }

  /**
   * For the first row of a document whose `id_cliente` no other row of the
   * batch carries and that was not already flagged: the client ends flagged
   * exactly when its token fetch succeeded and its POST was accepted.
   */
  lemma FirstDocumentFlaggedIffAccepted(clientes: seq<Cliente>, net: RowSync.Network, table: map<Value, bool>, i: nat)
    requires i < |clientes| && !RowSync.Repeats(Policy, clientes, i)
    requires clientes[i].idCliente != Null && !Integrated(table, clientes[i].idCliente)
    requires forall j :: 0 <= j < |clientes| && j != i ==> clientes[j].idCliente != clientes[i].idCliente
    ensures Integrated(RowSync.Run(Policy, net, clientes, table).table, clientes[i].idCliente)
        <==> net.auth(i) && RowVerdict(net.post(i)) == Accepted
  {
    RowSync.RunFlags(Policy, net, clientes, table);
  }
}
