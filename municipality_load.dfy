/**
 * The municipality bulk load: the IBGE list of municipalities is fetched,
 * filtered to the entries that have both an `id` and a `nome`, cut into
 * chunks of 500 and sent to AD_TGSMDF one chunk per request. A chunk the
 * ERP refuses is re-sent one municipality per request; two counters,
 * `total_ok` and `total_fail`, tally the outcome.
 *
 * The first fallback (after a non-200 or ERROR reply to the chunk) sits
 * inside the chunk's `try`. A unit send that raises there, or whose 200
 * body is not JSON, leaves that fallback for the chunk's `except`, which
 * sends every municipality of the chunk again, counting each. Counts made
 * before the raise stay, so a chunk can be counted more than once.
 */
module MunicipalityLoad {
  import opened Wrappers
  import opened Sankhya

  const ChunkSize: nat := 500

  const Entity := "AD_TGSMDF"

  const Fields: seq<string> := ["ID", "MUNICIPIO"]

  /** `{"id": mid, "nome": nome}`. */
  datatype Municipio = Municipio(id: Value, nome: Value)

  // ---------------------------------------------------------------------
  // chunks(lst, size)

  /** `lst[i : i + size]` for i = 0, size, 2*size, ... below `len(lst)`. */
  function Chunks<T>(s: seq<T>, size: nat): seq<seq<T>>
    requires size > 0
    decreases |s|
  {
    if s == [] then []
    else if |s| <= size then [s]
    else [s[..size]] + Chunks(s[size..], size)
  }

  function Flatten<T>(cs: seq<seq<T>>): seq<T>
  {
    if cs == [] then [] else cs[0] + Flatten(cs[1..])
  }

  /**
   * The chunks put back together are the list; each is non-empty and at
   * most `size` long, and all but the last are exactly `size` long.
   */
  lemma {:induction false} ChunksShape<T>(s: seq<T>, size: nat)
    requires size > 0
    ensures var cs := Chunks(s, size);
      && Flatten(cs) == s
      && (forall k :: 0 <= k < |cs| ==> 0 < |cs[k]| <= size)
      && (forall k :: 0 <= k < |cs| - 1 ==> |cs[k]| == size)
    decreases |s|
  {
    if |s| > size {
      var cs := Chunks(s, size);
      ChunksShape(s[size..], size);
      assert cs[1..] == Chunks(s[size..], size);
      assert s[..size] + s[size..] == s;
      forall k | 0 < k < |cs| ensures cs[k] == Chunks(s[size..], size)[k - 1] { }
    }
  }

  /** There are ceil(n / 500) chunks of 500. */
  lemma {:induction false} ChunkCount<T>(s: seq<T>)
    ensures |Chunks(s, ChunkSize)| == (|s| + ChunkSize - 1) / ChunkSize
    decreases |s|
  {
    if |s| > ChunkSize {
      ChunkCount(s[ChunkSize..]);
    }
  }

  /** 1200 municipalities go out as chunks of 500, 500 and 200. */
  lemma TwelveHundredInThreeChunks<T>(s: seq<T>)
    requires |s| == 1200
    ensures var cs := Chunks(s, ChunkSize);
      |cs| == 3 && |cs[0]| == 500 && |cs[1]| == 500 && |cs[2]| == 200
  {
    var cs := Chunks(s, ChunkSize);
    assert cs == [s[..500]] + Chunks(s[500..], ChunkSize);
    assert Chunks(s[500..], ChunkSize) == [s[500..][..500]] + Chunks(s[500..][500..], ChunkSize);
    assert Chunks(s[500..][500..], ChunkSize) == [s[500..][500..]];
  }

  // ---------------------------------------------------------------------
  // obter_municipios_ibge

  /** An element of the IBGE list: a JSON object (a missing member or a JSON null reads as Null), or anything else. */
  datatype IbgeItem = Entry(id: Value, nome: Value) | NotObject

  datatype IbgeBody = Undecodable | NotList | Items(items: seq<IbgeItem>)

  datatype IbgeReply = IbgeRaised | IbgeReplied(code: int, body: IbgeBody)

  predicate Complete(it: IbgeItem)
  {
    it.Entry? && it.id != Null && it.nome != Null
  }

  /**
   * The filter loop: entries missing `id` or `nome` are skipped; an element
   * that is not an object has no `.get` and raises (None).
   */
  function Keep(items: seq<IbgeItem>): Option<seq<Municipio>>
  {
    if items == [] then Some([])
    else
      var n := |items| - 1;
      match Keep(items[..n])
      case None => None
      case Some(ms) =>
        match items[n]
        case NotObject => None
        case Entry(id, nome) => Some(if id == Null || nome == Null then ms else ms + [Municipio(id, nome)])
  }

  /** The whole function: None stands for each of its raises. */
  function Municipios(r: IbgeReply): Option<seq<Municipio>>
  {
    match r
    case IbgeRaised => None
    case IbgeReplied(code, body) =>
      if code != 200 then None
      else match body
        case Items(items) => Keep(items)
        case _ => None
  }

  lemma {:induction false} KeepNoneStays(items: seq<IbgeItem>, k: nat)
    requires k <= |items| && Keep(items[..k]).None?
    ensures Keep(items).None?
    decreases |items|
  {
    if k < |items| {
      var n := |items| - 1;
      assert items[..n][..k] == items[..k];
      KeepNoneStays(items[..n], k);
    } else {
      assert items[..k] == items;
    }
  }

  method FetchMunicipios(r: IbgeReply) returns (municipios: Option<seq<Municipio>>)
    ensures municipios == Municipios(r)
  {
    if r.IbgeRaised? || r.code != 200 || !r.body.Items? {
      return None;
    }
    var dados := r.body.items;
    var ms: seq<Municipio> := [];
    var j := 0;
    while j < |dados|
      invariant j <= |dados|
      invariant Keep(dados[..j]) == Some(ms)
    {
      assert dados[..j + 1][..j] == dados[..j];
      var item := dados[j];
      if item.NotObject? {
        KeepNoneStays(dados, j + 1);
        return None;
      }
      if item.id == Null || item.nome == Null {
        j := j + 1;
        continue;
      }
      ms := ms + [Municipio(item.id, item.nome)];
      j := j + 1;
    }
    assert dados[..j] == dados;
    municipios := Some(ms);
  }

  /** The filter succeeds exactly when every element is an object, and keeps exactly the complete entries. */
  lemma {:induction false} KeepMembers(items: seq<IbgeItem>)
    ensures Keep(items).Some? <==> forall j :: 0 <= j < |items| ==> items[j].Entry?
    ensures Keep(items).Some? ==> forall m ::
      m in Keep(items).value <==> exists j :: 0 <= j < |items| && Complete(items[j]) && items[j] == Entry(m.id, m.nome)
  {
    if items != [] {
      var n := |items| - 1;
      KeepMembers(items[..n]);
      forall j | 0 <= j < n ensures items[..n][j] == items[j] { }
      if Keep(items).Some? {
        var ms := Keep(items[..n]).value;
        forall m ensures m in Keep(items).value <==>
          exists j :: 0 <= j < |items| && Complete(items[j]) && items[j] == Entry(m.id, m.nome)
        {
          if m in ms {
            var j :| 0 <= j < n && Complete(items[..n][j]) && items[..n][j] == Entry(m.id, m.nome);
            assert items[j] == items[..n][j];
          }
          if exists j :: 0 <= j < n && Complete(items[j]) && items[j] == Entry(m.id, m.nome) {
            var j :| 0 <= j < n && Complete(items[j]) && items[j] == Entry(m.id, m.nome);
            assert items[..n][j] == items[j];
          }
        }
      }
    }
  }

  /** The filter keeps list order: filtering a concatenation filters each part and concatenates. */
  lemma {:induction false} KeepConcat(a: seq<IbgeItem>, b: seq<IbgeItem>)
    ensures Keep(a + b) == if Keep(a).Some? && Keep(b).Some? then Some(Keep(a).value + Keep(b).value) else None
    decreases |b|
  {
    if b == [] {
      assert a + b == a;
      if Keep(a).Some? {
        assert Keep(a).value + [] == Keep(a).value;
      }
    } else {
      var n := |b| - 1;
      assert (a + b)[..|a| + n] == a + b[..n];
      assert (a + b)[|a| + n] == b[n];
      KeepConcat(a, b[..n]);
      if Keep(a).Some? && Keep(b[..n]).Some? && b[n].Entry? {
        var x, y := Keep(a).value, Keep(b[..n]).value;
        var m := Municipio(b[n].id, b[n].nome);
        assert x + y + [m] == x + (y + [m]);
      }
    }
  }

  /** One element: a non-object fails, a complete entry is kept once, any other entry is dropped. */
  lemma KeepSingle(x: IbgeItem)
    ensures Keep([x]) == if x.NotObject? then None
      else Some(if Complete(x) then [Municipio(x.id, x.nome)] else [])
  {
    assert [x][..0] == [];
    assert Keep([x][..0]) == Some([]);
    if x.Entry? {
      assert [] + [Municipio(x.id, x.nome)] == [Municipio(x.id, x.nome)];
    }
  }

  /**
   * The same filter read from the front: each complete entry contributes
   * itself once, at its own place, and nothing else is kept.
   */
  function Kept(items: seq<IbgeItem>): seq<Municipio>
  {
    if items == [] then []
    else (if Complete(items[0]) then [Municipio(items[0].id, items[0].nome)] else []) + Kept(items[1..])
  }

  /** When the filter succeeds it keeps exactly the complete entries, each once and in input order. */
  lemma {:induction false} KeepIsKept(items: seq<IbgeItem>)
    ensures Keep(items).Some? ==> Keep(items).value == Kept(items)
  {
    if items != [] {
      assert items == [items[0]] + items[1..];
      KeepConcat([items[0]], items[1..]);
      KeepSingle(items[0]);
      KeepIsKept(items[1..]);
    }
  }

  // ---------------------------------------------------------------------
  // enviar_lote_para_sankhya and enviar_unitario

  function Columns(m: Municipio): seq<Value>
  {
    [m.id, m.nome]
  }

  function BatchRequest(lote: seq<Municipio>): Request
  {
    SaveRecords(Entity, Fields, seq(|lote|, k requires 0 <= k < |lote| => Columns(lote[k])))
  }

  function UnitRequest(m: Municipio): Request
  {
    Save(Entity, Fields, Columns(m))
  }

  /** One record per chunk member, in order, with "0" = id and "1" = nome. */
  lemma BatchRequestFields(lote: seq<Municipio>)
    ensures var req := BatchRequest(lote);
      && req.serviceName == SaveService && req.entityName == Entity && !req.standAlone
      && req.fields == ["ID", "MUNICIPIO"] && |req.records| == |lote| && WellFormed(req)
      && forall k :: 0 <= k < |lote| ==>
           FieldValue(req, k, "ID") == Some(lote[k].id) && FieldValue(req, k, "MUNICIPIO") == Some(lote[k].nome)
  {
    var rows := seq(|lote|, k requires 0 <= k < |lote| => Columns(lote[k]));
    SaveRecordsFields(Entity, Fields, rows);
    forall k | 0 <= k < |lote|
      ensures FieldValue(BatchRequest(lote), k, Fields[0]) == Some(lote[k].id)
      ensures FieldValue(BatchRequest(lote), k, Fields[1]) == Some(lote[k].nome)
    {
      assert rows[k][0] == lote[k].id && rows[k][1] == lote[k].nome;
    }
  }

  /** The unit request is the chunk request of a one-element chunk. */
  lemma UnitIsSingletonBatch(m: Municipio)
    ensures UnitRequest(m) == BatchRequest([m])
  {
    assert seq(1, k requires 0 <= k < 1 => Columns([m][k])) == [Columns(m)];
  }

  // ---------------------------------------------------------------------
  // The tally loop of the script's main block

  /**
   * The remote side: the reply to chunk c's request, and to the unit
   * request for member j of chunk c, in the first fallback (`retry` false)
   * or in the `except` pass (`retry` true).
   */
  datatype Uplink = Uplink(batch: nat -> Reply, unit: (nat, nat, bool) -> Reply)

  datatype Tally = Tally(ok: nat, fail: nat)

  /** What the first fallback counted, and whether a unit send raised out of it. */
  datatype Pass = Pass(ok: nat, fail: nat, raised: bool)

  /** The first fallback over the members of chunk c; Fault is a raise, which ends it. */
  function FirstPass(up: Uplink, c: nat, lote: seq<Municipio>): Pass
  {
    if lote == [] then Pass(0, 0, false)
    else
      var n := |lote| - 1;
      var p := FirstPass(up, c, lote[..n]);
      if p.raised then p
      else match DatasetVerdict(up.unit(c, n, false))
        case Accepted => p.(ok := p.ok + 1)
        case Fault => p.(raised := true)
        case _ => p.(fail := p.fail + 1)
  }

  /** The `except` pass: every member is sent once more and counted, its own raise included. */
  function RetryPass(up: Uplink, c: nat, lote: seq<Municipio>): Tally
  {
    if lote == [] then Tally(0, 0)
    else
      var n := |lote| - 1;
      var t := RetryPass(up, c, lote[..n]);
      if DatasetVerdict(up.unit(c, n, true)) == Accepted then t.(ok := t.ok + 1) else t.(fail := t.fail + 1)
  }

  function Add(t: Tally, d: Tally): Tally
  {
    Tally(t.ok + d.ok, t.fail + d.fail)
  }

  /** One iteration of the chunk loop, for chunk c, from the counters t. */
  function ChunkTally(up: Uplink, c: nat, lote: seq<Municipio>, t: Tally): Tally
  {
    match DatasetVerdict(up.batch(c))
    case Accepted => Tally(t.ok + |lote|, t.fail)
    case Fault => Add(t, RetryPass(up, c, lote))
    case _ =>
      var p := FirstPass(up, c, lote);
      var t1 := Tally(t.ok + p.ok, t.fail + p.fail);
      if p.raised then Add(t1, RetryPass(up, c, lote)) else t1
  }

  /** The counters after the chunk loop over `lotes`, starting from 0 and 0. */
  function UploadSpec(up: Uplink, lotes: seq<seq<Municipio>>): Tally
  {
    if lotes == [] then Tally(0, 0)
    else
      var n := |lotes| - 1;
      ChunkTally(up, n, lotes[n], UploadSpec(up, lotes[..n]))
  }

  lemma {:induction false} FirstPassRaisedStays(up: Uplink, c: nat, lote: seq<Municipio>, k: nat)
    requires k <= |lote| && FirstPass(up, c, lote[..k]).raised
    ensures FirstPass(up, c, lote) == FirstPass(up, c, lote[..k])
    decreases |lote|
  {
    if k < |lote| {
      var n := |lote| - 1;
      assert lote[..n][..k] == lote[..k];
      FirstPassRaisedStays(up, c, lote[..n], k);
    } else {
      assert lote[..k] == lote;
    }
  }

  /** Lines 87-94 (and 100-107): a unit send per member, counting into the running totals. */
  method FirstFallback(up: Uplink, c: nat, lote: seq<Municipio>, ok0: nat, fail0: nat)
    returns (ok: nat, fail: nat, raised: bool)
    ensures var p := FirstPass(up, c, lote); ok == ok0 + p.ok && fail == fail0 + p.fail && raised == p.raised
  {
    ok, fail, raised := ok0, fail0, false;
    var j := 0;
    while j < |lote|
      invariant j <= |lote|
      invariant var p := FirstPass(up, c, lote[..j]); ok == ok0 + p.ok && fail == fail0 + p.fail && !p.raised
    {
      assert lote[..j + 1][..j] == lote[..j];
      var v := DatasetVerdict(up.unit(c, j, false));
      if v == Fault {
        raised := true;
        FirstPassRaisedStays(up, c, lote, j + 1);
        return;
      }
      if v == Accepted {
        ok := ok + 1;
      } else {
        fail := fail + 1;
      }
      j := j + 1;
    }
    assert lote[..j] == lote;
  }

  /** Lines 110-121: every member once more, each one counted. */
  method RetryFallback(up: Uplink, c: nat, lote: seq<Municipio>, ok0: nat, fail0: nat)
    returns (ok: nat, fail: nat)
    ensures Tally(ok, fail) == Add(Tally(ok0, fail0), RetryPass(up, c, lote))
  {
    ok, fail := ok0, fail0;
    var j := 0;
    while j < |lote|
      invariant j <= |lote|
      invariant Tally(ok, fail) == Add(Tally(ok0, fail0), RetryPass(up, c, lote[..j]))
    {
      assert lote[..j + 1][..j] == lote[..j];
      if DatasetVerdict(up.unit(c, j, true)) == Accepted {
        ok := ok + 1;
      } else {
        fail := fail + 1;
      }
      j := j + 1;
    }
    assert lote[..j] == lote;
  }

  /** Lines 78-121: the chunk loop with its two counters. */
  method Upload(up: Uplink, municipios: seq<Municipio>) returns (ok: nat, fail: nat)
    ensures Tally(ok, fail) == UploadSpec(up, Chunks(municipios, ChunkSize))
  {
    var lotes := Chunks(municipios, ChunkSize);
    ok, fail := 0, 0;
    var c := 0;
    while c < |lotes|
      invariant c <= |lotes|
      invariant Tally(ok, fail) == UploadSpec(up, lotes[..c])
    {
      assert lotes[..c + 1][..c] == lotes[..c];
      var lote := lotes[c];
      var v := DatasetVerdict(up.batch(c));
      if v == Accepted {
        ok := ok + |lote|;
      } else {
        var raised := false;
        if v != Fault {
          ok, fail, raised := FirstFallback(up, c, lote, ok, fail);
        }
        if v == Fault || raised {
          ok, fail := RetryFallback(up, c, lote, ok, fail);
        }
      }
      c := c + 1;
    }
    assert lotes[..c] == lotes;
  }

  datatype Fatal = AuthFailed | IbgeFailed

  /** The whole main block: a failed token fetch or IBGE fetch is fatal; otherwise the final counters. */
  method Load(authorized: bool, ibge: IbgeReply, up: Uplink) returns (r: Result<Tally, Fatal>)
    ensures !authorized ==> r == Failure(AuthFailed)
    ensures authorized && Municipios(ibge).None? ==> r == Failure(IbgeFailed)
    ensures authorized && Municipios(ibge).Some? ==>
      r == Success(UploadSpec(up, Chunks(Municipios(ibge).value, ChunkSize)))
  {
    if !authorized {
      return Failure(AuthFailed);
    }
    var municipios := FetchMunicipios(ibge);
    if municipios.None? {
      return Failure(IbgeFailed);
    }
    var ok, fail := Upload(up, municipios.value);
    r := Success(Tally(ok, fail));
  }

  // ---------------------------------------------------------------------
  // What the counters mean

  /** The members below n of chunk c whose unit reply, in the first pass or the retry, is accepted. */
  function AcceptedIdx(up: Uplink, c: nat, n: nat, retry: bool): set<nat>
  {
    set j: nat | j < n && DatasetVerdict(up.unit(c, j, retry)) == Accepted
  }

  lemma AcceptedIdxSnoc(up: Uplink, c: nat, n: nat, retry: bool)
    ensures n !in AcceptedIdx(up, c, n, retry)
    ensures AcceptedIdx(up, c, n + 1, retry) ==
      AcceptedIdx(up, c, n, retry) + if DatasetVerdict(up.unit(c, n, retry)) == Accepted then {n} else {}
  {
  }

  /** At most one accepted member per member, and one for each exactly when all replies are accepted. */
  lemma {:induction false} AcceptedIdxSize(up: Uplink, c: nat, n: nat, retry: bool)
    ensures |AcceptedIdx(up, c, n, retry)| <= n
    ensures |AcceptedIdx(up, c, n, retry)| == n <==> forall j :: 0 <= j < n ==> DatasetVerdict(up.unit(c, j, retry)) == Accepted
  {
    if n > 0 {
      AcceptedIdxSize(up, c, n - 1, retry);
      AcceptedIdxSnoc(up, c, n - 1, retry);
    }
  }

  /** When every member but j is accepted, and j is not, one member fewer than there are is accepted. */
  lemma {:induction false} AcceptedIdxAllBut(up: Uplink, c: nat, n: nat, retry: bool, j: nat)
    requires j < n && DatasetVerdict(up.unit(c, j, retry)) != Accepted
    requires forall k :: 0 <= k < n && k != j ==> DatasetVerdict(up.unit(c, k, retry)) == Accepted
    ensures |AcceptedIdx(up, c, n, retry)| == n - 1
  {
    AcceptedIdxSnoc(up, c, n - 1, retry);
    if j < n - 1 {
      AcceptedIdxAllBut(up, c, n - 1, retry, j);
    } else {
      AcceptedIdxSize(up, c, n - 1, retry);
    }
  }

  /**
   * The `except` pass counts every member exactly once: ok counts the
   * members whose reply was accepted and fail every other member, so ok
   * counts them all exactly when every reply was accepted.
   */
  lemma {:induction false} RetryPassCounts(up: Uplink, c: nat, lote: seq<Municipio>)
    ensures var t := RetryPass(up, c, lote);
      && t.ok == |AcceptedIdx(up, c, |lote|, true)|
      && t.ok + t.fail == |lote|
      && (t.ok == |lote| <==> forall j :: 0 <= j < |lote| ==> DatasetVerdict(up.unit(c, j, true)) == Accepted)
  {
    if lote != [] {
      RetryPassCounts(up, c, lote[..|lote| - 1]);
      AcceptedIdxSnoc(up, c, |lote| - 1, true);
    }
    AcceptedIdxSize(up, c, |lote|, true);
  }

  /**
   * The first fallback counts one per member until a unit send raises:
   * without a raise every member is counted; with one, the members before
   * it are counted and the one that raised is not. Of the members
   * counted, ok holds those whose reply was accepted and fail the rest.
   */
  lemma {:induction false} FirstPassCounts(up: Uplink, c: nat, lote: seq<Municipio>)
    ensures var p := FirstPass(up, c, lote);
      && p.ok == |AcceptedIdx(up, c, p.ok + p.fail, false)|
      && (!p.raised ==> p.ok + p.fail == |lote|)
      && (p.raised ==> p.ok + p.fail < |lote| && DatasetVerdict(up.unit(c, p.ok + p.fail, false)) == Fault)
      && (p.raised <==> exists j :: 0 <= j < |lote| && DatasetVerdict(up.unit(c, j, false)) == Fault)
  {
    if lote != [] {
      var n := |lote| - 1;
      FirstPassCounts(up, c, lote[..n]);
      AcceptedIdxSnoc(up, c, n, false);
    }
  }

  /** Whether chunk c's first fallback ran and a unit send raised out of it. */
  predicate Escapes(up: Uplink, c: nat, lote: seq<Municipio>)
  {
    DatasetVerdict(up.batch(c)) in {HttpError, AppError} && FirstPass(up, c, lote).raised
  }

  /**
   * A chunk adds at least one count per member; exactly one per member
   * unless a unit send escapes the first fallback, and then fewer than two
   * per member: the members counted before the raise are counted twice. Neither counter ever goes down.
   */
  lemma ChunkCounts(up: Uplink, c: nat, lote: seq<Municipio>, t: Tally)
    ensures var t1 := ChunkTally(up, c, lote, t);
      && t1.ok >= t.ok && t1.fail >= t.fail
      && (!Escapes(up, c, lote) ==> t1.ok + t1.fail == t.ok + t.fail + |lote|)
      && (Escapes(up, c, lote) ==> t.ok + t.fail + |lote| <= t1.ok + t1.fail < t.ok + t.fail + 2 * |lote|)
  {
    RetryPassCounts(up, c, lote);
    FirstPassCounts(up, c, lote);
  }
  /**
   * What one chunk adds to each counter. An accepted chunk adds every
   * member to ok. Otherwise each fallback pass that runs adds its accepted
   * members to ok and its other members to fail: the retry alone after a
   * raise from the chunk's send, the first pass alone when it completes,
   * and after a raise out of the first pass, the members it counted before
   * the raise plus the whole retry.
   */
  lemma ChunkSplit(up: Uplink, c: nat, lote: seq<Municipio>, t: Tally)
    ensures var v := DatasetVerdict(up.batch(c));
      var t1 := ChunkTally(up, c, lote, t);
      var p := FirstPass(up, c, lote);
      var a := |AcceptedIdx(up, c, p.ok + p.fail, false)|;
      var r := |AcceptedIdx(up, c, |lote|, true)|;
      && (v == Accepted ==> t1 == Tally(t.ok + |lote|, t.fail))
      && (v == Fault ==> t1.ok == t.ok + r && t1.fail + r == t.fail + |lote|)
      && (v != Accepted && v != Fault && !p.raised ==>
            p.ok + p.fail == |lote| && t1.ok == t.ok + a && t1.fail + a == t.fail + |lote|)
      && (Escapes(up, c, lote) ==>
            t1.ok == t.ok + a + r && t1.fail + a + r == t.fail + p.ok + p.fail + |lote|)
  {
    FirstPassCounts(up, c, lote);
    RetryPassCounts(up, c, lote);
  }

  /**
   * A refused chunk whose members are all accepted one by one except one
   * refused member adds all but one to ok and exactly one to fail.
   */
  lemma OneRefusedMember(up: Uplink, c: nat, lote: seq<Municipio>, t: Tally, j: nat)
    requires DatasetVerdict(up.batch(c)) in {HttpError, AppError}
    requires j < |lote| && DatasetVerdict(up.unit(c, j, false)) in {HttpError, AppError}
    requires forall k :: 0 <= k < |lote| && k != j ==> DatasetVerdict(up.unit(c, k, false)) == Accepted
    ensures ChunkTally(up, c, lote, t) == Tally(t.ok + |lote| - 1, t.fail + 1)
  {
    FirstPassCounts(up, c, lote);
    ChunkSplit(up, c, lote, t);
    AcceptedIdxAllBut(up, c, |lote|, false, j);
  }

  /** A refused chunk whose members are all accepted one by one adds every member to ok. */
  lemma FallbackAllAccepted(up: Uplink, c: nat, lote: seq<Municipio>, t: Tally)
    requires DatasetVerdict(up.batch(c)) in {HttpError, AppError}
    requires forall k :: 0 <= k < |lote| ==> DatasetVerdict(up.unit(c, k, false)) == Accepted
    ensures ChunkTally(up, c, lote, t) == Tally(t.ok + |lote|, t.fail)
  {
    FirstPassCounts(up, c, lote);
    ChunkSplit(up, c, lote, t);
    AcceptedIdxSize(up, c, |lote|, false);
  }


  /** An accepted chunk adds its size to `total_ok` and nothing to `total_fail`. */
  lemma AcceptedChunk(up: Uplink, c: nat, lote: seq<Municipio>, t: Tally)
    requires DatasetVerdict(up.batch(c)) == Accepted
    ensures ChunkTally(up, c, lote, t) == Tally(t.ok + |lote|, t.fail)
  {
  }

  lemma FlattenSnoc<T>(cs: seq<seq<T>>, x: seq<T>)
    ensures Flatten(cs + [x]) == Flatten(cs) + x
  {
    if cs != [] {
      assert (cs + [x])[1..] == cs[1..] + [x];
      FlattenSnoc(cs[1..], x);
    }
  }

  /**
   * Over the whole loop: the counters only grow; their sum is at least the
   * number of municipalities sent, and equals it when no chunk's unit send
   * escapes its first fallback.
   */
  lemma {:induction false} UploadCounts(up: Uplink, lotes: seq<seq<Municipio>>)
    ensures var t := UploadSpec(up, lotes);
      && t.ok + t.fail >= |Flatten(lotes)|
      && ((forall c :: 0 <= c < |lotes| ==> !Escapes(up, c, lotes[c])) ==> t.ok + t.fail == |Flatten(lotes)|)
  {
    if lotes != [] {
      var n := |lotes| - 1;
      UploadCounts(up, lotes[..n]);
      ChunkCounts(up, n, lotes[n], UploadSpec(up, lotes[..n]));
      FlattenSnoc(lotes[..n], lotes[n]);
      assert lotes[..n] + [lotes[n]] == lotes;
      if forall c :: 0 <= c < |lotes| ==> !Escapes(up, c, lotes[c]) {
        forall c | 0 <= c < n ensures !Escapes(up, c, lotes[..n][c]) {
          assert lotes[..n][c] == lotes[c];
        }
      }
    }
  }

  /** The same for the chunks of 500 actually sent: a count per municipality when nothing escapes. */
  lemma UploadConserves(up: Uplink, municipios: seq<Municipio>)
    ensures var lotes := Chunks(municipios, ChunkSize); var t := UploadSpec(up, lotes);
      && t.ok + t.fail >= |municipios|
      && ((forall c :: 0 <= c < |lotes| ==> !Escapes(up, c, lotes[c])) ==> t.ok + t.fail == |municipios|)
  {
    ChunksShape(municipios, ChunkSize);
    UploadCounts(up, Chunks(municipios, ChunkSize));
  }

  /** When every chunk request is accepted, every municipality counts as a success. */
  lemma {:induction false} AllChunksAccepted(up: Uplink, lotes: seq<seq<Municipio>>)
    requires forall c :: 0 <= c < |lotes| ==> DatasetVerdict(up.batch(c)) == Accepted
    ensures UploadSpec(up, lotes) == Tally(|Flatten(lotes)|, 0)
  {
    if lotes != [] {
      var n := |lotes| - 1;
      AllChunksAccepted(up, lotes[..n]);
      FlattenSnoc(lotes[..n], lotes[n]);
      assert lotes[..n] + [lotes[n]] == lotes;
    }
  }

  /**
   * Two municipalities, one chunk: the chunk reply is HTTP 500, the first
   * unit send is accepted, the second raises; the `except` pass then
   * accepts both. Three successes are counted for two municipalities.
   */
  lemma OverCount()
    ensures var lote := [Municipio(Int(1), Text("A")), Municipio(Int(2), Text("B"))];
      var up := Uplink((c: nat) => Replied(Response(500, Object(None))),
        (c: nat, j: nat, retry: bool) => if !retry && j == 1 then Raised else Replied(Response(200, Object(None))));
      UploadSpec(up, [lote]) == Tally(3, 0)
  {
    var lote := [Municipio(Int(1), Text("A")), Municipio(Int(2), Text("B"))];
    var up := Uplink((c: nat) => Replied(Response(500, Object(None))),
      (c: nat, j: nat, retry: bool) => if !retry && j == 1 then Raised else Replied(Response(200, Object(None))));
    var none: seq<seq<Municipio>> := [];
    assert [lote][..0] == none;
    assert lote[..1][..0] == [] && lote[..1] == [lote[0]];
    assert FirstPass(up, 0, lote[..1]) == Pass(1, 0, false);
    assert FirstPass(up, 0, lote) == Pass(1, 0, true);
    assert RetryPass(up, 0, lote[..1]) == Tally(1, 0);
    assert RetryPass(up, 0, lote) == Tally(2, 0);
  }

  // ---------------------------------------------------------------------
  // The evident intent: each unit send in the first fallback is judged on
  // its own, a raise counting as one failure, so no chunk is counted twice.

  function IsolatedPass(up: Uplink, c: nat, lote: seq<Municipio>): Tally
  {
    if lote == [] then Tally(0, 0)
    else
      var n := |lote| - 1;
      var t := IsolatedPass(up, c, lote[..n]);
      if DatasetVerdict(up.unit(c, n, false)) == Accepted then t.(ok := t.ok + 1) else t.(fail := t.fail + 1)
  }

  /** The corrected chunk loop: a refused chunk is re-sent member by member, each member counted once. */
  function UploadIsolated(up: Uplink, lotes: seq<seq<Municipio>>): Tally
  {
    if lotes == [] then Tally(0, 0)
    else
      var n := |lotes| - 1;
      var t := UploadIsolated(up, lotes[..n]);
      if DatasetVerdict(up.batch(n)) == Accepted then Tally(t.ok + |lotes[n]|, t.fail)
      else Add(t, IsolatedPass(up, n, lotes[n]))
  }

  /** Corrected, the first fallback counts each member once: ok the accepted ones, fail the rest. */
  lemma {:induction false} IsolatedPassCounts(up: Uplink, c: nat, lote: seq<Municipio>)
    ensures IsolatedPass(up, c, lote).ok == |AcceptedIdx(up, c, |lote|, false)|
    ensures IsolatedPass(up, c, lote).ok + IsolatedPass(up, c, lote).fail == |lote|
  {
    if lote != [] {
      IsolatedPassCounts(up, c, lote[..|lote| - 1]);
      AcceptedIdxSnoc(up, c, |lote| - 1, false);
    }
  }

  /** Corrected, every municipality is counted exactly once, whatever the replies. */
  lemma {:induction false} UploadIsolatedConserves(up: Uplink, lotes: seq<seq<Municipio>>)
    ensures UploadIsolated(up, lotes).ok + UploadIsolated(up, lotes).fail == |Flatten(lotes)|
  {
    if lotes != [] {
      var n := |lotes| - 1;
      UploadIsolatedConserves(up, lotes[..n]);
      IsolatedPassCounts(up, n, lotes[n]);
      FlattenSnoc(lotes[..n], lotes[n]);
      assert lotes[..n] + [lotes[n]] == lotes;
    }
  }

  /** The two loops agree whenever no unit send escapes a first fallback. */
  lemma {:induction false} IsolatedAgreesWithoutEscape(up: Uplink, lotes: seq<seq<Municipio>>)
    requires forall c :: 0 <= c < |lotes| ==> DatasetVerdict(up.batch(c)) != Fault && !Escapes(up, c, lotes[c])
    ensures UploadIsolated(up, lotes) == UploadSpec(up, lotes)
  {
    if lotes != [] {
      var n := |lotes| - 1;
      forall c | 0 <= c < n ensures DatasetVerdict(up.batch(c)) != Fault && !Escapes(up, c, lotes[..n][c]) {
        assert lotes[..n][c] == lotes[c];
      }
      IsolatedAgreesWithoutEscape(up, lotes[..n]);
      if DatasetVerdict(up.batch(n)) != Accepted {
        FirstPassIsolated(up, n, lotes[n]);
      }
    }
  }

  lemma {:induction false} FirstPassIsolated(up: Uplink, c: nat, lote: seq<Municipio>)
    requires !FirstPass(up, c, lote).raised
    ensures IsolatedPass(up, c, lote) == Tally(FirstPass(up, c, lote).ok, FirstPass(up, c, lote).fail)
  {
    if lote != [] {
      FirstPassIsolated(up, c, lote[..|lote| - 1]);
    }
  }
}
