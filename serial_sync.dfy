/**
 * The serial-number script: pending `pedido_itens` rows are deduplicated
 * and flagged (`integradoser`) by `id_item`; each new row's `numeros_serie`
 * JSON list is sent one AD_TGSSER record per serial number.
 *
 * Three things set it apart from the other per-row scripts. Only the
 * response held after the inner loop is checked. `response` is a
 * module-level variable, so it outlives the row that set it: a row with an
 * empty serial list is judged on an earlier row's last response (and raises
 * NameError, caught, when there is none yet). And a non-200 or ERROR reply
 * executes `break`, which ends the loop over the remaining rows.
 */
module SerialSync {
  import opened Wrappers
  import opened Sankhya

  /** A row: `numeros_serie` is None when `json.loads` fails or yields something other than a list. */
  datatype Row = Row(idItem: Value, idPedido: Value, numerosSerie: Option<seq<Value>>)

  const Entity := "AD_TGSSER"

  const Fields: seq<string> := ["IDITEM", "NUPED", "SERIE"]

  function SerialRequest(row: Row, serie: Value): Request
  {
    Save(Entity, Fields, [row.idItem, row.idPedido, serie])
  }

  /** One well-formed AD_TGSSER record: IDITEM is the row's id_item, NUPED its id_pedido, SERIE the serial. */
  lemma SerialRequestFields(row: Row, serie: Value)
    ensures var req := SerialRequest(row, serie);
      && req.serviceName == SaveService && req.entityName == Entity && !req.standAlone
      && req.fields == Fields && |req.records| == 1 && WellFormed(req)
      && FieldValue(req, 0, "IDITEM") == Some(row.idItem)
      && FieldValue(req, 0, "NUPED") == Some(row.idPedido)
      && FieldValue(req, 0, "SERIE") == Some(serie)
  {
    var vs := [row.idItem, row.idPedido, serie];
    assert Distinct(Fields);
    SaveRecordsFields(Entity, Fields, [vs]);
    assert Fields[0] == "IDITEM" && Fields[1] == "NUPED" && Fields[2] == "SERIE";
    assert [vs][0][0] == row.idItem && [vs][0][1] == row.idPedido && [vs][0][2] == serie;
  }

  /**
   * The remote side: whether the token fetch for row i succeeds, and what
   * the POST for serial j of row i returns.
   */
  datatype Network = Network(auth: nat -> bool, post: (nat, nat) -> Reply)

  datatype Outcome =
    | Duplicate              // key already seen: flagged, nothing sent
    | AuthFailed             // token fetch raised
    | Unparsable             // serial list not a JSON list: `continue`
    | PostRaised             // a POST raised: the handler catches it
    | NoResponse             // no POST ever returned in this run: NameError, caught
    | Checked(verdict: Verdict)

  /** The outcomes that execute `break`. */
  predicate Breaks(o: Outcome)
  {
    o == Checked(HttpError) || o == Checked(AppError)
  }

  /** What the inner loop leaves: the POSTs it made, the `response` variable, and whether a POST raised. */
  datatype Burst = Burst(sent: seq<Request>, last: Option<Response>, raised: bool)

  /** The inner loop over `series` for row i, entered with `response` holding `last`. */
  function Posts(net: Network, i: nat, row: Row, series: seq<Value>, last: Option<Response>): Burst
  {
    if series == [] then Burst([], last, false)
    else
      var n := |series| - 1;
      var b := Posts(net, i, row, series[..n], last);
      if b.raised then b
      else
        var rep := net.post(i, n);
        Burst(b.sent + [SerialRequest(row, series[n])], if rep.Raised? then b.last else Some(rep.response), rep.Raised?)
  }

  datatype State = State(
    seen: set<Value>,
    table: map<Value, bool>,
    sent: seq<Request>,
    fetches: nat,
    last: Option<Response>,
    stopped: bool,
    outcomes: seq<Outcome>)

  /** The try block for a row whose key is new: its outcome, its POSTs, and `response` afterwards. */
  function Try(net: Network, last: Option<Response>, i: nat, row: Row): (Outcome, seq<Request>, Option<Response>)
  {
    if !net.auth(i) then (AuthFailed, [], last)
    else match row.numerosSerie
      case None => (Unparsable, [], last)
      case Some(series) =>
        var b := Posts(net, i, row, series, last);
        if b.raised then (PostRaised, b.sent, b.last)
        else if b.last.None? then (NoResponse, b.sent, b.last)
        else (Checked(ResponseVerdict(b.last.value)), b.sent, b.last)
  }

  /** One iteration of the outer loop, for row i. */
  function Step(net: Network, st: State, i: nat, row: Row): State
  {
    if row.idItem in st.seen then
      st.(table := Mark(st.table, row.idItem), outcomes := st.outcomes + [Duplicate])
    else
      var (o, posted, last) := Try(net, st.last, i, row);
      st.(seen := st.seen + {row.idItem},
          fetches := st.fetches + 1,
          sent := st.sent + posted,
          last := last,
          table := if o == Checked(Accepted) then Mark(st.table, row.idItem) else st.table,
          stopped := Breaks(o),
          outcomes := st.outcomes + [o])
  }

  /** The state after the outer loop over `rows`; once a row breaks, later rows are not visited. */
  function Run(net: Network, rows: seq<Row>, table: map<Value, bool>): State
  {
    if rows == [] then State({}, table, [], 0, None, false, [])
    else
      var n := |rows| - 1;
      var st := Run(net, rows[..n], table);
      if st.stopped then st else Step(net, st, n, rows[n])
  }

  lemma {:induction false} PostsRaisedStays(net: Network, i: nat, row: Row, series: seq<Value>, last: Option<Response>, k: nat)
    requires k <= |series| && Posts(net, i, row, series[..k], last).raised
    ensures Posts(net, i, row, series, last) == Posts(net, i, row, series[..k], last)
    decreases |series|
  {
    if k < |series| {
      var n := |series| - 1;
      assert series[..n][..k] == series[..k];
      PostsRaisedStays(net, i, row, series[..n], last, k);
    } else {
      assert series[..k] == series;
    }
  }

  lemma {:induction false} RunStoppedStays(net: Network, rows: seq<Row>, table: map<Value, bool>, k: nat)
    requires k <= |rows| && Run(net, rows[..k], table).stopped
    ensures Run(net, rows, table) == Run(net, rows[..k], table)
    decreases |rows|
  {
    if k < |rows| {
      var n := |rows| - 1;
      assert rows[..n][..k] == rows[..k];
      RunStoppedStays(net, rows[..n], table, k);
      assert Run(net, rows[..n], table).stopped;
    } else {
      assert rows[..k] == rows;
    }
  }

  /** The inner loop: one POST per serial number, in order, keeping only the latest response. */
  method PostSerials(net: Network, i: nat, row: Row, series: seq<Value>, entry: Option<Response>)
    returns (posted: seq<Request>, response: Option<Response>, raised: bool)
    ensures Burst(posted, response, raised) == Posts(net, i, row, series, entry)
  {
    posted, response, raised := [], entry, false;
    var j := 0;
    while j < |series|
      invariant j <= |series|
      invariant Burst(posted, response, false) == Posts(net, i, row, series[..j], entry)
    {
      assert series[..j + 1][..j] == series[..j];
      posted := posted + [SerialRequest(row, series[j])];
      var rep := net.post(i, j);
      if rep.Raised? {
        raised := true;
        PostsRaisedStays(net, i, row, series, entry, j + 1);
        return;
      }
      response := Some(rep.response);
      j := j + 1;
    }
    assert series[..j] == series;
  }

  /** The try block for a row with a new key: token fetch, list parse, the POSTs and the check of `response`. */
  method TryRow(net: Network, i: nat, row: Row, entry: Option<Response>)
    returns (o: Outcome, posted: seq<Request>, response: Option<Response>)
    ensures (o, posted, response) == Try(net, entry, i, row)
  {
    posted, response := [], entry;
    if !net.auth(i) {
      return AuthFailed, posted, response;
    }
    if row.numerosSerie.None? {
      return Unparsable, posted, response;
    }
    var raised;
    posted, response, raised := PostSerials(net, i, row, row.numerosSerie.value, entry);
    if raised {
      o := PostRaised;
    } else if response.None? {
      o := NoResponse;
    } else {
      o := Checked(ResponseVerdict(response.value));
    }
  }

  /** The loop over `pedido_itens`. */
  method Sync(rows: seq<Row>, net: Network, table: map<Value, bool>)
    returns (flags: map<Value, bool>, sent: seq<Request>, fetches: nat, outcomes: seq<Outcome>)
    ensures var r := Run(net, rows, table);
      flags == r.table && sent == r.sent && fetches == r.fetches && outcomes == r.outcomes
  {
    var seen: set<Value> := {};
    var response: Option<Response> := None;
    var stop := false;
    flags, sent, fetches, outcomes := table, [], 0, [];
    var i := 0;
    while i < |rows|
      invariant i <= |rows| && !stop
      invariant State(seen, flags, sent, fetches, response, stop, outcomes) == Run(net, rows[..i], table)
    {
      assert rows[..i + 1][..i] == rows[..i];
      var row := rows[i];
      ghost var before := Run(net, rows[..i], table);
      assert Run(net, rows[..i + 1], table) == Step(net, before, i, row);
      if row.idItem in seen {
        flags := Mark(flags, row.idItem);
        outcomes := outcomes + [Duplicate];
        i := i + 1;
        continue;
      }
      seen := seen + {row.idItem};
      fetches := fetches + 1;
      var o, posted;
      o, posted, response := TryRow(net, i, row, response);
      sent := sent + posted;
      if Breaks(o) {
        outcomes := outcomes + [o];
        stop := true;
        i := i + 1;
        break;
      }
      if o == Checked(Accepted) {
        flags := Mark(flags, row.idItem);
      }
      outcomes := outcomes + [o];
      i := i + 1;
    }
    if stop {
      RunStoppedStays(net, rows, table, i);
    } else {
      assert rows[..i] == rows;
    }
  }

  // ---------------------------------------------------------------------
  // What the loops guarantee

  /**
   * The inner loop makes one POST per serial number, in list order, each
   * carrying IDITEM, NUPED and that SERIE; it stops at the first POST that
   * raises; when none raises, `response` ends holding the reply to the last
   * serial, or what it held before when the list is empty.
   */
  lemma {:induction false} PostsShape(net: Network, i: nat, row: Row, series: seq<Value>, last: Option<Response>)
    ensures var b := Posts(net, i, row, series, last);
      && |b.sent| <= |series|
      && (forall k :: 0 <= k < |b.sent| ==> b.sent[k] == SerialRequest(row, series[k]))
      && (b.raised <==> exists j :: 0 <= j < |series| && net.post(i, j).Raised?)
      && (!b.raised ==>
            |b.sent| == |series| && b.last == if series == [] then last else Some(net.post(i, |series| - 1).response))
      && (b.raised ==>
            0 < |b.sent| && net.post(i, |b.sent| - 1).Raised? && forall k :: 0 <= k < |b.sent| - 1 ==> !net.post(i, k).Raised?)
  {
    if series != [] {
      var n := |series| - 1;
      PostsShape(net, i, row, series[..n], last);
      var b0 := Posts(net, i, row, series[..n], last);
      if b0.raised {
        var j :| 0 <= j < n && net.post(i, j).Raised?;
        assert series[..n][j] == series[j];
        forall k | 0 <= k < |b0.sent| ensures b0.sent[k] == SerialRequest(row, series[k]) {
          assert series[..n][k] == series[k];
        }
      } else {
        forall k | 0 <= k < n + 1 ensures Posts(net, i, row, series, last).sent[k] == SerialRequest(row, series[k]) {
          if k < n { assert series[..n][k] == series[k]; }
        }
      }
    }
  }

  /** The outcome one step records for row i. */
  function StepOutcome(net: Network, st: State, i: nat, row: Row): Outcome
  {
    if row.idItem in st.seen then Duplicate else Try(net, st.last, i, row).0
  }

  /** What one step adds: one outcome, the row's key, a fetch when the key is new, and the stop flag. */
  lemma StepEffect(net: Network, st: State, i: nat, row: Row)
    ensures var s := Step(net, st, i, row); var o := StepOutcome(net, st, i, row);
      && s.outcomes == st.outcomes + [o]
      && s.seen == st.seen + {row.idItem}
      && s.fetches == st.fetches + (if row.idItem in st.seen then 0 else 1)
      && s.stopped == (if row.idItem in st.seen then st.stopped else Breaks(o))
  {
  }

  /** The flag one step leaves on key f. */
  lemma StepFlag(net: Network, st: State, i: nat, row: Row, f: Value)
    ensures Integrated(Step(net, st, i, row).table, f) <==>
      Integrated(st.table, f) || (f != Null && f == row.idItem && Settles(StepOutcome(net, st, i, row)))
  {
  }

  /**
   * The run visits rows in order until one breaks: either every row is
   * visited, or the last one visited is the row whose reply was non-200 or
   * ERROR. No other outcome (a raised POST, an unparsable list, a failed
   * token fetch) ends the run.
   */
  lemma {:induction false} RunShape(net: Network, rows: seq<Row>, table: map<Value, bool>)
    ensures var r := Run(net, rows, table);
      && |r.outcomes| <= |rows|
      && r.stopped == (|r.outcomes| > 0 && Breaks(r.outcomes[|r.outcomes| - 1]))
      && (!r.stopped ==> |r.outcomes| == |rows|)
      && forall k :: 0 <= k < |r.outcomes| - 1 ==> !Breaks(r.outcomes[k])
  {
    RunLength(net, rows, table);
    if rows != [] {
      var n := |rows| - 1;
      RunShape(net, rows[..n], table);
      RunLength(net, rows[..n], table);
      var st0 := Run(net, rows[..n], table);
      if !st0.stopped {
        StepEffect(net, st0, n, rows[n]);
      }
    }
  }

  /**
   * Row i was visited: the run had not stopped before it, and its outcome
   * is that of one Step from the state the earlier rows left.
   */
  lemma {:induction false} RunVisits(net: Network, rows: seq<Row>, table: map<Value, bool>, i: nat)
    requires i < |Run(net, rows, table).outcomes|
    ensures i < |rows|
    ensures var st := Run(net, rows[..i], table);
      && !st.stopped && |st.outcomes| == i
      && Run(net, rows, table).outcomes[i] == StepOutcome(net, st, i, rows[i])
  {
    RunLength(net, rows, table);
    var n := |rows| - 1;
    var st0 := Run(net, rows[..n], table);
    RunLength(net, rows[..n], table);
    if st0.stopped {
      assert Run(net, rows, table) == st0;
    } else {
      StepEffect(net, st0, n, rows[n]);
      assert |st0.outcomes| == n;
    }
    if i < n {
      RunVisits(net, rows[..n], table, i);
      assert rows[..n][..i] == rows[..i];
      assert rows[..n][i] == rows[i];
    } else {
      assert rows[..n] == rows[..i];
    }
  }

  /** What a step POSTs and leaves in `response`: nothing new for a repeat, else its try block's POSTs and final response. */
  lemma StepCarry(net: Network, st: State, i: nat, row: Row)
    ensures var s := Step(net, st, i, row);
      && s.sent == st.sent + (if row.idItem in st.seen then [] else Try(net, st.last, i, row).1)
      && s.last == (if row.idItem in st.seen then st.last else Try(net, st.last, i, row).2)
  {
  }

  predicate Repeats(rows: seq<Row>, i: nat)
    requires i < |rows|
  {
    exists j :: 0 <= j < i && rows[j].idItem == rows[i].idItem
  }

  /** The `id_item` keys of a run of rows. */
  function KeysOf(rows: seq<Row>): set<Value>
  {
    set j | 0 <= j < |rows| :: rows[j].idItem
  }

  lemma KeysOfStep(rows: seq<Row>, m: nat)
    requires m < |rows|
    ensures KeysOf(rows[..m + 1]) == KeysOf(rows[..m]) + {rows[m].idItem}
  {
    assert rows[..m + 1] == rows[..m] + [rows[m]];
  }

  lemma KeysOfRepeats(rows: seq<Row>, i: nat)
    requires i < |rows|
    ensures (rows[i].idItem in KeysOf(rows[..i])) == Repeats(rows, i)
  {
    if Repeats(rows, i) {
      var j :| 0 <= j < i && rows[j].idItem == rows[i].idItem;
      assert rows[..i][j] == rows[j];
    }
    if rows[i].idItem in KeysOf(rows[..i]) {
      var j :| 0 <= j < i && rows[..i][j].idItem == rows[i].idItem;
      assert rows[..i][j] == rows[j];
    }
  }

  lemma {:induction false} RunLength(net: Network, rows: seq<Row>, table: map<Value, bool>)
    ensures var r := Run(net, rows, table);
      |r.outcomes| <= |rows| && (!r.stopped ==> |r.outcomes| == |rows|)
  {
    if rows != [] {
      RunLength(net, rows[..|rows| - 1], table);
    }
  }

  /** The dedup set holds exactly the keys of the visited rows; each new key costs one token fetch. */
  lemma RunSeen(net: Network, rows: seq<Row>, table: map<Value, bool>)
    ensures var r := Run(net, rows, table);
      && |r.outcomes| <= |rows|
      && r.seen == KeysOf(rows[..|r.outcomes|])
      && r.fetches == |r.seen|
  {
    RunLength(net, rows, table);
    RunKeys(net, rows, table);
    RunFetches(net, rows, table);
  }

  lemma {:induction false} RunKeys(net: Network, rows: seq<Row>, table: map<Value, bool>)
    ensures var r := Run(net, rows, table); |r.outcomes| <= |rows| && r.seen == KeysOf(rows[..|r.outcomes|])
  {
    RunLength(net, rows, table);
    if rows != [] {
      var n := |rows| - 1;
      RunKeys(net, rows[..n], table);
      RunLength(net, rows[..n], table);
      var r0 := Run(net, rows[..n], table);
      var m := |r0.outcomes|;
      assert rows[..n][..m] == rows[..m];
      if r0.stopped {
        assert Run(net, rows, table) == r0;
      } else {
        assert m == n;
        KeysOfStep(rows, m);
        StepEffect(net, r0, n, rows[n]);
      }
    }
  }

  lemma {:induction false} RunFetches(net: Network, rows: seq<Row>, table: map<Value, bool>)
    ensures Run(net, rows, table).fetches == |Run(net, rows, table).seen|
  {
    if rows != [] {
      var n := |rows| - 1;
      RunFetches(net, rows[..n], table);
      var r0 := Run(net, rows[..n], table);
      if r0.stopped {
        assert Run(net, rows, table) == r0;
      } else {
        StepEffect(net, r0, n, rows[n]);
      }
    }
  }

  /**
   * A visited row appends exactly its own try block's POSTs to the requests
   * sent, none when it repeats an earlier id_item; and the `response` it
   * leaves for the rows after it is its try block's final one, or the one
   * it inherited when it repeats. With PostsShape, that is one POST per
   * serial of each new row, and a row with no serials passes on the
   * `response` an earlier row left.
   */
  lemma RunStep(net: Network, rows: seq<Row>, table: map<Value, bool>, i: nat)
    requires i < |Run(net, rows, table).outcomes|
    ensures i < |rows|
    ensures var st := Run(net, rows[..i], table);
      var s := Run(net, rows[..i + 1], table);
      && s.sent == st.sent + (if Repeats(rows, i) then [] else Try(net, st.last, i, rows[i]).1)
      && s.last == (if Repeats(rows, i) then st.last else Try(net, st.last, i, rows[i]).2)
  {
    RunVisits(net, rows, table, i);
    RunSeen(net, rows[..i], table);
    assert rows[..i][..i] == rows[..i];
    KeysOfRepeats(rows, i);
    assert rows[..i + 1][..i] == rows[..i];
    assert rows[..i + 1][i] == rows[i];
    StepCarry(net, Run(net, rows[..i], table), i, rows[i]);
  }

  /**
   * What happens to each visited row: a repeated `id_item` is a Duplicate,
   * any other row is decided by its own try block, which sees the earlier
   * rows only through the `response` they left behind.
   */
  lemma RunOutcomes(net: Network, rows: seq<Row>, table: map<Value, bool>, i: nat)
    requires i < |Run(net, rows, table).outcomes|
    ensures i < |rows|
    ensures Run(net, rows, table).outcomes[i] ==
      if Repeats(rows, i) then Duplicate else Try(net, Run(net, rows[..i], table).last, i, rows[i]).0
  {
    RunVisits(net, rows, table, i);
    RunSeen(net, rows[..i], table);
    assert rows[..i][..i] == rows[..i];
    KeysOfRepeats(rows, i);
  }

  /** A visited row settles its key: it is a Duplicate, or its checked response was accepted. */
  predicate Settles(o: Outcome)
  {
    o == Duplicate || o == Checked(Accepted)
  }

  /**
   * A key ends flagged exactly when it was flagged before the run, or it is
   * not NULL and some visited row with that `id_item` settled. Rows after a
   * break are never visited, so they are never flagged.
   */
  lemma {:induction false} RunFlags(net: Network, rows: seq<Row>, table: map<Value, bool>)
    ensures var r := Run(net, rows, table);
      |r.outcomes| <= |rows| &&
      forall f :: Integrated(r.table, f) <==>
        Integrated(table, f)
        || (f != Null && exists i :: 0 <= i < |r.outcomes| && rows[i].idItem == f && Settles(r.outcomes[i]))
  {
    RunLength(net, rows, table);
    if rows != [] {
      var n := |rows| - 1;
      RunFlags(net, rows[..n], table);
      RunLength(net, rows[..n], table);
      var r0 := Run(net, rows[..n], table);
      var r := Run(net, rows, table);
      forall f
        ensures Integrated(r.table, f) <==> Integrated(table, f) || (f != Null && FlaggedBy(rows, r.outcomes, f))
      {
        FlaggedByPrefix(rows, n, r0.outcomes, f);
        if !r0.stopped {
          StepEffect(net, r0, n, rows[n]);
          StepFlag(net, r0, n, rows[n], f);
          FlaggedBySnoc(rows, r0.outcomes, StepOutcome(net, r0, n, rows[n]), f);
        }
      }
    }
  }

  /** Some visited row with `id_item` f settled. */
  predicate FlaggedBy(rows: seq<Row>, outs: seq<Outcome>, f: Value)
    requires |outs| <= |rows|
  {
    exists i :: 0 <= i < |outs| && rows[i].idItem == f && Settles(outs[i])
  }

  lemma FlaggedBySnoc(rows: seq<Row>, outs: seq<Outcome>, o: Outcome, f: Value)
    requires |outs| < |rows|
    ensures FlaggedBy(rows, outs + [o], f) <==> FlaggedBy(rows, outs, f) || (rows[|outs|].idItem == f && Settles(o))
  {
    if FlaggedBy(rows, outs, f) {
      var i :| 0 <= i < |outs| && rows[i].idItem == f && Settles(outs[i]);
      assert (outs + [o])[i] == outs[i];
    }
    if FlaggedBy(rows, outs + [o], f) {
      var i :| 0 <= i < |outs| + 1 && rows[i].idItem == f && Settles((outs + [o])[i]);
      if i < |outs| { assert (outs + [o])[i] == outs[i]; }
    }
    if rows[|outs|].idItem == f && Settles(o) {
      assert (outs + [o])[|outs|] == o;
    }
  }

  lemma FlaggedByPrefix(rows: seq<Row>, n: nat, outs: seq<Outcome>, f: Value)
    requires |outs| <= n <= |rows|
    ensures FlaggedBy(rows[..n], outs, f) == FlaggedBy(rows, outs, f)
  {
    if FlaggedBy(rows[..n], outs, f) {
      var i :| 0 <= i < |outs| && rows[..n][i].idItem == f && Settles(outs[i]);
      assert rows[..n][i] == rows[i];
    }
    if FlaggedBy(rows, outs, f) {
      var i :| 0 <= i < |outs| && rows[i].idItem == f && Settles(outs[i]);
      assert rows[..n][i] == rows[i];
    }
  }

  /**
   * A visited row that repeats an earlier `id_item` is flagged with no token
   * fetch and no POST, even when the earlier row's attempt failed, raised
   * or was skipped: the key was recorded before that attempt.
   */
  lemma RepeatedItemFlagged(net: Network, rows: seq<Row>, table: map<Value, bool>, i: nat, j: nat)
    requires i < j < |rows| && j < |Run(net, rows, table).outcomes| && rows[i].idItem == rows[j].idItem
    ensures Run(net, rows, table).outcomes[j] == Duplicate
    ensures var before := Run(net, rows[..j], table); var after := Step(net, before, j, rows[j]);
      after.sent == before.sent && after.fetches == before.fetches
    ensures rows[j].idItem != Null ==> Integrated(Run(net, rows, table).table, rows[j].idItem)
  {
    SeenBefore(net, rows, table, i, j);
    RunVisits(net, rows, table, j);
    RunFlags(net, rows, table);
    assert Settles(Run(net, rows, table).outcomes[j]);
  }

  lemma SeenBefore(net: Network, rows: seq<Row>, table: map<Value, bool>, i: nat, j: nat)
    requires i < j < |rows| && j < |Run(net, rows, table).outcomes|
    ensures rows[i].idItem in Run(net, rows[..j], table).seen
  {
    RunVisits(net, rows, table, j);
    RunSeen(net, rows[..j], table);
    assert rows[..j][..j][i] == rows[i];
  }

  /**
   * A visited row with a new key is flagged exactly when its token fetch
   * succeeded, its list parsed, no POST raised, and the response held after
   * the inner loop is HTTP 200 without `status == "ERROR"`.
   */
  lemma NewItemFlaggedIffLastAccepted(net: Network, rows: seq<Row>, table: map<Value, bool>, i: nat)
    requires i < |rows| && i < |Run(net, rows, table).outcomes| && !Repeats(rows, i)
    ensures var last := Run(net, rows[..i], table).last;
      Settles(Run(net, rows, table).outcomes[i]) <==>
        && net.auth(i) && rows[i].numerosSerie.Some?
        && var b := Posts(net, i, rows[i], rows[i].numerosSerie.value, last);
           !b.raised && b.last.Some? && ResponseVerdict(b.last.value) == Accepted
  {
    RunOutcomes(net, rows, table, i);
  }

  // ---------------------------------------------------------------------
  // Two consequences of checking only the response held after the inner loop

  const AcceptAll: Network := Network((i: nat) => true, (i: nat, j: nat) => Replied(Response(200, Object(None))))

  /** A rejected serial is masked when a later serial of the same row is accepted. */
  lemma LastResponseOnly()
    ensures var rows := [Row(Int(1), Int(10), Some([Text("A"), Text("B")]))];
      var net := Network((i: nat) => true,
        (i: nat, j: nat) => if j == 0 then Replied(Response(500, Malformed)) else Replied(Response(200, Object(None))));
      var r := Run(net, rows, map[]);
      |r.sent| == 2 && r.outcomes == [Checked(Accepted)] && Integrated(r.table, Int(1))
  {
    var rows := [Row(Int(1), Int(10), Some([Text("A"), Text("B")]))];
    var net := Network((i: nat) => true,
      (i: nat, j: nat) => if j == 0 then Replied(Response(500, Malformed)) else Replied(Response(200, Object(None))));
    assert rows[..0] == [];
    assert [Text("A"), Text("B")][..1] == [Text("A")];
    assert [Text("A")][..0] == [];
    var b1 := Posts(net, 0, rows[0], [Text("A")], None);
    assert b1 == Burst([SerialRequest(rows[0], Text("A"))], Some(Response(500, Malformed)), false);
    var b2 := Posts(net, 0, rows[0], [Text("A"), Text("B")], None);
    assert b2 == Burst(b1.sent + [SerialRequest(rows[0], Text("B"))], Some(Response(200, Object(None))), false);
  }

  /**
   * A row with an empty serial list makes no POST, yet is flagged on the
   * response an earlier row left in `response`.
   */
  lemma StaleResponseFlags()
    ensures var rows := [Row(Int(1), Int(10), Some([Text("A")])), Row(Int(2), Int(10), Some([]))];
      var r := Run(AcceptAll, rows, map[]);
      |r.sent| == 1 && r.outcomes == [Checked(Accepted), Checked(Accepted)] && Integrated(r.table, Int(2))
  {
    var rows := [Row(Int(1), Int(10), Some([Text("A")])), Row(Int(2), Int(10), Some([]))];
    assert rows[..1] == [rows[0]];
    assert rows[..1][..0] == [];
    assert [Text("A")][..0] == [];
    var ok := Response(200, Object(None));
    assert Posts(AcceptAll, 0, rows[0], [Text("A")], None) == Burst([SerialRequest(rows[0], Text("A"))], Some(ok), false);
    assert Run(AcceptAll, rows[..1][..0], map[]) == State({}, map[], [], 0, None, false, []);
    var st := Run(AcceptAll, rows[..1], map[]);
    assert st.last == Some(ok) && st.outcomes == [Checked(Accepted)] && !st.stopped && |st.sent| == 1;
    assert Int(2) !in st.seen;
  }

  /** With no earlier response in the run, an empty serial list raises NameError and the row stays pending. */
  lemma EmptyListWithoutResponse()
    ensures var r := Run(AcceptAll, [Row(Int(1), Int(10), Some([]))], map[]);
      r.sent == [] && r.outcomes == [NoResponse] && !Integrated(r.table, Int(1))
  {
    assert [Row(Int(1), Int(10), Some([]))][..0] == [];
  }

  /**
   * The evident intent: judge a row on every one of its own replies, and on
   * nothing else. AllSerialsVerdict is the first verdict that is not
   * Accepted, or Accepted when every reply is.
   */
  function AllSerialsVerdict(net: Network, i: nat, series: seq<Value>): Verdict
  {
    if series == [] then Accepted
    else
      var v := AllSerialsVerdict(net, i, series[..|series| - 1]);
      if v != Accepted then v else RowVerdict(net.post(i, |series| - 1))
  }

  lemma {:induction false} AllSerialsAcceptedIff(net: Network, i: nat, series: seq<Value>)
    ensures AllSerialsVerdict(net, i, series) == Accepted <==>
      forall j :: 0 <= j < |series| ==> RowVerdict(net.post(i, j)) == Accepted
  {
    if series != [] {
      AllSerialsAcceptedIff(net, i, series[..|series| - 1]);
    }
  }

  /**
   * The corrected try block: a row is Checked(Accepted) exactly when its
   * token fetch succeeded, its list parsed and every one of its serials was
   * accepted, whatever an earlier row's response was.
   */
  function TryChecked(net: Network, i: nat, row: Row): (o: Outcome)
    ensures o == Checked(Accepted) <==>
      net.auth(i) && row.numerosSerie.Some?
      && forall j :: 0 <= j < |row.numerosSerie.value| ==> RowVerdict(net.post(i, j)) == Accepted
  {
    if !net.auth(i) then AuthFailed
    else match row.numerosSerie
      case None => Unparsable
      case Some(series) =>
        AllSerialsAcceptedIff(net, i, series);
        Checked(AllSerialsVerdict(net, i, series))
  }
}
