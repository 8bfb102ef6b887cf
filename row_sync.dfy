/**
 * The per-row dedup-and-mark loop shared, line for line, by the order,
 * order-item and client scripts: walk the pending rows in query order,
 * flag a row whose natural key was already seen without sending anything,
 * otherwise record the key, fetch a token, build one save request, POST
 * it, and flag the row only when the reply is accepted. Any failure leaves
 * the row pending and the loop moves on.
 *
 * The scripts differ only in the three functions of a Policy: the key the
 * loop deduplicates on, the key its UPDATE flags, and how a row becomes a
 * request (which may raise before anything is sent).
 */
module RowSync {
  import opened Wrappers
  import opened Sankhya

  datatype Policy<!R> = Policy(dedupKey: R -> Value, flagKey: R -> Value, build: R -> Option<Request>)

  /**
   * The remote side, as seen from row i of the batch: whether the token
   * fetch for that row succeeds, and what the POST for that row returns.
   */
  datatype Network = Network(auth: nat -> bool, post: nat -> Reply)

  /** What happened to one row. */
  datatype Outcome =
    | Duplicate            // key already seen: flagged, nothing sent
    | AuthFailed           // token fetch raised: nothing sent
    | BuildFailed          // building the payload raised: nothing sent
    | Sent(verdict: Verdict)

  /** The loop's state: the dedup set, the table's flags, the requests POSTed, the token fetches made. */
  datatype State = State(
    seen: set<Value>,
    table: map<Value, bool>,
    sent: seq<Request>,
    fetches: nat,
    outcomes: seq<Outcome>)

  /** The try block for a row whose key is new, at position i. */
  function Attempt<R>(p: Policy<R>, net: Network, i: nat, row: R): Outcome
  {
    if !net.auth(i) then AuthFailed
    else if p.build(row).None? then BuildFailed
    else Sent(RowVerdict(net.post(i)))
  }

  /** One iteration of the loop, for row i. */
  function Step<R>(p: Policy<R>, net: Network, st: State, i: nat, row: R): State
  {
    var k := p.dedupKey(row);
    if k in st.seen then
      st.(table := Mark(st.table, p.flagKey(row)), outcomes := st.outcomes + [Duplicate])
    else
      var o := Attempt(p, net, i, row);
      st.(seen := st.seen + {k},
          fetches := st.fetches + 1,
          sent := if o.Sent? then st.sent + [p.build(row).value] else st.sent,
          table := if o == Sent(Accepted) then Mark(st.table, p.flagKey(row)) else st.table,
          outcomes := st.outcomes + [o])
  }

  /** The state after the loop has run over all of `rows`, starting from the table's flags. */
  function Run<R>(p: Policy<R>, net: Network, rows: seq<R>, table: map<Value, bool>): State
  {
    if rows == [] then State({}, table, [], 0, [])
    else
      var n := |rows| - 1;
      Step(p, net, Run(p, net, rows[..n], table), n, rows[n])
  }

  /** The loop itself. */
  method Sync<R>(p: Policy<R>, net: Network, rows: seq<R>, table: map<Value, bool>)
    returns (flags: map<Value, bool>, sent: seq<Request>, fetches: nat, outcomes: seq<Outcome>)
    ensures var r := Run(p, net, rows, table);
      flags == r.table && sent == r.sent && fetches == r.fetches && outcomes == r.outcomes
  {
    var seen: set<Value> := {};
    flags, sent, fetches, outcomes := table, [], 0, [];
    var i := 0;
    while i < |rows|
      invariant i <= |rows|
      invariant State(seen, flags, sent, fetches, outcomes) == Run(p, net, rows[..i], table)
    {
      assert rows[..i + 1][..i] == rows[..i];
      var row := rows[i];
      var k := p.dedupKey(row);
      if k in seen {
        flags := Mark(flags, p.flagKey(row));
        outcomes := outcomes + [Duplicate];
      } else {
        seen := seen + {k};
        fetches := fetches + 1;
        if !net.auth(i) {
          outcomes := outcomes + [AuthFailed];
        } else {
          var req := p.build(row);
          if req.None? {
            outcomes := outcomes + [BuildFailed];
          } else {
            sent := sent + [req.value];
            var v := RowVerdict(net.post(i));
            if v == Accepted {
              flags := Mark(flags, p.flagKey(row));
            }
            outcomes := outcomes + [Sent(v)];
          }
        }
      }
      i := i + 1;
    }
    assert rows[..i] == rows;
  }

  // ---------------------------------------------------------------------
  // What the loop guarantees

  /** Row i repeats the natural key of an earlier row. */
  predicate Repeats<R>(p: Policy<R>, rows: seq<R>, i: nat)
    requires i < |rows|
  {
    exists j :: 0 <= j < i && p.dedupKey(rows[j]) == p.dedupKey(rows[i])
  }

  function KeysOf<R>(p: Policy<R>, rows: seq<R>): set<Value>
  {
    set j | 0 <= j < |rows| :: p.dedupKey(rows[j])
  }

  /** Row i ends with its flag key flagged: it is a repeat, or its own attempt was accepted. */
  predicate Settles<R>(p: Policy<R>, net: Network, rows: seq<R>, i: nat)
    requires i < |rows|
  {
    Repeats(p, rows, i) || Attempt(p, net, i, rows[i]) == Sent(Accepted)
  }

  lemma PrefixRepeats<R>(p: Policy<R>, rows: seq<R>, n: nat, i: nat)
    requires i < n <= |rows|
    ensures Repeats(p, rows[..n], i) == Repeats(p, rows, i)
  {
    if Repeats(p, rows, i) {
      var j :| 0 <= j < i && p.dedupKey(rows[j]) == p.dedupKey(rows[i]);
      assert rows[..n][j] == rows[j];
    }
  }

  lemma KeysOfSnoc<R>(p: Policy<R>, rows: seq<R>)
    requires rows != []
    ensures KeysOf(p, rows) == KeysOf(p, rows[..|rows| - 1]) + {p.dedupKey(rows[|rows| - 1])}
  {
    var n := |rows| - 1;
    forall k | k in KeysOf(p, rows) ensures k in KeysOf(p, rows[..n]) + {p.dedupKey(rows[n])} {
      var j :| 0 <= j < |rows| && p.dedupKey(rows[j]) == k;
      if j < n { assert rows[..n][j] == rows[j]; }
    }
    forall k | k in KeysOf(p, rows[..n]) ensures k in KeysOf(p, rows) {
      var j :| 0 <= j < n && p.dedupKey(rows[..n][j]) == k;
      assert rows[..n][j] == rows[j];
    }
  }

  /** What one step adds: one outcome, the row's key to the dedup set, and a fetch when the key is new. */
  lemma StepEffect<R>(p: Policy<R>, net: Network, st: State, i: nat, row: R)
    ensures var s := Step(p, net, st, i, row);
      && s.outcomes == st.outcomes + [if p.dedupKey(row) in st.seen then Duplicate else Attempt(p, net, i, row)]
      && s.seen == st.seen + {p.dedupKey(row)}
      && s.fetches == st.fetches + (if p.dedupKey(row) in st.seen then 0 else 1)
      && |s.sent| <= |st.sent| + (if p.dedupKey(row) in st.seen then 0 else 1)
  {
  }

  /** The flag a step leaves on key f. */
  lemma StepFlag<R>(p: Policy<R>, net: Network, st: State, i: nat, row: R, f: Value)
    ensures Integrated(Step(p, net, st, i, row).table, f) <==>
      Integrated(st.table, f)
      || (f != Null && f == p.flagKey(row) && (p.dedupKey(row) in st.seen || Attempt(p, net, i, row) == Sent(Accepted)))
  {
  }

  /** The dedup set holds exactly the keys of the rows processed, one token fetch for each. */
  lemma {:induction false} RunSeen<R>(p: Policy<R>, net: Network, rows: seq<R>, table: map<Value, bool>)
    ensures var r := Run(p, net, rows, table);
      && r.seen == KeysOf(p, rows) && |r.outcomes| == |rows|
      && r.fetches == |r.seen| && |r.sent| <= r.fetches
  {
    if rows != [] {
      var n := |rows| - 1;
      RunSeen(p, net, rows[..n], table);
      KeysOfSnoc(p, rows);
      StepEffect(p, net, Run(p, net, rows[..n], table), n, rows[n]);
    }
  }

  /** A row's key is in the dedup set exactly when an earlier row had the same key. */
  lemma SeenIffRepeats<R>(p: Policy<R>, net: Network, rows: seq<R>, table: map<Value, bool>, i: nat)
    requires i < |rows|
    ensures (p.dedupKey(rows[i]) in Run(p, net, rows[..i], table).seen) == Repeats(p, rows, i)
  {
    RunSeen(p, net, rows[..i], table);
    if Repeats(p, rows, i) {
      var j :| 0 <= j < i && p.dedupKey(rows[j]) == p.dedupKey(rows[i]);
      assert rows[..i][j] == rows[j];
    }
  }

  /** The outcomes of a prefix of the rows are a prefix of the outcomes. */
  lemma {:induction false} RunExtends<R>(p: Policy<R>, net: Network, rows: seq<R>, table: map<Value, bool>, k: nat)
    requires k <= |rows|
    ensures Run(p, net, rows[..k], table).outcomes <= Run(p, net, rows, table).outcomes
    decreases |rows|
  {
    if k < |rows| {
      var n := |rows| - 1;
      assert rows[..n][..k] == rows[..k];
      RunExtends(p, net, rows[..n], table, k);
      StepEffect(p, net, Run(p, net, rows[..n], table), n, rows[n]);
    } else {
      assert rows[..k] == rows;
    }
  }

  lemma OutcomeAt<R>(p: Policy<R>, net: Network, rows: seq<R>, table: map<Value, bool>, i: nat)
    requires i < |rows|
    ensures |Run(p, net, rows, table).outcomes| == |rows|
    ensures Run(p, net, rows, table).outcomes[i] == if Repeats(p, rows, i) then Duplicate else Attempt(p, net, i, rows[i])
  {
    RunSeen(p, net, rows, table);
    RunExtends(p, net, rows, table, i + 1);
    var st := Run(p, net, rows[..i], table);
    assert rows[..i + 1][..i] == rows[..i];
    RunSeen(p, net, rows[..i], table);
    StepEffect(p, net, st, i, rows[i]);
    SeenIffRepeats(p, net, rows, table, i);
    assert Run(p, net, rows[..i + 1], table).outcomes[i] == Run(p, net, rows, table).outcomes[i];
  }

  /**
   * Every row is processed, and what happens to row i depends only on
   * whether its key repeats an earlier one and on its own attempt: a
   * failure on one row never stops or changes the handling of another.
   */
  lemma RunOutcomes<R>(p: Policy<R>, net: Network, rows: seq<R>, table: map<Value, bool>)
    ensures var r := Run(p, net, rows, table);
      && |r.outcomes| == |rows|
      && forall i :: 0 <= i < |rows| ==>
           r.outcomes[i] == if Repeats(p, rows, i) then Duplicate else Attempt(p, net, i, rows[i])
  {
    RunSeen(p, net, rows, table);
    forall i | 0 <= i < |rows|
      ensures Run(p, net, rows, table).outcomes[i] == if Repeats(p, rows, i) then Duplicate else Attempt(p, net, i, rows[i])
    {
      OutcomeAt(p, net, rows, table, i);
    }
  }

  /** Some row that UPDATEs key f settles. */
  predicate FlaggedBy<R>(p: Policy<R>, net: Network, rows: seq<R>, f: Value)
  {
    exists i :: 0 <= i < |rows| && p.flagKey(rows[i]) == f && Settles(p, net, rows, i)
  }

  lemma FlaggedBySnoc<R>(p: Policy<R>, net: Network, rows: seq<R>, f: Value)
    requires rows != []
    ensures FlaggedBy(p, net, rows, f) <==>
      FlaggedBy(p, net, rows[..|rows| - 1], f) || (p.flagKey(rows[|rows| - 1]) == f && Settles(p, net, rows, |rows| - 1))
  {
    var n := |rows| - 1;
    if FlaggedBy(p, net, rows[..n], f) {
      var i :| 0 <= i < n && p.flagKey(rows[..n][i]) == f && Settles(p, net, rows[..n], i);
      PrefixRepeats(p, rows, n, i);
      assert rows[..n][i] == rows[i];
    }
    if exists i :: 0 <= i < n && p.flagKey(rows[i]) == f && Settles(p, net, rows, i) {
      var i :| 0 <= i < n && p.flagKey(rows[i]) == f && Settles(p, net, rows, i);
      PrefixRepeats(p, rows, n, i);
      assert rows[..n][i] == rows[i];
    }
  }

  /**
   * A key ends flagged exactly when it was flagged before the run, or some
   * row that UPDATEs it settles (it repeats an earlier key, or its own POST
   * was accepted) and the key is not NULL.
   */
  lemma {:induction false} RunFlags<R>(p: Policy<R>, net: Network, rows: seq<R>, table: map<Value, bool>)
    ensures forall f :: Integrated(Run(p, net, rows, table).table, f) <==>
      Integrated(table, f)
      || (f != Null && exists i :: 0 <= i < |rows| && p.flagKey(rows[i]) == f && Settles(p, net, rows, i))
  {
    if rows != [] {
      var n := |rows| - 1;
      RunFlags(p, net, rows[..n], table);
      SeenIffRepeats(p, net, rows, table, n);
      forall f
        ensures Integrated(Run(p, net, rows, table).table, f) <==>
          Integrated(table, f) || (f != Null && FlaggedBy(p, net, rows, f))
      {
        StepFlag(p, net, Run(p, net, rows[..n], table), n, rows[n], f);
        FlaggedBySnoc(p, net, rows, f);
      }
    }
  }

  /**
   * Each distinct natural key costs exactly one token fetch and at most one
   * POST, and a repeated key never causes a send; an empty batch sends nothing.
   */
  lemma RunCalls<R>(p: Policy<R>, net: Network, rows: seq<R>, table: map<Value, bool>)
    ensures var r := Run(p, net, rows, table);
      && r.fetches == |KeysOf(p, rows)| && |r.sent| <= |KeysOf(p, rows)|
      && (rows == [] ==> r.sent == [] && r.table == table)
  {
    RunSeen(p, net, rows, table);
  }

  /**
   * The requests the loop should POST, in row order: row n contributes its
   * own request exactly when its key repeats no earlier row's and its
   * attempt got as far as the POST.
   */
  function SentOf<R>(p: Policy<R>, net: Network, rows: seq<R>): seq<Request>
  {
    if rows == [] then []
    else
      var n := |rows| - 1;
      SentOf(p, net, rows[..n])
        + if !Repeats(p, rows, n) && Attempt(p, net, n, rows[n]).Sent? then [p.build(rows[n]).value] else []
  }

  /** The request a step adds: the row's own, when its key is new and it reached the POST. */
  lemma StepSent<R>(p: Policy<R>, net: Network, st: State, i: nat, row: R)
    ensures Step(p, net, st, i, row).sent ==
      st.sent + if p.dedupKey(row) !in st.seen && Attempt(p, net, i, row).Sent? then [p.build(row).value] else []
  {
  }

  /** Exactly the requests of SentOf are POSTed, in that order: a repeated key never causes a send. */
  lemma {:induction false} RunSent<R>(p: Policy<R>, net: Network, rows: seq<R>, table: map<Value, bool>)
    ensures Run(p, net, rows, table).sent == SentOf(p, net, rows)
  {
    if rows != [] {
      var n := |rows| - 1;
      RunSent(p, net, rows[..n], table);
      SeenIffRepeats(p, net, rows, table, n);
      StepSent(p, net, Run(p, net, rows[..n], table), n, rows[n]);
    }
  }

  /** Row j, repeating an earlier key, is a Duplicate that fetches no token and POSTs nothing. */
  lemma RepeatStep<R>(p: Policy<R>, net: Network, rows: seq<R>, table: map<Value, bool>, j: nat)
    requires j < |rows| && Repeats(p, rows, j)
    ensures var before := Run(p, net, rows[..j], table);
      var after := Run(p, net, rows[..j + 1], table);
      && after.sent == before.sent && after.fetches == before.fetches
      && after.outcomes == before.outcomes + [Duplicate]
  {
    SeenIffRepeats(p, net, rows, table, j);
    assert rows[..j + 1][..j] == rows[..j];
    assert rows[..j + 1][j] == rows[j];
  }

  /**
   * When a policy flags the same key it deduplicates on, the first row with
   * key k decides alone unless the key repeats later: k ends flagged exactly
   * when it was flagged before, that row's own POST was accepted, or a later
   * row carries k again (the later row is flagged as a duplicate even though
   * the first attempt failed, because the key was recorded before it).
   */
  lemma FirstOccurrenceFlags<R>(p: Policy<R>, net: Network, rows: seq<R>, table: map<Value, bool>, i: nat)
    requires forall r: R :: p.flagKey(r) == p.dedupKey(r)
    requires i < |rows| && !Repeats(p, rows, i) && p.dedupKey(rows[i]) != Null
    ensures var k := p.dedupKey(rows[i]);
      Integrated(Run(p, net, rows, table).table, k) <==>
        Integrated(table, k) || Attempt(p, net, i, rows[i]) == Sent(Accepted)
        || exists j :: i < j < |rows| && p.dedupKey(rows[j]) == k
  {
    var k := p.dedupKey(rows[i]);
    RunFlags(p, net, rows, table);
    if exists m :: 0 <= m < |rows| && p.flagKey(rows[m]) == k && Settles(p, net, rows, m) {
      var m :| 0 <= m < |rows| && p.flagKey(rows[m]) == k && Settles(p, net, rows, m);
      assert m >= i;
    }
    if exists j :: i < j < |rows| && p.dedupKey(rows[j]) == k {
      var j :| i < j < |rows| && p.dedupKey(rows[j]) == k;
      assert Repeats(p, rows, j);
      assert p.flagKey(rows[j]) == k && Settles(p, net, rows, j);
    }
    assert p.flagKey(rows[i]) == k;
  }
}
