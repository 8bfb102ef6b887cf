/**
 * What the sync scripts see of the ERP's `DatasetSP.save` service and of the
 * local database: the values they send, the replies they get back, the two
 * tests they apply to a reply, the positional request envelope, and the
 * per-key "integrated" flag of a table.
 */
module Sankhya {
  import opened Wrappers

  /** A column value or a decoded JSON value, as it is placed in a request. */
  datatype Value = Null | Bool(b: bool) | Int(i: int) | Float(f: real) | Text(s: string)

  /** The body of an HTTP reply, as far as the scripts' tests can tell bodies apart. */
  datatype Body =
    | Malformed                       // not JSON: `.json()` raises
    | Object(status: Option<Value>)   // a JSON object, with its "status" member if it has one
    | Container(hasStatus: bool)      // a JSON array or string: `"status" in body` is membership or substring
    | Scalar                          // a number, boolean or null: `"status" in body` raises TypeError

  datatype Response = Response(code: int, body: Body)

  /** What a POST gives back: the call raised (connection error, timeout, ...) or a response arrived. */
  datatype Reply = Raised | Replied(response: Response)

  /** How a script judges a reply. `Fault` stands for every exception raised while judging it. */
  datatype Verdict = Accepted | HttpError | AppError | Fault

  const ErrorStatus: Value := Text("ERROR")

  /**
   * The per-row scripts' test of a response: HTTP 200, then
   * `"status" in data and data["status"] == "ERROR"` on the decoded body.
   */
  function ResponseVerdict(r: Response): Verdict
  {
    if r.code != 200 then HttpError
    else match r.body
      case Malformed => Fault
      case Object(status) => if status == Some(ErrorStatus) then AppError else Accepted
      case Container(hasStatus) => if hasStatus then Fault else Accepted   // data["status"] on a list or str raises
      case Scalar => Fault
  }

  function RowVerdict(r: Reply): Verdict
  {
    match r
    case Raised => Fault
    case Replied(resp) => ResponseVerdict(resp)
  }

  /**
   * The bulk script's test of a reply: HTTP 200, then
   * `isinstance(data, dict) and data.get("status") == "ERROR"`, which raises
   * only when the body is not JSON.
   */
  function DatasetVerdict(r: Reply): Verdict
  {
    match r
    case Raised => Fault
    case Replied(resp) =>
      if resp.code != 200 then HttpError
      else match resp.body
        case Malformed => Fault
        case Object(status) => if status == Some(ErrorStatus) then AppError else Accepted
        case _ => Accepted
  }

  /** A reply is a success when it is HTTP 200 and its body is JSON without `status == "ERROR"`. */
  predicate Succeeds(r: Reply)
  {
    r.Replied? && r.response.code == 200 && r.response.body != Malformed
    && r.response.body != Object(Some(ErrorStatus))
  }

  /**
   * Both tests accept only successes; on JSON objects they agree, and
   * whatever the per-row test accepts the bulk test accepts too.
   */
  lemma VerdictsAcceptOnlySuccess(r: Reply)
    ensures RowVerdict(r) == Accepted ==> Succeeds(r)
    ensures DatasetVerdict(r) == Accepted <==> Succeeds(r)
    ensures RowVerdict(r) == Accepted ==> DatasetVerdict(r) == Accepted
    ensures r.Replied? && r.response.body.Object? ==> RowVerdict(r) == DatasetVerdict(r)
    ensures (RowVerdict(r) == HttpError) == (DatasetVerdict(r) == HttpError) == (r.Replied? && r.response.code != 200)
  {
  }

  // ---------------------------------------------------------------------
  // Positional value keys "0", "1", ... "n-1"

  function DigitChar(d: nat): char
    requires d < 10
  {
    (d + '0' as int) as char
  }

  predicate IsDigits(s: string)
  {
    forall k :: 0 <= k < |s| ==> '0' <= s[k] <= '9'
  }

  /** `str(n)`: the decimal rendering of a natural number. */
  function Key(n: nat): (s: string)
    ensures 1 <= |s| && IsDigits(s)
    ensures n >= 10 ==> 2 <= |s|
  {
    if n < 10 then [DigitChar(n)] else Key(n / 10) + [DigitChar(n % 10)]
  }

  /** The number a string of decimal digits denotes. */
  function DecimalValue(s: string): nat
    requires IsDigits(s)
  {
    if s == [] then 0 else DecimalValue(s[..|s| - 1]) * 10 + (s[|s| - 1] as int - '0' as int)
  }

  lemma {:induction false} KeyRoundTrip(n: nat)
    ensures DecimalValue(Key(n)) == n
  {
    var s := Key(n);
    if n < 10 {
      assert s[..|s| - 1] == [];
    } else {
      assert s[..|s| - 1] == Key(n / 10);
      KeyRoundTrip(n / 10);
    }
  }

  /** Distinct positions get distinct value keys. */
  lemma KeyInjective()
    ensures forall a: nat, b: nat :: Key(a) == Key(b) ==> a == b
  {
    forall a: nat, b: nat | Key(a) == Key(b)
      ensures a == b
    {
      KeyRoundTrip(a);
      KeyRoundTrip(b);
    }
  }

  function KeysBelow(n: nat): set<string>
  {
    set i | 0 <= i < n :: Key(i)
  }

  lemma KeysBelowStep(n: nat)
    ensures KeysBelow(n + 1) == KeysBelow(n) + {Key(n)}
    ensures Key(n) !in KeysBelow(n)
  {
    if Key(n) in KeysBelow(n) {
      var i :| 0 <= i < n && Key(i) == Key(n);
      KeyRoundTrip(i);
      KeyRoundTrip(n);
    }
  }

  lemma {:induction false} KeysBelowSize(n: nat)
    ensures |KeysBelow(n)| == n
  {
    if n > 0 {
      KeysBelowSize(n - 1);
      KeysBelowStep(n - 1);
    }
  }

  /** `{"0": vs[0], "1": vs[1], ...}`: the values map of one record. */
  function Positional(vs: seq<Value>): map<string, Value>
  {
    if vs == [] then map[] else Positional(vs[..|vs| - 1])[Key(|vs| - 1) := vs[|vs| - 1]]
  }

  lemma {:induction false} PositionalKeys(vs: seq<Value>)
    ensures Positional(vs).Keys == KeysBelow(|vs|)
  {
    if vs != [] {
      PositionalKeys(vs[..|vs| - 1]);
      KeysBelowStep(|vs| - 1);
    }
  }

  lemma {:induction false} PositionalValues(vs: seq<Value>)
    ensures forall i :: 0 <= i < |vs| ==> Key(i) in Positional(vs) && Positional(vs)[Key(i)] == vs[i]
  {
    if vs != [] {
      var n := |vs| - 1;
      var m0 := Positional(vs[..n]);
      PositionalValues(vs[..n]);
      assert Positional(vs) == m0[Key(n) := vs[n]];
      forall i | 0 <= i < n ensures Key(i) in Positional(vs) && Positional(vs)[Key(i)] == vs[i] {
        assert Key(i) != Key(n) by { KeyRoundTrip(i); KeyRoundTrip(n); }
        assert m0[Key(i)] == vs[..n][i] == vs[i];
      }
    }
  }

  /** The record holds value i under key "i", has no other keys, and so has one key per value. */
  lemma PositionalAt(vs: seq<Value>)
    ensures Positional(vs).Keys == KeysBelow(|vs|)
    ensures |Positional(vs).Keys| == |vs|
    ensures forall i :: 0 <= i < |vs| ==> Key(i) in Positional(vs) && Positional(vs)[Key(i)] == vs[i]
  {
    PositionalKeys(vs);
    PositionalValues(vs);
    KeysBelowSize(|vs|);
  }

  // ---------------------------------------------------------------------
  // The request envelope

  datatype Record = Record(values: map<string, Value>)

  /** `{serviceName, requestBody: {entityName, standAlone, fields, records: [{values}, ...]}}`. */
  datatype Request = Request(
    serviceName: string,
    entityName: string,
    standAlone: bool,
    fields: seq<string>,
    records: seq<Record>)

  const SaveService := "DatasetSP.save"

  function SaveRecords(entity: string, fields: seq<string>, rows: seq<seq<Value>>): Request
  {
    Request(SaveService, entity, false, fields, seq(|rows|, k requires 0 <= k < |rows| => Record(Positional(rows[k]))))
  }

  /** The one-record request every per-row script sends. */
  function Save(entity: string, fields: seq<string>, vs: seq<Value>): Request
  {
    SaveRecords(entity, fields, [vs])
  }

  /** Every record holds exactly one value per field, under keys "0".."n-1". */
  predicate WellFormed(req: Request)
  {
    forall k :: 0 <= k < |req.records| ==> req.records[k].values.Keys == KeysBelow(|req.fields|)
  }

  predicate Distinct<T(==)>(s: seq<T>)
  {
    forall i, j :: 0 <= i < j < |s| ==> s[i] != s[j]
  }

  function IndexOf<T(==)>(s: seq<T>, x: T): (r: Option<nat>)
    ensures r.Some? ==> r.value < |s| && s[r.value] == x
    ensures r.None? ==> x !in s
  {
    if s == [] then None
    else if s[0] == x then Some(0)
    else match IndexOf(s[1..], x)
      case None => None
      case Some(i) => Some(i + 1)
  }

  lemma {:induction false} IndexOfDistinct<T>(s: seq<T>, i: nat)
    requires Distinct(s) && i < |s|
    ensures IndexOf(s, s[i]) == Some(i)
  {
    if i > 0 {
      assert s[1..][i - 1] == s[i];
      assert Distinct(s[1..]) by {
        forall a, b | 0 <= a < b < |s[1..]| ensures s[1..][a] != s[1..][b] {
          assert s[1..][a] == s[a + 1] && s[1..][b] == s[b + 1];
        }
      }
      IndexOfDistinct(s[1..], i - 1);
    }
  }

  /** How the ERP reads a field by name out of record k: its position in `fields` names the value key. */
  function FieldValue(req: Request, k: nat, name: string): Option<Value>
  {
    if k >= |req.records| then None
    else match IndexOf(req.fields, name)
      case None => None
      case Some(i) => if Key(i) in req.records[k].values then Some(req.records[k].values[Key(i)]) else None
  }

  /** A request built by SaveRecords is well formed, and reading field `fields[i]` of record k gives `rows[k][i]`. */
  lemma SaveRecordsFields(entity: string, fields: seq<string>, rows: seq<seq<Value>>)
    requires Distinct(fields)
    requires forall k :: 0 <= k < |rows| ==> |rows[k]| == |fields|
    ensures var req := SaveRecords(entity, fields, rows);
      && req.serviceName == SaveService && req.entityName == entity && !req.standAlone
      && req.fields == fields && |req.records| == |rows| && WellFormed(req)
      && forall k, i :: 0 <= k < |rows| && 0 <= i < |fields| ==> FieldValue(req, k, fields[i]) == Some(rows[k][i])
  {
    var req := SaveRecords(entity, fields, rows);
    forall k | 0 <= k < |rows| ensures req.records[k].values.Keys == KeysBelow(|fields|) {
      PositionalAt(rows[k]);
    }
    forall k, i | 0 <= k < |rows| && 0 <= i < |fields|
      ensures FieldValue(req, k, fields[i]) == Some(rows[k][i])
    {
      IndexOfDistinct(fields, i);
      PositionalAt(rows[k]);
      assert Key(i) in KeysBelow(|fields|);
    }
  }

  // ---------------------------------------------------------------------
  // The table's integration flag

  /** A key whose flag is TRUE; a missing key or a NULL column is "not integrated". */
  predicate Integrated(table: map<Value, bool>, k: Value)
  {
    k in table && table[k]
  }

  /**
   * `UPDATE ... SET integrado = TRUE WHERE key = k`, committed at once.
   * A comparison with NULL is never true in SQL, so a NULL key matches no row.
   */
  function Mark(table: map<Value, bool>, k: Value): (t: map<Value, bool>)
    ensures forall f :: Integrated(t, f) <==> Integrated(table, f) || (f == k && k != Null)
  {
    if k == Null then table else table[k := true]
  }
}
