# Sankhya integration scripts: a Dafny model

Five batch scripts move data from a MySQL storefront database into the
Sankhya ERP through its `DatasetSP.save` JSON service:

- TGSCAB.py sends orders (`pedidos`) to AD_TGSCAB.
- TGSITE.py sends order items (`pedido_itens`) to AD_TGSITE.
- TGSPAR.py sends clients (`clientes`) to AD_TGSPAR.
- TGSSER.py sends one AD_TGSSER record per serial number of each order item.
- TGSMDF.py fetches the IBGE list of municipalities and bulk-loads it into AD_TGSMDF, 500 per request.

The first four scripts share a loop. They read the rows not yet integrated
and skip any row whose natural key was already seen in this run; a skipped
row is flagged as integrated (`integrado = TRUE`, or `integradoser = TRUE`
in TGSSER) without being sent. Every other row gets its own token fetch.
When that fetch and the payload build succeed, the row sends its own request;
TGSSER sends one per serial number, and none for an empty list. The row is
flagged only when the reply is accepted. In TGSSER that is the `response`
held after the row's serials, which may be an earlier row's; see below. The fifth script keeps no flags. It counts successes and
failures, and falls back to one request per municipality when a chunk is
refused.

This model describes the scripts' decision policy. It captures:

- which rows are sent, and with what payload;
- which rows end flagged;
- which replies count as accepted;
- how the counters move.

The network and the database are parameters of the model.

Modules, one per script plus two shared ones:

- `Wrappers`: `Option` and `Result`.
- `Sankhya`: values, replies and how they are judged, the positional value keys `"0"`, `"1"`, ..., the save request, and the table's integration flag.
- `RowSync`: the dedup-and-mark loop common to TGSCAB, TGSITE and TGSPAR. It is parameterised by which key is deduplicated, which key the UPDATE flags, and how a row becomes a request.
- `OrderSync`, `ItemSync`, `ClientSync`: the three instances of that loop.
- `SerialSync`: TGSSER's loop. It differs from the shared one in three ways:
  - it makes one POST per serial number;
  - it checks only the last `response`, a variable that persists across rows;
  - it has a `break` that ends the run.
- `MunicipalityLoad`: TGSMDF's filter, chunking, request builders and tally loop.

Each loop is a `method` with a `while` loop. Each is proved equal to a
fold-left specification function (`Run`, `Posts`, `Keep`, `FirstPass`,
`RetryPass`, `UploadSpec`). The lemmas state what the scripts promise about
those functions.

How the model represents the outside world:

- Remote calls are total functions of the call's position:
  - in the per-row scripts, the token fetch and the POST of row i;
  - in TGSSER, the POST for serial j of row i;
  - in TGSMDF, the request for chunk c, and the unit request for member j of chunk c in either fallback pass.
- The table is a map from the UPDATE's key to the flag.
- A bad reply or an exception is a value: an `Outcome`, a `Verdict`, a `Pass`, or an `Option`/`Result`.

In a few places the code does something other than what its log messages
and counters suggest it means to do. The model follows the code.

- In TGSCAB, the log line for an ERROR reply reads `pedido['']`. That raises KeyError, and the row's handler catches it. The effect is the same as any rejected reply: the row is not flagged and the loop goes on.
- In TGSMDF, a unit send in the first fallback that raises does not add a failure. The same applies to a 200 reply whose body is not JSON. Either one leaves the fallback, and the `except` pass re-sends the whole chunk.
- In TGSSER, an empty serial list is judged on whatever `response` the earlier rows left behind. When no earlier row left one, it raises NameError and is caught.

## Model

| member | source | states |
|---|---|---|
| Sankhya.VerdictsAcceptOnlySuccess | TGSPAR.py:133-147 | Both reply tests (per-row `"status" in d and d["status"] == "ERROR"`, bulk `isinstance(d, dict) and d.get("status") == "ERROR"`) accept only HTTP 200 with a JSON body that is not an ERROR object; the bulk test accepts exactly those; the tests agree on objects; both call a reply an HTTP error exactly when its code is not 200 |
| Sankhya.Key | TGSPAR.py:102-115 | The value key of a position is a non-empty string of decimal digits, with at least two digits from position 10 on |
| Sankhya.KeyRoundTrip | TGSPAR.py:102-115 | Reading a value key back as a decimal number gives its position |
| Sankhya.KeyInjective | TGSPAR.py:102-115 | Distinct positions get distinct value keys |
| Sankhya.KeysBelowSize | TGSPAR.py:102-115 | Positions 0..n-1 give exactly n distinct keys |
| Sankhya.PositionalAt | TGSPAR.py:102-115 | The values map has exactly the keys "0".."n-1", one key per value, and holds value i under "i" |
| Sankhya.IndexOf | TGSPAR.py:98-100 | A found index holds the field name; None means the name is not in the field list |
| Sankhya.IndexOfDistinct | TGSPAR.py:98-100 | In a list of distinct field names, looking up name i gives position i |
| Sankhya.SaveRecordsFields | TGSPAR.py:117-129 | A save request has service `DatasetSP.save`, the entity, `standAlone` false and the field list; every record is well formed, and reading field `fields[i]` of record k by name gives `rows[k][i]` |
| Sankhya.Mark | TGSPAR.py:143-145 | After `UPDATE ... SET integrado = TRUE WHERE key = k`, exactly the keys flagged before and k are flagged; a NULL key matches no row |
| RowSync.Sync | TGSITE.py:72-138 | The loop's final flags, requests sent, token fetches and per-row outcomes are those of the specification `Run` |
| RowSync.RunSeen | TGSITE.py:72-83 | The dedup set ends holding exactly the rows' keys; every row gets one outcome; one token fetch per distinct key; at most one POST per fetch |
| RowSync.SeenIffRepeats | TGSITE.py:75-83 | A row's key is in the dedup set when the row is reached exactly when an earlier row had that key |
| RowSync.RunOutcomes | TGSITE.py:74-138 | Each row's outcome is Duplicate when it repeats an earlier key and otherwise its own attempt (token fetch, payload build, POST verdict), independent of other rows |
| RowSync.RunFlags | TGSITE.py:75-133 | A key ends flagged exactly when it was flagged before, or it is not NULL and some row with that flag key repeated an earlier key or had its own POST accepted |
| RowSync.RunCalls | TGSITE.py:83-119 | Token fetches equal the number of distinct keys, POSTs are at most that, and an empty batch sends nothing and changes no flag |
| RowSync.RunSent | TGSITE.py:75-119 | The requests POSTed are, in row order, exactly the requests of the rows whose key repeats no earlier row's and whose token fetch and payload build succeeded; a repeated key never causes a send |
| RowSync.RepeatStep | TGSITE.py:75-81 | A row repeating an earlier key adds a Duplicate outcome and leaves the requests sent and the token fetches as they were before it |
| RowSync.FirstOccurrenceFlags | TGSITE.py:75-133 | When the same key is deduplicated and flagged: the first row of a key ends flagged exactly when it was flagged before, its attempt was accepted, or a later row repeats the key |
| ClientSync.PayloadFields | TGSPAR.py:98-129 | The client payload is one well-formed twelve-field AD_TGSPAR record, and each field read by name gives its column (ID = id_cliente, RAZAOSOCIAL = nome, ..., CODCID = cidade, SIGLA = estado) |
| ClientSync.Sync | TGSPAR.py:78-150 | Every client row gets an outcome; a client is flagged exactly when it was before or some row with its id_cliente repeated an earlier document or was accepted; one token fetch per distinct document; the requests sent are exactly those of `SentOf`, so no repeated document sends |
| ClientSync.RepeatedDocumentFlagsOwnClient | TGSPAR.py:80-87 | A row repeating an earlier documento is a Duplicate that fetches no token and sends nothing (requests sent and fetches after it equal those before it), and is flagged under its own id_cliente, whatever happened to the earlier row |
| ClientSync.FirstDocumentFlaggedIffAccepted | TGSPAR.py:89-147 | For a new document whose id_cliente is unique in the batch and not yet flagged: the client ends flagged exactly when its token fetch succeeded and its POST was accepted |
| ItemSync.PayloadFields | TGSITE.py:92-117 | A payload exists exactly when price and discount are non-NULL; it is one well-formed six-field AD_TGSITE record with VLRUNIT and DESCONTO as floats and each other field its column |
| ItemSync.Sync | TGSITE.py:72-138 | Every item row gets an outcome; an item is flagged exactly when it was before or some row with its id_item repeated or was accepted; one token fetch per distinct id_item; the requests sent are exactly those of `SentOf`, so no repeated id_item sends |
| ItemSync.RepeatedItemFlagged | TGSITE.py:75-81 | A repeated id_item is a Duplicate that fetches no token and sends nothing (requests sent and fetches after it equal those before it) and ends flagged |
| ItemSync.FirstItemFlaggedIffAccepted | TGSITE.py:83-135 | A new id_item not repeated later and not yet flagged ends flagged exactly when its token fetch succeeded, both `float()` calls succeeded and its POST was accepted |
| OrderSync.Pad2Value | TGSCAB.py:99 | `%d` and `%m` render a number below 100 as two digits that read back as that number |
| OrderSync.FormatDateRoundTrip | TGSCAB.py:99 | A rendered `dd/mm/yyyy` date parses back to the same date, and is ten characters long for four-digit years |
| OrderSync.PayloadFields | TGSCAB.py:91-115 | A payload exists exactly when data_pedido is not NULL; it is one well-formed five-field AD_TGSCAB record with DTPED the rendered date and each other field its column |
| OrderSync.Sync | TGSCAB.py:71-136 | Every order row gets an outcome; an order is flagged exactly when it was before or some row with its id_pedido repeated or was accepted; one token fetch per distinct id_pedido; the requests sent are exactly those of `SentOf`, so no repeated id_pedido sends |
| OrderSync.RepeatedOrderFlagged | TGSCAB.py:74-80 | A repeated id_pedido is a Duplicate that fetches no token and sends nothing (requests sent and fetches after it equal those before it) and ends flagged |
| OrderSync.FirstOrderFlaggedIffAccepted | TGSCAB.py:82-133 | A new id_pedido not repeated later and not yet flagged ends flagged exactly when its token fetch succeeded, its date was not NULL and its POST was accepted |
| OrderSync.ErrorReplyLeavesOrderPending | TGSCAB.py:119-136 | An HTTP 200 ERROR reply (the branch whose log line raises KeyError) leaves the order unflagged, and every row still gets an outcome |
| SerialSync.PostSerials | TGSSER.py:100-122 | The inner loop's POSTs, final `response` and whether a POST raised are those of the specification `Posts` |
| SerialSync.TryRow | TGSSER.py:82-140 | One row's try block gives the outcome, POSTs and final `response` of the specification `Try`: token failure and unparsable list send nothing, a raising POST ends it, and otherwise the held response is judged |
| SerialSync.Sync | TGSSER.py:69-147 | The loop's final flags, requests sent, token fetches and per-row outcomes are those of the specification `Run`, including the stop after a break |
| SerialSync.PostsShape | TGSSER.py:100-122 | One POST per serial, in order, carrying IDITEM, NUPED and that SERIE; it stops at the first POST that raises, and a raise happens exactly when some serial's POST raises; without one, `response` ends as the last serial's reply, or unchanged for an empty list |
| SerialSync.SerialRequestFields | TGSSER.py:100-120 | Each serial request is one well-formed `DatasetSP.save` record of AD_TGSSER with fields IDITEM, NUPED and SERIE, and reading them by name gives the row id_item, its id_pedido and the serial |
| SerialSync.RunShape | TGSSER.py:124-140 | Rows are visited in order until one breaks: either every row is visited, or the last visited row got a non-200 or ERROR reply; no other outcome ends the run |
| SerialSync.RunVisits | TGSSER.py:71-147 | A visited row was reached before any break, and its outcome is one step from the state the earlier rows left |
| SerialSync.RunStep | TGSSER.py:71-122 | A visited row appends exactly its own try block's POSTs to the requests sent, none when it repeats an earlier id_item, and leaves for the later rows its try block's final `response`, or the inherited one when it repeats; so an empty serial list passes an earlier row's `response` on |
| SerialSync.RunSeen | TGSSER.py:69-83 | The dedup set holds exactly the visited rows' id_item keys, with one token fetch per key |
| SerialSync.RunOutcomes | TGSSER.py:71-147 | A visited row is a Duplicate when it repeats an earlier id_item; otherwise its outcome is its own try block entered with the `response` the earlier rows left |
| SerialSync.RunFlags | TGSSER.py:72-144 | A key ends flagged exactly when it was flagged before, or it is not NULL and some visited row with that id_item was a Duplicate or was accepted; rows after a break are never flagged |
| SerialSync.RepeatedItemFlagged | TGSSER.py:72-80 | A visited row repeating an earlier id_item is a Duplicate with no token fetch and no POST, and ends flagged even when the earlier attempt failed |
| SerialSync.NewItemFlaggedIffLastAccepted | TGSSER.py:82-144 | A visited row with a new id_item settles exactly when its token fetch succeeded, its list parsed, no POST raised and the `response` held afterwards is accepted |
| SerialSync.LastResponseOnly | TGSSER.py:100-144 | Serials A and B of one item: A answered HTTP 500 and B accepted, so the item is flagged after two POSTs |
| SerialSync.StaleResponseFlags | TGSSER.py:98-144 | A row with an empty serial list makes no POST and is still flagged, on the response the previous row left |
| SerialSync.EmptyListWithoutResponse | TGSSER.py:98-147 | An empty serial list with no earlier response in the run sends nothing, raises NameError (caught) and leaves the item pending |
| SerialSync.AllSerialsAcceptedIff | TGSSER.py:100-140 | The combined verdict over an item's serials is Accepted exactly when every serial's reply was accepted |
| SerialSync.TryChecked | TGSSER.py:82-147 | The corrected try block: Checked(Accepted) exactly when the token fetch succeeded, the list parsed and every own serial was accepted |
| MunicipalityLoad.ChunksShape | TGSMDF.py:65-67 | The chunks concatenated give the list back; each chunk is non-empty and at most `size` long, and all but the last are exactly `size` long |
| MunicipalityLoad.ChunkCount | TGSMDF.py:16 | There are ceil(n / 500) chunks of 500 |
| MunicipalityLoad.TwelveHundredInThreeChunks | TGSMDF.py:79 | 1200 municipalities make three chunks of 500, 500 and 200 |
| MunicipalityLoad.FetchMunicipios | TGSMDF.py:29-43 | The fetch loop returns exactly what the filter `Municipios` gives: nothing on a raised call, a non-200 code, a body that is not JSON or not a list, or an element that is not an object |
| MunicipalityLoad.KeepNoneStays | TGSMDF.py:37-39 | Once an element without `.get` has raised, the whole filter has failed |
| MunicipalityLoad.KeepMembers | TGSMDF.py:36-43 | The filter succeeds exactly when every element is an object, and then keeps exactly the entries with non-null `id` and `nome`, projected to `{id, nome}` |
| MunicipalityLoad.KeepConcat | TGSMDF.py:37-42 | The filter keeps input order: filtering a concatenation concatenates the filtered parts |
| MunicipalityLoad.KeepSingle | TGSMDF.py:37-42 | One element: a non-object makes the filter fail, a complete entry is kept once as `{id, nome}`, an entry missing `id` or `nome` is dropped |
| MunicipalityLoad.KeepIsKept | TGSMDF.py:36-43 | When the filter succeeds its list is exactly the complete entries, each once and in input order, as an independent front-to-back filter gives them |
| MunicipalityLoad.BatchRequestFields | TGSMDF.py:46-53 | The chunk request is a `DatasetSP.save` of AD_TGSMDF with fields ID, MUNICIPIO and one well-formed record per chunk member, in order, holding its id and nome |
| MunicipalityLoad.UnitIsSingletonBatch | TGSMDF.py:56-62 | The unit request equals the chunk request of a one-element chunk |
| MunicipalityLoad.FirstFallback | TGSMDF.py:87-107 | The first fallback adds `FirstPass`'s counts to the running totals and reports whether a unit send raised out of it |
| MunicipalityLoad.RetryFallback | TGSMDF.py:110-121 | The `except` pass adds `RetryPass`'s counts to the running totals |
| MunicipalityLoad.Upload | TGSMDF.py:78-121 | The chunk loop's final counters are those of `UploadSpec` over the chunks of 500 |
| MunicipalityLoad.Load | TGSMDF.py:70-125 | A failed token fetch is fatal; so is a failed IBGE fetch; otherwise the result is the final counters over the filtered municipalities |
| MunicipalityLoad.FirstPassRaisedStays | TGSMDF.py:87-94 | After a unit send raises in the first fallback, the later members are not tried |
| MunicipalityLoad.RetryPassCounts | TGSMDF.py:110-121 | The `except` pass adds exactly one count per member: `total_ok` gains the members whose unit reply was accepted and `total_fail` every other member, a raising send included; all are successes exactly when every reply was accepted |
| MunicipalityLoad.AcceptedIdxSize | TGSMDF.py:89-94 | The accepted members below n number at most n, and exactly n when every unit reply was accepted |
| MunicipalityLoad.FirstPassCounts | TGSMDF.py:87-94 | The first fallback counts one per member until a send raises: without a raise every member is counted; with one, the members before it are counted and the one that raised is not, and a raise happens exactly when some unit send raises. Of the members counted, `total_ok` gains those whose reply was accepted and `total_fail` the rest |
| MunicipalityLoad.ChunkCounts | TGSMDF.py:81-121 | Neither counter goes down; a chunk adds one count per member unless a unit send escapes the first fallback, and then at least one and fewer than two per member |
| MunicipalityLoad.ChunkSplit | TGSMDF.py:78-121 | What one chunk adds to each counter: an accepted chunk adds `len(lote)` to ok; otherwise each fallback pass that runs adds its accepted members to ok and its other members to fail (the retry alone after a raise from the chunk send, the first pass alone when it completes, and after a raise out of it, the members counted before the raise plus the whole retry) |
| MunicipalityLoad.OneRefusedMember | TGSMDF.py:87-107 | A refused chunk whose members are all accepted one by one except one refused member adds `len(lote) - 1` to ok and exactly 1 to fail |
| MunicipalityLoad.FallbackAllAccepted | TGSMDF.py:87-107 | A refused chunk whose members are all accepted one by one adds `len(lote)` to ok and nothing to fail |
| MunicipalityLoad.AcceptedChunk | TGSMDF.py:83-97 | An accepted chunk adds its size to `total_ok` and nothing to `total_fail` |
| MunicipalityLoad.UploadCounts | TGSMDF.py:78-121 | Over the loop, `total_ok + total_fail` is at least the number of municipalities sent, and equal to it when no unit send escapes a first fallback |
| MunicipalityLoad.UploadConserves | TGSMDF.py:78-121 | The same bounds over the chunks of 500 of the filtered list |
| MunicipalityLoad.AllChunksAccepted | TGSMDF.py:95-97 | When every chunk is accepted, `total_ok` is the number of municipalities and `total_fail` is 0 |
| MunicipalityLoad.OverCount | TGSMDF.py:98-121 | Two municipalities in one chunk: the chunk gets HTTP 500, the first unit send is accepted and the second raises, then the `except` pass accepts both, giving three successes |
| MunicipalityLoad.IsolatedPassCounts | TGSMDF.py:87-94 | The corrected first fallback counts each member exactly once: ok the members whose unit reply was accepted, fail the rest |
| MunicipalityLoad.UploadIsolatedConserves | TGSMDF.py:87-121 | With the corrected fallback, every municipality is counted exactly once, whatever the replies |
| MunicipalityLoad.IsolatedAgreesWithoutEscape | TGSMDF.py:87-121 | The corrected and the original loops give the same counters whenever no chunk request raises and no unit send escapes a first fallback |

## Left out

- Database access is not modelled: the connection, the SELECT, `commit`, the `finally` close, and a failed connection, which ends a script before its loop. The rows come in as a sequence and the table as a map from key to flag.
- The HTTP calls, their headers, timeouts and the bearer token string are not modelled. A token fetch's success is a boolean per attempt, and each reply is a value the network parameter supplies.
- `json.dumps` of the payload is not modelled. Each column is assumed to be a JSON-serialisable value.
- ItemSync.Payload: a DECIMAL `quantidade` column, which would make `json.dumps` raise (caught, nothing sent), is modelled as sent. Serialisation is not modelled.
- ItemSync.Payload: the price and discount columns are assumed to be DECIMAL, so NULL or a number. A text value that `float()` rejects with ValueError, which the row's handler would catch, leaving the row pending, cannot be expressed. A payload exists exactly when both are non-NULL only under that assumption.
- OrderSync.Payload: `data_pedido` is assumed to be a DATE column, so NULL or a date. A value without `.strftime` raises AttributeError, which the row's handler would catch, leaving the row pending. Such a value cannot be expressed.
- OrderSync.FormatDate: `%Y` is rendered without zero padding. Years below 1000 are platform-dependent in `strftime`.
- ItemSync.ToFloat: numbers are mathematical reals, not IEEE doubles. Rounding in `float()` is not modelled.
- The printed log lines are not modelled. Neither are the counts `[INFO]` and `[RESUMO]` print.
- Sankhya.Value: equality is structural. Python's `1 == True == 1.0` in the dedup sets and SQL's type coercion in `WHERE key = %s` are not modelled.
- IBGE bodies are reduced to what the filter can tell apart: not JSON, not a list, or a list of objects and non-objects. A JSON null member and a missing member both read as Null.
- SerialSync.Sync: the serial list is modelled as already decoded, or as None when `json.loads` fails or does not give a list. The JSON text itself is not modelled.

## Findings

The as-written members are what the rest of the model uses, since they are what the scripts do. The corrected members state what each script evidently intended and prove it.

| source | as written | input that shows it | evidently intended | confidence | as-written member | corrected member |
|---|---|---|---|---|---|---|
| TGSSER.py:100-144 | Only the `response` held after the serial loop is checked. | An item with serials A and B, where A gets HTTP 500 and B is accepted, is flagged. | An item is flagged only when every one of its serials was accepted. | not executed | SerialSync.LastResponseOnly | SerialSync.TryChecked |
| TGSSER.py:98-144 | `response` is module-level, so a row with an empty serial list is judged on the reply an earlier row left. | Row 1 has serials [A], which is accepted. Row 2 has []. Row 2 is flagged with no POST of its own. | A row is judged only on its own replies. | not executed | SerialSync.StaleResponseFlags | SerialSync.TryChecked |
| TGSMDF.py:87-121 | A unit send that raises inside the first fallback jumps to the chunk's `except`, which counts every member again. | Two municipalities; the chunk gets HTTP 500; unit 1 is accepted; unit 2 raises; the retry accepts both. `total_ok` is 3. | Each municipality is counted once. | not executed | MunicipalityLoad.OverCount | MunicipalityLoad.UploadIsolatedConserves |
