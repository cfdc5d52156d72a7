# BulkBody: a verified model of an Elasticsearch `_bulk` body builder

This project models `BulkBody` from `elasticsearch/protocol.go`, which builds the
request body of an Elasticsearch `_bulk` call. Each call to `Add` takes one
operation (an entry), asks it for its index, type, id, action and document,
and appends two newline-ended lines to an in-memory buffer:
- a header object `{"<action>":{"_index":…,"_type":…,"_id":…}}`;
- the document, which an `update` wraps as `{"doc":…,"doc_as_upsert":true}`.

`Done` seals the body with one more newline. A byte budget, fixed when the body
is created, makes `Add` seal the body and refuse once the buffer has reached the
budget. A caller that empties the buffer re-arms the body: the next `Add`
notices the empty buffer and clears the seal.

Modules:
- `Types` (types.dfy): bytes, `Option`, `Result`, and the errors `Add` returns.
- `Json` (json.dfy): the JSON values the body marshals and a compact encoder
  written like Go's `json.Marshal`. It also has a reader for that encoding.
  Every serializable value reads back unchanged from its text (`RoundTrip`),
  and the text never holds a newline byte (`TextNoNewline`).
- `Framing` (framing.dfy): `bytes.Join`, the two-line record, and the split of
  a body into newline-ended lines.
- `Bulk` (bulk.dfy): the size units, the entry, and the header and document
  values. `Prepare` queries the entry and marshals its two lines. `AddStep`
  and `DoneStep` are the state machine as functions on values. The class
  `BulkBody` has the fields of the Go struct; its methods `Add` and `Done`
  update them in place, and each is proved equal to its step function.

Where the Elasticsearch bulk API documentation (linked at
`elasticsearch/protocol.go:28`) and the code differ, the model follows the code:
- The action is any string that the entry returns, not a closed set of four.
  Only the exact string `update` is treated specially.
- The document is always queried and marshalled, for `delete` too. A nil
  document is `Json.Null` and gives the line `null`.
- The reset check runs before everything else. If an `Add` on an emptied,
  sealed body then fails on an entry error, the seal stays cleared: the state
  is "unchanged" only relative to the re-armed body.
- Writes to the `bytes.Buffer` never return an error, so no partial record
  can be left behind.

## Model

| member | source | states |
|---|---|---|
| `Bulk.UnitValues` | elasticsearch/protocol.go:11-16 | `KB`, `MB` and `GB`, defined as `1 << (10 * iota)`, are 1024, 1024² and 1024³ |
| `Bulk.BulkBody.constructor` | elasticsearch/protocol.go:41-43 | `NewBulkBody` gives an empty buffer, `done` false, and the given budget |
| `Bulk.BulkBody.Reset` | elasticsearch/protocol.go:29-30 | emptying the embedded buffer keeps the `done` flag; only the next `Add` clears it |
| `Bulk.BulkBody.Add` | elasticsearch/protocol.go:46-108 | the new buffer, the new `done` flag and the returned error are exactly those of `AddStep` on the old state; the lemmas below state what that means |
| `Bulk.BulkBody.Done` | elasticsearch/protocol.go:112-120 | the new state and result are those of `DoneStep` on the old state: returns nil and leaves the body sealed; appends one newline byte if the body was open, nothing if it was already sealed |
| `Bulk.AddAfterReset` | elasticsearch/protocol.go:47-50 | on an empty buffer, `Add` behaves the same whether or not the body was sealed |
| `Bulk.AddWhileSealed` | elasticsearch/protocol.go:51-54 | sealed with a non-empty buffer: `Add` returns `BulkBodyFull` and changes neither the buffer nor `done` |
| `Bulk.AddAtBudget` | elasticsearch/protocol.go:55-58 | open and `Len() >= max`: `Add` appends exactly one newline, sets `done`, writes no entry bytes and returns `BulkBodyFull` |
| `Bulk.AddFails` | elasticsearch/protocol.go:62-101 | when a query or the marshalling fails, `Add` returns that error as is and leaves the buffer and `done` as they were |
| `Bulk.AddAppends` | elasticsearch/protocol.go:103-107 | on success the buffer becomes the old buffer + header + newline + document + newline; the old bytes are unchanged, `done` stays false, and the two new lines decode to the header and the (wrapped) document |
| `Bulk.AddSucceedsIff` | elasticsearch/protocol.go:46-108 | `Add` returns nil if and only if the body is open or emptied, `Len() < max`, and every query and the marshalling succeed |
| `Bulk.AddOnlyAppends` | elasticsearch/protocol.go:46-108 | whatever `Add` returns, the old buffer is a prefix of the new one; a refused `Add` adds at most one byte |
| `Bulk.DoneIdempotent` | elasticsearch/protocol.go:112-120 | `Done` seals and adds one byte to an open body and none to a sealed one; a second `Done` changes nothing |
| `Bulk.SoftBudget` | elasticsearch/protocol.go:55-107 | the budget is checked only before a write: with a 10-byte budget, a new body accepts a well-formed entry, ends up over 10 bytes, and the next `Add` seals it and returns `BulkBodyFull` |
| `Bulk.HeaderJsonLength` | elasticsearch/protocol.go:81 | the header line is at least 38 bytes plus the lengths of the index, type, id and action |
| `Bulk.HeaderJson` | elasticsearch/protocol.go:61-84 | marshalling the header map never fails; its one line decodes to `{action: {"_index": Index, "_type": Type, "_id": Id}}` |
| `Bulk.Prepare` | elasticsearch/protocol.go:60-101 | queries `Index`, `Type`, `Id`, `Action`, `Document` in order and returns the first error unchanged, or the marshal error exactly when the document line cannot be marshalled; on success both lines are single lines decoding to the header and to the document, wrapped as `{"doc": D, "doc_as_upsert": true}` for `update` |
| `Bulk.AddAllAppends` | elasticsearch/protocol.go:103-107 | a run of successful adds on an open body appends the records in order; the buffer grows by the sum of header + document + 2 over the operations |
| `Bulk.BatchWireFormat` | elasticsearch/protocol.go:103-119 | a new body after successful adds and `Done` splits into 2n lines (header and document of each operation, in order, each decoding to what was marshalled) plus one empty final line |
| `Json.Encode` | elasticsearch/protocol.go:98-101 | `json.Marshal` fails exactly on unsupported values; otherwise its output holds no newline and decodes back to the value |
| `Json.RoundTrip` | elasticsearch/protocol.go:98 | the compact text of every serializable value decodes to that value |
| `Json.TextNoNewline` | elasticsearch/protocol.go:103-104 | the encoding never holds a newline byte, so the header and the document are one line each |
| `Json.ReadValueText` | elasticsearch/protocol.go:98 | reading a value's text followed by anything that cannot extend it gives the value and leaves what followed |
| `Framing.Record` | elasticsearch/protocol.go:104 | joining header, document and an empty part with newlines gives header + newline + document + newline |
| `Framing.BodyLines` | elasticsearch/protocol.go:103-119 | records of one-line headers and documents, followed by the final newline, split into exactly those lines in order plus one empty line |

## Left out

- `json.Marshal` internals are reduced to a small encoder. Numbers are integers;
  Go's float formatting is not modelled. Go's sorting of map keys is taken as
  done: an object's members are listed in the order Go writes them. Strings are
  escaped as Go 1.7–1.21 does for ASCII: `\"`, `\\`, `\n`, `\r`, `\t`, and
  `\u00XX` for other control bytes and `<`, `>`, `&`. Bytes of 0x80 and above
  are copied; the UTF-8 checks (U+FFFD for invalid bytes, escaped U+2028 and
  U+2029) are not modelled.
- The reader in `Json` reads compact JSON only, as the encoder writes it: no
  whitespace, and `\u` escapes only below 0x80. It is the partner used to state
  what each line holds, not a model of any code in the repository.
- Every marshal failure is the single error `MarshalFailed`, not Go's typed
  `UnsupportedTypeError` or `UnsupportedValueError`.
- Errors from an entry's queries are `QueryFailed(code)` values or any other
  `Error`. The `Operationer`, `Identifier` and `Documenter` interfaces are not
  part of this model; an entry is the results of its five queries, which have
  no side effects.
- The error check after marshalling the header (protocol.go:82-84) is not a
  branch of the model: `Bulk.HeaderJson` proves that marshalling the header
  cannot fail.
- `ByteSize` is a `float64` in the source. The budget is an integer here, so
  negative budgets are covered and fractional ones are not (a fractional budget
  acts as its ceiling).
- `bytes.Buffer` growth, reallocation and out-of-memory panics are left out.
  `Write` and `WriteByte` are plain appends, since they always return nil.
- Draining the buffer (`Read`, `WriteTo`) and sending it over HTTP belong to
  the callers. `Reset` is the one buffer operation modelled, because it is what
  re-arms a sealed body.
- Concurrency: the Go type is not safe for concurrent use, and the model is
  sequential.
