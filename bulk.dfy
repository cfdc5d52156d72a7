/** `BulkBody`: builds the request body of an Elasticsearch `_bulk` call.
    Operations are appended one at a time as a header line and a document
    line; `Done` seals the body with a final newline. A byte budget makes
    `Add` seal the body once it has grown to the budget, and a body whose
    buffer the caller has emptied is reusable. */
module Bulk {
  import opened Types
  import Json
  import opened Framing

  // ---------------------------------------------------------------------
  // Size units
  // ---------------------------------------------------------------------

  function Pow2(k: nat): nat
    decreases k
  {
    if k == 0 then 1 else 2 * Pow2(k - 1)
  }

  /** The value of the unit constant at position `iota` of its declaration
      block: `1 << (10 * iota)`. */
  function Unit(iota: nat): nat {
    Pow2(10 * iota)
  }

  const KB: nat := Unit(1)
  const MB: nat := Unit(2)
  const GB: nat := Unit(3)

  lemma {:induction false} Pow2Add(a: nat, b: nat)
    ensures Pow2(a + b) == Pow2(a) * Pow2(b)
    decreases b
  {
    if b > 0 {
      Pow2Add(a, b - 1);
      assert Pow2(a + b) == 2 * Pow2(a + (b - 1));
    }
  }

  /** The units are 1024, 1024² and 1024³ bytes. */
  lemma UnitValues()
    ensures KB == 1024
    ensures MB == 1024 * 1024
    ensures GB == 1024 * 1024 * 1024
  {
    assert Pow2(1) == 2;
    assert Pow2(2) == 4;
    assert Pow2(3) == 8;
    assert Pow2(4) == 16;
    assert Pow2(5) == 32;
    assert Pow2(6) == 64;
    assert Pow2(7) == 128;
    assert Pow2(8) == 256;
    assert Pow2(9) == 512;
    assert Pow2(10) == 1024;
    Pow2Add(10, 10);
    Pow2Add(20, 10);
  }

  // ---------------------------------------------------------------------
  // Operations and their two lines
  // ---------------------------------------------------------------------

  /** One bulk operation, seen through the five queries `Add` makes of it.
      Each query may fail with an error of its own. */
  datatype Entry = Entry(
    Index: Result<bytes>,           // name of the target index
    Type: Result<bytes>,            // mapping type
    Id: Result<bytes>,              // document id
    Action: Result<bytes>,          // "index", "create", "update", "delete", ...
    Document: Result<Json.Value>)   // the document to apply

  const Update: bytes := [117, 112, 100, 97, 116, 101]      // update
  const IndexKey: bytes := [95, 105, 110, 100, 101, 120]    // _index
  const TypeKey: bytes := [95, 116, 121, 112, 101]          // _type
  const IdKey: bytes := [95, 105, 100]                      // _id
  const DocKey: bytes := [100, 111, 99]                     // doc
  const DocAsUpsertKey: bytes :=                            // doc_as_upsert
    [100, 111, 99, 95, 97, 115, 95, 117, 112, 115, 101, 114, 116]

  /** The header object: the action as its only key, mapped to the
      `indexHeader` struct, whose fields marshal in declaration order. */
  function HeaderValue(name: bytes, typ: bytes, id: bytes, action: bytes): Json.Value {
    Json.Obj([Json.Member(action, Json.Obj([
      Json.Member(IndexKey, Json.Str(name)),
      Json.Member(TypeKey, Json.Str(typ)),
      Json.Member(IdKey, Json.Str(id))]))])
  }

  /** The value marshalled on the document line: an update's document is
      wrapped with upsert enabled (the two keys are already in the sorted
      order Go uses for map keys); every other action's is sent as is. */
  function DocumentValue(action: bytes, doc: Json.Value): Json.Value {
    if action == Update then
      Json.Obj([Json.Member(DocKey, doc), Json.Member(DocAsUpsertKey, Json.Bool(true))])
    else doc
  }

  /** The header line. Marshalling the header always succeeds: every part of
      it is a string. */
  function HeaderJson(name: bytes, typ: bytes, id: bytes, action: bytes): (r: bytes)
    ensures Json.Encode(HeaderValue(name, typ, id, action)) == Ok(r)
    ensures NoNewline(r)
    ensures Json.Decode(r) == Some(HeaderValue(name, typ, id, action))
  {
    var inner := HeaderValue(name, typ, id, action).members[0].value;
    assert Json.MembersSerializable(inner.members[1..][1..][1..]);
    assert Json.MembersSerializable(inner.members[1..][1..]);
    assert Json.MembersSerializable(inner.members[1..]);
    assert Json.Serializable(inner);
    assert Json.MembersSerializable(HeaderValue(name, typ, id, action).members);
    Json.Encode(HeaderValue(name, typ, id, action)).value
  }

  /** What a well-formed operation's two lines say: each decodes to the
      value `Add` marshalled for it. */
  predicate LinesDescribe(header: bytes, document: bytes, v: Entry) {
    && v.Index.Ok? && v.Type.Ok? && v.Id.Ok? && v.Action.Ok? && v.Document.Ok?
    && Json.Decode(header) == Some(HeaderValue(v.Index.value, v.Type.value, v.Id.value, v.Action.value))
    && Json.Decode(document) == Some(DocumentValue(v.Action.value, v.Document.value))
  }

  /** Queries an operation and marshals its header and document, in the
      order `Add` does: the first failure is returned as is. On success
      both lines are single lines that decode to the header and the
      (wrapped, for an update) document. */
  function Prepare(v: Entry): (r: Result<Framed>)
    ensures v.Index.Err? ==> r == Err(v.Index.error)
    ensures v.Index.Ok? && v.Type.Err? ==> r == Err(v.Type.error)
    ensures v.Index.Ok? && v.Type.Ok? && v.Id.Err? ==> r == Err(v.Id.error)
    ensures v.Index.Ok? && v.Type.Ok? && v.Id.Ok? && v.Action.Err? ==> r == Err(v.Action.error)
    ensures v.Index.Ok? && v.Type.Ok? && v.Id.Ok? && v.Action.Ok? && v.Document.Err?
            ==> r == Err(v.Document.error)
    ensures v.Index.Ok? && v.Type.Ok? && v.Id.Ok? && v.Action.Ok? && v.Document.Ok?
            ==> (r.Ok? <==> Json.Serializable(DocumentValue(v.Action.value, v.Document.value)))
    ensures r.Err? && v.Index.Ok? && v.Type.Ok? && v.Id.Ok? && v.Action.Ok? && v.Document.Ok?
            ==> r.error == MarshalFailed
    ensures r.Ok? ==> LinesDescribe(r.value.header, r.value.document, v)
    ensures r.Ok? ==> NoNewline(r.value.header) && NoNewline(r.value.document)
  {
    var name :- v.Index;
    var typ :- v.Type;
    var id :- v.Id;
    var action :- v.Action;
    var headerJson := HeaderJson(name, typ, id, action);
    var doc :- v.Document;
    var valuesJson :- Json.Encode(DocumentValue(action, doc));
    Ok(Framed(headerJson, valuesJson))
  }

  // ---------------------------------------------------------------------
  // The state machine, as values
  // ---------------------------------------------------------------------

  /** What a body holds between calls: its buffer and whether it is sealed. */
  datatype State = State(buffer: bytes, done: bool)

  /** The state after a call and the error the call returned (`None` for nil). */
  datatype Step = Step(state: State, err: Option<Error>)

  /** `Done`: seal with one newline, unless already sealed. */
  function DoneStep(s: State): Step {
    if s.done then Step(s, None) else Step(State(s.buffer + [Newline], true), None)
  }

  /** `Add`: clear the sealed flag if the buffer was emptied, refuse while
      sealed, seal and refuse once the buffer has reached the budget, and
      otherwise append the operation's record or return its first error. */
  function AddStep(s: State, max: int, v: Entry): Step {
    var s := if |s.buffer| == 0 && s.done then State(s.buffer, false) else s;
    if s.done then Step(s, Some(BulkBodyFull))
    else if |s.buffer| >= max then Step(DoneStep(s).state, Some(BulkBodyFull))
    else match Prepare(v)
      case Err(e) => Step(s, Some(e))
      case Ok(f) => Step(State(s.buffer + Record(f), s.done), None)
  }

  // ---------------------------------------------------------------------
  // Properties of one call
  // ---------------------------------------------------------------------

  /** Reset handshake: on an emptied buffer the seal is cleared before
      anything else, so `Add` behaves as on a new body. */
  lemma AddAfterReset(done: bool, max: int, v: Entry)
    ensures AddStep(State([], done), max, v) == AddStep(State([], false), max, v)
  {
  }

  /** A sealed body that still holds bytes refuses and changes nothing. */
  lemma AddWhileSealed(s: State, max: int, v: Entry)
    requires s.done && |s.buffer| > 0
    ensures AddStep(s, max, v) == Step(s, Some(BulkBodyFull))
  {
  }

  /** At or over the budget, `Add` writes the final newline instead of the
      operation, seals the body and refuses. */
  lemma AddAtBudget(s: State, max: int, v: Entry)
    requires !s.done || |s.buffer| == 0
    requires |s.buffer| >= max
    ensures AddStep(s, max, v) == Step(State(s.buffer + [Newline], true), Some(BulkBodyFull))
  {
  }

  /** An error from a query or from marshalling comes back unchanged and
      the body is left as it was. */
  lemma AddFails(s: State, max: int, v: Entry)
    requires !s.done && |s.buffer| < max
    requires Prepare(v).Err?
    ensures AddStep(s, max, v) == Step(s, Some(Prepare(v).error))
  {
  }

  /** On success the buffer grows by exactly the header line and the
      document line, the old bytes stay in place, the body stays unsealed,
      and the two new lines decode to the operation's header and document. */
  lemma AddAppends(s: State, max: int, v: Entry)
    requires !s.done && |s.buffer| < max
    requires Prepare(v).Ok?
    ensures var r := AddStep(s, max, v);
      var f := Prepare(v).value;
      && r.err == None
      && r.state == State(s.buffer + f.header + [Newline] + f.document + [Newline], false)
      && r.state.buffer[..|s.buffer|] == s.buffer
      && NoNewline(f.header) && NoNewline(f.document)
      && LinesDescribe(f.header, f.document, v)
  {
    var f := Prepare(v).value;
    assert (s.buffer + Record(f))[..|s.buffer|] == s.buffer;
  }

  /** `Add` returns nil exactly when the body is open (or was emptied), is
      under its budget, and the operation's queries and marshalling succeed. */
  lemma AddSucceedsIff(s: State, max: int, v: Entry)
    ensures AddStep(s, max, v).err == None
            <==> (s.done ==> |s.buffer| == 0) && |s.buffer| < max && Prepare(v).Ok?
  {
  }

  /** The buffer is append-only: whatever `Add` does, the old bytes remain
      its prefix, and a refused `Add` adds at most the final newline. */
  lemma AddOnlyAppends(s: State, max: int, v: Entry)
    ensures var r := AddStep(s, max, v);
      && |s.buffer| <= |r.state.buffer|
      && r.state.buffer[..|s.buffer|] == s.buffer
      && (r.err != None ==> |r.state.buffer| <= |s.buffer| + 1)
  {
    var r := AddStep(s, max, v);
    if r.err == None {
      assert (s.buffer + Record(Prepare(v).value))[..|s.buffer|] == s.buffer;
    } else {
      assert (s.buffer + [Newline])[..|s.buffer|] == s.buffer;
    }
  }

  /** `Done` is idempotent: a second call writes nothing. */
  lemma DoneIdempotent(s: State)
    ensures var once := DoneStep(s).state;
      && once.done
      && |once.buffer| == |s.buffer| + (if s.done then 0 else 1)
      && DoneStep(once) == Step(once, None)
  {
  }

  /** The header line is at least 38 bytes longer than its four strings:
      the braces, quotes, colons, commas and the three field names. */
  lemma HeaderJsonLength(name: bytes, typ: bytes, id: bytes, action: bytes)
    ensures |HeaderJson(name, typ, id, action)| >= 38 + |name| + |typ| + |id| + |action|
  {
    var h := HeaderValue(name, typ, id, action);
    assert HeaderJson(name, typ, id, action) == Json.Text(h) by {
      assert Json.Encode(h) == Ok(HeaderJson(name, typ, id, action));
    }
    HeaderTextLength(name, typ, id, action);
  }

  lemma HeaderTextLength(name: bytes, typ: bytes, id: bytes, action: bytes)
    ensures |Json.Text(HeaderValue(name, typ, id, action))| >= 38 + |name| + |typ| + |id| + |action|
  {
    var m0 := Json.Member(IndexKey, Json.Str(name));
    var m1 := Json.Member(TypeKey, Json.Str(typ));
    var m2 := Json.Member(IdKey, Json.Str(id));
    StrMemberLength(IndexKey, name);
    StrMemberLength(TypeKey, typ);
    StrMemberLength(IdKey, id);
    var inner := Json.Obj([m0, m1, m2]);
    assert |Json.MembersText([m0, m1, m2])| == |Json.MemberText(m0)| + |Json.MemberText(m1)| + |Json.MemberText(m2)| + 2 by {
      assert [m0, m1, m2][1..] == [m1, m2];
      assert [m1, m2][1..] == [m2];
      assert Json.MembersText([m2]) == Json.MemberText(m2);
      assert Json.MembersText([m1, m2]) == Json.MemberText(m1) + [Json.Comma] + Json.MembersText([m2]);
      assert Json.MembersText([m0, m1, m2]) == Json.MemberText(m0) + [Json.Comma] + Json.MembersText([m1, m2]);
    }
    assert |Json.Text(inner)| >= 33 + |name| + |typ| + |id|;
    var top := Json.Member(action, inner);
    Json.EscapeLength(action);
    assert |Json.MemberText(top)| >= 36 + |name| + |typ| + |id| + |action|;
    assert Json.MembersText([top]) == Json.MemberText(top);
  }

  lemma StrMemberLength(key: bytes, s: bytes)
    ensures |Json.MemberText(Json.Member(key, Json.Str(s)))| >= 5 + |key| + |s|
  {
    Json.EscapeLength(key);
    Json.EscapeLength(s);
  }

  /** The budget is a soft limit: it is checked before an operation is
      written, never against the operation's size. With a 10-byte budget,
      a new body accepts its first well-formed operation, ends up over the
      budget, and the next `Add` seals it and refuses. */
  lemma SoftBudget(v: Entry, w: Entry)
    requires Prepare(v).Ok?
    ensures var first := AddStep(State([], false), 10, v);
      && first.err == None
      && |first.state.buffer| > 10
      && AddStep(first.state, 10, w) == Step(State(first.state.buffer + [Newline], true), Some(BulkBodyFull))
  {
    HeaderJsonLength(v.Index.value, v.Type.value, v.Id.value, v.Action.value);
  }

  // ---------------------------------------------------------------------
  // Properties of a whole batch
  // ---------------------------------------------------------------------

  /** `Add` called once per operation, stopping at the first error. */
  function AddAll(s: State, max: int, vs: seq<Entry>): Step
    decreases |vs|
  {
    if |vs| == 0 then Step(s, None)
    else
      var r := AddStep(s, max, vs[0]);
      if r.err != None then r else AddAll(r.state, max, vs[1..])
  }

  /** The two lines of every operation, or the first error among them. */
  function PrepareAll(vs: seq<Entry>): Result<seq<Framed>>
    decreases |vs|
  {
    if |vs| == 0 then Ok([])
    else
      var f :- Prepare(vs[0]);
      var fs :- PrepareAll(vs[1..]);
      Ok([f] + fs)
  }

  lemma {:induction false} PrepareAllAt(vs: seq<Entry>, i: nat)
    requires PrepareAll(vs).Ok? && i < |vs|
    ensures |PrepareAll(vs).value| == |vs|
    ensures Prepare(vs[i]) == Ok(PrepareAll(vs).value[i])
    decreases |vs|
  {
    PrepareAllLength(vs);
    if i > 0 {
      PrepareAllAt(vs[1..], i - 1);
    }
  }

  lemma {:induction false} PrepareAllLength(vs: seq<Entry>)
    requires PrepareAll(vs).Ok?
    ensures |PrepareAll(vs).value| == |vs|
    decreases |vs|
  {
    if |vs| > 0 {
      PrepareAllLength(vs[1..]);
    }
  }

  /** A run of successful adds on an open body appends the operations'
      records in order, so the buffer grows by the sum of their lengths. */
  lemma {:induction false} AddAllAppends(s: State, max: int, vs: seq<Entry>)
    requires !s.done
    requires AddAll(s, max, vs).err == None
    ensures PrepareAll(vs).Ok?
    ensures AddAll(s, max, vs).state == State(s.buffer + Records(PrepareAll(vs).value), false)
    ensures |AddAll(s, max, vs).state.buffer| == |s.buffer| + RecordsLength(PrepareAll(vs).value)
    decreases |vs|
  {
    if |vs| == 0 {
      assert s.buffer + Records([]) == s.buffer;
    } else {
      AddAllCons(s, max, vs);
      var r := AddStep(s, max, vs[0]);
      AddStepOk(s, max, vs[0]);
      var f := Prepare(vs[0]).value;
      AddAllAppends(r.state, max, vs[1..]);
      var fs := PrepareAll(vs[1..]).value;
      PrepareAllCons(vs);
      RecordsPrepend(s.buffer, f, fs);
    }
    RecordsLengthIsLength(PrepareAll(vs).value);
  }

  /** The first step of a run of adds that all succeed. */
  lemma AddAllCons(s: State, max: int, vs: seq<Entry>)
    requires |vs| > 0 && AddAll(s, max, vs).err == None
    ensures AddStep(s, max, vs[0]).err == None
    ensures AddAll(s, max, vs) == AddAll(AddStep(s, max, vs[0]).state, max, vs[1..])
  {
  }

  /** A successful add on an open body appends the operation's record. */
  lemma AddStepOk(s: State, max: int, v: Entry)
    requires !s.done && AddStep(s, max, v).err == None
    ensures Prepare(v).Ok?
    ensures AddStep(s, max, v).state == State(s.buffer + Record(Prepare(v).value), false)
  {
  }

  lemma PrepareAllCons(vs: seq<Entry>)
    requires |vs| > 0 && Prepare(vs[0]).Ok? && PrepareAll(vs[1..]).Ok?
    ensures PrepareAll(vs) == Ok([Prepare(vs[0]).value] + PrepareAll(vs[1..]).value)
  {
  }

  lemma RecordsPrepend(buffer: bytes, f: Framed, fs: seq<Framed>)
    ensures buffer + Record(f) + Records(fs) == buffer + Records([f] + fs)
  {
    assert ([f] + fs)[1..] == fs;
  }

  /** The wire format of a finished batch: adding operations to a new body
      and sealing it gives a body whose lines are, for each operation in
      order, its header line and its document line, each decoding to what
      was marshalled, followed by the empty line the final newline ends. */
  lemma BatchWireFormat(max: int, vs: seq<Entry>)
    requires AddAll(State([], false), max, vs).err == None
    ensures PrepareAll(vs).Ok?
    ensures var body := DoneStep(AddAll(State([], false), max, vs).state).state.buffer;
      && Lines(body) == LinesOf(PrepareAll(vs).value) + [[]]
      && |Lines(body)| == 2 * |vs| + 1
      && forall i | 0 <= i < |vs| :: LinesDescribe(Lines(body)[2 * i], Lines(body)[2 * i + 1], vs[i])
  {
    AddAllAppends(State([], false), max, vs);
    var fs := PrepareAll(vs).value;
    var body := DoneStep(AddAll(State([], false), max, vs).state).state.buffer;
    PrepareAllLength(vs);
    assert body == Records(fs) + [Newline];
    forall i | 0 <= i < |fs| ensures NoNewline(fs[i].header) && NoNewline(fs[i].document) {
      PrepareAllAt(vs, i);
    }
    BodyLines(fs);
    LinesOfLength(fs);
    forall i | 0 <= i < |vs|
      ensures LinesDescribe(Lines(body)[2 * i], Lines(body)[2 * i + 1], vs[i])
    {
      PrepareAllAt(vs, i);
      LinesOfAt(fs, i);
    }
  }

  // ---------------------------------------------------------------------
  // The body itself
  // ---------------------------------------------------------------------

  class BulkBody {
    /** The unread bytes of the embedded `bytes.Buffer`. */
    var buffer: bytes
    /** The budget the body was created with. */
    const max: int
    /** Whether the body has been sealed by `Done`. */
    var done: bool

    /** `NewBulkBody`: an empty, unsealed body with the given budget. */
    constructor (max: int)
      ensures buffer == [] && !done && this.max == max
    {
      this.max := max;
      buffer := [];
      done := false;
    }

    function Snapshot(): State
      reads this
    {
      State(buffer, done)
    }

    /** `Len` of the embedded buffer. */
    function Len(): nat
      reads this
    {
      |buffer|
    }

    /** `Reset` of the embedded buffer: what a caller does once it has sent
        the body. The seal stays until the next `Add` notices the empty buffer. */
    method Reset()
      modifies this
      ensures buffer == [] && done == old(done)
    {
      buffer := [];
    }

    /** Appends the final newline and seals the body; does nothing on a
        sealed body. Never fails. */
    method Done() returns (err: Option<Error>)
      modifies this
      ensures Step(Snapshot(), err) == DoneStep(old(Snapshot()))
      ensures err == None && done
      ensures buffer == if old(done) then old(buffer) else old(buffer) + [Newline]
    {
      if !done {
        buffer := buffer + [Newline];
        done := true;
      }
      return None;
    }

    /** Appends one operation, or returns why not. */
    method Add(v: Entry) returns (err: Option<Error>)
      modifies this
      ensures Step(Snapshot(), err) == AddStep(old(Snapshot()), max, v)
    {
      if Len() == 0 && done {
        done := false;
      }
      if done {
        return Some(BulkBodyFull);
      }
      if Len() >= max {
        var _ := Done();
        return Some(BulkBodyFull);
      }

      if v.Index.Err? {
        return Some(v.Index.error);
      }
      var name := v.Index.value;
      if v.Type.Err? {
        return Some(v.Type.error);
      }
      var typ := v.Type.value;
      if v.Id.Err? {
        return Some(v.Id.error);
      }
      var id := v.Id.value;
      if v.Action.Err? {
        return Some(v.Action.error);
      }
      var action := v.Action.value;
      var headerJson := HeaderJson(name, typ, id, action);

      if v.Document.Err? {
        return Some(v.Document.error);
      }
      var doc := DocumentValue(action, v.Document.value);
      var valuesJson := Json.Encode(doc);
      if valuesJson.Err? {
        return Some(valuesJson.error);
      }

      var entry := Join([headerJson, valuesJson.value, []], [Newline]);
      buffer := buffer + entry;
      return None;
    }
  }
}
