/** `process_command`'s reply text: the full response if it can be encoded, else a fixed one that always can. */
module FallbackReply {
  import opened Basics
  import opened BridgeReply
  import opened Utf8
  import opened JsonText
  import opened LuaTables
  import opened JsonLimits
  import opened JsonEncoder
  import opened JsonParser

  // ----- Flat records -----

  /** A string key and a boolean, an integer or a string under it. */
  datatype Row = Row(key: Bytes, value: Value)

  predicate IsScalar(v: Value) {
    v.Boolean? || v.Integer? || v.Str?
  }

  function ScalarTree(v: Value): Json {
    match v
    case Boolean(b) => Bool(b)
    case Integer(i) => Number(DecimalText(i))
    case Str(s) => Text(s)
    case _ => Null
  }

  function RowKeys(rows: seq<Row>): (keys: seq<Bytes>)
    ensures |keys| == |rows| && forall i :: 0 <= i < |rows| ==> keys[i] == rows[i].key
  {
    if rows == [] then [] else [rows[0].key] + RowKeys(rows[1..])
  }

  function RowEntries(rows: seq<Row>): (table: EntryList)
    ensures |table| == |rows|
    ensures forall i :: 0 <= i < |rows| ==> table[i] == Entry(StrKey(rows[i].key), rows[i].value)
  {
    if rows == [] then [] else [Entry(StrKey(rows[0].key), rows[0].value)] + RowEntries(rows[1..])
  }

  function RowMembers(rows: seq<Row>): (members: seq<Member>)
    ensures |members| == |rows|
    ensures forall i :: 0 <= i < |rows| ==> members[i] == Member(rows[i].key, ScalarTree(rows[i].value))
  {
    if rows == [] then [] else [Member(rows[0].key, ScalarTree(rows[0].value))] + RowMembers(rows[1..])
  }

  /** Keys in order, scalars under them. */
  ghost predicate IsRecord(rows: seq<Row>) {
    rows != [] && (forall i :: 0 <= i < |rows| ==> IsScalar(rows[i].value)) && Ascending(RowKeys(rows))
  }

  /** A heap with one table, whatever order `next` lists its entries in. */
  ghost predicate HoldsRecord(heap: Heap, rows: seq<Row>) {
    WellFormed(heap) && Reordered(map[0 := RowEntries(rows)], heap)
  }

  lemma {:induction false} AscendingDiffer(keys: seq<Bytes>, i: nat, j: nat)
    requires Ascending(keys) && i < j < |keys|
    ensures keys[i] != keys[j]
  {
    if i == 0 {
      assert keys[j] == keys[1..][j - 1];
      HeadIsLeast(keys, keys[j]);
      LessIsTotal(keys[0], keys[j]);
    } else {
      AscendingDiffer(keys[1..], i - 1, j - 1);
    }
  }

  lemma {:induction false} RecordIsWellFormed(rows: seq<Row>)
    requires IsRecord(rows)
    ensures DistinctKeys(RowEntries(rows)) && WellFormed(map[0 := RowEntries(rows)])
  {
    forall i, j | 0 <= i < j < |rows|
      ensures rows[i].key != rows[j].key
    {
      AscendingDiffer(RowKeys(rows), i, j);
    }
  }

  lemma {:induction false} RecordGet(rows: seq<Row>, i: nat)
    requires IsRecord(rows) && i < |rows|
    ensures RawGet(RowEntries(rows), StrKey(rows[i].key)) == rows[i].value
  {
    var table := RowEntries(rows);
    RecordIsWellFormed(rows);
    var v := RawGet(table, table[i].key);
    assert HasKey(table, table[i].key);
    var j :| 0 <= j < |table| && table[j] == Entry(table[i].key, v);
    assert j == i;
  }

  lemma {:induction false} RecordKeys(rows: seq<Row>)
    requires IsRecord(rows)
    ensures ListsKeys(RowKeys(rows), RowEntries(rows))
  {
    var keys, table := RowKeys(rows), RowEntries(rows);
    forall k | k in Elements(keys)
      ensures k in StringKeys(table)
    {
      var i :| 0 <= i < |keys| && keys[i] == k;
      assert table[i].key.s == k;
    }
    forall k | k in StringKeys(table)
      ensures k in Elements(keys)
    {
      var i :| 0 <= i < |table| && table[i].key.StrKey? && table[i].key.s == k;
      assert keys[i] == k;
    }
  }

  /** A record unfolds to the object of its members. */
  lemma {:induction false} RecordUnfolds(rows: seq<Row>)
    requires IsRecord(rows)
    ensures Unfolds(map[0 := RowEntries(rows)], Table(0), Obj(RowMembers(rows)))
  {
    var members, table := RowMembers(rows), RowEntries(rows);
    assert MemberKeys(members) == RowKeys(rows);
    RecordKeys(rows);
    forall i | 0 <= i < |members|
      ensures Unfolds(map[0 := table], RawGet(table, StrKey(members[i].key)), members[i].value)
    {
      RecordGet(rows, i);
      if rows[i].value.Integer? {
        IntegerUnfolds(map[0 := table], rows[i].value.i, members[i].value);
      }
    }
  }

  // ----- How long a record gets -----

  /** An upper bound for the text of a scalar; an escape makes at most six bytes of one. */
  function ScalarSize(v: Value): nat {
    match v
    case Str(s) => 6 * |s| + 2
    case Integer(i) => |DecimalText(i)|
    case _ => 5
  }

  function RecordSize(rows: seq<Row>): nat {
    if rows == [] then 0
    else 6 * |rows[0].key| + 4 + ScalarSize(rows[0].value) + RecordSize(rows[1..])
  }

  lemma {:induction false} EscapeAtMostSix(s: Bytes)
    ensures |Escape(s)| <= 6 * |s|
  {
    if s == [] {
    } else {
      EscapeAtMostSix(s[1..]);
    }
  }

  lemma ScalarSizeBounds(v: Value)
    requires IsScalar(v)
    ensures |Enc(ScalarTree(v))| <= ScalarSize(v)
  {
    if v.Str? {
      EscapeAtMostSix(v.s);
    }
  }

  lemma {:induction false} RecordSizeBounds(rows: seq<Row>)
    requires forall i :: 0 <= i < |rows| ==> IsScalar(rows[i].value)
    ensures |Join(EncMembers(RowMembers(rows)))| <= RecordSize(rows)
  {
    if rows == [] {
    } else {
      var members := RowMembers(rows);
      EscapeAtMostSix(rows[0].key);
      ScalarSizeBounds(rows[0].value);
      RecordSizeBounds(rows[1..]);
      assert EncMembers(members) == [EncMember(members[0])] + EncMembers(members[1..]);
    }
  }

  lemma {:induction false} RecordIsFlat(rows: seq<Row>)
    ensures DepthOfMembers(RowMembers(rows)) == 0 && EntriesOfMembers(RowMembers(rows)) == 0
  {
    if rows == [] {
    } else {
      RecordIsFlat(rows[1..]);
    }
  }

  ghost predicate TextsValid(rows: seq<Row>) {
    forall i :: 0 <= i < |rows| ==> IsUtf8(rows[i].key) && (rows[i].value.Str? ==> IsUtf8(rows[i].value.s))
  }

  /** A short record of valid texts is within every limit. */
  lemma {:induction false} RecordFits(rows: seq<Row>)
    requires IsRecord(rows) && TextsValid(rows) && |rows| <= MAX_ENTRIES && RecordSize(rows) + 2 <= MAX_BYTES
    ensures Fits(Obj(RowMembers(rows)))
  {
    RecordIsFlat(rows);
    RecordSizeBounds(rows);
    RecordTexts(rows);
  }

  lemma {:induction false} RecordTexts(rows: seq<Row>)
    requires IsRecord(rows) && TextsValid(rows)
    ensures TextValid(Obj(RowMembers(rows)))
  {
    forall i | 0 <= i < |rows|
      ensures IsUtf8(rows[i].key) && TextValid(ScalarTree(rows[i].value))
    {
    }
  }

  // ----- The fixed reply -----

  function Code(c: char): (b: Byte)
    ensures b < 128
  {
    if c as int < 128 then c as int else 63
  }

  /** The bytes of fixed text, all of it ASCII. */
  function Ascii(s: string): Bytes {
    seq(|s|, i requires 0 <= i < |s| => Code(s[i]))
  }

  lemma AsciiIsUtf8(s: string)
    ensures IsUtf8(Ascii(s))
  {
    SkipAscii(Ascii(s), |s|);
    assert Ascii(s)[|s|..] == [];
    EmptyIsUtf8();
  }

  lemma {:induction false} LessAt(a: Bytes, b: Bytes, i: nat)
    requires i < |a| && i < |b| && a[i] < b[i] && forall j :: 0 <= j < i ==> a[j] == b[j]
    ensures Less(a, b)
  {
    if i == 0 {
    } else {
      assert forall j :: 0 <= j < i - 1 ==> a[1..][j] == a[j + 1] && b[1..][j] == b[j + 1];
      LessAt(a[1..], b[1..], i - 1);
    }
  }

  /** Why the full response was not encoded. */
  datatype Reason = Encoding(fault: Fault) | UnsupportedError

  function ReasonName(reason: Reason): (s: string)
    ensures |s| <= 100
  {
    match reason
    case UnsupportedError => "unsupported_error"
    case Encoding(Cycle) => "cycle"
    case Encoding(DepthLimit) => "depth_limit"
    case Encoding(EntryLimit) => "entry_limit"
    case Encoding(ByteLimit) => "byte_limit"
    case Encoding(InvalidUtf8) => "invalid_utf8"
    case Encoding(UnsupportedType) => "unsupported_type"
    case Encoding(UnsupportedKey) => "unsupported_key"
    case Encoding(NonFiniteNumber) => "non_finite"
  }

  function ReasonMessage(reason: Reason): (s: string)
    ensures |s| <= 100
  {
    match reason
    case UnsupportedError => "Lua raised a non-text error object."
    case Encoding(Cycle) => "Lua response contains a recursive table."
    case Encoding(DepthLimit) => "Lua response exceeds the JSON nesting limit."
    case Encoding(EntryLimit) => "Lua response exceeds the JSON entry limit."
    case Encoding(ByteLimit) => "Lua response exceeds the encoded JSON byte limit."
    case Encoding(InvalidUtf8) => "Lua response contains invalid UTF-8; return bytes as integers or hex text."
    case Encoding(UnsupportedType) => "Lua response contains an unsupported value type."
    case Encoding(UnsupportedKey) => "Lua objects require string keys; arrays require consecutive integer keys."
    case Encoding(NonFiniteNumber) => "Lua response contains a non-finite number."
  }

  function OutcomeName(outcome: Outcome): (s: string)
    ensures |s| <= 100
  {
    match outcome
    case Completed => "completed"
    case NotExecuted => "not_executed"
    case Unknown => "unknown"
  }

  /** The fixed texts of one reply. */
  datatype Notes = Notes(reason: string, message: string, outcome: string, completed: bool)

  predicate Short(notes: Notes) {
    |notes.reason| <= 100 && |notes.message| <= 100 && |notes.outcome| <= 100
  }

  function NotesOn(reason: Reason, invalid: bool, ok: bool): Notes {
    Notes(ReasonName(reason), ReasonMessage(reason),
          OutcomeName(if ok then Completed else if invalid then NotExecuted else Unknown), ok)
  }

  lemma NotesAreShort(reason: Reason, invalid: bool, ok: bool)
    ensures Short(NotesOn(reason, invalid, ok))
  { }

  /** What the reply carries besides the result; the frame counter is the emulator's. */
  datatype Envelope = Envelope(id: Bytes, session: Bytes, frame: int)

  const FIELDS: seq<string> := [
    "code", "command_completed", "error", "execution_outcome", "frame", "id", "ok", "phase", "serialization_reason",
    "session_id"]

  /** The values under `FIELDS`, in their order. */
  function FallbackValues(r: Envelope, notes: Notes): (values: seq<Value>)
    ensures |values| == |FIELDS|
  {
    [Str(Ascii("serialization_failed")),
     Boolean(notes.completed),
     Str(Ascii(notes.message)),
     Str(Ascii(notes.outcome)),
     Integer(r.frame),
     Str(r.id),
     Boolean(false),
     Str(Ascii("serialization")),
     Str(Ascii(notes.reason)),
     Str(r.session)]
  }

  function FallbackRows(r: Envelope, notes: Notes): seq<Row> {
    seq(|FIELDS|, j requires 0 <= j < |FIELDS| => Row(Ascii(FIELDS[j]), FallbackValues(r, notes)[j]))
  }

  lemma {:induction false} AscendingFrom(keys: seq<Bytes>, i: nat)
    requires i <= |keys| && forall j :: i <= j < |keys| - 1 ==> Less(keys[j], keys[j + 1])
    ensures Ascending(keys[i..])
    decreases |keys| - i
  {
    if i + 1 >= |keys| {
    } else {
      AscendingFrom(keys, i + 1);
      assert keys[i..][1..] == keys[i + 1..];
    }
  }

  /** Two names in order by the character at `i`. */
  lemma NamesInOrder(a: string, b: string, i: nat)
    requires i < |a| && i < |b| && a[..i] == b[..i] && a[i] < b[i] && b[i] as int < 128
    ensures Less(Ascii(a), Ascii(b))
  {
    forall j | 0 <= j < i
      ensures Ascii(a)[j] == Ascii(b)[j]
    {
      assert a[j] == a[..i][j] && b[j] == b[..i][j];
    }
    LessAt(Ascii(a), Ascii(b), i);
  }

  lemma FieldsInOrder(j: nat)
    requires j < 9
    ensures Less(Ascii(FIELDS[j]), Ascii(FIELDS[j + 1]))
  {
    var common := if j == 0 || j == 8 then 2 else if j == 2 then 1 else 0;
    NamesInOrder(FIELDS[j], FIELDS[j + 1], common);
  }

  lemma ScalarValues(r: Envelope, notes: Notes)
    ensures forall j :: 0 <= j < |FIELDS| ==> IsScalar(FallbackValues(r, notes)[j])
  { }

  lemma FallbackIsRecord(r: Envelope, notes: Notes)
    ensures IsRecord(FallbackRows(r, notes))
  {
    var rows := FallbackRows(r, notes);
    ScalarValues(r, notes);
    forall j | 0 <= j < 9
      ensures Less(RowKeys(rows)[j], RowKeys(rows)[j + 1])
    {
      FieldsInOrder(j);
    }
    AscendingFrom(RowKeys(rows), 0);
  }

  // ----- It always fits -----

  const LONGEST := 10000

  /** Request and session ids are valid text of reasonable length, and the frame counter is a Lua integer. */
  ghost predicate Reasonable(r: Envelope) {
    && IsUtf8(r.id) && IsUtf8(r.session) && |r.id| <= LONGEST && |r.session| <= LONGEST
    && -0x8000_0000_0000_0000 <= r.frame < 0x8000_0000_0000_0000
  }

  function Ten(k: nat): nat {
    if k == 0 then 1 else 10 * Ten(k - 1)
  }

  lemma {:induction false} FewDigits(n: nat, k: nat)
    requires k > 0 && n < Ten(k)
    ensures |DecimalDigits(n)| <= k
  {
    if n < 10 {
    } else {
      assert k > 1;
      FewDigits(n / 10, k - 1);
    }
  }

  lemma FrameIsShort(i: int)
    requires -0x8000_0000_0000_0000 <= i < 0x8000_0000_0000_0000
    ensures |DecimalText(i)| <= 20
  {
    assert Ten(5) == 100000;
    assert Ten(10) == 100000 * Ten(5);
    assert Ten(15) == 100000 * Ten(10);
    assert Ten(19) == 10000 * Ten(15);
    FewDigits(if i < 0 then -i else i, 19);
  }

  lemma ValuesFit(r: Envelope, notes: Notes, j: nat)
    requires Reasonable(r) && Short(notes) && j < |FIELDS|
    ensures var v := FallbackValues(r, notes)[j];
            ScalarSize(v) <= 6 * LONGEST + 2 && (v.Str? ==> IsUtf8(v.s))
  {
    FrameIsShort(r.frame);
    AsciiIsUtf8("serialization_failed");
    AsciiIsUtf8("serialization");
    AsciiIsUtf8(notes.message);
    AsciiIsUtf8(notes.reason);
    AsciiIsUtf8(notes.outcome);
  }

  lemma Times(n: nat, size: nat)
    ensures (n + 1) * size == n * size + size
  { }

  lemma {:induction false} SizeAtMost(rows: seq<Row>, size: nat)
    requires forall j :: 0 <= j < |rows| ==> 6 * |rows[j].key| + 4 + ScalarSize(rows[j].value) <= size
    ensures RecordSize(rows) <= |rows| * size
  {
    if rows == [] {
    } else {
      SizeAtMost(rows[1..], size);
      Times(|rows| - 1, size);
    }
  }

  /** The fixed reply to a reasonable request is within every limit, whatever went wrong. */
  lemma FallbackFits(r: Envelope, notes: Notes)
    requires Reasonable(r) && Short(notes)
    ensures Fits(Obj(RowMembers(FallbackRows(r, notes))))
  {
    var rows := FallbackRows(r, notes);
    FallbackIsRecord(r, notes);
    forall j | 0 <= j < |rows|
      ensures IsUtf8(rows[j].key) && (rows[j].value.Str? ==> IsUtf8(rows[j].value.s))
      ensures 6 * |rows[j].key| + 4 + ScalarSize(rows[j].value) <= 6 * LONGEST + 200
    {
      AsciiIsUtf8(FIELDS[j]);
      ValuesFit(r, notes, j);
    }
    SizeAtMost(rows, 6 * LONGEST + 200);
    RecordFits(rows);
  }

  function FallbackTree(r: Envelope, notes: Notes): Json {
    Obj(RowMembers(FallbackRows(r, notes)))
  }

  /** One heap the encoder may see: the table of the fixed reply, its entries in whatever order `next` has. */
  ghost predicate HoldsFallback(heap: Heap, r: Envelope, notes: Notes) {
    WellFormed(heap) && Reordered(map[0 := RowEntries(FallbackRows(r, notes))], heap)
  }

  lemma FallbackUnfolds(heap: Heap, r: Envelope, notes: Notes)
    requires HoldsFallback(heap, r, notes)
    ensures Known(heap, Table(0)) && Unfolds(heap, Table(0), FallbackTree(r, notes))
  {
    var rows := FallbackRows(r, notes);
    FallbackIsRecord(r, notes);
    RecordIsWellFormed(rows);
    RecordUnfolds(rows);
    OrderDoesNotMatter(map[0 := RowEntries(rows)], heap, Table(0), FallbackTree(r, notes));
  }

  /** Some response tree fits: then the encoder writes it. */
  ghost predicate Encodable(heap: Heap, v: Value) {
    exists t :: Unfolds(heap, v, t) && Fits(t)
  }

  // ----- What a caller reads -----

  /** The key is this name, character by character. */
  predicate Spells(bytes: Bytes, name: string) {
    |bytes| == |name| && forall i :: 0 <= i < |name| ==> bytes[i] == name[i] as int
  }

  function Lookup(members: seq<Member>, name: string): Option<Json> {
    if members == [] then None
    else if Spells(members[0].key, name) then Some(members[0].value)
    else Lookup(members[1..], name)
  }

  function Field(t: Json, name: string): Option<Json> {
    if t.Obj? then Lookup(t.members, name) else None
  }

  predicate Says(t: Json, name: string, b: bool) {
    Field(t, name) == Some(Json.Bool(b))
  }

  function TextOf(t: Json, name: string): Option<Bytes> {
    match Field(t, name)
    case Some(Text(s)) => Some(s)
    case _ => None
  }

  predicate Named(t: Json, name: string, value: string) {
    match TextOf(t, name)
    case Some(s) => Spells(s, value)
    case None => false
  }

  /** The response record the host works with; its id is compared as text. */
  function HostReads(t: Json): Response {
    Response(
      None, Says(t, "ok", true), Named(t, "code", "serialization_failed"), Says(t, "command_completed", true),
      if Named(t, "execution_outcome", "completed") then Some(Completed)
      else if Named(t, "execution_outcome", "not_executed") then Some(NotExecuted)
      else if Named(t, "execution_outcome", "unknown") then Some(Unknown)
      else None)
  }

  /** Which reason the reply gives. */
  predicate Gives(t: Json, reason: Reason) {
    match reason
    case UnsupportedError => Named(t, "serialization_reason", "unsupported_error")
    case Encoding(Cycle) => Named(t, "serialization_reason", "cycle")
    case Encoding(DepthLimit) => Named(t, "serialization_reason", "depth_limit")
    case Encoding(EntryLimit) => Named(t, "serialization_reason", "entry_limit")
    case Encoding(ByteLimit) => Named(t, "serialization_reason", "byte_limit")
    case Encoding(InvalidUtf8) => Named(t, "serialization_reason", "invalid_utf8")
    case Encoding(UnsupportedType) => Named(t, "serialization_reason", "unsupported_type")
    case Encoding(UnsupportedKey) => Named(t, "serialization_reason", "unsupported_key")
    case Encoding(NonFiniteNumber) => Named(t, "serialization_reason", "non_finite")
  }

  lemma {:induction false} LookupFinds(members: seq<Member>, name: string, i: nat) returns (j: nat)
    requires i < |members| && Spells(members[i].key, name)
    ensures j <= i && members[j].key == members[i].key && Lookup(members, name) == Some(members[j].value)
  {
    if Spells(members[0].key, name) {
      j := 0;
      assert forall k :: 0 <= k < |name| ==> members[0].key[k] == members[i].key[k];
    } else {
      j := LookupFinds(members[1..], name, i - 1);
      j := j + 1;
    }
  }

  /** A string key of a table is found in its tree, with a tree of the value under it. */
  lemma FieldOfTable(heap: Heap, ref: nat, t: Json, key: Bytes, name: string, v: Value)
    requires WellFormed(heap) && ref in heap && Unfolds(heap, Table(ref), t)
    requires Entry(StrKey(key), v) in heap[ref] && Spells(key, name)
    ensures Field(t, name).Some? && Unfolds(heap, v, Field(t, name).value)
  {
    var table := heap[ref];
    var k :| 0 <= k < |table| && table[k] == Entry(StrKey(key), v);
    assert HasKey(table, table[k].key);
    assert t.Obj?;
    KeyListed(MemberKeys(t.members), table, key);
    var i :| 0 <= i < |t.members| && MemberKeys(t.members)[i] == key;
    var j := LookupFinds(t.members, name, i);
    assert RawGet(table, StrKey(key)) == v by {
      var l :| 0 <= l < |table| && table[l] == Entry(StrKey(key), RawGet(table, StrKey(key)));
      assert l == k;
    }
  }

  lemma AsciiSpells(s: string)
    requires forall i :: 0 <= i < |s| ==> s[i] as int < 128
    ensures Spells(Ascii(s), s)
  { }

  /** A string key of a table holds no list. */
  lemma FieldIsText(heap: Heap, ref: nat, t: Json, name: string, s: Bytes)
    requires WellFormed(heap) && ref in heap && Unfolds(heap, Table(ref), t)
    requires Entry(StrKey(Ascii(name)), Str(s)) in heap[ref] && forall i :: 0 <= i < |name| ==> name[i] as int < 128
    ensures TextOf(t, name) == Some(s)
  {
    AsciiSpells(name);
    FieldOfTable(heap, ref, t, Ascii(name), name, Str(s));
  }

  lemma FieldIsBool(heap: Heap, ref: nat, t: Json, name: string, b: bool)
    requires WellFormed(heap) && ref in heap && Unfolds(heap, Table(ref), t)
    requires Entry(StrKey(Ascii(name)), Boolean(b)) in heap[ref] && forall i :: 0 <= i < |name| ==> name[i] as int < 128
    ensures Says(t, name, b)
  {
    AsciiSpells(name);
    FieldOfTable(heap, ref, t, Ascii(name), name, Boolean(b));
  }

  /** A string key that a table lacks is not found in its tree. */
  lemma {:induction false} LookupMisses(members: seq<Member>, name: string)
    requires forall i :: 0 <= i < |members| ==> !Spells(members[i].key, name)
    ensures Lookup(members, name) == None
  {
    if members == [] {
    } else {
      LookupMisses(members[1..], name);
    }
  }

  lemma FieldIsMissing(heap: Heap, ref: nat, t: Json, name: string)
    requires WellFormed(heap) && ref in heap && Unfolds(heap, Table(ref), t)
    requires forall e :: e in heap[ref] ==> e.key.StrKey? && !Spells(e.key.s, name)
    ensures Field(t, name) == None
  {
    if t.Obj? {
      forall i | 0 <= i < |t.members|
        ensures !Spells(t.members[i].key, name)
      {
        var key := t.members[i].key;
        assert MemberKeys(t.members)[i] == key;
        KeyListed(MemberKeys(t.members), heap[ref], key);
        var k :| 0 <= k < |heap[ref]| && heap[ref][k].key == StrKey(key);
        assert heap[ref][k] in heap[ref];
      }
      LookupMisses(t.members, name);
    }
  }

  /** What every reply says about its command. */
  ghost predicate Answers(t: Json, r: Envelope) {
    && TextOf(t, "id") == Some(r.id) && TextOf(t, "session_id") == Some(r.session)
    && match Field(t, "frame")
       case Some(Number(text)) => IntegerOf(text) == Some(r.frame)
       case _ => false
  }

  lemma EnvelopeReads(heap: Heap, ref: nat, t: Json, r: Envelope)
    requires WellFormed(heap) && ref in heap && Unfolds(heap, Table(ref), t)
    requires Entry(StrKey(Ascii("id")), Str(r.id)) in heap[ref]
    requires Entry(StrKey(Ascii("session_id")), Str(r.session)) in heap[ref]
    requires Entry(StrKey(Ascii("frame")), Integer(r.frame)) in heap[ref]
    ensures Answers(t, r)
  {
    FieldIsText(heap, ref, t, "id", r.id);
    FieldIsText(heap, ref, t, "session_id", r.session);
    AsciiSpells("frame");
    FieldOfTable(heap, ref, t, Ascii("frame"), "frame", Integer(r.frame));
  }

  // ----- The full response -----

  /** What goes into the response under `data` or `error`. */
  function Said(ok: bool, data: Value): Value {
    if !ok && (data == Nil || data == Boolean(false)) then Str(Ascii("Lua command raised a non-text error."))
    else data
  }

  function ResponseTable(r: Envelope, ok: bool, data: Value): EntryList {
    [Entry(StrKey(Ascii("id")), Str(r.id)), Entry(StrKey(Ascii("session_id")), Str(r.session)),
     Entry(StrKey(Ascii("ok")), Boolean(ok)), Entry(StrKey(Ascii("frame")), Integer(r.frame))]
    + if Said(ok, data) == Nil then []
      else [Entry(StrKey(Ascii(if ok then "data" else "error")), Said(ok, data))]
  }

  /** The heap with the response at a fresh place. */
  function ResponseHeap(heap: Heap, ref: nat, r: Envelope, ok: bool, data: Value): Heap {
    heap[ref := ResponseTable(r, ok, data)]
  }

  lemma DifferentNames(a: string, b: string)
    requires |a| != |b| || (|a| > 0 && a[0] as int < 128 && b[0] as int < 128 && a[0] != b[0])
    ensures Ascii(a) != Ascii(b) && !Spells(Ascii(a), b)
  {
    if |a| == |b| {
      assert Ascii(a)[0] != Ascii(b)[0];
    }
  }

  lemma ResponseKeysDiffer(r: Envelope, ok: bool, data: Value)
    ensures DistinctKeys(ResponseTable(r, ok, data))
  {
    DifferentNames("id", "session_id");
    DifferentNames("id", "ok");
    DifferentNames("id", "frame");
    DifferentNames("session_id", "ok");
    DifferentNames("session_id", "frame");
    DifferentNames("ok", "frame");
    var last := if ok then "data" else "error";
    DifferentNames("id", last);
    DifferentNames("session_id", last);
    DifferentNames("ok", last);
    DifferentNames("frame", last);
  }

  lemma ResponseIsWellFormed(heap: Heap, ref: nat, r: Envelope, ok: bool, data: Value)
    requires WellFormed(heap) && Known(heap, data) && ref !in heap
    ensures WellFormed(ResponseHeap(heap, ref, r, ok, data))
  {
    ResponseKeysDiffer(r, ok, data);
  }

  /** The other names of the fixed reply are not in a full response. */
  lemma NoFixedNames(r: Envelope, ok: bool, data: Value, name: string)
    requires name == "code" || name == "command_completed" || name == "execution_outcome"
    ensures forall e :: e in ResponseTable(r, ok, data) ==> e.key.StrKey? && !Spells(e.key.s, name)
  {
    DifferentNames("id", name);
    DifferentNames("session_id", name);
    DifferentNames("ok", name);
    DifferentNames("frame", name);
    DifferentNames(if ok then "data" else "error", name);
  }

  /** A full response says how the handler ended. */
  lemma ResponseReads(heap: Heap, ref: nat, r: Envelope, ok: bool, data: Value, t: Json)
    requires WellFormed(heap) && ref in heap && heap[ref] == ResponseTable(r, ok, data) && Unfolds(heap, Table(ref), t)
    ensures Answers(t, r) && HostReads(t) == Response(None, ok, false, false, None)
  {
    var table := ResponseTable(r, ok, data);
    assert table[0] in table && table[1] in table && table[2] in table && table[3] in table;
    EnvelopeReads(heap, ref, t, r);
    FieldIsBool(heap, ref, t, "ok", ok);
    NothingFixed(heap, ref, t, r, ok, data);
  }

  /** What the handler returned or raised is there, unless it was nil, or an error that says nothing. */
  ghost predicate Carries(heap: Heap, t: Json, ok: bool, data: Value) {
    data != Nil && (ok || data != Boolean(false)) ==>
      var field := Field(t, if ok then "data" else "error");
      field.Some? && Unfolds(heap, data, field.value)
  }

  /** And it carries the result or the error. */
  lemma ResponseCarries(heap: Heap, ref: nat, r: Envelope, ok: bool, data: Value, t: Json)
    requires WellFormed(heap) && ref in heap && heap[ref] == ResponseTable(r, ok, data) && Unfolds(heap, Table(ref), t)
    ensures Carries(heap, t, ok, data)
  {
    if data != Nil && (ok || data != Boolean(false)) {
      CarriedField(heap, ref, r, ok, data, t);
    }
  }

  lemma CarriedField(heap: Heap, ref: nat, r: Envelope, ok: bool, data: Value, t: Json)
    requires WellFormed(heap) && ref in heap && heap[ref] == ResponseTable(r, ok, data) && Unfolds(heap, Table(ref), t)
    requires data != Nil && (ok || data != Boolean(false))
    ensures Carries(heap, t, ok, data)
  {
    var table, name := ResponseTable(r, ok, data), if ok then "data" else "error";
    assert table[4] == Entry(StrKey(Ascii(name)), Said(ok, data)) && table[4] in table;
    AsciiSpells(name);
    FieldOfTable(heap, ref, t, Ascii(name), name, Said(ok, data));
  }

  lemma NothingFixed(heap: Heap, ref: nat, t: Json, r: Envelope, ok: bool, data: Value)
    requires WellFormed(heap) && ref in heap && heap[ref] == ResponseTable(r, ok, data) && Unfolds(heap, Table(ref), t)
    ensures Field(t, "code") == None && Field(t, "command_completed") == None && Field(t, "execution_outcome") == None
  {
    NoFixedNames(r, ok, data, "code");
    NoFixedNames(r, ok, data, "command_completed");
    NoFixedNames(r, ok, data, "execution_outcome");
    FieldIsMissing(heap, ref, t, "code");
    FieldIsMissing(heap, ref, t, "command_completed");
    FieldIsMissing(heap, ref, t, "execution_outcome");
  }

  // ----- The fixed reply -----

  lemma FixedEntry(r: Envelope, notes: Notes, j: nat)
    requires j < |FIELDS|
    ensures Entry(StrKey(Ascii(FIELDS[j])), FallbackValues(r, notes)[j]) in RowEntries(FallbackRows(r, notes))
  {
    assert RowEntries(FallbackRows(r, notes))[j] == Entry(StrKey(Ascii(FIELDS[j])), FallbackValues(r, notes)[j]);
  }

  /** A heap whose table at 0 lists the fixed reply holds each of its fields. */
  lemma FixedField(heap: Heap, r: Envelope, notes: Notes, j: nat)
    requires HoldsFallback(heap, r, notes) && j < |FIELDS|
    ensures Entry(StrKey(Ascii(FIELDS[j])), FallbackValues(r, notes)[j]) in heap[0]
  {
    FixedEntry(r, notes, j);
    ReorderedTable(RowEntries(FallbackRows(r, notes)), heap[0]);
  }

  lemma FixedEnvelope(heap: Heap, r: Envelope, notes: Notes, t: Json)
    requires HoldsFallback(heap, r, notes) && Unfolds(heap, Table(0), t)
    ensures Answers(t, r)
  {
    FixedField(heap, r, notes, 4);
    FixedField(heap, r, notes, 5);
    FixedField(heap, r, notes, 9);
    EnvelopeReads(heap, 0, t, r);
  }

  lemma FieldsAreAscii(j: nat)
    requires j < |FIELDS|
    ensures forall i :: 0 <= i < |FIELDS[j]| ==> FIELDS[j][i] as int < 128
  { }

  lemma FixedText(heap: Heap, r: Envelope, notes: Notes, t: Json, j: nat, s: Bytes)
    requires HoldsFallback(heap, r, notes) && Unfolds(heap, Table(0), t)
    requires j < |FIELDS| && FallbackValues(r, notes)[j] == Str(s)
    ensures TextOf(t, FIELDS[j]) == Some(s)
  {
    FixedField(heap, r, notes, j);
    FieldsAreAscii(j);
    FieldIsText(heap, 0, t, FIELDS[j], s);
  }

  lemma FixedFlag(heap: Heap, r: Envelope, notes: Notes, t: Json, j: nat, b: bool)
    requires HoldsFallback(heap, r, notes) && Unfolds(heap, Table(0), t)
    requires j < |FIELDS| && FallbackValues(r, notes)[j] == Boolean(b)
    ensures Says(t, FIELDS[j], b)
  {
    FixedField(heap, r, notes, j);
    FieldsAreAscii(j);
    FieldIsBool(heap, 0, t, FIELDS[j], b);
  }

  lemma CodeIsNamed(t: Json)
    requires TextOf(t, "code") == Some(Ascii("serialization_failed"))
    ensures Named(t, "code", "serialization_failed")
  {
    AsciiSpells("serialization_failed");
  }

  lemma ReasonIsGiven(t: Json, reason: Reason)
    requires TextOf(t, "serialization_reason") == Some(Ascii(ReasonName(reason)))
    ensures Gives(t, reason)
  {
    AsciiSpells(ReasonName(reason));
  }

  lemma OutcomeIsNamed(t: Json, outcome: Outcome)
    requires TextOf(t, "execution_outcome") == Some(Ascii(OutcomeName(outcome)))
    ensures HostReads(t).outcome == Some(outcome)
  {
    DifferentNames(OutcomeName(outcome), if outcome == Completed then "not_executed" else "completed");
    DifferentNames(OutcomeName(outcome), if outcome == Unknown then "not_executed" else "unknown");
    AsciiSpells(OutcomeName(outcome));
  }

  lemma RecordIsRead(t: Json, ok: bool, outcome: Outcome)
    requires Says(t, "ok", false) && Says(t, "command_completed", ok) && Named(t, "code", "serialization_failed")
    requires HostReads(t).outcome == Some(outcome)
    ensures HostReads(t) == Response(None, false, true, ok, Some(outcome))
  { }

  lemma FixedRecord(heap: Heap, r: Envelope, reason: Reason, invalid: bool, ok: bool, t: Json)
    requires HoldsFallback(heap, r, NotesOn(reason, invalid, ok)) && Unfolds(heap, Table(0), t)
    ensures Says(t, "ok", false) && Says(t, "command_completed", ok) && Named(t, "code", "serialization_failed")
  {
    var notes := NotesOn(reason, invalid, ok);
    FixedText(heap, r, notes, t, 0, Ascii("serialization_failed"));
    FixedFlags(heap, r, notes, t);
    CodeIsNamed(t);
  }

  lemma FixedFlags(heap: Heap, r: Envelope, notes: Notes, t: Json)
    requires HoldsFallback(heap, r, notes) && Unfolds(heap, Table(0), t)
    ensures Says(t, "ok", false) && Says(t, "command_completed", notes.completed)
  {
    FixedCompletion(heap, r, notes, t);
    FixedFailure(heap, r, notes, t);
  }

  lemma FixedCompletion(heap: Heap, r: Envelope, notes: Notes, t: Json)
    requires HoldsFallback(heap, r, notes) && Unfolds(heap, Table(0), t)
    ensures Says(t, FIELDS[1], notes.completed)
  {
    assert FallbackValues(r, notes)[1] == Boolean(notes.completed);
    FixedFlag(heap, r, notes, t, 1, notes.completed);
  }

  lemma FixedFailure(heap: Heap, r: Envelope, notes: Notes, t: Json)
    requires HoldsFallback(heap, r, notes) && Unfolds(heap, Table(0), t)
    ensures Says(t, FIELDS[6], false)
  {
    FixedFlag(heap, r, notes, t, 6, false);
  }

  lemma FixedOutcome(heap: Heap, r: Envelope, notes: Notes, t: Json)
    requires HoldsFallback(heap, r, notes) && Unfolds(heap, Table(0), t)
    ensures TextOf(t, FIELDS[3]) == Some(Ascii(notes.outcome))
  {
    FixedText(heap, r, notes, t, 3, Ascii(notes.outcome));
  }

  lemma FixedReason(heap: Heap, r: Envelope, notes: Notes, t: Json)
    requires HoldsFallback(heap, r, notes) && Unfolds(heap, Table(0), t)
    ensures TextOf(t, FIELDS[8]) == Some(Ascii(notes.reason))
  {
    FixedText(heap, r, notes, t, 8, Ascii(notes.reason));
  }

  lemma NotesAreRead(t: Json, reason: Reason, outcome: Outcome)
    requires TextOf(t, "execution_outcome") == Some(Ascii(OutcomeName(outcome)))
    requires TextOf(t, "serialization_reason") == Some(Ascii(ReasonName(reason)))
    ensures HostReads(t).outcome == Some(outcome) && Gives(t, reason)
  {
    OutcomeIsNamed(t, outcome);
    ReasonIsGiven(t, reason);
  }

  lemma NotesComeBack(heap: Heap, r: Envelope, reason: Reason, invalid: bool, ok: bool, t: Json)
    requires HoldsFallback(heap, r, NotesOn(reason, invalid, ok)) && Unfolds(heap, Table(0), t)
    ensures Gives(t, reason)
    ensures HostReads(t).outcome == Some(if ok then Completed else if invalid then NotExecuted else Unknown)
  {
    FixedOutcome(heap, r, NotesOn(reason, invalid, ok), t);
    FixedReason(heap, r, NotesOn(reason, invalid, ok), t);
    NotesAreRead(t, reason, if ok then Completed else if invalid then NotExecuted else Unknown);
  }

  /** The fixed reply says which command it answers, that it completed if it did, and what went wrong. */
  lemma FallbackReads(heap: Heap, r: Envelope, reason: Reason, invalid: bool, ok: bool, t: Json)
    requires HoldsFallback(heap, r, NotesOn(reason, invalid, ok)) && Unfolds(heap, Table(0), t)
    ensures Answers(t, r) && Gives(t, reason)
    ensures HostReads(t)
         == Response(None, false, true, ok, Some(if ok then Completed else if invalid then NotExecuted else Unknown))
  {
    FixedEnvelope(heap, r, NotesOn(reason, invalid, ok), t);
    FixedRecord(heap, r, reason, invalid, ok, t);
    NotesComeBack(heap, r, reason, invalid, ok, t);
    RecordIsRead(t, ok, if ok then Completed else if invalid then NotExecuted else Unknown);
  }

  // ----- `process_command` from the finished handler on -----

  /** How the handler ended, by what it returned or raised. */
  function Shape(returned: bool, data: Value): Handler {
    if returned then Returned
    else if data.Str? then RaisedText
    else if data == Nil || data == Boolean(false) then RaisedNothing
    else RaisedOther
  }

  /** `json_encode` of the fixed table. */
  method EncodeFallback(r: Envelope, reason: Reason, invalid: bool, ok: bool) returns (text: Bytes, ghost t: Json)
    requires Reasonable(r)
    ensures ParseText(text) == Some(t) && Answers(t, r) && Gives(t, reason)
    ensures HostReads(t)
         == Response(None, false, true, ok, Some(if ok then Completed else if invalid then NotExecuted else Unknown))
  {
    var notes := NotesOn(reason, invalid, ok);
    var heap := map[0 := RowEntries(FallbackRows(r, notes))];
    NotesAreShort(reason, invalid, ok);
    FallbackIsRecord(r, notes);
    RecordIsWellFormed(FallbackRows(r, notes));
    t := FallbackTree(r, notes);
    FallbackUnfolds(heap, r, notes);
    FallbackFits(r, notes);
    FallbackReads(heap, r, reason, invalid, ok, t);
    ResponseParsesToItsValue(heap, Table(0), t);
    var status;
    status, text := JsonEncode(heap, Table(0));
  }

  lemma ResponseComesBack(whole: Heap, ref: nat, r: Envelope, ok: bool, data: Value, t: Json)
    requires WellFormed(whole) && ref in whole && whole[ref] == ResponseTable(r, ok, data)
    requires Unfolds(whole, Table(ref), t) && Fits(t)
    ensures ParseText(Enc(t)) == Some(t) && Answers(t, r) && HostReads(t) == Response(None, ok, false, false, None)
  {
    ResponseReads(whole, ref, r, ok, data, t);
    ResponseParsesToItsValue(whole, Table(ref), t);
  }

  /** `json_encode` of the full response, and what is read from it. */
  method EncodeResponse(whole: Heap, ref: nat, r: Envelope, ok: bool, data: Value)
    returns (status: Status, text: Bytes, ghost t: Json)
    requires WellFormed(whole) && ref in whole && whole[ref] == ResponseTable(r, ok, data)
    ensures status.Fine? <==> Encodable(whole, Table(ref))
    ensures status.Fine? ==>
              && ParseText(text) == Some(t) && Unfolds(whole, Table(ref), t) && Carries(whole, t, ok, data)
              && Answers(t, r) && HostReads(t) == Response(None, ok, false, false, None)
    ensures status.Failed? ==> Justifies(whole, status.fault, Table(ref), 0, 0, 1)
  {
    t := Null;
    status, text := JsonEncode(whole, Table(ref));
    if status.Fine? {
      t :| Unfolds(whole, Table(ref), t) && Fits(t);
      ResponseComesBack(whole, ref, r, ok, data, t);
      ResponseCarries(whole, ref, r, ok, data, t);
    }
  }

  /** Why the fixed reply is written: a non-text error, or a reason the response really has. */
  ghost predicate Met(reason: Reason, nonText: bool, whole: Heap, ref: nat) {
    match reason
    case UnsupportedError => nonText
    case Encoding(fault) => !nonText && Justifies(whole, fault, Table(ref), 0, 0, 1)
  }

  /** What the host reads from a full response, or else from the fixed reply. */
  function Reading(full: bool, invalid: bool, returned: bool): Response {
    if full then Response(None, returned, false, false, None)
    else Response(None, false, true, returned,
                  Some(if returned then Completed else if invalid then NotExecuted else Unknown))
  }

  /** It is the record the protocol works with. */
  lemma ReadingIsReply(encodable: bool, invalid: bool, returned: bool, data: Value)
    requires invalid ==> !returned
    ensures var full := Shape(returned, data) != RaisedOther && encodable;
            && Reply(None, invalid, Shape(returned, data), encodable, true) == Some(Reading(full, invalid, returned))
            && (HostOutcome(Reading(full, invalid, returned)) == Completed <==> returned)
            && (HostOutcome(Reading(full, invalid, returned)) == NotExecuted <==> invalid && !full)
  { }

  /**
    The reply to one command. There always is one that parses, for the request and session it answers: the full
    response if its tree fits the limits, else the fixed reply, which gives the reason that was met.
   */
  method Compose(whole: Heap, ref: nat, invalid: bool, returned: bool, data: Value, r: Envelope)
    returns (text: Bytes, reason: Option<Reason>, ghost t: Json)
    requires WellFormed(whole) && ref in whole && whole[ref] == ResponseTable(r, returned, data) && Reasonable(r)
    ensures ParseText(text) == Some(t) && Answers(t, r) && HostReads(t) == Reading(reason.None?, invalid, returned)
    ensures reason.None? <==> Shape(returned, data) != RaisedOther && Encodable(whole, Table(ref))
    ensures reason.None? ==> Unfolds(whole, Table(ref), t) && Carries(whole, t, returned, data)
    ensures reason.Some? ==>
              Gives(t, reason.value) && Met(reason.value, Shape(returned, data) == RaisedOther, whole, ref)
  {
    if !returned && !data.Str? && data != Nil && data != Boolean(false) {
      reason := Some(UnsupportedError);
    } else {
      var status;
      status, text, t := EncodeResponse(whole, ref, r, returned, data);
      reason := if status.Fine? then None else Some(Encoding(status.fault));
    }
    if reason.Some? {
      text, t := EncodeFallback(r, reason.value, invalid, returned);
    }
  }

  /** `process_command`: either way the host reads from the reply exactly the record the protocol works with. */
  method ReplyText(heap: Heap, ref: nat, invalid: bool, returned: bool, data: Value, r: Envelope)
    returns (text: Bytes, reason: Option<Reason>, ghost t: Json)
    requires WellFormed(heap) && Known(heap, data) && ref !in heap && Reasonable(r) && (invalid ==> !returned)
    ensures ParseText(text) == Some(t) && Answers(t, r)
    ensures var whole := ResponseHeap(heap, ref, r, returned, data);
            && (reason.None? <==> Shape(returned, data) != RaisedOther && Encodable(whole, Table(ref)))
            && (reason.None? ==> Unfolds(whole, Table(ref), t) && Carries(whole, t, returned, data))
            && (reason.Some? ==>
                  && Gives(t, reason.value)
                  && Met(reason.value, Shape(returned, data) == RaisedOther, whole, ref))
            && Reply(None, invalid, Shape(returned, data), Encodable(whole, Table(ref)), true) == Some(HostReads(t))
    ensures HostOutcome(HostReads(t)) == Completed <==> returned
    ensures HostOutcome(HostReads(t)) == NotExecuted <==> invalid && reason.Some?
  {
    var whole := ResponseHeap(heap, ref, r, returned, data);
    ResponseIsWellFormed(heap, ref, r, returned, data);
    ReadingIsReply(Encodable(whole, Table(ref)), invalid, returned, data);
    text, reason, t := Compose(whole, ref, invalid, returned, data, r);
  }
}
