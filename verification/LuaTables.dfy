/** Lua values and table graphs, and the JSON trees they unfold to. */
module LuaTables {
  import opened Utf8
  import opened JsonText

  /** The text `%.17g` gives a finite float; any JSON number. */
  type FloatText = s: Bytes | IsNumber(s) witness [48]

  /** What a raw traversal sees. Tables have identity, so they may be shared or cyclic. */
  datatype Value =
    | Nil
    | JsonNull
    | Boolean(b: bool)
    | Integer(i: int)
    | Float(text: FloatText)
    | NonFinite
    | Str(s: Bytes)
    | Table(ref: nat)
    | Unsupported

  /** A number without fraction, a string, or any other key. */
  datatype Key = IntKey(n: int) | StrKey(s: Bytes) | OtherKey(id: nat)

  datatype Entry = Entry(key: Key, value: Value)

  /** A table's entries in the order `next` yields them. */
  type EntryList = seq<Entry>

  type Heap = map<nat, EntryList>

  ghost predicate DistinctKeys(table: EntryList) {
    forall i, j :: 0 <= i < j < |table| ==> table[i].key != table[j].key
  }

  predicate Known(heap: Heap, v: Value) {
    v.Table? ==> v.ref in heap
  }

  ghost predicate WellFormed(heap: Heap) {
    forall r :: r in heap ==>
      && DistinctKeys(heap[r])
      && forall i :: 0 <= i < |heap[r]| ==> Known(heap, heap[r][i].value)
  }

  /** `rawget`. */
  function RawGet(table: EntryList, key: Key): (v: Value)
    ensures HasKey(table, key) ==> Entry(key, v) in table
    ensures !HasKey(table, key) ==> v == Nil
  {
    if table == [] then Nil
    else if table[0].key == key then assert Entry(key, table[0].value) == table[0]; table[0].value
    else
      assert HasKey(table[1..], key) ==> HasKey(table, key);
      assert HasKey(table, key) ==> HasKey(table[1..], key) by {
        if HasKey(table, key) {
          var i :| 0 <= i < |table| && table[i].key == key;
          assert table[1..][i - 1].key == key;
        }
      }
      RawGet(table[1..], key)
  }

  ghost predicate HasKey(table: EntryList, key: Key) {
    exists i :: 0 <= i < |table| && table[i].key == key
  }

  // ----- Key order -----

  /** `<` on Lua strings, byte by byte. */
  predicate Less(a: Bytes, b: Bytes) {
    b != [] && (a == [] || a[0] < b[0] || (a[0] == b[0] && Less(a[1..], b[1..])))
  }

  lemma {:induction false} LessIsTransitive(a: Bytes, b: Bytes, c: Bytes)
    requires Less(a, b) && Less(b, c)
    ensures Less(a, c)
  {
    if a != [] && a[0] == b[0] == c[0] {
      LessIsTransitive(a[1..], b[1..], c[1..]);
    } else {
    }
  }

  lemma {:induction false} LessIsTotal(a: Bytes, b: Bytes)
    ensures a == b || Less(a, b) || Less(b, a)
    ensures !(Less(a, b) && Less(b, a)) && !Less(a, a)
  {
    if a != [] && b != [] {
      LessIsTotal(a[1..], b[1..]);
      LessIsTotal(a[1..], a[1..]);
    } else if a != [] {
      LessIsTotal(a[1..], a[1..]);
    }
  }

  predicate Ascending(keys: seq<Bytes>) {
    |keys| < 2 || (Less(keys[0], keys[1]) && Ascending(keys[1..]))
  }

  lemma {:induction false} HeadIsLeast(keys: seq<Bytes>, k: Bytes)
    requires Ascending(keys) && keys != [] && k in keys[1..]
    ensures Less(keys[0], k)
  {
    if k != keys[1] {
      assert k in keys[1..][1..];
      HeadIsLeast(keys[1..], k);
      LessIsTransitive(keys[0], keys[1], k);
    } else {
    }
  }

  /** Two ascending sequences with the same elements are the same sequence. */
  lemma {:induction false} AscendingIsUnique(a: seq<Bytes>, b: seq<Bytes>)
    requires Ascending(a) && Ascending(b)
    requires |a| == |b| && forall k :: k in a <==> k in b
    ensures a == b
  {
    if a == [] {
    } else {
      assert a[0] in b && b[0] in a;
      if a[0] != b[0] {
        HeadIsLeast(b, a[0]);
        HeadIsLeast(a, b[0]);
        LessIsTotal(a[0], b[0]);
      }
      forall k ensures k in a[1..] <==> k in b[1..] {
        LessIsTotal(a[0], a[0]);
        if k in a[1..] {
          HeadIsLeast(a, k);
          assert k in b;
        }
        if k in b[1..] {
          HeadIsLeast(b, k);
          assert k in a;
        }
      }
      AscendingIsUnique(a[1..], b[1..]);
    }
  }

  /** `table.sort` on string keys. */
  function Insert(key: Bytes, keys: seq<Bytes>): seq<Bytes> {
    if keys == [] || !Less(keys[0], key) then [key] + keys else [keys[0]] + Insert(key, keys[1..])
  }

  function Sort(keys: seq<Bytes>): seq<Bytes> {
    if keys == [] then [] else Insert(keys[0], Sort(keys[1..]))
  }

  lemma {:induction false} InsertContents(key: Bytes, keys: seq<Bytes>)
    ensures |Insert(key, keys)| == |keys| + 1
    ensures forall k :: k in Insert(key, keys) <==> k == key || k in keys
  {
    if keys != [] && Less(keys[0], key) {
      InsertContents(key, keys[1..]);
    } else {
    }
  }

  lemma {:induction false} InsertAscends(key: Bytes, keys: seq<Bytes>)
    requires Ascending(keys) && key !in keys
    ensures Ascending(Insert(key, keys))
  {
    if keys == [] {
    } else {
      LessIsTotal(keys[0], key);
      if Less(keys[0], key) {
        InsertAscends(key, keys[1..]);
        assert Insert(key, keys)[1..] == Insert(key, keys[1..]);
      } else {
        assert Insert(key, keys)[1..] == keys;
      }
    }
  }

  ghost predicate Distinct(keys: seq<Bytes>) {
    forall i, j :: 0 <= i < j < |keys| ==> keys[i] != keys[j]
  }

  lemma {:induction false} SortSorts(keys: seq<Bytes>)
    requires Distinct(keys)
    ensures Ascending(Sort(keys)) && |Sort(keys)| == |keys|
    ensures forall k :: k in Sort(keys) <==> k in keys
  {
    if keys == [] {
    } else {
      SortSorts(keys[1..]);
      InsertContents(keys[0], Sort(keys[1..]));
      InsertAscends(keys[0], Sort(keys[1..]));
    }
  }

  // ----- Unfolding -----

  /** Keys exactly 1 to the number of entries. */
  ghost predicate IsArray(table: EntryList) {
    && (forall i :: 0 <= i < |table| ==> table[i].key.IntKey? && 1 <= table[i].key.n <= |table|)
    && (forall k :: 1 <= k <= |table| ==> HasKey(table, IntKey(k)))
  }

  /** At least one key, and only strings. */
  ghost predicate IsObject(table: EntryList) {
    table != [] && forall i :: 0 <= i < |table| ==> table[i].key.StrKey?
  }

  lemma NotBoth(table: EntryList)
    ensures !(IsArray(table) && IsObject(table))
  {
    if IsObject(table) {
      assert table[0].key.StrKey?;
    }
  }

  function MemberKeys(members: seq<Member>): seq<Bytes> {
    seq(|members|, i requires 0 <= i < |members| => members[i].key)
  }

  ghost function StringKeys(table: EntryList): set<Bytes> {
    set i | 0 <= i < |table| && table[i].key.StrKey? :: table[i].key.s
  }

  ghost function Elements(keys: seq<Bytes>): set<Bytes> {
    set k | k in keys
  }

  /** The keys of the table, each once, in ascending order. */
  ghost predicate ListsKeys(keys: seq<Bytes>, table: EntryList) {
    Ascending(keys) && |keys| == |table| && Elements(keys) == StringKeys(table)
  }

  lemma KeyListed(keys: seq<Bytes>, table: EntryList, k: Bytes)
    requires ListsKeys(keys, table)
    ensures k in keys <==> HasKey(table, StrKey(k))
  {
    assert k in keys <==> k in Elements(keys);
    assert HasKey(table, StrKey(k)) <==> k in StringKeys(table);
  }

  /** `t` is the finite tree that `v` unfolds to. It does not depend on the order of entries. */
  ghost predicate Unfolds(heap: Heap, v: Value, t: Json)
    decreases t, 1
  {
    match v
    case Nil => t == Null
    case JsonNull => t == Null
    case Boolean(b) => t == Bool(b)
    case Integer(i) => t.Number? && Writes(t.text, i)
    case Float(text) => t == Number(text)
    case Str(s) => t == Text(s)
    case NonFinite => false
    case Unsupported => false
    case Table(r) => r in heap && TableUnfolds(heap, heap[r], t)
  }

  /** An array of what is stored at 1 to n, or an object of what is stored under each key in key order. */
  ghost predicate TableUnfolds(heap: Heap, table: EntryList, t: Json)
    decreases t, 0
  {
    match t
    case Arr(items) =>
      && IsArray(table)
      && |items| == |table|
      && forall i :: 0 <= i < |items| ==> Unfolds(heap, RawGet(table, IntKey(i + 1)), items[i])
    case Obj(members) =>
      && IsObject(table)
      && ListsKeys(MemberKeys(members), table)
      && forall i :: 0 <= i < |members| ==> Unfolds(heap, RawGet(table, StrKey(members[i].key)), members[i].value)
    case _ => false
  }

  /** A table's keys are listed in only one way. */
  lemma SameListing(table: EntryList, a: seq<Bytes>, b: seq<Bytes>)
    requires ListsKeys(a, table) && ListsKeys(b, table)
    ensures a == b
  {
    forall k ensures k in a <==> k in b {
      KeyListed(a, table, k);
      KeyListed(b, table, k);
    }
    AscendingIsUnique(a, b);
  }

  lemma SameKeys(table: EntryList, a: seq<Member>, b: seq<Member>)
    requires ListsKeys(MemberKeys(a), table) && ListsKeys(MemberKeys(b), table)
    ensures |a| == |b| && forall i :: 0 <= i < |a| ==> a[i].key == b[i].key
  {
    SameListing(table, MemberKeys(a), MemberKeys(b));
    forall i | 0 <= i < |a| ensures a[i].key == b[i].key {
      assert MemberKeys(a)[i] == MemberKeys(b)[i];
    }
  }

  /** An integer unfolds to its decimal text only. */
  lemma IntegerUnfolds(heap: Heap, i: int, t: Json)
    ensures Unfolds(heap, Integer(i), t) <==> t == Number(DecimalText(i))
  {
    if t.Number? {
      WritesExactly(t.text, i);
    }
  }

  /** A value unfolds to at most one tree. */
  lemma {:induction false} UnfoldsOnce(heap: Heap, v: Value, a: Json, b: Json)
    requires Unfolds(heap, v, a) && Unfolds(heap, v, b)
    ensures a == b
    decreases a
  {
    match v
    case Table(r) =>
      if a.Arr? {
        NotBoth(heap[r]);
        forall i | 0 <= i < |a.items| ensures a.items[i] == b.items[i] {
          UnfoldsOnce(heap, RawGet(heap[r], IntKey(i + 1)), a.items[i], b.items[i]);
        }
      } else {
        NotBoth(heap[r]);
        SameKeys(heap[r], a.members, b.members);
        forall i | 0 <= i < |a.members| ensures a.members[i] == b.members[i] {
          UnfoldsOnce(heap, RawGet(heap[r], StrKey(a.members[i].key)), a.members[i].value, b.members[i].value);
        }
      }
    case Integer(i) =>
      IntegerUnfolds(heap, i, a);
      IntegerUnfolds(heap, i, b);
    case _ =>
  }

  // ----- Order of entries -----

  /** The same tables, each possibly listed in another `next` order. */
  ghost predicate Reordered(a: Heap, b: Heap) {
    && a.Keys == b.Keys
    && forall r :: r in a ==> multiset(a[r]) == multiset(b[r])
  }

  lemma ReorderedTable(a: EntryList, b: EntryList)
    requires multiset(a) == multiset(b)
    ensures |a| == |b|
    ensures forall e :: e in a <==> e in b
    ensures forall k :: HasKey(a, k) <==> HasKey(b, k)
  {
    assert |a| == |multiset(a)| && |b| == |multiset(b)|;
    forall e ensures e in a <==> e in b {
      assert e in a <==> e in multiset(a);
      assert e in b <==> e in multiset(b);
    }
    forall k ensures HasKey(a, k) <==> HasKey(b, k) {
      if HasKey(a, k) {
        var i :| 0 <= i < |a| && a[i].key == k;
        assert a[i] in b;
      }
      if HasKey(b, k) {
        var i :| 0 <= i < |b| && b[i].key == k;
        assert b[i] in a;
      }
    }
  }

  lemma ReorderedGet(a: EntryList, b: EntryList, key: Key)
    requires multiset(a) == multiset(b) && DistinctKeys(a) && HasKey(a, key)
    ensures RawGet(a, key) == RawGet(b, key)
  {
    ReorderedTable(a, b);
    assert Entry(key, RawGet(b, key)) in a;
    assert Entry(key, RawGet(a, key)) in a;
  }

  lemma ReorderedKeys(keys: seq<Bytes>, a: EntryList, b: EntryList)
    requires multiset(a) == multiset(b) && ListsKeys(keys, a)
    ensures ListsKeys(keys, b)
  {
    ReorderedTable(a, b);
    forall k ensures k in StringKeys(a) <==> k in StringKeys(b) {
      assert k in StringKeys(a) <==> HasKey(a, StrKey(k));
      assert k in StringKeys(b) <==> HasKey(b, StrKey(k));
    }
    assert StringKeys(a) == StringKeys(b);
  }

  /** The tree is the same whatever order `next` lists the entries in. */
  lemma {:induction false} OrderDoesNotMatter(a: Heap, b: Heap, v: Value, t: Json)
    requires WellFormed(a) && Reordered(a, b) && Unfolds(a, v, t)
    ensures Unfolds(b, v, t)
    decreases t
  {
    match v
    case Table(r) =>
      ReorderedTable(a[r], b[r]);
      if t.Arr? {
        forall i | 0 <= i < |b[r]| ensures b[r][i].key.IntKey? && 1 <= b[r][i].key.n <= |t.items| {
          assert b[r][i] in a[r];
        }
        forall i | 0 <= i < |t.items| ensures Unfolds(b, RawGet(b[r], IntKey(i + 1)), t.items[i]) {
          ReorderedGet(a[r], b[r], IntKey(i + 1));
          OrderDoesNotMatter(a, b, RawGet(a[r], IntKey(i + 1)), t.items[i]);
        }
      } else {
        forall i | 0 <= i < |b[r]| ensures b[r][i].key.StrKey? {
          assert b[r][i] in a[r];
        }
        ReorderedKeys(MemberKeys(t.members), a[r], b[r]);
        forall i | 0 <= i < |t.members|
          ensures Unfolds(b, RawGet(b[r], StrKey(t.members[i].key)), t.members[i].value)
        {
          assert MemberKeys(t.members)[i] in MemberKeys(t.members);
          KeyListed(MemberKeys(t.members), a[r], t.members[i].key);
          ReorderedGet(a[r], b[r], StrKey(t.members[i].key));
          OrderDoesNotMatter(a, b, RawGet(a[r], StrKey(t.members[i].key)), t.members[i].value);
        }
      }
    case _ =>
  }

  // ----- Paths -----

  ghost predicate IsChild(heap: Heap, v: Value, w: Value) {
    v.Table? && v.ref in heap && exists i :: 0 <= i < |heap[v.ref]| && heap[v.ref][i].value == w
  }

  /** Each value on the path is held by the one before it. */
  ghost predicate IsPath(heap: Heap, path: seq<Value>) {
    path != [] && forall i :: 0 <= i < |path| - 1 ==> IsChild(heap, path[i], path[i + 1])
  }

  ghost predicate Leads(heap: Heap, v: Value, path: seq<Value>, w: Value) {
    IsPath(heap, path) && path[0] == v && path[|path| - 1] == w
  }

  /** `w` is `v` or inside it. */
  ghost predicate Holds(heap: Heap, v: Value, w: Value) {
    exists path :: Leads(heap, v, path, w)
  }

  /** `v` is inside itself. */
  ghost predicate Recursive(heap: Heap, v: Value) {
    exists path :: Leads(heap, v, path, v) && |path| > 1
  }

  lemma HeldByParent(heap: Heap, v: Value, u: Value, w: Value)
    requires IsChild(heap, v, u) && Holds(heap, u, w)
    ensures Holds(heap, v, w)
  {
    var path :| Leads(heap, u, path, w);
    assert Leads(heap, v, [v] + path, w);
  }

  lemma {:induction false} DepthOfItem(items: seq<Json>, i: nat)
    requires i < |items|
    ensures Depth(items[i]) <= DepthOfItems(items)
  {
    if i == 0 {
    } else {
      DepthOfItem(items[1..], i - 1);
    }
  }

  lemma {:induction false} DepthOfMember(members: seq<Member>, i: nat)
    requires i < |members|
    ensures Depth(members[i].value) <= DepthOfMembers(members)
  {
    if i == 0 {
    } else {
      DepthOfMember(members[1..], i - 1);
    }
  }

  /** A child of an unfolding table unfolds to a shallower tree. */
  lemma ChildUnfolds(heap: Heap, v: Value, w: Value, t: Json) returns (u: Json)
    requires WellFormed(heap) && Unfolds(heap, v, t) && IsChild(heap, v, w)
    ensures Unfolds(heap, w, u) && Depth(u) < Depth(t) && (TextValid(t) ==> TextValid(u))
  {
    var table := heap[v.ref];
    var k :| 0 <= k < |table| && table[k].value == w;
    assert HasKey(table, table[k].key);
    assert Entry(table[k].key, RawGet(table, table[k].key)) in table;
    assert RawGet(table, table[k].key) == w;
    if t.Arr? {
      var i := table[k].key.n - 1;
      u := t.items[i];
      DepthOfItem(t.items, i);
    } else {
      KeyListed(MemberKeys(t.members), table, table[k].key.s);
      var i :| 0 <= i < |t.members| && MemberKeys(t.members)[i] == table[k].key.s;
      u := t.members[i].value;
      DepthOfMember(t.members, i);
    }
  }

  lemma {:induction false} HeldUnfolds(heap: Heap, path: seq<Value>, t: Json) returns (u: Json)
    requires WellFormed(heap) && IsPath(heap, path) && Unfolds(heap, path[0], t)
    ensures Unfolds(heap, path[|path| - 1], u) && Depth(u) + |path| - 1 <= Depth(t)
    ensures TextValid(t) ==> TextValid(u)
    decreases |path|
  {
    if |path| == 1 {
      u := t;
    } else {
      assert IsChild(heap, path[0], path[1]);
      var next := ChildUnfolds(heap, path[0], path[1], t);
      forall i | 0 <= i < |path[1..]| - 1 ensures IsChild(heap, path[1..][i], path[1..][i + 1]) {
        assert IsChild(heap, path[i + 1], path[i + 2]);
      }
      u := HeldUnfolds(heap, path[1..], next);
    }
  }

  /** A value with a cycle inside it has no finite tree. */
  lemma CyclesNeverUnfold(heap: Heap, v: Value, w: Value, t: Json)
    requires WellFormed(heap) && Holds(heap, v, w) && Recursive(heap, w)
    ensures !Unfolds(heap, v, t)
  {
    if Unfolds(heap, v, t) {
      var path :| Leads(heap, v, path, w);
      var u := HeldUnfolds(heap, path, t);
      var loop :| Leads(heap, w, loop, w) && |loop| > 1;
      var again := HeldUnfolds(heap, loop, u);
      UnfoldsOnce(heap, w, u, again);
      assert false;
    }
  }
}
