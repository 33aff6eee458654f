/** `json_encode`: the bridge's stateful encoder, proved against the unbounded encoding of the unfolded tree. */
module JsonEncoder {
  import opened Utf8
  import opened JsonText
  import opened LuaTables
  import opened JsonLimits

  datatype Status = Fine | Failed(fault: Fault)

  function Concat(parts: seq<Bytes>): Bytes {
    if parts == [] then [] else Concat(parts[..|parts| - 1]) + parts[|parts| - 1]
  }

  predicate NeedsEscape(b: Byte) {
    b < 32 || b == 34 || b == 92
  }

  ghost predicate AllStrings(table: EntryList) {
    forall i :: 0 <= i < |table| ==> table[i].key.StrKey?
  }

  function Strings(table: EntryList): seq<Bytes>
    requires AllStrings(table)
  {
    seq(|table|, i requires 0 <= i < |table| => table[i].key.s)
  }

  lemma SortListsKeys(table: EntryList)
    requires DistinctKeys(table) && AllStrings(table)
    ensures ListsKeys(Sort(Strings(table)), table)
  {
    var keys := Strings(table);
    SortSorts(keys);
    forall k ensures k in Sort(keys) <==> k in StringKeys(table) {
      if k in StringKeys(table) {
        var i :| 0 <= i < |table| && table[i].key.StrKey? && table[i].key.s == k;
        assert keys[i] == k;
      }
    }
    assert Elements(Sort(keys)) == StringKeys(table);
  }

  /** What a scan of all keys found, short of an error. */
  ghost predicate Scanned(table: EntryList, numeric: nat, maximum: int) {
    && numeric <= |table|
    && (forall i :: 0 <= i < |table| ==>
          table[i].key.StrKey? || (table[i].key.IntKey? && 1 <= table[i].key.n <= maximum))
    && (numeric == 0 <==> AllStrings(table))
    && (numeric == |table| <==> forall i :: 0 <= i < |table| ==> table[i].key.IntKey?)
    && (if numeric == 0 then maximum == 0 else HasKey(table, IntKey(maximum)))
  }

  /** The scan's two counters decide the shape of the table. */
  lemma ScanDecidesShape(table: EntryList, numeric: nat, maximum: int)
    requires DistinctKeys(table) && Scanned(table, numeric, maximum)
    ensures numeric == maximum == |table| <==> IsArray(table)
    ensures numeric == 0 && table != [] <==> IsObject(table)
  {
    if numeric == maximum == |table| {
      MaximumForcesArray(table);
    }
    if IsArray(table) && table != [] {
      assert table[0].key.IntKey?;
      assert HasKey(table, IntKey(|table|));
      var i :| 0 <= i < |table| && table[i].key == IntKey(maximum);
      var j :| 0 <= j < |table| && table[j].key == IntKey(|table|);
    }
  }

  class JsonEncoder {
    const heap: Heap
    var parts: seq<Bytes>
    var bytes: nat
    var entries: nat
    var active: set<nat>
    ghost var output: Bytes

    /** The counters agree with the parts and are within their limits. */
    ghost predicate Counted()
      reads this
    {
      output == Concat(parts) && bytes == |output| <= MAX_BYTES && entries <= MAX_ENTRIES
    }

    ghost predicate Valid()
      reads this
    {
      WellFormed(heap) && Counted()
    }

    /** `active` is exactly the tables on the path from the root. */
    ghost predicate ActiveIs(path: seq<Value>)
      reads this
    {
      forall r :: r in active <==> Table(r) in path
    }

    constructor (heap: Heap)
      requires WellFormed(heap)
      ensures Valid() && this.heap == heap && output == [] && entries == 0 && active == {}
    {
      this.heap := heap;
      parts, bytes, entries, active, output := [], 0, 0, {}, [];
    }

    method Append(text: Bytes) returns (status: Status)
      requires Counted()
      modifies this`parts, this`bytes, this`output
      ensures Counted()
      ensures status == if old(bytes) + |text| <= MAX_BYTES then Fine else Failed(ByteLimit)
      ensures output == if status.Fine? then old(output) + text else old(output)
    {
      if |text| > MAX_BYTES - bytes {
        return Failed(ByteLimit);
      }
      bytes := bytes + |text|;
      parts := parts + [text];
      output := output + text;
      return Fine;
    }

    /** The count of escaped bytes made before the escaped copy exists. */
    method FitsEscaped(str: Bytes) returns (fits: bool)
      requires Counted() && |str| + 2 <= MAX_BYTES - bytes
      ensures fits <==> bytes + |Quote(str)| <= MAX_BYTES
    {
      var size := |str| + 2;
      for i := 0 to |str|
        invariant size == 2 + |Escape(str[..i])| + |str| - i <= MAX_BYTES - bytes
      {
        EscapePrefix(str, i + 1);
        assert str[..i + 1] == str[..i] + [str[i]];
        EscapeSnoc(str[..i], str[i]);
        if NeedsEscape(str[i]) {
          size := size + |EscapeByte(str[i])| - 1;
          if size > MAX_BYTES - bytes {
            return false;
          }
        }
      }
      assert str[..|str|] == str;
      return true;
    }

    /** `encode_string`: fails exactly when the quoted string does not fit or is not UTF-8. */
    method EncodeString(str: Bytes) returns (status: Status)
      requires Counted()
      modifies this`parts, this`bytes, this`output
      ensures status.Fine? <==> IsUtf8(str) && old(bytes) + |Quote(str)| <= MAX_BYTES
      ensures status.Fine? ==> Counted() && output == old(output) + Quote(str)
      ensures status.Failed? ==> status.fault == ByteLimit || status.fault == InvalidUtf8
      ensures status == Failed(ByteLimit) ==> old(bytes) + |Quote(str)| > MAX_BYTES
      ensures status == Failed(InvalidUtf8) ==> !IsUtf8(str)
    {
      var size := |str| + 2;
      if size > MAX_BYTES - bytes {
        return Failed(ByteLimit);
      }
      var valid := ValidUtf8(str);
      if !valid {
        return Failed(InvalidUtf8);
      }
      var fits := FitsEscaped(str);
      if !fits {
        return Failed(ByteLimit);
      }
      status := Append([34]);
      status := Append(Escape(str));
      status := Append([34]);
      Assoc(old(output), [34], Escape(str), [34]);
    }

    /** The check of key `i`: count it, classify it, and stop at the first that cannot be allowed. */
    method ScanKey(table: EntryList, i: nat, numeric: nat, maximum: int, keyBytes: nat, ghost strings: seq<Bytes>)
      returns (status: Status, numeric': nat, maximum': int, keyBytes': nat, ghost strings': seq<Bytes>)
      requires Counted() && DistinctKeys(table) && i < |table| && ScannedTo(table, i, numeric, maximum, strings)
      requires keyBytes == KeyBytes(strings) && entries >= i
      modifies this`entries
      ensures entries == old(entries) + 1
      ensures status.Fine? ==>
        Counted() && ScannedTo(table, i + 1, numeric', maximum', strings') && keyBytes' == KeyBytes(strings')
      ensures status.Failed? ==> ScanFails(table, status.fault, strings', bytes, entries - 1 - i)
    {
      status, numeric', maximum', keyBytes', strings' := Fine, numeric, maximum, keyBytes, strings;
      entries := entries + 1;
      if entries > MAX_ENTRIES {
        status := Failed(EntryLimit);
        return;
      }
      var key := table[i].key;
      ExtendScan(table, i, numeric, maximum, strings);
      if key.IntKey? && key.n >= 1 {
        numeric' := numeric + 1;
        maximum' := if maximum < key.n then key.n else maximum;
      } else if !key.StrKey? {
        status := Failed(UnsupportedKey);
      } else {
        keyBytes' := keyBytes + |key.s| + 3;
        strings' := strings + [key.s];
        if keyBytes' > MAX_BYTES - bytes {
          ScannedStrings(table, i + 1, numeric, maximum, strings');
          status := Failed(ByteLimit);
        }
      }
    }

    /** The traversal of a table's keys with its three early exits. */
    method ScanKeys(table: EntryList) returns (status: Status, numeric: nat, maximum: int, ghost strings: seq<Bytes>)
      requires Counted() && DistinctKeys(table)
      modifies this`entries
      ensures status.Fine? ==> Counted() && Scanned(table, numeric, maximum) && entries == old(entries) + |table|
      ensures status.Failed? ==> ScanFails(table, status.fault, strings, bytes, old(entries))
    {
      var keyBytes := 0;
      status, numeric, maximum, strings := Fine, 0, 0, [];
      assert table[..0] == [];
      for i := 0 to |table|
        invariant Counted() && entries == old(entries) + i && status == Fine
        invariant ScannedTo(table, i, numeric, maximum, strings) && keyBytes == KeyBytes(strings)
      {
        status, numeric, maximum, keyBytes, strings := ScanKey(table, i, numeric, maximum, keyBytes, strings);
        if status.Failed? {
          return;
        }
      }
      assert table[..|table|] == table;
    }

    /** Encodes `item` at `depth`; `ancestors` are the tables it is nested in. */
    method Encode(item: Value, depth: nat, ghost ancestors: seq<Value>) returns (status: Status, ghost t: Json)
      requires Valid() && Known(heap, item) && 1 <= depth <= MAX_DEPTH + 1
      requires IsPath(heap, ancestors + [item]) && ActiveIs(ancestors)
      modifies this
      ensures status.Fine? ==> Valid() && active == old(active) && Encodes(heap, item, t, depth)
      ensures status.Fine? ==> output == old(output) + Enc(t) && entries == old(entries) + Entries(t)
      ensures status.Failed? ==> Justifies(heap, status.fault, item, old(bytes), old(entries), depth)
      decreases MAX_DEPTH + 1 - depth, 4
    {
      if item.Table? {
        status, t := EncodeTable(item, depth, ancestors);
      } else {
        status, t := EncodeScalar(item, depth);
      }
    }

    /** A value that is no table. */
    method EncodeScalar(item: Value, depth: nat) returns (status: Status, ghost t: Json)
      requires Valid() && !item.Table? && 1 <= depth <= MAX_DEPTH + 1
      modifies this
      ensures status.Fine? ==> Valid() && active == old(active) && Encodes(heap, item, t, depth)
      ensures status.Fine? ==> output == old(output) + Enc(t) && entries == old(entries) + Entries(t)
      ensures status.Failed? ==> Justifies(heap, status.fault, item, old(bytes), old(entries), depth)
    {
      ghost var before := bytes;
      match item {
        case Nil =>
          t := Null;
          status := Append([110, 117, 108, 108]);
        case JsonNull =>
          t := Null;
          status := Append([110, 117, 108, 108]);
        case Boolean(b) =>
          t := Bool(b);
          status := Append(if b then [116, 114, 117, 101] else [102, 97, 108, 115, 101]);
        case NonFinite =>
          HoldsItself(heap, item);
          return Failed(NonFiniteNumber), Null;
        case Integer(i) =>
          t := Number(DecimalText(i));
          IntegerUnfolds(heap, i, t);
          status := Append(DecimalText(i));
        case Float(text) =>
          t := Number(text);
          status := Append(text);
        case Str(s) =>
          t := Text(s);
          status := EncodeString(s);
          if status == Failed(InvalidUtf8) {
            HoldsItself(heap, item);
            assert HoldsBadText(heap, item, s);
            return;
          }
        case Unsupported =>
          HoldsItself(heap, item);
          return Failed(UnsupportedType), Null;
      }
      if status.Failed? {
        TreeFault(heap, item, t, before, depth);
      }
    }

    /** The table case: cycle and depth checks, the scan, then the entries by position or by sorted key. */
    method EncodeTable(item: Value, depth: nat, ghost ancestors: seq<Value>) returns (status: Status, ghost t: Json)
      requires Valid() && item.Table? && Known(heap, item) && 1 <= depth <= MAX_DEPTH + 1
      requires IsPath(heap, ancestors + [item]) && ActiveIs(ancestors)
      modifies this
      ensures status.Fine? ==> Valid() && active == old(active) && Encodes(heap, item, t, depth)
      ensures status.Fine? ==> output == old(output) + Enc(t) && entries == old(entries) + Entries(t)
      ensures status.Failed? ==> Justifies(heap, status.fault, item, old(bytes), old(entries), depth)
      decreases MAX_DEPTH + 1 - depth, 3
    {
      var table := heap[item.ref];
      t := Null;
      if item.ref in active {
        CycleFault(heap, item, ancestors, bytes, entries, depth);
        return Failed(Cycle), t;
      }
      if depth > MAX_DEPTH {
        DepthFault(heap, item, bytes, entries, depth);
        return Failed(DepthLimit), t;
      }
      active := active + {item.ref};
      var numeric, maximum;
      ghost var strings;
      status, numeric, maximum, strings := ScanKeys(table);
      if status.Failed? {
        ScanFault(heap, item, status.fault, strings, old(bytes), old(entries), depth);
        return;
      }
      ScanDecidesShape(table, numeric, maximum);
      var isArray := numeric == |table| && maximum == |table|;
      if !isArray && numeric > 0 {
        ScanFault(heap, item, UnsupportedKey, strings, old(bytes), old(entries), depth);
        return Failed(UnsupportedKey), t;
      }
      if isArray {
        status, t := EncodeItems(item, depth, ancestors + [item]);
      } else {
        SortListsKeys(table);
        status, t := EncodeMembers(item, Sort(Strings(table)), depth, ancestors + [item]);
      }
      active := active - {item.ref};
    }

    /** The comma before every item but the first. */
    method Separate(item: Value, i: nat, depth: nat, ghost items: seq<Json>, ghost bytesBefore: nat,
                    ghost entriesBefore: int)
      returns (status: Status)
      requires Valid() && item.Table? && item.ref in heap
      requires IsArray(heap[item.ref]) && FirstItems(heap, heap[item.ref], items) && i == |items| < |heap[item.ref]|
      requires bytes == bytesBefore + 1 + |Join(EncItems(items))|
      modifies this`parts, this`bytes, this`output
      ensures status.Fine? ==> Valid() && output == old(output) + Comma(i)
      ensures status.Failed? ==> Justifies(heap, status.fault, item, bytesBefore, entriesBefore, depth)
    {
      status := Fine;
      if i > 0 {
        status := Append([44]);
        if status.Failed? {
          ItemByteFault(heap, item, items, bytesBefore, entriesBefore, depth);
        }
      }
    }

    /** One turn of the loop for an array: the comma, then the item at position `i`. */
    method EncodeItem(item: Value, i: nat, depth: nat, ghost path: seq<Value>, ghost items: seq<Json>,
                      ghost bytesBefore: nat, ghost entriesBefore: int) returns (status: Status, ghost u: Json)
      requires Valid() && item.Table? && item.ref in heap && 1 <= depth <= MAX_DEPTH
      requires IsArray(heap[item.ref]) && FirstItems(heap, heap[item.ref], items) && i == |items| < |heap[item.ref]|
      requires IsPath(heap, path) && path[|path| - 1] == item && ActiveIs(path)
      requires bytes == bytesBefore + 1 + |Join(EncItems(items))|
      requires entries == entriesBefore + |heap[item.ref]| + EntriesOfItems(items)
      modifies this
      ensures status.Fine? ==>
        Valid() && active == old(active) && Encodes(heap, RawGet(heap[item.ref], IntKey(i + 1)), u, depth + 1)
      ensures status.Fine? ==>
        output == old(output) + Comma(i) + Enc(u) && entries == old(entries) + Entries(u)
      ensures status.Failed? ==> Justifies(heap, status.fault, item, bytesBefore, entriesBefore, depth)
      decreases MAX_DEPTH + 1 - depth, 0
    {
      u := Null;
      status := Separate(item, i, depth, items, bytesBefore, entriesBefore);
      if status.Failed? {
        return;
      }
      ghost var b, e := bytes, entries;
      var child := RawGet(heap[item.ref], IntKey(i + 1));
      PathToChild(heap, path, item, IntKey(i + 1));
      status, u := Encode(child, depth + 1, path);
      if status.Failed? {
        ItemFault(heap, status.fault, item, items, b, e, bytesBefore, entriesBefore, depth);
      }
    }

    /** The loop for an array. */
    method EncodeEachItem(item: Value, depth: nat, ghost path: seq<Value>, ghost bytesBefore: nat,
                          ghost entriesBefore: int) returns (status: Status, ghost items: seq<Json>)
      requires Valid() && item.Table? && item.ref in heap && 1 <= depth <= MAX_DEPTH && IsArray(heap[item.ref])
      requires IsPath(heap, path) && path[|path| - 1] == item && ActiveIs(path)
      requires bytes == bytesBefore + 1 && entries == entriesBefore + |heap[item.ref]|
      modifies this
      ensures status.Fine? ==> Valid() && active == old(active)
      ensures status.Fine? ==> FirstItems(heap, heap[item.ref], items) && |items| == |heap[item.ref]|
      ensures status.Fine? ==> depth + DepthOfItems(items) <= MAX_DEPTH
      ensures status.Fine? ==>
        output == old(output) + Join(EncItems(items)) && entries == old(entries) + EntriesOfItems(items)
      ensures status.Failed? ==> Justifies(heap, status.fault, item, bytesBefore, entriesBefore, depth)
      decreases MAX_DEPTH + 1 - depth, 1
    {
      items := [];
      for i := 0 to |heap[item.ref]|
        invariant Valid() && active == old(active)
        invariant |items| == i && FirstItems(heap, heap[item.ref], items)
        invariant depth + DepthOfItems(items) <= MAX_DEPTH
        invariant output == old(output) + Join(EncItems(items)) && entries == old(entries) + EntriesOfItems(items)
      {
        ghost var u;
        status, u := EncodeItem(item, i, depth, path, items, bytesBefore, entriesBefore);
        if status.Failed? {
          return;
        }
        OneMoreItem(heap, heap[item.ref], items, u);
        ItemDone(items, u, depth, old(output));
        items := items + [u];
      }
      status := Fine;
    }

    /** Brackets around the items. */
    method EncodeItems(item: Value, depth: nat, ghost path: seq<Value>) returns (status: Status, ghost t: Json)
      requires Valid() && item.Table? && item.ref in heap && 1 <= depth <= MAX_DEPTH
      requires IsArray(heap[item.ref]) && entries >= |heap[item.ref]|
      requires IsPath(heap, path) && path[|path| - 1] == item && ActiveIs(path)
      modifies this
      ensures status.Fine? ==> Valid() && active == old(active) && Encodes(heap, item, t, depth)
      ensures status.Fine? ==>
        output == old(output) + Enc(t) && entries == old(entries) - |heap[item.ref]| + Entries(t)
      ensures status.Failed? ==>
        Justifies(heap, status.fault, item, old(bytes), old(entries) - |heap[item.ref]|, depth)
      decreases MAX_DEPTH + 1 - depth, 2
    {
      var table := heap[item.ref];
      t := Null;
      ghost var before := old(entries) - |table|;
      status := Append([91]);
      if status.Failed? {
        OpenFault(heap, item, old(bytes), before, depth);
        return;
      }
      ghost var items;
      status, items := EncodeEachItem(item, depth, path, old(bytes), before);
      if status.Failed? {
        return;
      }
      Assoc(old(output), [91], Join(EncItems(items)), [93]);
      AllItemsUnfold(heap, item, items);
      status := Append([93]);
      t := Arr(items);
      if status.Failed? {
        TreeFault(heap, item, t, old(bytes), depth);
      }
    }

    /** The comma, the key and the colon of member `i`. */
    method EncodeKey(item: Value, keys: seq<Bytes>, i: nat, depth: nat, ghost members: seq<Member>,
                     ghost bytesBefore: nat, ghost entriesBefore: int) returns (status: Status)
      requires Valid() && item.Table? && item.ref in heap && IsObject(heap[item.ref])
      requires FirstMembers(heap, heap[item.ref], keys, members) && i == |members| < |keys|
      requires bytes == bytesBefore + 1 + |Join(EncMembers(members))|
      modifies this`parts, this`bytes, this`output
      ensures status.Fine? ==> Valid() && IsUtf8(keys[i])
      ensures status.Fine? ==> output == old(output) + Comma(i) + Quote(keys[i]) + [58]
      ensures status.Failed? ==> Justifies(heap, status.fault, item, bytesBefore, entriesBefore, depth)
    {
      if i > 0 {
        status := Append([44]);
        if status.Failed? {
          MemberByteFault(heap, item, keys, members, 0, bytesBefore, entriesBefore, depth);
          return;
        }
      }
      status := EncodeString(keys[i]);
      if status.Failed? {
        KeyTextFault(heap, item, keys, members, status.fault, bytesBefore, entriesBefore, depth);
        return;
      }
      status := Append([58]);
      if status.Failed? {
        MemberByteFault(heap, item, keys, members, |Quote(keys[i])| + 1, bytesBefore, entriesBefore, depth);
      }
    }

    /** One turn of the loop for an object: the key, then its value. */
    method EncodeMember(item: Value, keys: seq<Bytes>, i: nat, depth: nat, ghost path: seq<Value>,
                        ghost members: seq<Member>, ghost bytesBefore: nat, ghost entriesBefore: int)
      returns (status: Status, ghost u: Json)
      requires Valid() && item.Table? && item.ref in heap && 1 <= depth <= MAX_DEPTH
      requires IsObject(heap[item.ref]) && FirstMembers(heap, heap[item.ref], keys, members) && i == |members| < |keys|
      requires IsPath(heap, path) && path[|path| - 1] == item && ActiveIs(path)
      requires bytes == bytesBefore + 1 + |Join(EncMembers(members))|
      requires entries == entriesBefore + |heap[item.ref]| + EntriesOfMembers(members)
      modifies this
      ensures status.Fine? ==> Valid() && active == old(active) && IsUtf8(keys[i])
      ensures status.Fine? ==> Encodes(heap, RawGet(heap[item.ref], StrKey(keys[i])), u, depth + 1)
      ensures status.Fine? ==>
        output == old(output) + Comma(i) + Quote(keys[i]) + [58] + Enc(u) && entries == old(entries) + Entries(u)
      ensures status.Failed? ==> Justifies(heap, status.fault, item, bytesBefore, entriesBefore, depth)
      decreases MAX_DEPTH + 1 - depth, 0
    {
      u := Null;
      status := EncodeKey(item, keys, i, depth, members, bytesBefore, entriesBefore);
      if status.Failed? {
        return;
      }
      status, u := EncodeMemberValue(item, keys, i, depth, path, members, bytesBefore, entriesBefore);
    }

    /** The value of member `i`, behind its key. */
    method EncodeMemberValue(item: Value, keys: seq<Bytes>, i: nat, depth: nat, ghost path: seq<Value>,
                             ghost members: seq<Member>, ghost bytesBefore: nat, ghost entriesBefore: int)
      returns (status: Status, ghost u: Json)
      requires Valid() && item.Table? && item.ref in heap && 1 <= depth <= MAX_DEPTH
      requires IsObject(heap[item.ref]) && FirstMembers(heap, heap[item.ref], keys, members) && i == |members| < |keys|
      requires IsPath(heap, path) && path[|path| - 1] == item && ActiveIs(path)
      requires bytes == bytesBefore + MembersBefore(members) + |Quote(keys[i])| + 1
      requires entries == entriesBefore + |heap[item.ref]| + EntriesOfMembers(members)
      modifies this
      ensures status.Fine? ==> Valid() && active == old(active)
      ensures status.Fine? ==> Encodes(heap, RawGet(heap[item.ref], StrKey(keys[i])), u, depth + 1)
      ensures status.Fine? ==> output == old(output) + Enc(u) && entries == old(entries) + Entries(u)
      ensures status.Failed? ==> Justifies(heap, status.fault, item, bytesBefore, entriesBefore, depth)
      decreases MAX_DEPTH + 1 - depth, 0, 0
    {
      ghost var b, e := bytes, entries;
      PathToMember(heap, path, item, keys, i);
      status, u := Encode(RawGet(heap[item.ref], StrKey(keys[i])), depth + 1, path);
      if status.Failed? {
        MemberFault(heap, status.fault, item, keys, members, b, e, bytesBefore, entriesBefore, depth);
      }
    }

    /** The loop for an object. */
    method EncodeEachMember(item: Value, keys: seq<Bytes>, depth: nat, ghost path: seq<Value>, ghost bytesBefore: nat,
                            ghost entriesBefore: int) returns (status: Status, ghost members: seq<Member>)
      requires Valid() && item.Table? && item.ref in heap && 1 <= depth <= MAX_DEPTH
      requires IsObject(heap[item.ref]) && ListsKeys(keys, heap[item.ref])
      requires IsPath(heap, path) && path[|path| - 1] == item && ActiveIs(path)
      requires bytes == bytesBefore + 1 && entries == entriesBefore + |heap[item.ref]|
      modifies this
      ensures status.Fine? ==> Valid() && active == old(active)
      ensures status.Fine? ==> FirstMembers(heap, heap[item.ref], keys, members) && |members| == |keys|
      ensures status.Fine? ==> depth + DepthOfMembers(members) <= MAX_DEPTH
      ensures status.Fine? ==>
        output == old(output) + Join(EncMembers(members)) && entries == old(entries) + EntriesOfMembers(members)
      ensures status.Failed? ==> Justifies(heap, status.fault, item, bytesBefore, entriesBefore, depth)
      decreases MAX_DEPTH + 1 - depth, 1
    {
      members := [];
      for i := 0 to |keys|
        invariant Valid() && active == old(active)
        invariant |members| == i && FirstMembers(heap, heap[item.ref], keys, members)
        invariant depth + DepthOfMembers(members) <= MAX_DEPTH
        invariant output == old(output) + Join(EncMembers(members))
        invariant entries == old(entries) + EntriesOfMembers(members)
      {
        ghost var u;
        status, u := EncodeMember(item, keys, i, depth, path, members, bytesBefore, entriesBefore);
        if status.Failed? {
          return;
        }
        OneMoreMember(heap, heap[item.ref], keys, members, u);
        MemberDone(members, Member(keys[i], u), depth, old(output));
        members := members + [Member(keys[i], u)];
      }
      status := Fine;
    }

    /** Braces around the members, in key order. */
    method EncodeMembers(item: Value, keys: seq<Bytes>, depth: nat, ghost path: seq<Value>)
      returns (status: Status, ghost t: Json)
      requires Valid() && item.Table? && item.ref in heap && 1 <= depth <= MAX_DEPTH
      requires IsObject(heap[item.ref]) && ListsKeys(keys, heap[item.ref]) && entries >= |heap[item.ref]|
      requires IsPath(heap, path) && path[|path| - 1] == item && ActiveIs(path)
      modifies this
      ensures status.Fine? ==> Valid() && active == old(active) && Encodes(heap, item, t, depth)
      ensures status.Fine? ==>
        output == old(output) + Enc(t) && entries == old(entries) - |heap[item.ref]| + Entries(t)
      ensures status.Failed? ==>
        Justifies(heap, status.fault, item, old(bytes), old(entries) - |heap[item.ref]|, depth)
      decreases MAX_DEPTH + 1 - depth, 2
    {
      var table := heap[item.ref];
      t := Null;
      ghost var before := old(entries) - |table|;
      status := Append([123]);
      if status.Failed? {
        OpenFault(heap, item, old(bytes), before, depth);
        return;
      }
      ghost var members;
      status, members := EncodeEachMember(item, keys, depth, path, old(bytes), before);
      if status.Failed? {
        return;
      }
      Assoc(old(output), [123], Join(EncMembers(members)), [125]);
      status := Append([125]);
      AllMembersUnfold(heap, item, keys, members);
      t := Obj(members);
      if status.Failed? {
        TreeFault(heap, item, t, old(bytes), depth);
      }
    }
  }

  lemma HoldsItself(heap: Heap, v: Value)
    ensures Holds(heap, v, v)
  {
    assert Leads(heap, v, [v], v);
  }

  /** The scan's loop invariant: the first `i` keys, and the strings among them. */
  ghost predicate ScannedTo(table: EntryList, i: nat, numeric: nat, maximum: int, strings: seq<Bytes>) {
    && i <= |table|
    && Scanned(table[..i], numeric, maximum)
    && Distinct(strings)
    && (forall k :: k in strings <==> HasKey(table[..i], StrKey(k)))
  }

  lemma ExtendScan(table: EntryList, i: nat, numeric: nat, maximum: int, strings: seq<Bytes>)
    requires DistinctKeys(table) && i < |table| && ScannedTo(table, i, numeric, maximum, strings)
    ensures var key := table[i].key;
      if key.IntKey? && key.n >= 1 then
        ScannedTo(table, i + 1, numeric + 1, if maximum < key.n then key.n else maximum, strings)
      else if key.StrKey? then
        && ScannedTo(table, i + 1, numeric, maximum, strings + [key.s])
        && KeyBytes(strings + [key.s]) == KeyBytes(strings) + |key.s| + 3
      else BadKeys(table)
  {
    ExtendKeys(table, i);
    var key := table[i].key;
    assert forall j :: 0 <= j < i ==> table[..i + 1][j] == table[..i][j];
    if key.StrKey? {
      KeyBytesSnoc(strings, key.s);
      assert key.s !in strings;
      assert !table[..i + 1][i].key.IntKey?;
    } else if key.IntKey? && key.n >= 1 {
      assert !table[..i + 1][i].key.StrKey?;
    }
  }

  lemma ScannedStrings(table: EntryList, i: nat, numeric: nat, maximum: int, strings: seq<Bytes>)
    requires ScannedTo(table, i, numeric, maximum, strings)
    ensures forall k :: k in strings ==> HasKey(table, StrKey(k))
  {
    forall k | k in strings ensures HasKey(table, StrKey(k)) {
      var j :| 0 <= j < i && table[..i][j].key == StrKey(k);
      assert table[j].key == StrKey(k);
    }
  }

  /** The three errors a scan can stop with. */
  ghost predicate ScanFails(table: EntryList, fault: Fault, strings: seq<Bytes>, bytes: nat, entries: nat) {
    match fault
    case EntryLimit => entries + |table| > MAX_ENTRIES
    case UnsupportedKey => BadKeys(table)
    case ByteLimit =>
      && strings != [] && Distinct(strings)
      && (forall k :: k in strings ==> HasKey(table, StrKey(k)))
      && bytes + KeyBytes(strings) > MAX_BYTES
    case _ => false
  }

  lemma ScanFault(heap: Heap, item: Value, fault: Fault, strings: seq<Bytes>, bytes: nat, entries: nat, depth: nat)
    requires item.Table? && item.ref in heap && ScanFails(heap[item.ref], fault, strings, bytes, entries)
    ensures Justifies(heap, fault, item, bytes, entries, depth)
  {
    if fault == ByteLimit {
      forall t | Unfolds(heap, item, t) ensures bytes + |Enc(t)| > MAX_BYTES {
        EarlyKeyCheckIsSafe(heap, item, strings, t);
      }
    } else if fault == EntryLimit {
      forall t | Unfolds(heap, item, t) ensures Entries(t) >= |heap[item.ref]| {
        assert TableUnfolds(heap, heap[item.ref], t);
        if t.Obj? {
          assert |MemberKeys(t.members)| == |heap[item.ref]|;
        }
      }
    } else {
      HoldsItself(heap, item);
    }
  }

  lemma ExtendKeys(table: EntryList, i: nat)
    requires DistinctKeys(table) && i < |table|
    ensures table[..i + 1] == table[..i] + [table[i]]
    ensures !HasKey(table[..i], table[i].key)
    ensures forall k :: HasKey(table[..i + 1], k) <==> HasKey(table[..i], k) || k == table[i].key
  {
    forall k | HasKey(table[..i], k) ensures HasKey(table[..i + 1], k) {
      var j :| 0 <= j < i && table[..i][j].key == k;
      assert table[..i + 1][j].key == k;
    }
    forall k | HasKey(table[..i + 1], k) && k != table[i].key ensures HasKey(table[..i], k) {
      var j :| 0 <= j <= i && table[..i + 1][j].key == k;
      assert table[..i][j].key == k;
    }
    assert table[..i + 1][i] == table[i];
  }

  /** What a successful encoding establishes about the tree of `item`. */
  ghost predicate Encodes(heap: Heap, item: Value, t: Json, depth: nat) {
    Unfolds(heap, item, t) && TextValid(t) && depth + Depth(t) <= MAX_DEPTH + 1
  }

  lemma TreeFault(heap: Heap, item: Value, t: Json, bytes: nat, depth: nat)
    requires Unfolds(heap, item, t) && bytes + |Enc(t)| > MAX_BYTES
    ensures forall entries :: Justifies(heap, ByteLimit, item, bytes, entries, depth)
  {
    forall u | Unfolds(heap, item, u) ensures u == t {
      UnfoldsOnce(heap, item, u, t);
    }
  }

  lemma OpenFault(heap: Heap, item: Value, bytes: nat, entries: int, depth: nat)
    requires item.Table? && bytes + 1 > MAX_BYTES
    ensures Justifies(heap, ByteLimit, item, bytes, entries, depth)
  {
    forall t | Unfolds(heap, item, t) ensures |Enc(t)| >= 1 {
      assert TableUnfolds(heap, heap[item.ref], t);
    }
  }

  /** The comma before every entry but the first. */
  function Comma(done: nat): Bytes {
    if done == 0 then [] else [44]
  }

  lemma OneMoreItem(heap: Heap, table: EntryList, items: seq<Json>, u: Json)
    requires FirstItems(heap, table, items) && |items| < |table|
    requires Unfolds(heap, RawGet(table, IntKey(|items| + 1)), u) && TextValid(u)
    ensures FirstItems(heap, table, items + [u])
  {
    assert (items + [u])[..|items|] == items;
  }

  lemma ItemDone(items: seq<Json>, u: Json, depth: nat, prefix: Bytes)
    requires depth + 1 + Depth(u) <= MAX_DEPTH + 1 && depth + DepthOfItems(items) <= MAX_DEPTH
    ensures depth + DepthOfItems(items + [u]) <= MAX_DEPTH
    ensures EntriesOfItems(items + [u]) == EntriesOfItems(items) + Entries(u)
    ensures prefix + Join(EncItems(items)) + Comma(|items|) + Enc(u) == prefix + Join(EncItems(items + [u]))
  {
    ItemsSnoc(items, u);
    JoinAfter(prefix, EncItems(items), Enc(u));
  }

  lemma OneMoreMember(heap: Heap, table: EntryList, keys: seq<Bytes>, members: seq<Member>, u: Json)
    requires FirstMembers(heap, table, keys, members) && |members| < |keys| && IsUtf8(keys[|members|])
    requires Unfolds(heap, RawGet(table, StrKey(keys[|members|])), u) && TextValid(u)
    ensures FirstMembers(heap, table, keys, members + [Member(keys[|members|], u)])
  {
    assert (members + [Member(keys[|members|], u)])[..|members|] == members;
  }

  lemma MemberDone(members: seq<Member>, m: Member, depth: nat, prefix: Bytes)
    requires depth + 1 + Depth(m.value) <= MAX_DEPTH + 1 && depth + DepthOfMembers(members) <= MAX_DEPTH
    ensures depth + DepthOfMembers(members + [m]) <= MAX_DEPTH
    ensures EntriesOfMembers(members + [m]) == EntriesOfMembers(members) + Entries(m.value)
    ensures prefix + Join(EncMembers(members)) + Comma(|members|) + Quote(m.key) + [58] + Enc(m.value)
         == prefix + Join(EncMembers(members + [m]))
  {
    MembersSnoc(members, m);
    JoinAfter(prefix, EncMembers(members), EncMember(m));
    Assoc(prefix + Join(EncMembers(members)) + Comma(|members|), Quote(m.key), [58], Enc(m.value));
  }

  /** A table on its own path is inside itself. */
  lemma OwnAncestorIsRecursive(heap: Heap, v: Value, ancestors: seq<Value>)
    requires IsPath(heap, ancestors + [v]) && v in ancestors
    ensures Recursive(heap, v)
  {
    var path := ancestors + [v];
    var j :| 0 <= j < |ancestors| && ancestors[j] == v;
    var loop := path[j..];
    forall i | 0 <= i < |loop| - 1 ensures IsChild(heap, loop[i], loop[i + 1]) {
      assert IsChild(heap, path[j + i], path[j + i + 1]);
    }
    assert Leads(heap, v, loop, v);
  }

  lemma CycleFault(heap: Heap, item: Value, ancestors: seq<Value>, bytes: int, entries: int, depth: int)
    requires item.Table? && IsPath(heap, ancestors + [item]) && item in ancestors
    ensures Justifies(heap, Cycle, item, bytes, entries, depth)
  {
    OwnAncestorIsRecursive(heap, item, ancestors);
    HoldsItself(heap, item);
  }

  lemma DepthFault(heap: Heap, item: Value, bytes: int, entries: int, depth: int)
    requires item.Table? && depth > MAX_DEPTH
    ensures Justifies(heap, DepthLimit, item, bytes, entries, depth)
  {
    assert ReachesDeep(heap, item, [item], depth);
  }

  lemma PathToChild(heap: Heap, path: seq<Value>, item: Value, key: Key)
    requires WellFormed(heap) && IsPath(heap, path) && path[|path| - 1] == item
    requires item.Table? && item.ref in heap && HasKey(heap[item.ref], key)
    ensures var child := RawGet(heap[item.ref], key);
      Known(heap, child) && IsChild(heap, item, child) && IsPath(heap, path + [child])
  {
    var child := RawGet(heap[item.ref], key);
    assert Entry(key, child) in heap[item.ref];
    assert IsChild(heap, item, child);
    var longer := path + [child];
    forall i | 0 <= i < |longer| - 1 ensures IsChild(heap, longer[i], longer[i + 1]) {
      if i < |path| - 1 {
        assert IsChild(heap, path[i], path[i + 1]);
      }
    }
  }

  lemma PathToMember(heap: Heap, path: seq<Value>, item: Value, keys: seq<Bytes>, i: nat)
    requires WellFormed(heap) && IsPath(heap, path) && path[|path| - 1] == item
    requires item.Table? && item.ref in heap && ListsKeys(keys, heap[item.ref]) && i < |keys|
    ensures var child := RawGet(heap[item.ref], StrKey(keys[i]));
      Known(heap, child) && IsChild(heap, item, child) && IsPath(heap, path + [child])
  {
    KeyListed(keys, heap[item.ref], keys[i]);
    PathToChild(heap, path, item, StrKey(keys[i]));
  }

  lemma ItemByteFault(heap: Heap, item: Value, items: seq<Json>, bytes: int, entries: int, depth: int)
    requires item.Table? && item.ref in heap && IsArray(heap[item.ref]) && FirstItems(heap, heap[item.ref], items)
    requires |items| < |heap[item.ref]| && bytes + ItemsBefore(items) > MAX_BYTES
    ensures Justifies(heap, ByteLimit, item, bytes, entries, depth)
  {
    forall t | Unfolds(heap, item, t) ensures bytes + |Enc(t)| > MAX_BYTES {
      CommaFault(heap, item, items, bytes, t);
    }
  }

  lemma MemberByteFault(heap: Heap, item: Value, keys: seq<Bytes>, members: seq<Member>, extra: int,
                        bytes: int, entries: int, depth: int)
    requires item.Table? && item.ref in heap && IsObject(heap[item.ref])
    requires FirstMembers(heap, heap[item.ref], keys, members) && |members| < |keys|
    requires extra <= |Quote(keys[|members|])| + 1 && bytes + MembersBefore(members) + extra > MAX_BYTES
    ensures Justifies(heap, ByteLimit, item, bytes, entries, depth)
  {
    forall t | Unfolds(heap, item, t) ensures bytes + |Enc(t)| > MAX_BYTES {
      KeyFault(heap, item, keys, members, extra, bytes, t);
    }
  }

  lemma KeyTextFault(heap: Heap, item: Value, keys: seq<Bytes>, members: seq<Member>, fault: Fault,
                     bytes: int, entries: int, depth: int)
    requires item.Table? && item.ref in heap && IsObject(heap[item.ref])
    requires FirstMembers(heap, heap[item.ref], keys, members) && |members| < |keys|
    requires
      || (fault == ByteLimit && bytes + MembersBefore(members) + |Quote(keys[|members|])| > MAX_BYTES)
      || (fault == InvalidUtf8 && !IsUtf8(keys[|members|]))
    ensures Justifies(heap, fault, item, bytes, entries, depth)
  {
    var key := keys[|members|];
    if fault == ByteLimit {
      MemberByteFault(heap, item, keys, members, |Quote(key)|, bytes, entries, depth);
    } else {
      HoldsItself(heap, item);
      KeyListed(keys, heap[item.ref], key);
      assert HoldsBadText(heap, item, key);
    }
  }

  lemma AllMembersUnfold(heap: Heap, item: Value, keys: seq<Bytes>, members: seq<Member>)
    requires item.Table? && item.ref in heap && IsObject(heap[item.ref])
    requires FirstMembers(heap, heap[item.ref], keys, members) && |members| == |keys|
    ensures Unfolds(heap, item, Obj(members)) && TextValid(Obj(members))
  {
    FirstMembersAll(heap, heap[item.ref], keys, members);
    assert MemberKeys(members) == keys;
    assert TableUnfolds(heap, heap[item.ref], Obj(members));
  }

  lemma AllItemsUnfold(heap: Heap, item: Value, items: seq<Json>)
    requires item.Table? && item.ref in heap && IsArray(heap[item.ref])
    requires FirstItems(heap, heap[item.ref], items) && |items| == |heap[item.ref]|
    ensures Unfolds(heap, item, Arr(items)) && TextValid(Arr(items))
  {
    FirstItemsAll(heap, heap[item.ref], items);
    assert TableUnfolds(heap, heap[item.ref], Arr(items));
  }

  /**
   * `json_encode` succeeds exactly on the values that unfold to a tree within the limits, and then returns
   * that tree's unbounded encoding; any error names something the value really contains or exceeds.
   */
  method JsonEncode(heap: Heap, value: Value) returns (status: Status, text: Bytes)
    requires WellFormed(heap) && Known(heap, value)
    ensures status.Fine? <==> exists t :: Unfolds(heap, value, t) && Fits(t)
    ensures status.Fine? ==> forall t :: Unfolds(heap, value, t) ==> text == Enc(t)
    ensures status.Failed? ==> Justifies(heap, status.fault, value, 0, 0, 1)
  {
    var encoder := new JsonEncoder(heap);
    ghost var t;
    status, t := encoder.Encode(value, 1, []);
    if status.Failed? {
      forall t ensures !(Unfolds(heap, value, t) && Fits(t)) {
        JustifiedMeansUnfit(heap, status.fault, value, t);
      }
      return status, [];
    }
    forall u | Unfolds(heap, value, u) ensures u == t {
      UnfoldsOnce(heap, value, u, t);
    }
    assert encoder.output == Enc(t) && Fits(t);
    return Fine, Concat(encoder.parts);
  }
}
