/** What the limits of the bridge's JSON encoder allow, and what justifies each of its errors. */
module JsonLimits {
  import opened Utf8
  import opened JsonText
  import opened LuaTables

  const MAX_DEPTH := 32
  const MAX_ENTRIES := 10000
  const MAX_BYTES := 1048576

  datatype Fault =
    | Cycle
    | DepthLimit
    | EntryLimit
    | ByteLimit
    | InvalidUtf8
    | UnsupportedType
    | UnsupportedKey
    | NonFiniteNumber

  // ----- What the limits allow -----

  /** The trees the bridge promises to encode. */
  ghost predicate Fits(t: Json) {
    TextValid(t) && Depth(t) <= MAX_DEPTH && Entries(t) <= MAX_ENTRIES && |Enc(t)| <= MAX_BYTES
  }

  ghost predicate BadKeys(table: EntryList) {
    !IsArray(table) && !IsObject(table)
  }

  /** A string or a key somewhere in `item` is not UTF-8. */
  ghost predicate HoldsBadText(heap: Heap, item: Value, s: Bytes) {
    && !IsUtf8(s)
    && (|| Holds(heap, item, Str(s))
        || exists r :: r in heap && Holds(heap, item, Table(r)) && HasKey(heap[r], StrKey(s)))
  }

  ghost predicate ReachesDeep(heap: Heap, item: Value, path: seq<Value>, depth: int) {
    && path != []
    && Leads(heap, item, path, path[|path| - 1])
    && path[|path| - 1].Table?
    && depth + |path| - 1 > MAX_DEPTH
  }

  /** Why encoding `item` at `depth` must fail when `bytes` and `entries` are already used. */
  ghost predicate Justifies(heap: Heap, fault: Fault, item: Value, bytes: int, entries: int, depth: int) {
    match fault
    case ByteLimit => forall t :: Unfolds(heap, item, t) ==> bytes + |Enc(t)| > MAX_BYTES
    case EntryLimit => forall t :: Unfolds(heap, item, t) ==> entries + Entries(t) > MAX_ENTRIES
    case DepthLimit => exists path :: ReachesDeep(heap, item, path, depth)
    case InvalidUtf8 => exists s :: HoldsBadText(heap, item, s)
    case UnsupportedType => Holds(heap, item, Unsupported)
    case NonFiniteNumber => Holds(heap, item, NonFinite)
    case UnsupportedKey => exists r :: r in heap && Holds(heap, item, Table(r)) && BadKeys(heap[r])
    case Cycle => exists r :: Holds(heap, item, Table(r)) && Recursive(heap, Table(r))
  }

  lemma BadKeyBars(heap: Heap, table: EntryList, s: Bytes, u: Json)
    requires TableUnfolds(heap, table, u) && HasKey(table, StrKey(s)) && !IsUtf8(s)
    ensures !TextValid(u)
  {
    var k :| 0 <= k < |table| && table[k].key == StrKey(s);
    KeyListed(MemberKeys(u.members), table, s);
    var i :| 0 <= i < |u.members| && MemberKeys(u.members)[i] == s;
    assert !IsUtf8(u.members[i].key);
  }

  lemma BadTextBars(heap: Heap, item: Value, s: Bytes, t: Json)
    requires WellFormed(heap) && HoldsBadText(heap, item, s) && Unfolds(heap, item, t)
    ensures !TextValid(t)
  {
    if Holds(heap, item, Str(s)) {
      var path :| Leads(heap, item, path, Str(s));
      var u := HeldUnfolds(heap, path, t);
    } else {
      var r :| r in heap && Holds(heap, item, Table(r)) && HasKey(heap[r], StrKey(s));
      var path :| Leads(heap, item, path, Table(r));
      var u := HeldUnfolds(heap, path, t);
      BadKeyBars(heap, heap[r], s, u);
    }
  }

  lemma HeldHasTree(heap: Heap, item: Value, w: Value, t: Json) returns (u: Json)
    requires WellFormed(heap) && Unfolds(heap, item, t) && Holds(heap, item, w)
    ensures Unfolds(heap, w, u)
  {
    var path :| Leads(heap, item, path, w);
    u := HeldUnfolds(heap, path, t);
  }

  /** Every justified fault at the top level is a value the bridge never promised to encode. */
  lemma JustifiedMeansUnfit(heap: Heap, fault: Fault, item: Value, t: Json)
    requires WellFormed(heap) && Justifies(heap, fault, item, 0, 0, 1)
    ensures !(Unfolds(heap, item, t) && Fits(t))
  {
    if Unfolds(heap, item, t) {
      match fault {
        case ByteLimit =>
        case EntryLimit =>
        case DepthLimit =>
          var path :| ReachesDeep(heap, item, path, 1);
          var u := HeldUnfolds(heap, path, t);
        case InvalidUtf8 =>
          var s :| HoldsBadText(heap, item, s);
          BadTextBars(heap, item, s, t);
        case UnsupportedType =>
          var u := HeldHasTree(heap, item, Unsupported, t);
        case NonFiniteNumber =>
          var u := HeldHasTree(heap, item, NonFinite, t);
        case UnsupportedKey =>
          var r :| r in heap && Holds(heap, item, Table(r)) && BadKeys(heap[r]);
          var u := HeldHasTree(heap, item, Table(r), t);
        case Cycle =>
          var r :| Holds(heap, item, Table(r)) && Recursive(heap, Table(r));
          CyclesNeverUnfold(heap, item, Table(r), t);
      }
    }
  }

  // ----- Pigeonhole -----

  function Span(n: nat): (s: set<int>)
    ensures |s| == n && forall k :: k in s <==> 1 <= k <= n
  {
    if n == 0 then {} else Span(n - 1) + {n}
  }

  lemma SubsetOfSameSize(a: set<int>, b: set<int>)
    requires a <= b && |a| >= |b|
    ensures a == b
  {
    assert |b - a| == |b| - |a|;
  }

  ghost function IntKeys(table: EntryList): (s: set<int>)
    requires DistinctKeys(table) && forall i :: 0 <= i < |table| ==> table[i].key.IntKey?
    ensures |s| == |table|
    ensures forall k :: k in s <==> HasKey(table, IntKey(k))
  {
    if table == [] then {}
    else
      var n := |table| - 1;
      assert forall k :: HasKey(table, IntKey(k)) <==> HasKey(table[..n], IntKey(k)) || k == table[n].key.n by {
        forall k | HasKey(table[..n], IntKey(k)) ensures HasKey(table, IntKey(k)) {
          var i :| 0 <= i < n && table[..n][i].key == IntKey(k);
          assert table[i].key == IntKey(k);
        }
        forall k | HasKey(table, IntKey(k)) && k != table[n].key.n ensures HasKey(table[..n], IntKey(k)) {
          var i :| 0 <= i < |table| && table[i].key == IntKey(k);
          assert table[..n][i].key == IntKey(k);
        }
      }
      IntKeys(table[..n]) + {table[n].key.n}
  }

  /** Distinct integer keys from 1 whose maximum is their count are exactly 1 to the count. */
  lemma MaximumForcesArray(table: EntryList)
    requires DistinctKeys(table)
    requires forall i :: 0 <= i < |table| ==> table[i].key.IntKey? && 1 <= table[i].key.n <= |table|
    ensures IsArray(table)
  {
    var have := IntKeys(table);
    forall k | k in have ensures 1 <= k <= |table| {
      var i :| 0 <= i < |table| && table[i].key == IntKey(k);
    }
    SubsetOfSameSize(have, Span(|table|));
    forall k | 1 <= k <= |table| ensures HasKey(table, IntKey(k)) {
      assert k in Span(|table|);
    }
  }

  // ----- The early key check -----

  /** What the keys alone cost: quotes and colon included. */
  function KeyBytes(keys: seq<Bytes>): nat {
    if keys == [] then 0 else |keys[0]| + 3 + KeyBytes(keys[1..])
  }

  lemma {:induction false} KeyBytesRemove(keys: seq<Bytes>, j: nat)
    requires j < |keys|
    ensures KeyBytes(keys) == KeyBytes(keys[..j] + keys[j + 1..]) + |keys[j]| + 3
  {
    if j == 0 {
      assert keys[..0] + keys[1..] == keys[1..];
    } else {
      KeyBytesRemove(keys[1..], j - 1);
      var less := keys[..j] + keys[j + 1..];
      assert less[1..] == keys[1..][..j - 1] + keys[1..][j..];
    }
  }

  lemma {:induction false} KeyBytesSnoc(keys: seq<Bytes>, key: Bytes)
    ensures KeyBytes(keys + [key]) == KeyBytes(keys) + |key| + 3
  {
    if keys == [] {
      assert KeyBytes([]) == 0;
      assert [key][1..] == [];
    } else {
      assert (keys + [key])[1..] == keys[1..] + [key];
      KeyBytesSnoc(keys[1..], key);
    }
  }

  /** Distinct keys cost no more than any list that has them all, in whatever order. */
  lemma {:induction false} KeyBytesBound(some: seq<Bytes>, all: seq<Bytes>)
    requires Distinct(some) && forall k :: k in some ==> k in all
    ensures KeyBytes(some) <= KeyBytes(all)
  {
    if some == [] {
    } else {
      assert some[0] in all;
      var j :| 0 <= j < |all| && all[j] == some[0];
      var less := all[..j] + all[j + 1..];
      forall k | k in some[1..] ensures k in less {
        assert k in some;
        var i :| 0 <= i < |all| && all[i] == k;
        assert i != j;
        assert k == if i < j then less[i] else less[i - 1];
      }
      KeyBytesRemove(all, j);
      KeyBytesBound(some[1..], less);
    }
  }

  lemma {:induction false} MembersCostTheirKeys(members: seq<Member>)
    ensures |Join(EncMembers(members))| >= KeyBytes(MemberKeys(members))
  {
    if members == [] {
    } else {
      MembersCostTheirKeys(members[1..]);
      assert MemberKeys(members)[1..] == MemberKeys(members[1..]);
    }
  }

  /** The key bytes of some distinct string keys of a table never exceed its encoding. */
  lemma EarlyKeyCheckIsSafe(heap: Heap, item: Value, keys: seq<Bytes>, t: Json)
    requires item.Table? && Unfolds(heap, item, t) && keys != [] && Distinct(keys)
    requires forall k :: k in keys ==> HasKey(heap[item.ref], StrKey(k))
    ensures KeyBytes(keys) <= |Enc(t)|
  {
    assert HasKey(heap[item.ref], StrKey(keys[0]));
    forall k | k in keys ensures k in MemberKeys(t.members) {
      KeyListed(MemberKeys(t.members), heap[item.ref], k);
    }
    KeyBytesBound(keys, MemberKeys(t.members));
    MembersCostTheirKeys(t.members);
  }

  // ----- A child's fault is its table's fault -----

  predicate IsBudgetFault(fault: Fault) {
    fault == ByteLimit || fault == EntryLimit
  }

  lemma InnerFault(heap: Heap, fault: Fault, item: Value, child: Value, b: int, e: int, bytes: int, entries: int,
                   depth: int)
    requires IsChild(heap, item, child) && !IsBudgetFault(fault)
    requires Justifies(heap, fault, child, b, e, depth + 1)
    ensures Justifies(heap, fault, item, bytes, entries, depth)
  {
    match fault {
      case DepthLimit =>
        var path :| ReachesDeep(heap, child, path, depth + 1);
        assert ReachesDeep(heap, item, [item] + path, depth);
      case InvalidUtf8 =>
        var s :| HoldsBadText(heap, child, s);
        if Holds(heap, child, Str(s)) {
          HeldByParent(heap, item, child, Str(s));
        } else {
          var r :| r in heap && Holds(heap, child, Table(r)) && HasKey(heap[r], StrKey(s));
          HeldByParent(heap, item, child, Table(r));
        }
        assert HoldsBadText(heap, item, s);
      case UnsupportedType =>
        HeldByParent(heap, item, child, Unsupported);
      case NonFiniteNumber =>
        HeldByParent(heap, item, child, NonFinite);
      case UnsupportedKey =>
        var r :| r in heap && Holds(heap, child, Table(r)) && BadKeys(heap[r]);
        HeldByParent(heap, item, child, Table(r));
      case Cycle =>
        var r :| Holds(heap, child, Table(r)) && Recursive(heap, Table(r));
        HeldByParent(heap, item, child, Table(r));
    }
  }

  /** The first trees of an array, as the encoder has collected them. */
  ghost predicate FirstItems(heap: Heap, table: EntryList, items: seq<Json>) {
    && |items| <= |table|
    && (items == [] ||
        (var n := |items| - 1;
         && FirstItems(heap, table, items[..n])
         && Unfolds(heap, RawGet(table, IntKey(n + 1)), items[n]) && TextValid(items[n])))
  }

  lemma {:induction false} FirstItemsAll(heap: Heap, table: EntryList, items: seq<Json>)
    requires FirstItems(heap, table, items)
    ensures forall i :: 0 <= i < |items| ==>
              Unfolds(heap, RawGet(table, IntKey(i + 1)), items[i]) && TextValid(items[i])
  {
    if items == [] {
    } else {
      FirstItemsAll(heap, table, items[..|items| - 1]);
    }
  }

  lemma FirstItemsArePrefix(heap: Heap, item: Value, items: seq<Json>, t: Json)
    requires item.Table? && item.ref in heap && IsArray(heap[item.ref]) && FirstItems(heap, heap[item.ref], items)
    requires Unfolds(heap, item, t)
    ensures t.Arr? && |t.items| == |heap[item.ref]| && items == t.items[..|items|]
  {
    NotBoth(heap[item.ref]);
    FirstItemsAll(heap, heap[item.ref], items);
    assert TableUnfolds(heap, heap[item.ref], t);
    forall i | 0 <= i < |items| ensures items[i] == t.items[i] {
      UnfoldsOnce(heap, RawGet(heap[item.ref], IntKey(i + 1)), items[i], t.items[i]);
    }
  }

  /** The bytes of an array before its item `|items|` starts. */
  function ItemsBefore(items: seq<Json>): nat {
    1 + |Join(EncItems(items))| + if items == [] then 0 else 1
  }

  lemma NextItem(items: seq<Json>, n: nat)
    requires n < |items|
    ensures |Enc(Arr(items))| >= ItemsBefore(items[..n]) + |Enc(items[n])|
    ensures Entries(Arr(items)) >= |items| + EntriesOfItems(items[..n]) + Entries(items[n])
  {
    ItemsPrefix(items, n + 1);
    assert items[..n + 1] == items[..n] + [items[n]];
    ItemsSnoc(items[..n], items[n]);
    JoinSnoc(EncItems(items[..n]), Enc(items[n]));
  }

  /** What item `|items|` and everything before it cost an array's tree. */
  lemma ItemShare(heap: Heap, item: Value, items: seq<Json>, t: Json) returns (u: Json)
    requires item.Table? && item.ref in heap && IsArray(heap[item.ref]) && FirstItems(heap, heap[item.ref], items)
    requires |items| < |heap[item.ref]| && Unfolds(heap, item, t)
    ensures Unfolds(heap, RawGet(heap[item.ref], IntKey(|items| + 1)), u)
    ensures |Enc(t)| >= ItemsBefore(items) + |Enc(u)|
    ensures Entries(t) >= |heap[item.ref]| + EntriesOfItems(items) + Entries(u)
  {
    FirstItemsArePrefix(heap, item, items, t);
    u := t.items[|items|];
    NextItem(t.items, |items|);
  }

  /** A fault of item `|items|`, met after `b` bytes and `e` entries, is one of the array. */
  lemma ItemFault(heap: Heap, fault: Fault, item: Value, items: seq<Json>, b: int, e: int,
                  bytes: int, entries: int, depth: int)
    requires item.Table? && item.ref in heap && IsArray(heap[item.ref]) && FirstItems(heap, heap[item.ref], items)
    requires |items| < |heap[item.ref]|
    requires b == bytes + ItemsBefore(items) && e == entries + |heap[item.ref]| + EntriesOfItems(items)
    requires Justifies(heap, fault, RawGet(heap[item.ref], IntKey(|items| + 1)), b, e, depth + 1)
    ensures Justifies(heap, fault, item, bytes, entries, depth)
  {
    var table, n := heap[item.ref], |items|;
    var child := RawGet(table, IntKey(n + 1));
    if IsBudgetFault(fault) {
      forall t | Unfolds(heap, item, t)
        ensures fault.ByteLimit? ==> bytes + |Enc(t)| > MAX_BYTES
        ensures fault.EntryLimit? ==> entries + Entries(t) > MAX_ENTRIES
      {
        var u := ItemShare(heap, item, items, t);
      }
    } else {
      assert HasKey(table, IntKey(n + 1));
      assert Entry(IntKey(n + 1), child) in table;
      InnerFault(heap, fault, item, child, b, e, bytes, entries, depth);
    }
  }

  /** A comma that does not fit means the array does not fit. */
  lemma CommaFault(heap: Heap, item: Value, items: seq<Json>, bytes: int, t: Json)
    requires item.Table? && item.ref in heap && IsArray(heap[item.ref]) && FirstItems(heap, heap[item.ref], items)
    requires |items| < |heap[item.ref]| && bytes + ItemsBefore(items) > MAX_BYTES && Unfolds(heap, item, t)
    ensures bytes + |Enc(t)| > MAX_BYTES
  {
    var u := ItemShare(heap, item, items, t);
  }

  /** The first members of an object, as the encoder has collected them. */
  ghost predicate FirstMembers(heap: Heap, table: EntryList, keys: seq<Bytes>, members: seq<Member>) {
    && |members| <= |keys|
    && ListsKeys(keys, table)
    && (members == [] ||
        (var n := |members| - 1;
         && FirstMembers(heap, table, keys, members[..n])
         && members[n].key == keys[n] && IsUtf8(keys[n])
         && Unfolds(heap, RawGet(table, StrKey(keys[n])), members[n].value) && TextValid(members[n].value)))
  }

  lemma {:induction false} FirstMembersAll(heap: Heap, table: EntryList, keys: seq<Bytes>, members: seq<Member>)
    requires FirstMembers(heap, table, keys, members)
    ensures forall i :: 0 <= i < |members| ==>
      && members[i].key == keys[i] && IsUtf8(keys[i])
      && Unfolds(heap, RawGet(table, StrKey(keys[i])), members[i].value) && TextValid(members[i].value)
  {
    if members == [] {
    } else {
      FirstMembersAll(heap, table, keys, members[..|members| - 1]);
    }
  }

  lemma FirstMembersArePrefix(heap: Heap, item: Value, keys: seq<Bytes>, members: seq<Member>, t: Json)
    requires item.Table? && item.ref in heap && IsObject(heap[item.ref])
    requires FirstMembers(heap, heap[item.ref], keys, members) && Unfolds(heap, item, t)
    ensures t.Obj? && MemberKeys(t.members) == keys && members == t.members[..|members|]
  {
    NotBoth(heap[item.ref]);
    FirstMembersAll(heap, heap[item.ref], keys, members);
    assert TableUnfolds(heap, heap[item.ref], t);
    SameListing(heap[item.ref], MemberKeys(t.members), keys);
    forall i | 0 <= i < |members| ensures members[i] == t.members[i] {
      assert MemberKeys(t.members)[i] == keys[i];
      UnfoldsOnce(heap, RawGet(heap[item.ref], StrKey(keys[i])), members[i].value, t.members[i].value);
    }
  }

  /** The bytes of an object before the value of member `|members|`, whose key is `key`, starts. */
  function MembersBefore(members: seq<Member>): nat {
    1 + |Join(EncMembers(members))| + if members == [] then 0 else 1
  }

  lemma NextMember(members: seq<Member>, n: nat)
    requires n < |members|
    ensures |Enc(Obj(members))| >= MembersBefore(members[..n]) + |Quote(members[n].key)| + 1 + |Enc(members[n].value)|
    ensures Entries(Obj(members)) >= |members| + EntriesOfMembers(members[..n]) + Entries(members[n].value)
  {
    MembersPrefix(members, n + 1);
    assert members[..n + 1] == members[..n] + [members[n]];
    MembersSnoc(members[..n], members[n]);
    JoinSnoc(EncMembers(members[..n]), EncMember(members[n]));
  }

  /** What member `|members|` and everything before it cost an object's tree. */
  lemma MemberShare(heap: Heap, item: Value, keys: seq<Bytes>, members: seq<Member>, t: Json) returns (u: Json)
    requires item.Table? && item.ref in heap && IsObject(heap[item.ref])
    requires FirstMembers(heap, heap[item.ref], keys, members) && |members| < |keys| && Unfolds(heap, item, t)
    ensures Unfolds(heap, RawGet(heap[item.ref], StrKey(keys[|members|])), u)
    ensures |Enc(t)| >= MembersBefore(members) + |Quote(keys[|members|])| + 1 + |Enc(u)|
    ensures Entries(t) >= |heap[item.ref]| + EntriesOfMembers(members) + Entries(u)
  {
    var n := |members|;
    FirstMembersArePrefix(heap, item, keys, members, t);
    assert MemberKeys(t.members)[n] == keys[n];
    u := t.members[n].value;
    NextMember(t.members, n);
  }

  /** A fault of the value of member `|members|`, met after `b` bytes and `e` entries, is one of the object. */
  lemma MemberFault(heap: Heap, fault: Fault, item: Value, keys: seq<Bytes>, members: seq<Member>, b: int, e: int,
                    bytes: int, entries: int, depth: int)
    requires item.Table? && item.ref in heap && IsObject(heap[item.ref])
    requires FirstMembers(heap, heap[item.ref], keys, members) && |members| < |keys|
    requires b == bytes + MembersBefore(members) + |Quote(keys[|members|])| + 1
    requires e == entries + |heap[item.ref]| + EntriesOfMembers(members)
    requires Justifies(heap, fault, RawGet(heap[item.ref], StrKey(keys[|members|])), b, e, depth + 1)
    ensures Justifies(heap, fault, item, bytes, entries, depth)
  {
    var table, n := heap[item.ref], |members|;
    var child := RawGet(table, StrKey(keys[n]));
    if IsBudgetFault(fault) {
      forall t | Unfolds(heap, item, t)
        ensures fault.ByteLimit? ==> bytes + |Enc(t)| > MAX_BYTES
        ensures fault.EntryLimit? ==> entries + Entries(t) > MAX_ENTRIES
      {
        var u := MemberShare(heap, item, keys, members, t);
      }
    } else {
      KeyListed(keys, table, keys[n]);
      assert Entry(StrKey(keys[n]), child) in table;
      InnerFault(heap, fault, item, child, b, e, bytes, entries, depth);
    }
  }

  /** A comma, key or colon that does not fit means the object does not fit. */
  lemma KeyFault(heap: Heap, item: Value, keys: seq<Bytes>, members: seq<Member>, extra: int, bytes: int, t: Json)
    requires item.Table? && item.ref in heap && IsObject(heap[item.ref])
    requires FirstMembers(heap, heap[item.ref], keys, members) && |members| < |keys|
    requires extra <= |Quote(keys[|members|])| + 1
    requires bytes + MembersBefore(members) + extra > MAX_BYTES && Unfolds(heap, item, t)
    ensures bytes + |Enc(t)| > MAX_BYTES
  {
    var u := MemberShare(heap, item, keys, members, t);
  }
}
