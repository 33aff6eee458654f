/** The Lua values that command arguments arrive as: tables are built, and nil is stored nowhere. */
module LuaArrival {
  import opened Basics
  import opened LuaCommand
  import opened LuaFloat
  import opened LuaLiteral

  // ----- The value a constructor builds (Lua 5.4 reference manual, section 3.4.9) -----

  datatype Index = At(n: nat) | Named(s: string)

  datatype Arrived =
    | ANil
    | ABool(b: bool)
    | AInt(i: int)
    | AFloat(value: Float)
    | AStr(s: string)
    | ATable(entries: map<Index, Arrived>)

  /** Assigning nil stores nothing. */
  function Store(table: map<Index, Arrived>, key: Index, v: Arrived): map<Index, Arrived> {
    if v == ANil then table - {key} else table[key := v]
  }

  function Positions(fields: seq<Field>): nat {
    if fields == [] then 0
    else Positions(fields[..|fields| - 1]) + if fields[|fields| - 1].Positional? then 1 else 0
  }

  /** The value of an expression, with the tables inside it built as well. */
  function Arrive(t: Tree): Arrived
    decreases t
  {
    match t
    case LNil => ANil
    case LBool(b) => ABool(b)
    case LInt(i) => AInt(i)
    case LFloat(value) => AFloat(value)
    case LStr(s) => AStr(s)
    case LTable(fields) => ATable(Build(fields))
  }

  function Build(fields: seq<Field>): map<Index, Arrived>
    decreases fields
  {
    if fields == [] then map[]
    else
      var front, last := fields[..|fields| - 1], fields[|fields| - 1];
      var key := match last case Positional(_) => At(Positions(front) + 1) case Keyed(k, _) => Named(k);
      Store(Build(front), key, ArriveField(last))
  }

  function ArriveField(f: Field): Arrived
    decreases f
  {
    match f
    case Positional(v) => Arrive(v)
    case Keyed(_, v) => Arrive(v)
  }

  /** What a value of the program becomes. */
  function ArrivalOf(v: Value): Arrived {
    Arrive(TreeOf(v))
  }

  lemma OnlyNoneIsNil(v: Value)
    ensures ArrivalOf(v) == ANil <==> v == NoneValue
  { }

  // ----- Lists -----

  lemma {:induction false} ItemFieldsSnoc(items: seq<Value>, v: Value)
    ensures ItemFields(items + [v]) == ItemFields(items) + [Positional(TreeOf(v))]
    ensures |ItemFields(items)| == |items|
  {
    if items == [] {
      assert ([v])[1..] == [];
    } else {
      assert (items + [v])[1..] == items[1..] + [v];
      ItemFieldsSnoc(items[1..], v);
    }
  }

  lemma {:induction false} ItemPositions(items: seq<Value>)
    ensures Positions(ItemFields(items)) == |items|
  {
    if items == [] {
    } else {
      var front, last := items[..|items| - 1], items[|items| - 1];
      assert items == front + [last];
      ItemFieldsSnoc(front, last);
      assert ItemFields(items)[..|items| - 1] == ItemFields(front);
      ItemPositions(front);
    }
  }

  function ListTable(items: seq<Value>): map<Index, Arrived> {
    Build(ItemFields(items))
  }

  lemma ListTableSnoc(items: seq<Value>, v: Value)
    ensures ListTable(items + [v]) == Store(ListTable(items), At(|items| + 1), ArrivalOf(v))
  {
    ItemFieldsSnoc(items, v);
    ItemPositions(items);
    assert ItemFields(items + [v])[..|items|] == ItemFields(items);
    assert ArriveField(Positional(TreeOf(v))) == ArrivalOf(v);
  }

  /** A list arrives with each element at its own position, except that a None element is simply absent. */
  lemma {:induction false} ListArrives(items: seq<Value>)
    ensures forall k :: k in ListTable(items) ==> k.At? && 1 <= k.n <= |items|
    ensures forall i :: 0 <= i < |items| ==> (At(i + 1) in ListTable(items) <==> items[i] != NoneValue)
    ensures forall i :: 0 <= i < |items| && items[i] != NoneValue ==>
              ListTable(items)[At(i + 1)] == ArrivalOf(items[i])
  {
    if items == [] {
    } else {
      var front, last := items[..|items| - 1], items[|items| - 1];
      assert items == front + [last];
      ListArrives(front);
      ListTableSnoc(front, last);
      OnlyNoneIsNil(last);
      forall i | 0 <= i < |front| ensures items[i] == front[i] {
      }
    }
  }

  /** So a trailing None is lost: the two lists cannot be told apart on arrival. */
  lemma TrailingNoneIsLost(items: seq<Value>)
    ensures ListTable(items + [NoneValue]) == ListTable(items)
  {
    ListTableSnoc(items, NoneValue);
    ListArrives(items);
  }

  // ----- Dictionaries -----

  /** The order of Python strings: by their characters. */
  predicate Before(a: string, b: string) {
    b != "" && (a == "" || a[0] < b[0] || (a[0] == b[0] && Before(a[1..], b[1..])))
  }

  lemma {:induction false} BeforeIsOneWay(a: string, b: string)
    ensures !(Before(a, b) && Before(b, a))
  {
    if a == "" || b == "" {
    } else {
      BeforeIsOneWay(a[1..], b[1..]);
    }
  }

  ghost predicate KeysAscend(entries: seq<Pair>) {
    forall i, j :: 0 <= i < j < |entries| ==> Before(entries[i].key, entries[j].key)
  }

  lemma KeysDiffer(entries: seq<Pair>)
    requires KeysAscend(entries)
    ensures forall i, j :: 0 <= i < j < |entries| ==> entries[i].key != entries[j].key
  {
    forall i, j | 0 <= i < j < |entries|
      ensures entries[i].key != entries[j].key
    {
      BeforeIsOneWay(entries[i].key, entries[j].key);
    }
  }

  lemma {:induction false} EntryFieldsSnoc(entries: seq<Pair>, e: Pair)
    ensures EntryFields(entries + [e]) == EntryFields(entries) + [Keyed(e.key, TreeOf(e.value))]
    ensures |EntryFields(entries)| == |entries|
  {
    if entries == [] {
      assert ([e])[1..] == [];
    } else {
      assert (entries + [e])[1..] == entries[1..] + [e];
      EntryFieldsSnoc(entries[1..], e);
    }
  }

  function DictTable(entries: seq<Pair>): map<Index, Arrived> {
    Build(EntryFields(entries))
  }

  lemma DictTableSnoc(entries: seq<Pair>, e: Pair)
    ensures DictTable(entries + [e]) == Store(DictTable(entries), Named(e.key), ArrivalOf(e.value))
  {
    EntryFieldsSnoc(entries, e);
    assert EntryFields(entries + [e])[..|entries|] == EntryFields(entries);
    assert ArriveField(Keyed(e.key, TreeOf(e.value))) == ArrivalOf(e.value);
  }

  /** The entry is one the table keeps. */
  predicate Holds(entries: seq<Pair>, e: Pair) {
    e in entries && e.value != NoneValue
  }

  /** A dictionary arrives with each value under its own key, except that a None value is simply absent. */
  lemma {:induction false} DictArrives(entries: seq<Pair>)
    requires KeysAscend(entries)
    ensures forall k :: k in DictTable(entries) ==> k.Named? && exists e :: Holds(entries, e) && e.key == k.s
    ensures forall e :: Holds(entries, e) ==>
              Named(e.key) in DictTable(entries) && DictTable(entries)[Named(e.key)] == ArrivalOf(e.value)
  {
    if entries == [] {
    } else {
      var front, last := entries[..|entries| - 1], entries[|entries| - 1];
      assert entries == front + [last];
      DictArrives(front);
      DictTableSnoc(front, last);
      OnlyNoneIsNil(last.value);
      KeysDiffer(entries);
      forall k | k in DictTable(entries)
        ensures k.Named? && exists e :: Holds(entries, e) && e.key == k.s
      {
        if k in DictTable(front) {
          var e :| Holds(front, e) && e.key == k.s;
          assert Holds(entries, e);
        } else {
          assert Holds(entries, last) && k == Named(last.key);
        }
      }
      forall e | Holds(entries, e)
        ensures Named(e.key) in DictTable(entries) && DictTable(entries)[Named(e.key)] == ArrivalOf(e.value)
      {
        if e in front {
          assert Holds(front, e);
        }
      }
    }
  }

  // ----- Normal forms -----

  function DropTrailingNone(items: seq<Value>): seq<Value> {
    if items != [] && items[|items| - 1] == NoneValue then DropTrailingNone(items[..|items| - 1]) else items
  }

  /** Trailing None elements of every list and None entries of every dictionary dropped, at every depth. */
  function Normal(v: Value): Value
    decreases v
  {
    match v
    case List(items) => List(DropTrailingNone(NormalItems(items)))
    case Dict(entries) => Dict(NormalEntries(entries))
    case _ => v
  }

  function NormalItems(items: seq<Value>): (normal: seq<Value>)
    ensures |normal| == |items| && forall i :: 0 <= i < |items| ==> normal[i] == Normal(items[i])
    decreases items
  {
    if items == [] then [] else [Normal(items[0])] + NormalItems(items[1..])
  }

  function NormalEntries(entries: seq<Pair>): seq<Pair>
    decreases entries
  {
    if entries == [] then []
    else if entries[0].value == NoneValue then NormalEntries(entries[1..])
    else [Pair(entries[0].key, Normal(entries[0].value))] + NormalEntries(entries[1..])
  }

  /** Every dictionary inside lists its entries in the order of their keys, as the program writes them. */
  ghost predicate Orderly(v: Value)
    decreases v
  {
    match v
    case List(items) => forall i :: 0 <= i < |items| ==> Orderly(items[i])
    case Dict(entries) => KeysAscend(entries) && forall i :: 0 <= i < |entries| ==> Orderly(entries[i].value)
    case _ => true
  }

  lemma {:induction false} DroppingKeepsTable(items: seq<Value>)
    ensures ListTable(DropTrailingNone(items)) == ListTable(items)
    ensures DropTrailingNone(items) <= items
    ensures var short := DropTrailingNone(items); short != [] ==> short[|short| - 1] != NoneValue
  {
    if items != [] && items[|items| - 1] == NoneValue {
      DroppingKeepsTable(items[..|items| - 1]);
      TrailingNoneIsLost(items[..|items| - 1]);
      assert items[..|items| - 1] + [NoneValue] == items;
    } else {
    }
  }

  lemma {:induction false} SameListTable(a: seq<Value>, b: seq<Value>)
    requires |a| == |b| && forall i :: 0 <= i < |a| ==> ArrivalOf(a[i]) == ArrivalOf(b[i])
    ensures ListTable(a) == ListTable(b)
  {
    if a == [] {
    } else {
      var n := |a| - 1;
      SameListTable(a[..n], b[..n]);
      assert a == a[..n] + [a[n]] && b == b[..n] + [b[n]];
      ListTableSnoc(a[..n], a[n]);
      ListTableSnoc(b[..n], b[n]);
    }
  }

  /** The entries of the normal form are the kept entries with normal values. */
  lemma {:induction false} NormalMembers(entries: seq<Pair>)
    ensures forall e :: Holds(entries, e) ==> Pair(e.key, Normal(e.value)) in NormalEntries(entries)
    ensures forall n :: n in NormalEntries(entries) ==>
              exists e :: Holds(entries, e) && n == Pair(e.key, Normal(e.value))
  {
    if entries == [] {
    } else {
      NormalMembers(entries[1..]);
      forall n | n in NormalEntries(entries)
        ensures exists e :: Holds(entries, e) && n == Pair(e.key, Normal(e.value))
      {
        if n in NormalEntries(entries[1..]) {
          var e :| Holds(entries[1..], e) && n == Pair(e.key, Normal(e.value));
          assert Holds(entries, e);
        } else {
          assert Holds(entries, entries[0]);
        }
      }
      forall e | Holds(entries, e)
        ensures Pair(e.key, Normal(e.value)) in NormalEntries(entries)
      {
        if e != entries[0] {
          assert Holds(entries[1..], e);
        }
      }
    }
  }

  lemma {:induction false} NormalKeysAscend(entries: seq<Pair>)
    requires KeysAscend(entries)
    ensures KeysAscend(NormalEntries(entries))
  {
    if entries == [] {
    } else {
      NormalKeysAscend(entries[1..]);
      NormalMembers(entries[1..]);
      forall n | n in NormalEntries(entries[1..])
        ensures Before(entries[0].key, n.key)
      {
        var e :| Holds(entries[1..], e) && n == Pair(e.key, Normal(e.value));
      }
    }
  }

  lemma KeptEntry(entries: seq<Pair>, k: Index) returns (e: Pair)
    requires KeysAscend(entries) && k in DictTable(entries)
    ensures Holds(entries, e) && k == Named(e.key) && DictTable(entries)[k] == ArrivalOf(e.value)
  {
    DictArrives(entries);
    e :| Holds(entries, e) && e.key == k.s;
  }

  lemma NormalEntry(entries: seq<Pair>, e: Pair)
    requires KeysAscend(entries) && Holds(entries, e)
    ensures var table := DictTable(NormalEntries(entries));
            Named(e.key) in table && table[Named(e.key)] == ArrivalOf(Normal(e.value))
  {
    NormalKeysAscend(entries);
    NormalMembers(entries);
    DictArrives(NormalEntries(entries));
    assert Holds(NormalEntries(entries), Pair(e.key, Normal(e.value)));
  }

  lemma NormalTableIsSmaller(entries: seq<Pair>, k: Index)
    requires KeysAscend(entries) && k in DictTable(NormalEntries(entries))
    ensures k in DictTable(entries)
  {
    NormalKeysAscend(entries);
    NormalMembers(entries);
    var n := KeptEntry(NormalEntries(entries), k);
    var e :| Holds(entries, e) && n == Pair(e.key, Normal(e.value));
    DictArrives(entries);
  }

  lemma SameDictTable(entries: seq<Pair>)
    requires KeysAscend(entries)
    requires forall e :: e in entries ==> ArrivalOf(Normal(e.value)) == ArrivalOf(e.value)
    ensures DictTable(NormalEntries(entries)) == DictTable(entries)
  {
    var a, b := DictTable(NormalEntries(entries)), DictTable(entries);
    forall k | k in a
      ensures k in b
    {
      NormalTableIsSmaller(entries, k);
    }
    forall k | k in b
      ensures k in a && a[k] == b[k]
    {
      var e := KeptEntry(entries, k);
      NormalEntry(entries, e);
    }
  }

  /** Dropping what is stored nowhere changes nothing on arrival. */
  lemma {:induction false} NormalArrivesTheSame(v: Value)
    requires Orderly(v)
    ensures ArrivalOf(Normal(v)) == ArrivalOf(v)
  {
    match v
    case List(items) =>
      forall i | 0 <= i < |items|
        ensures ArrivalOf(Normal(items[i])) == ArrivalOf(items[i])
      {
        NormalArrivesTheSame(items[i]);
      }
      SameListTable(NormalItems(items), items);
      DroppingKeepsTable(NormalItems(items));
    case Dict(entries) =>
      forall i | 0 <= i < |entries|
        ensures ArrivalOf(Normal(entries[i].value)) == ArrivalOf(entries[i].value)
      {
        NormalArrivesTheSame(entries[i].value);
      }
      SameDictTable(entries);
    case _ =>
  }

  // ----- Normal values can be told apart -----

  ghost predicate IsNormal(v: Value)
    decreases v
  {
    match v
    case List(items) =>
      && (items != [] ==> items[|items| - 1] != NoneValue)
      && forall i :: 0 <= i < |items| ==> IsNormal(items[i])
    case Dict(entries) =>
      && KeysAscend(entries)
      && forall i :: 0 <= i < |entries| ==> entries[i].value != NoneValue && IsNormal(entries[i].value)
    case _ => true
  }

  lemma {:induction false} NormalIsNormal(v: Value)
    requires Orderly(v)
    ensures IsNormal(Normal(v))
  {
    match v
    case List(items) =>
      forall i | 0 <= i < |items|
        ensures IsNormal(NormalItems(items)[i])
      {
        NormalIsNormal(items[i]);
      }
      DroppingKeepsTable(NormalItems(items));
    case Dict(entries) =>
      NormalKeysAscend(entries);
      NormalMembers(entries);
      forall i | 0 <= i < |entries|
        ensures IsNormal(Normal(entries[i].value))
      {
        NormalIsNormal(entries[i].value);
      }
      forall n | n in NormalEntries(entries)
        ensures n.value != NoneValue && IsNormal(n.value)
      {
        var e :| Holds(entries, e) && n == Pair(e.key, Normal(e.value));
      }
    case _ =>
  }

  lemma SameLength(a: seq<Value>, b: seq<Value>)
    requires ListTable(a) == ListTable(b) && (a != [] ==> a[|a| - 1] != NoneValue)
    ensures |a| <= |b|
  {
    ListArrives(a);
    ListArrives(b);
    assert a != [] ==> At(|a| - 1 + 1) in ListTable(a);
  }

  lemma SameElement(a: seq<Value>, b: seq<Value>, i: nat)
    requires ListTable(a) == ListTable(b) && i < |a| == |b|
    ensures ArrivalOf(a[i]) == ArrivalOf(b[i])
  {
    ListArrives(a);
    ListArrives(b);
    assert At(i + 1) in ListTable(a) <==> a[i] != NoneValue;
    assert At(i + 1) in ListTable(b) <==> b[i] != NoneValue;
  }

  lemma {:induction false} SameItems(a: seq<Value>, b: seq<Value>)
    requires |a| == |b| && forall i :: 0 <= i < |a| ==> TreeOf(a[i]) == TreeOf(b[i])
    ensures ItemFields(a) == ItemFields(b)
  {
    if a == [] {
    } else {
      assert forall i :: 0 <= i < |a| - 1 ==> a[1..][i] == a[i + 1] && b[1..][i] == b[i + 1];
      SameItems(a[1..], b[1..]);
    }
  }

  lemma {:induction false} SameEntries(a: seq<Pair>, b: seq<Pair>)
    requires |a| == |b|
    requires forall i :: 0 <= i < |a| ==> a[i].key == b[i].key && TreeOf(a[i].value) == TreeOf(b[i].value)
    ensures EntryFields(a) == EntryFields(b)
  {
    if a == [] {
    } else {
      assert forall i :: 0 <= i < |a| - 1 ==> a[1..][i] == a[i + 1] && b[1..][i] == b[i + 1];
      SameEntries(a[1..], b[1..]);
    }
  }

  ghost predicate AllKept(entries: seq<Pair>) {
    forall i :: 0 <= i < |entries| ==> entries[i].value != NoneValue
  }

  /** The entry under a key of one table is in the other one, with a value that arrives the same. */
  lemma SharedEntry(a: seq<Pair>, b: seq<Pair>, i: nat) returns (j: nat)
    requires KeysAscend(a) && KeysAscend(b) && AllKept(a) && DictTable(a) == DictTable(b) && i < |a|
    ensures j < |b| && b[j].key == a[i].key && ArrivalOf(b[j].value) == ArrivalOf(a[i].value)
  {
    DictArrives(a);
    assert Holds(a, a[i]);
    var f := KeptEntry(b, Named(a[i].key));
    j :| j < |b| && b[j] == f;
  }

  lemma NotEarlier(a: seq<Pair>, b: seq<Pair>, i: nat, j: nat)
    requires KeysAscend(a) && i < |a| && j < |b| && b[j].key == a[i].key
    requires forall l :: 0 <= l < i && l < |b| ==> a[l].key == b[l].key
    ensures i <= j
  {
    if j < i {
      BeforeIsOneWay(a[j].key, a[i].key);
    }
  }

  /** Ascending entries of the same table are in step. */
  lemma {:induction false} SameKeys(a: seq<Pair>, b: seq<Pair>, i: nat)
    requires KeysAscend(a) && KeysAscend(b) && AllKept(a) && AllKept(b) && DictTable(a) == DictTable(b)
    requires i < |a| && i < |b|
    ensures a[i].key == b[i].key
  {
    forall l | 0 <= l < i
      ensures a[l].key == b[l].key
    {
      SameKeys(a, b, l);
    }
    var j := SharedEntry(a, b, i);
    var k := SharedEntry(b, a, i);
    NotEarlier(a, b, i, j);
    NotEarlier(b, a, i, k);
    BeforeIsOneWay(a[i].key, b[i].key);
  }

  lemma SameSize(a: seq<Pair>, b: seq<Pair>)
    requires KeysAscend(a) && KeysAscend(b) && AllKept(a) && AllKept(b) && DictTable(a) == DictTable(b)
    ensures |a| <= |b|
  {
    if |b| < |a| {
      forall l | 0 <= l < |b|
        ensures a[l].key == b[l].key
      {
        SameKeys(a, b, l);
      }
      var j := SharedEntry(a, b, |b|);
      NotEarlier(a, b, |b|, j);
    }
  }

  lemma SameValue(a: seq<Pair>, b: seq<Pair>, i: nat)
    requires KeysAscend(a) && KeysAscend(b) && AllKept(a) && AllKept(b) && DictTable(a) == DictTable(b)
    requires i < |a| && i < |b|
    ensures a[i].key == b[i].key && ArrivalOf(a[i].value) == ArrivalOf(b[i].value)
  {
    SameKeys(a, b, i);
    var j := SharedEntry(a, b, i);
    KeysDiffer(b);
  }

  /** A list and a dictionary arrive the same only if nothing is in them. */
  lemma ListIsNoDict(items: seq<Value>, entries: seq<Pair>)
    requires items != [] ==> items[|items| - 1] != NoneValue
    requires KeysAscend(entries) && AllKept(entries) && ListTable(items) == DictTable(entries)
    ensures items == [] && entries == []
  {
    ListArrives(items);
    assert items != [] ==> At(|items| - 1 + 1) in ListTable(items);
    DictArrives(entries);
    if entries != [] {
      assert Holds(entries, entries[0]);
    }
  }

  /** Normal values that arrive the same are written as the same tree. */
  lemma {:induction false} NormalIsFaithful(a: Value, b: Value)
    requires IsNormal(a) && IsNormal(b) && ArrivalOf(a) == ArrivalOf(b)
    ensures TreeOf(a) == TreeOf(b)
    decreases a
  {
    match (a, b)
    case (List(items), List(others)) =>
      SameLength(items, others);
      SameLength(others, items);
      forall i | 0 <= i < |items|
        ensures TreeOf(items[i]) == TreeOf(others[i])
      {
        SameElement(items, others, i);
        NormalIsFaithful(items[i], others[i]);
      }
      SameItems(items, others);
    case (Dict(entries), Dict(others)) =>
      SameSize(entries, others);
      SameSize(others, entries);
      forall i | 0 <= i < |entries|
        ensures entries[i].key == others[i].key && TreeOf(entries[i].value) == TreeOf(others[i].value)
      {
        SameValue(entries, others, i);
        NormalIsFaithful(entries[i].value, others[i].value);
      }
      SameEntries(entries, others);
    case (List(items), Dict(entries)) => ListIsNoDict(items, entries);
    case (Dict(entries), List(items)) => ListIsNoDict(items, entries);
    case _ =>
  }

  /**
    Exactly trailing None elements and None entries are lost, at every depth: two values arrive as the same
    Lua value if and only if their normal forms are written as the same tree.
   */
  lemma SameArrivalExactlyUpToNone(a: Value, b: Value)
    requires Orderly(a) && Orderly(b)
    ensures ArrivalOf(a) == ArrivalOf(b) <==> TreeOf(Normal(a)) == TreeOf(Normal(b))
  {
    NormalArrivesTheSame(a);
    NormalArrivesTheSame(b);
    if ArrivalOf(a) == ArrivalOf(b) {
      NormalIsNormal(a);
      NormalIsNormal(b);
      NormalIsFaithful(Normal(a), Normal(b));
    }
  }

  /** What a whole command argument is read as, if it can be read to its end. */
  function Received(text: string): Option<Arrived> {
    match ReadValue(text)
    case Some(read) => if read.rest == "" then Some(Arrive(read.value)) else None
    case None => None
  }

  /** End to end: the bridge cannot tell the texts of two readable values apart exactly if only None was lost. */
  lemma TextsAgreeExactlyUpToNone(a: Value, b: Value, wide: string -> bool)
    requires Orderly(a) && Orderly(b) && Readable(a, wide) && Readable(b, wide)
    ensures Received(ToLua(a, wide)).Some?
    ensures Received(ToLua(a, wide)) == Received(ToLua(b, wide)) <==> TreeOf(Normal(a)) == TreeOf(Normal(b))
  {
    ValueComesBack(a, wide, "");
    ValueComesBack(b, wide, "");
    assert ToLua(a, wide) + "" == ToLua(a, wide) && ToLua(b, wide) + "" == ToLua(b, wide);
    SameArrivalExactlyUpToNone(a, b);
  }
}
