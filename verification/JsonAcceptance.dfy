/** Which table graphs unfold at all: exactly those without a cycle, a bad table or an unsupported value. */
module JsonAcceptance {
  import opened Utf8
  import opened JsonText
  import opened LuaTables
  import opened JsonLimits
  import opened JsonEncoder

  /** Nothing inside `v` stops it from having a finite tree. */
  ghost predicate Blameless(heap: Heap, v: Value) {
    && !Holds(heap, v, NonFinite)
    && !Holds(heap, v, Unsupported)
    && forall r :: r in heap && Holds(heap, v, Table(r)) ==> !BadKeys(heap[r]) && !Recursive(heap, Table(r))
  }

  lemma ChildBlameless(heap: Heap, v: Value, w: Value)
    requires Blameless(heap, v) && IsChild(heap, v, w)
    ensures Blameless(heap, w)
  {
    if Holds(heap, w, NonFinite) {
      HeldByParent(heap, v, w, NonFinite);
    }
    if Holds(heap, w, Unsupported) {
      HeldByParent(heap, v, w, Unsupported);
    }
    forall r | r in heap && Holds(heap, w, Table(r)) ensures !BadKeys(heap[r]) && !Recursive(heap, Table(r)) {
      HeldByParent(heap, v, w, Table(r));
    }
  }

  ghost function Refs(path: seq<Value>): set<nat> {
    set v | v in path && v.Table? :: v.ref
  }

  lemma NotItsOwnAncestor(heap: Heap, v: Value, ancestors: seq<Value>)
    requires v.Table? && v.ref in heap && Blameless(heap, v) && IsPath(heap, ancestors + [v])
    ensures v.ref !in Refs(ancestors) && Refs(ancestors + [v]) == Refs(ancestors) + {v.ref}
  {
    HoldsItself(heap, v);
    if v in ancestors {
      OwnAncestorIsRecursive(heap, v, ancestors);
    }
  }

  /** A graph without a reason to fail is a finite tree. */
  lemma {:induction false} Unfold(heap: Heap, v: Value, ancestors: seq<Value>) returns (t: Json)
    requires WellFormed(heap) && Known(heap, v) && Blameless(heap, v) && IsPath(heap, ancestors + [v])
    ensures Unfolds(heap, v, t)
    decreases |heap.Keys - Refs(ancestors)|, 1
  {
    match v
    case Nil => t := Null;
    case JsonNull => t := Null;
    case Boolean(b) => t := Bool(b);
    case Integer(i) =>
      t := Number(DecimalText(i));
      IntegerUnfolds(heap, i, t);
    case Float(text) => t := Number(text);
    case Str(s) => t := Text(s);
    case NonFinite => HoldsItself(heap, v);
    case Unsupported => HoldsItself(heap, v);
    case Table(r) =>
      HoldsItself(heap, v);
      NotItsOwnAncestor(heap, v, ancestors);
      assert heap.Keys - Refs(ancestors + [v]) < heap.Keys - Refs(ancestors);
      SmallerSet(heap.Keys - Refs(ancestors + [v]), heap.Keys - Refs(ancestors));
      if IsArray(heap[r]) {
        t := UnfoldItems(heap, v, ancestors + [v]);
      } else {
        t := UnfoldMembers(heap, v, ancestors + [v]);
      }
  }

  lemma SmallerSet(a: set<nat>, b: set<nat>)
    requires a < b
    ensures |a| < |b|
  {
    assert |b - a| == |b| - |a|;
    var x :| x in b - a;
  }

  lemma UnfoldItems(heap: Heap, v: Value, path: seq<Value>) returns (t: Json)
    requires WellFormed(heap) && v.Table? && v.ref in heap && Blameless(heap, v) && IsArray(heap[v.ref])
    requires IsPath(heap, path) && path[|path| - 1] == v
    ensures Unfolds(heap, v, t)
    decreases |heap.Keys - Refs(path)|, 2
  {
    var table := heap[v.ref];
    var items: seq<Json> := [];
    while |items| < |table|
      invariant |items| <= |table|
      invariant forall i :: 0 <= i < |items| ==> Unfolds(heap, RawGet(table, IntKey(i + 1)), items[i])
    {
      var child := RawGet(table, IntKey(|items| + 1));
      PathToChild(heap, path, v, IntKey(|items| + 1));
      ChildBlameless(heap, v, child);
      var u := Unfold(heap, child, path);
      items := items + [u];
    }
    t := Arr(items);
  }

  lemma UnfoldMembers(heap: Heap, v: Value, path: seq<Value>) returns (t: Json)
    requires WellFormed(heap) && v.Table? && v.ref in heap && Blameless(heap, v) && IsObject(heap[v.ref])
    requires IsPath(heap, path) && path[|path| - 1] == v
    ensures Unfolds(heap, v, t)
    decreases |heap.Keys - Refs(path)|, 2
  {
    var table := heap[v.ref];
    SortListsKeys(table);
    var keys := Sort(Strings(table));
    var members: seq<Member> := [];
    while |members| < |keys|
      invariant |members| <= |keys|
      invariant forall i :: 0 <= i < |members| ==> members[i].key == keys[i]
      invariant forall i :: 0 <= i < |members| ==> Unfolds(heap, RawGet(table, StrKey(keys[i])), members[i].value)
    {
      var child := RawGet(table, StrKey(keys[|members|]));
      PathToMember(heap, path, v, keys, |members|);
      ChildBlameless(heap, v, child);
      var u := Unfold(heap, child, path);
      members := members + [Member(keys[|members|], u)];
    }
    assert MemberKeys(members) == keys;
    t := Obj(members);
  }

  /** A value unfolds to a finite tree exactly when nothing in it is to blame; sharing is no obstacle. */
  lemma UnfoldsExactlyWhenBlameless(heap: Heap, v: Value)
    requires WellFormed(heap) && Known(heap, v)
    ensures (exists t :: Unfolds(heap, v, t)) <==> Blameless(heap, v)
  {
    if Blameless(heap, v) {
      var t := Unfold(heap, v, []);
      assert exists t :: Unfolds(heap, v, t);
    }
    if exists t :: Unfolds(heap, v, t) {
      var t :| Unfolds(heap, v, t);
      if Holds(heap, v, NonFinite) {
        var u := HeldHasTree(heap, v, NonFinite, t);
      }
      if Holds(heap, v, Unsupported) {
        var u := HeldHasTree(heap, v, Unsupported, t);
      }
      forall r | r in heap && Holds(heap, v, Table(r)) ensures !BadKeys(heap[r]) && !Recursive(heap, Table(r)) {
        var u := HeldHasTree(heap, v, Table(r), t);
        if Recursive(heap, Table(r)) {
          CyclesNeverUnfold(heap, v, Table(r), t);
        }
      }
    }
  }
}
