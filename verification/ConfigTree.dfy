// Agent configurations as Go holds them: maps are shared by reference and changed in
// place. Scrubbing and preserving walk such trees and are proved against the
// functions on values.
module ConfigTree {
  import opened Common
  import opened Strings
  import opened AgentConfig

  class JsonMap {
    var fields: map<string, Node>

    constructor (fields: map<string, Node>)
      ensures this.fields == fields
    {
      this.fields := fields;
    }
  }

  /** A decoded value: a scalar, a slice whose elements are never reassigned, or a map. */
  datatype Node = Plain(value: Json) | Slice(items: seq<Node>) | Ref(dict: JsonMap)

  // ---- What a node holds -----------------------------------------------------------------

  /** A tree of values that remembers which map each object is. */
  datatype Tree = Scalar(value: Json) | Branch(items: seq<Tree>) | Dict(dict: JsonMap, fields: map<string, Tree>)

  predicate IsScalar(v: Json) {
    !v.List? && !v.Object?
  }

  ghost function Maps(t: Tree): set<JsonMap> {
    match t
    case Scalar(_) => {}
    case Branch(ts) => set i, o | 0 <= i < |ts| && o in Maps(ts[i]) :: o
    case Dict(o, m) => {o} + set k, p | k in m && p in Maps(m[k]) :: p
  }

  /** The node n holds the tree t in the present heap. */
  ghost predicate Holds(n: Node, t: Tree)
    reads Maps(t)
    decreases t
  {
    match t
    case Scalar(v) => n == Plain(v) && IsScalar(v)
    case Branch(ts) => n.Slice? && |n.items| == |ts| && forall i :: 0 <= i < |ts| ==> Holds(n.items[i], ts[i])
    case Dict(o, m) => n == Ref(o) && o.fields.Keys == m.Keys && forall k :: k in m ==> Holds(o.fields[k], m[k])
  }

  /** No map occurs twice, as in a value just decoded. */
  ghost predicate Unshared(t: Tree) {
    match t
    case Scalar(_) => true
    case Branch(ts) =>
      && (forall i :: 0 <= i < |ts| ==> Unshared(ts[i]))
      && (forall i, j :: 0 <= i < j < |ts| ==> Maps(ts[i]) !! Maps(ts[j]))
    case Dict(o, m) =>
      && (forall k :: k in m ==> Unshared(m[k]) && o !in Maps(m[k]))
      && (forall k, l :: k in m && l in m && k != l ==> Maps(m[k]) !! Maps(m[l]))
  }

  ghost function Value(t: Tree): Json {
    match t
    case Scalar(v) => v
    case Branch(ts) => List(seq(|ts|, i requires 0 <= i < |ts| => Value(ts[i])))
    case Dict(_, m) => Object(map k | k in m :: Value(m[k]))
  }

  // ---- Scrub -------------------------------------------------------------------------------

  ghost function Scrubbed(t: Tree): (r: Tree)
    ensures Maps(r) <= Maps(t)
  {
    match t
    case Scalar(_) => t
    case Branch(ts) => Branch(seq(|ts|, i requires 0 <= i < |ts| => Scrubbed(ts[i])))
    case Dict(o, m) => Dict(o, map k | k in m && !IsHidden(k) :: Scrubbed(m[k]))
  }

  /** Forgetting which map is which, it is scrubbing of values. */
  lemma {:induction false} ScrubbedValue(t: Tree)
    requires ScalarLeaves(t)
    ensures Value(Scrubbed(t)) == Scrub(Value(t))
  {
    match t
    case Scalar(_) =>
    case Branch(ts) =>
      forall i | 0 <= i < |ts| ensures Value(Scrubbed(ts[i])) == Scrub(Value(ts[i])) {
        ScrubbedValue(ts[i]);
      }
    case Dict(o, m) =>
      forall k | k in m ensures Value(Scrubbed(m[k])) == Scrub(Value(m[k])) {
        ScrubbedValue(m[k]);
      }
      assert Value(Scrubbed(t)).fields == Scrub(Value(t)).fields;
  }

  ghost predicate ScalarLeaves(t: Tree) {
    match t
    case Scalar(v) => IsScalar(v)
    case Branch(ts) => forall i :: 0 <= i < |ts| ==> ScalarLeaves(ts[i])
    case Dict(_, m) => forall k :: k in m ==> ScalarLeaves(m[k])
  }

  lemma {:induction false} ScrubbedUnshared(t: Tree)
    requires Unshared(t)
    ensures Unshared(Scrubbed(t))
  {
    match t
    case Scalar(_) =>
    case Branch(ts) =>
      forall i | 0 <= i < |ts| ensures Unshared(Scrubbed(ts[i])) {
        ScrubbedUnshared(ts[i]);
      }
      forall i, j | 0 <= i < j < |ts| ensures Maps(Scrubbed(ts[i])) !! Maps(Scrubbed(ts[j])) {
        assert Maps(ts[i]) !! Maps(ts[j]);
      }
    case Dict(o, m) =>
      forall k | k in m ensures Unshared(Scrubbed(m[k])) {
        ScrubbedUnshared(m[k]);
      }
  }

  // ---- One child changes ---------------------------------------------------------------------

  /** All elements but the i-th live in kept. */
  ghost predicate OtherElementsIn(ts: seq<Tree>, i: nat, kept: set<JsonMap>) {
    forall j :: 0 <= j < |ts| && j != i ==> Maps(ts[j]) <= kept
  }

  /** The object and all its fields but one live in kept. */
  ghost predicate OtherFieldsIn(o: JsonMap, m: map<string, Tree>, key: string, kept: set<JsonMap>) {
    o in kept && forall k :: k in m && k != key ==> Maps(m[k]) <= kept
  }

  method ScrubElement(items: seq<Node>, ghost ts: seq<Tree>, i: nat, ghost kept: set<JsonMap>)
    requires Holds(Slice(items), Branch(ts)) && i < |ts| && Unshared(ts[i])
    requires OtherElementsIn(ts, i, kept) && kept !! Maps(ts[i])
    modifies Maps(ts[i])
    ensures Holds(Slice(items), Branch(ts[i := Scrubbed(ts[i])]))
    decreases ts[i], 3
  {
    ScrubSensitiveAgentConfig(items[i], ts[i]);
    forall j | 0 <= j < |ts| && j != i ensures Holds(items[j], ts[j]) {
      assert old(Holds(items[j], ts[j]));
    }
  }

  method ScrubField(o: JsonMap, ghost m: map<string, Tree>, key: string, ghost kept: set<JsonMap>)
    requires Holds(Ref(o), Dict(o, m)) && key in m && Unshared(m[key])
    requires OtherFieldsIn(o, m, key, kept) && kept !! Maps(m[key])
    modifies Maps(m[key])
    ensures Holds(Ref(o), Dict(o, m[key := Scrubbed(m[key])])) && o.fields == old(o.fields)
    decreases m[key], 3
  {
    ScrubSensitiveAgentConfig(o.fields[key], m[key]);
    forall k | k in m && k != key ensures Holds(o.fields[k], m[k]) {
      assert old(Holds(o.fields[k], m[k]));
    }
  }

  method ScrubSensitiveAgentConfig(n: Node, ghost t: Tree)
    requires Holds(n, t) && Unshared(t)
    modifies Maps(t)
    ensures Holds(n, Scrubbed(t))
    decreases t, 2
  {
    match n
    case Plain(_) =>
    case Slice(items) => ScrubItems(items, t.items);
    case Ref(o) => ScrubFields(o, t.fields);
  }

  /** The first n elements are scrubbed. */
  ghost predicate PartlyScrubbed(ts: seq<Tree>, cur: seq<Tree>, n: nat) {
    |cur| == |ts| && forall j :: 0 <= j < |ts| ==> cur[j] == if j < n then Scrubbed(ts[j]) else ts[j]
  }

  lemma OthersKept(ts: seq<Tree>, cur: seq<Tree>, i: nat)
    requires Unshared(Branch(ts)) && i < |ts| && PartlyScrubbed(ts, cur, i)
    ensures OtherElementsIn(cur, i, Maps(Branch(ts)) - Maps(ts[i])) && Maps(ts[i]) <= Maps(Branch(ts))
  {
    forall j | 0 <= j < |ts| && j != i ensures Maps(cur[j]) <= Maps(Branch(ts)) - Maps(ts[i]) {
      assert Maps(ts[i]) !! Maps(ts[j]);
      assert Maps(cur[j]) <= Maps(ts[j]);
    }
  }

  method ScrubItems(items: seq<Node>, ghost ts: seq<Tree>)
    requires Holds(Slice(items), Branch(ts)) && Unshared(Branch(ts))
    modifies Maps(Branch(ts))
    ensures Holds(Slice(items), Scrubbed(Branch(ts)))
    decreases Branch(ts), 0
  {
    ghost var cur := ts;
    for i := 0 to |items|
      invariant Holds(Slice(items), Branch(cur)) && PartlyScrubbed(ts, cur, i)
    {
      OthersKept(ts, cur, i);
      ScrubElement(items, cur, i, Maps(Branch(ts)) - Maps(ts[i]));
      cur := cur[i := Scrubbed(cur[i])];
    }
    assert Branch(cur) == Scrubbed(Branch(ts));
  }

  /** The fields outside todo are scrubbed or gone. */
  ghost predicate PartlyScrubbedFields(m: map<string, Tree>, cur: map<string, Tree>, todo: set<string>) {
    && todo <= m.Keys
    && (forall k :: k in cur <==> k in m && (k in todo || !IsHidden(k)))
    && (forall k :: k in cur ==> cur[k] == if k in todo then m[k] else Scrubbed(m[k]))
  }

  lemma OtherFieldsKept(o: JsonMap, m: map<string, Tree>, cur: map<string, Tree>, todo: set<string>, key: string)
    requires Unshared(Dict(o, m)) && PartlyScrubbedFields(m, cur, todo) && key in todo
    ensures OtherFieldsIn(o, cur, key, Maps(Dict(o, m)) - Maps(m[key])) && Maps(m[key]) <= Maps(Dict(o, m))
    ensures o !in Maps(m[key]) && Unshared(m[key])
  {
    forall k | k in cur && k != key ensures Maps(cur[k]) <= Maps(Dict(o, m)) - Maps(m[key]) {
      assert Maps(m[key]) !! Maps(m[k]);
      assert Maps(cur[k]) <= Maps(m[k]);
    }
  }

  method DropField(o: JsonMap, ghost m: map<string, Tree>, key: string, ghost kept: set<JsonMap>)
    requires Holds(Ref(o), Dict(o, m)) && o !in kept && forall k :: k in m && k != key ==> Maps(m[k]) <= kept
    modifies o
    ensures Holds(Ref(o), Dict(o, m - {key}))
  {
    o.fields := o.fields - {key};
    forall k | k in m && k != key ensures Holds(o.fields[k], m[k]) {
      assert old(Holds(o.fields[k], m[k]));
    }
  }

  lemma FieldsApart(o: JsonMap, m: map<string, Tree>, cur: map<string, Tree>, todo: set<string>)
    requires Unshared(Dict(o, m)) && PartlyScrubbedFields(m, cur, todo)
    ensures forall k :: k in cur ==> Maps(cur[k]) <= Maps(Dict(o, m)) - {o}
  {
    forall k | k in cur ensures Maps(cur[k]) <= Maps(Dict(o, m)) - {o} {
      assert Maps(cur[k]) <= Maps(m[k]);
    }
  }

  lemma OneFieldLess(m: map<string, Tree>, cur: map<string, Tree>, todo: set<string>, key: string)
    requires PartlyScrubbedFields(m, cur, todo) && key in todo
    ensures PartlyScrubbedFields(m, if IsHidden(key) then cur - {key} else cur[key := Scrubbed(cur[key])], todo - {key})
  {
  }

  lemma AllFieldsDone(o: JsonMap, m: map<string, Tree>, cur: map<string, Tree>)
    requires PartlyScrubbedFields(m, cur, {})
    ensures Dict(o, cur) == Scrubbed(Dict(o, m))
  {
    var r: map<string, Tree> := Scrubbed(Dict(o, m)).fields;
    assert forall k :: k in r <==> k in cur;
    assert forall k :: k in r ==> r[k] == cur[k];
    assert r == cur;
  }

  /** One turn of the loop over the keys. */
  method ScrubKey(o: JsonMap, ghost m: map<string, Tree>, ghost cur: map<string, Tree>, ghost todo: set<string>, key: string)
    returns (ghost next: map<string, Tree>)
    requires Holds(Ref(o), Dict(o, cur)) && PartlyScrubbedFields(m, cur, todo) && key in todo && Unshared(Dict(o, m))
    modifies Maps(Dict(o, m))
    ensures Holds(Ref(o), Dict(o, next)) && PartlyScrubbedFields(m, next, todo - {key})
    decreases Dict(o, m), 0
  {
    OneFieldLess(m, cur, todo, key);
    if IsHidden(key) {
      FieldsApart(o, m, cur, todo);
      DropField(o, cur, key, Maps(Dict(o, m)) - {o});
      next := cur - {key};
    } else {
      OtherFieldsKept(o, m, cur, todo, key);
      ScrubField(o, cur, key, Maps(Dict(o, m)) - Maps(m[key]));
      next := cur[key := Scrubbed(cur[key])];
    }
  }

  method ScrubFields(o: JsonMap, ghost m: map<string, Tree>)
    requires Holds(Ref(o), Dict(o, m)) && Unshared(Dict(o, m))
    modifies Maps(Dict(o, m))
    ensures Holds(Ref(o), Scrubbed(Dict(o, m)))
    decreases Dict(o, m), 1
  {
    ghost var cur := m;
    var todo := o.fields.Keys;
    while todo != {}
      invariant Holds(Ref(o), Dict(o, cur)) && PartlyScrubbedFields(m, cur, todo)
      decreases |todo|
    {
      var key :| key in todo;
      cur := ScrubKey(o, m, cur, todo, key);
      todo := todo - {key};
    }
    AllFieldsDone(o, m, cur);
  }

  // ---- Preserve ------------------------------------------------------------------------------

  ghost function Values(ts: seq<Tree>): (r: seq<Json>)
    ensures |r| == |ts|
  {
    seq(|ts|, i requires 0 <= i < |ts| => Value(ts[i]))
  }

  /** What the incoming tree t becomes: its own maps, with fields of the saved tree s put in by reference. */
  ghost function Preserved(s: Tree, t: Tree): (r: Tree)
    ensures Maps(r) <= Maps(s) + Maps(t)
    decreases t, 1
  {
    if s.Dict? && t.Dict? then
      var m := PreservedFields(s, t);
      assert forall k :: k in m ==> Maps(m[k]) <= Maps(s) + Maps(t);
      Dict(t.dict, m)
    else if s.Branch? && t.Branch? then
      Branch(seq(|t.items|, i requires 0 <= i < |t.items| => PreservedItem(s.items, t.items[i], i)))
    else t
  }

  ghost function PreservedFields(s: Tree, t: Tree): (r: map<string, Tree>)
    requires s.Dict? && t.Dict?
    ensures forall k :: k in r ==> Maps(r[k]) <= Maps(s) + Maps(t)
    decreases t, 0
  {
    var (e, m) := (s.fields, t.fields);
    map k | k in m.Keys + e.Keys && (k in m || IsKept(k)) ::
      if k in e && IsKept(k) then
        if k in m && !IsBlank(Value(m[k])) then m[k] else e[k]
      else if k in e then Preserved(e[k], m[k])
      else m[k]
  }

  ghost function PreservedItem(ss: seq<Tree>, item: Tree, i: nat): (r: Tree)
    ensures Maps(r) <= Maps(Branch(ss)) + Maps(item)
    decreases item, 2
  {
    var j := Match(Values(ss), Value(item), i);
    if j.Some? then Preserved(ss[j.value], item) else item
  }

  /** Forgetting which map is which, it is preserving of values. */
  lemma {:induction false} PreservedValue(s: Tree, t: Tree)
    requires ScalarLeaves(s) && ScalarLeaves(t)
    ensures Value(Preserved(s, t)) == Preserve(Value(s), Value(t))
    decreases t
  {
    if s.Dict? && t.Dict? {
      forall k | k in s.fields && k in t.fields
        ensures Value(Preserved(s.fields[k], t.fields[k])) == Preserve(Value(s.fields[k]), Value(t.fields[k]))
      {
        PreservedValue(s.fields[k], t.fields[k]);
      }
      PreservedFieldValues(s, t);
    } else if s.Branch? && t.Branch? {
      forall i | 0 <= i < |t.items|
        ensures Value(PreservedItem(s.items, t.items[i], i)) == PreserveItem(Values(s.items), Value(t.items[i]), i)
      {
        var j := Match(Values(s.items), Value(t.items[i]), i);
        if j.Some? {
          PreservedValue(s.items[j.value], t.items[i]);
        }
      }
      PreservedItemValues(s, t);
    }
  }

  lemma PreservedFieldValues(s: Tree, t: Tree)
    requires s.Dict? && t.Dict?
    requires forall k :: k in s.fields && k in t.fields ==>
               Value(Preserved(s.fields[k], t.fields[k])) == Preserve(Value(s.fields[k]), Value(t.fields[k]))
    ensures Value(Preserved(s, t)) == Preserve(Value(s), Value(t))
  {
    var r := PreservedFields(s, t);
    var e, v := Value(s).fields, Value(t);
    var w: map<string, Json> := map k | k in r :: Value(r[k]);
    forall k ensures FieldOf(w, k) == FieldAfter(e, v, k) {
      if k !in e {
        UnsavedField(e, v, k);
      } else if IsKept(k) {
        KeptField(e, v, k);
      } else {
        OpenField(e, v, k);
      }
    }
    SameFields(w, e, v);
  }

  lemma PreservedItemValues(s: Tree, t: Tree)
    requires s.Branch? && t.Branch?
    requires forall i :: 0 <= i < |t.items| ==>
               Value(PreservedItem(s.items, t.items[i], i)) == PreserveItem(Values(s.items), Value(t.items[i]), i)
    ensures Value(Preserved(s, t)) == Preserve(Value(s), Value(t))
  {
    var ts := Preserved(s, t).items;
    assert Value(s).items == Values(s.items);
    assert Value(Preserved(s, t)).items == PreserveItems(Value(s).items, Value(t));
  }

  // ---- Reading nodes -------------------------------------------------------------------------

  function NodeText(n: Node): string {
    if n.Plain? then StringValue(n.value) else ""
  }

  function NodeID(n: Node): string
    reads if n.Ref? then {n.dict} else {}
  {
    if n.Ref? && "id" in n.dict.fields then TrimSpace(NodeText(n.dict.fields["id"])) else ""
  }

  lemma TextHeld(n: Node, t: Tree)
    requires Holds(n, t)
    ensures NodeText(n) == StringValue(Value(t))
  {
  }

  lemma IDHeld(n: Node, t: Tree)
    requires Holds(n, t)
    ensures NodeID(n) == ItemID(Value(t))
  {
    if t.Dict? && "id" in t.fields {
      TextHeld(n.dict.fields["id"], t.fields["id"]);
    }
  }

  /** byID finds the last of the first n saved items of each id. */
  ghost predicate IndexesFirst(byID: map<string, nat>, vs: seq<Json>, n: nat)
    requires n <= |vs|
  {
    && (forall id :: id in byID <==> id != "" && LastWithID(vs[..n], id).Some?)
    && (forall id :: id in byID ==> LastWithID(vs[..n], id) == Some(byID[id]))
  }

  ghost predicate Indexes(byID: map<string, nat>, ss: seq<Tree>) {
    IndexesFirst(byID, Values(ss), |ss|)
  }

  lemma IndexStep(byID: map<string, nat>, vs: seq<Json>, n: nat)
    requires n < |vs| && IndexesFirst(byID, vs, n)
    ensures IndexesFirst(if ItemID(vs[n]) == "" then byID else byID[ItemID(vs[n]) := n], vs, n + 1)
  {
    assert vs[..n + 1][..n] == vs[..n];
  }

  /** The index of the saved items; the incoming ones stay as they are. */
  method IndexByID(items: seq<Node>, ghost s: Tree, ghost n: Node, ghost t: Tree) returns (byID: map<string, nat>)
    requires Holds(Slice(items), s) && Holds(n, t)
    ensures Indexes(byID, s.items) && Holds(Slice(items), s) && Holds(n, t)
  {
    byID := map[];
    ghost var vs := Values(s.items);
    assert vs[..0] == [];
    for i := 0 to |items|
      invariant Holds(Slice(items), s) && Holds(n, t)
      invariant IndexesFirst(byID, vs, i)
    {
      IndexStep(byID, vs, i);
      IDHeld(items[i], s.items[i]);
      var id := NodeID(items[i]);
      if id != "" {
        byID := byID[id := i];
      }
    }
  }

  // ---- Preserving in place ---------------------------------------------------------------------

  /** A field takes over a saved value by reference; the saved object stays as it is. */
  method SetField(o: JsonMap, ghost m: map<string, Tree>, key: string, so: JsonMap, ghost e: map<string, Tree>,
                  ghost kept: set<JsonMap>)
    requires Holds(Ref(o), Dict(o, m)) && Holds(Ref(so), Dict(so, e)) && key in e
    requires o !in kept && Maps(Dict(so, e)) <= kept && forall k :: k in m && k != key ==> Maps(m[k]) <= kept
    modifies o
    ensures Holds(Ref(o), Dict(o, m[key := e[key]])) && Holds(Ref(so), Dict(so, e))
  {
    o.fields := o.fields[key := so.fields[key]];
    assert old(Holds(Ref(so), Dict(so, e)));
    forall k | k in m && k != key ensures Holds(o.fields[k], m[k]) {
      assert old(Holds(o.fields[k], m[k]));
    }
  }

  /** One item against one of the saved items, all of which stay as they are. */
  method PreserveElement(items: seq<Node>, ghost ts: seq<Tree>, i: nat, saved: seq<Node>, j: nat, ghost ss: seq<Tree>,
                         ghost kept: set<JsonMap>)
    requires Holds(Slice(items), Branch(ts)) && i < |ts| && Unshared(ts[i])
    requires Holds(Slice(saved), Branch(ss)) && j < |ss|
    requires OtherElementsIn(ts, i, kept) && Maps(Branch(ss)) <= kept && kept !! Maps(ts[i])
    modifies Maps(ts[i])
    ensures Holds(Slice(items), Branch(ts[i := Preserved(ss[j], ts[i])])) && Holds(Slice(saved), Branch(ss))
    decreases ts[i], 4
  {
    PreserveSensitiveValues(saved[j], items[i], ss[j], ts[i]);
    assert old(Holds(Slice(saved), Branch(ss)));
    forall k | 0 <= k < |ts| && k != i ensures Holds(items[k], ts[k]) {
      assert old(Holds(items[k], ts[k]));
    }
  }

  /** A field against the saved one; the saved object stays as it is. */
  method PreserveField(o: JsonMap, ghost m: map<string, Tree>, key: string, so: JsonMap, ghost e: map<string, Tree>,
                       ghost kept: set<JsonMap>)
    requires Holds(Ref(o), Dict(o, m)) && key in m && Unshared(m[key])
    requires Holds(Ref(so), Dict(so, e)) && key in e
    requires OtherFieldsIn(o, m, key, kept) && Maps(Dict(so, e)) <= kept && kept !! Maps(m[key])
    modifies Maps(m[key])
    ensures Holds(Ref(o), Dict(o, m[key := Preserved(e[key], m[key])])) && Holds(Ref(so), Dict(so, e))
    decreases m[key], 4
  {
    PreserveSensitiveValues(so.fields[key], o.fields[key], e[key], m[key]);
    assert old(Holds(Ref(so), Dict(so, e)));
    forall k | k in m && k != key ensures Holds(o.fields[k], m[k]) {
      assert old(Holds(o.fields[k], m[k]));
    }
  }

  method PreserveSensitiveValues(saved: Node, incoming: Node, ghost s: Tree, ghost t: Tree)
    requires Holds(saved, s) && Holds(incoming, t) && Unshared(t) && Maps(s) !! Maps(t)
    modifies Maps(t)
    ensures Holds(incoming, Preserved(s, t)) && Holds(saved, s)
    decreases t, 3
  {
    if saved.Ref? && incoming.Ref? {
      PreserveMap(saved.dict, incoming.dict, s, t);
      return;
    }
    if !saved.Slice? || !incoming.Slice? {
      return;
    }
    PreserveSlice(saved.items, incoming.items, s, t);
  }

  /** The first n elements are preserved. */
  ghost predicate PartlyPreserved(ss: seq<Tree>, ts: seq<Tree>, cur: seq<Tree>, n: nat) {
    |cur| == |ts| && forall j :: 0 <= j < |ts| ==> cur[j] == if j < n then PreservedItem(ss, ts[j], j) else ts[j]
  }

  /** Everything but the maps of one tree. */
  ghost function Rest(s: Tree, t: Tree, one: Tree): set<JsonMap> {
    (Maps(s) + Maps(t)) - Maps(one)
  }

  lemma OthersKeptPreserving(s: Tree, t: Tree, cur: seq<Tree>, i: nat)
    requires s.Branch? && t.Branch? && Unshared(t) && Maps(s) !! Maps(t)
    requires i < |t.items| && PartlyPreserved(s.items, t.items, cur, i)
    ensures OtherElementsIn(cur, i, Rest(s, t, t.items[i])) && Maps(t.items[i]) <= Maps(t)
    ensures Maps(s) <= Rest(s, t, t.items[i])
  {
    var ts := t.items;
    assert Maps(ts[i]) <= Maps(Branch(ts)) && t == Branch(ts);
    forall j | 0 <= j < |ts| && j != i ensures Maps(cur[j]) <= Rest(s, t, ts[i]) {
      assert Maps(ts[i]) !! Maps(ts[j]);
      assert Maps(cur[j]) <= Maps(Branch(s.items)) + Maps(ts[j]);
      assert Branch(s.items) == s;
    }
  }

  /** The saved item that an incoming one is matched with, by the index or by position. */
  function MatchedItem(item: Node, byID: map<string, nat>, count: nat, i: nat): Option<nat>
    reads if item.Ref? then {item.dict} else {}
  {
    var id := NodeID(item);
    if id in byID then Some(byID[id]) else if i < count then Some(i) else None
  }

  lemma MatchHeld(item: Node, byID: map<string, nat>, i: nat, ss: seq<Tree>, t: Tree)
    requires Holds(item, t) && Indexes(byID, ss)
    ensures MatchedItem(item, byID, |ss|, i) == Match(Values(ss), Value(t), i)
  {
    assert ItemID(Value(t)) == NodeID(item) by {
      IDHeld(item, t);
    }
    MatchByIndex(byID, i, ss, NodeID(item), Value(t));
  }

  lemma MatchByIndex(byID: map<string, nat>, i: nat, ss: seq<Tree>, id: string, v: Json)
    requires Indexes(byID, ss) && id == ItemID(v)
    ensures Match(Values(ss), v, i) == if id in byID then Some(byID[id]) else if i < |ss| then Some(i) else None
  {
    assert Values(ss)[..|ss|] == Values(ss);
  }

  lemma OneItemMore(ss: seq<Tree>, ts: seq<Tree>, cur: seq<Tree>, i: nat)
    requires PartlyPreserved(ss, ts, cur, i) && i < |ts|
    ensures PartlyPreserved(ss, ts, cur[i := PreservedItem(ss, ts[i], i)], i + 1)
  {
  }

  /** One turn of the loop over the incoming items. */
  method PreserveAt(saved: seq<Node>, items: seq<Node>, j: nat, i: nat, ghost s: Tree, ghost t: Tree, ghost cur: seq<Tree>)
    requires s.Branch? && t.Branch? && Unshared(t) && Maps(s) !! Maps(t) && i < |t.items| && j < |s.items|
    requires Holds(Slice(saved), s) && Holds(Slice(items), Branch(cur)) && PartlyPreserved(s.items, t.items, cur, i)
    modifies Maps(t)
    ensures Holds(Slice(saved), s) && Holds(Slice(items), Branch(cur[i := Preserved(s.items[j], cur[i])]))
    decreases t, 0
  {
    assert s == Branch(s.items);
    OthersKeptPreserving(s, t, cur, i);
    PreserveElement(items, cur, i, saved, j, s.items, Rest(s, t, t.items[i]));
  }

  /** Both lists as they are while the incoming one is walked. */
  ghost predicate Walking(saved: seq<Node>, items: seq<Node>, s: Tree, t: Tree, cur: seq<Tree>, i: nat)
    reads Maps(s), Maps(Branch(cur))
  {
    && s.Branch? && t.Branch? && Unshared(t) && Maps(s) !! Maps(t)
    && Holds(Slice(saved), s) && Holds(Slice(items), Branch(cur)) && PartlyPreserved(s.items, t.items, cur, i)
  }

  method PreserveTurn(saved: seq<Node>, items: seq<Node>, byID: map<string, nat>, i: nat, ghost s: Tree, ghost t: Tree,
                      ghost cur: seq<Tree>)
    returns (ghost next: seq<Tree>)
    requires Walking(saved, items, s, t, cur, i) && i < |items| && Indexes(byID, s.items)
    modifies Maps(t)
    ensures Walking(saved, items, s, t, next, i + 1)
    decreases t, 1
  {
    OneItemMore(s.items, t.items, cur, i);
    MatchHeld(items[i], byID, i, s.items, t.items[i]);
    var j := MatchedItem(items[i], byID, |saved|, i);
    next := cur;
    if j != None {
      PreserveAt(saved, items, j.value, i, s, t, cur);
      next := cur[i := Preserved(s.items[j.value], cur[i])];
    }
  }

  method StartWalk(saved: seq<Node>, items: seq<Node>, ghost s: Tree, ghost t: Tree) returns (byID: map<string, nat>)
    requires Holds(Slice(saved), s) && Holds(Slice(items), t) && Unshared(t) && Maps(s) !! Maps(t)
    ensures Indexes(byID, s.items) && Walking(saved, items, s, t, t.items, 0)
  {
    byID := IndexByID(saved, s, Slice(items), t);
    assert t == Branch(t.items);
  }

  method PreserveSlice(saved: seq<Node>, items: seq<Node>, ghost s: Tree, ghost t: Tree)
    requires Holds(Slice(saved), s) && Holds(Slice(items), t) && Unshared(t) && Maps(s) !! Maps(t)
    modifies Maps(t)
    ensures Holds(Slice(items), Preserved(s, t)) && Holds(Slice(saved), s)
    decreases t, 2
  {
    var byID := StartWalk(saved, items, s, t);
    ghost var cur := t.items;
    for i := 0 to |items|
      invariant Walking(saved, items, s, t, cur, i)
    {
      cur := PreserveTurn(saved, items, byID, i, s, t, cur);
    }
    assert Branch(cur) == Preserved(s, t);
  }

  /** The fields outside todo are preserved. */
  ghost predicate PartlyPreservedFields(s: Tree, t: Tree, cur: map<string, Tree>, todo: set<string>)
    requires s.Dict? && t.Dict?
  {
    var r := PreservedFields(s, t);
    && todo <= s.fields.Keys
    && (forall k :: k in cur <==> if k in todo then k in t.fields else k in r)
    && (forall k :: k in cur ==> cur[k] == if k in todo then t.fields[k] else r[k])
  }

  /** What one turn of the loop over the saved keys does to the fields. */
  ghost function AfterKey(s: Tree, cur: map<string, Tree>, key: string): map<string, Tree>
    requires s.Dict? && key in s.fields
  {
    if IsKept(key) then
      if key !in cur || IsBlank(Value(cur[key])) then cur[key := s.fields[key]] else cur
    else if key in cur then cur[key := Preserved(s.fields[key], cur[key])]
    else cur
  }

  lemma OneKeyLess(s: Tree, t: Tree, cur: map<string, Tree>, todo: set<string>, key: string)
    requires s.Dict? && t.Dict? && PartlyPreservedFields(s, t, cur, todo) && key in todo
    ensures PartlyPreservedFields(s, t, AfterKey(s, cur, key), todo - {key})
  {
  }

  lemma StartFields(s: Tree, t: Tree)
    requires s.Dict? && t.Dict?
    ensures PartlyPreservedFields(s, t, t.fields, s.fields.Keys)
  {
  }

  lemma EndFields(s: Tree, t: Tree, cur: map<string, Tree>)
    requires s.Dict? && t.Dict? && PartlyPreservedFields(s, t, cur, {})
    ensures Dict(t.dict, cur) == Preserved(s, t)
  {
    assert cur == PreservedFields(s, t);
  }

  /** Both objects as they are while the saved keys are walked. */
  ghost predicate WalkingFields(s: Tree, t: Tree, cur: map<string, Tree>, todo: set<string>)
    requires s.Dict? && t.Dict?
    reads Maps(s), Maps(Dict(t.dict, cur))
  {
    && Unshared(t) && Maps(s) !! Maps(t)
    && Holds(Ref(s.dict), s) && Holds(Ref(t.dict), Dict(t.dict, cur)) && PartlyPreservedFields(s, t, cur, todo)
  }

  lemma FieldsKept(s: Tree, t: Tree, cur: map<string, Tree>, todo: set<string>)
    requires s.Dict? && t.Dict? && Unshared(t) && Maps(s) !! Maps(t) && PartlyPreservedFields(s, t, cur, todo)
    ensures var kept := (Maps(s) + Maps(t)) - {t.dict};
            t.dict in Maps(t) && Maps(s) <= kept && forall k :: k in cur ==> Maps(cur[k]) <= kept
  {
    forall k | k in cur ensures t.dict !in Maps(cur[k]) && Maps(cur[k]) <= Maps(s) + Maps(t) {
      FieldMaps(s, t, k);
    }
  }

  /** A preserved field is made of maps of the saved tree and of the incoming field. */
  lemma FieldMaps(s: Tree, t: Tree, k: string)
    requires s.Dict? && t.Dict? && Unshared(t) && Maps(s) !! Maps(t)
    ensures k in t.fields ==> Maps(t.fields[k]) <= Maps(t) - {t.dict}
    ensures k in PreservedFields(s, t) ==>
              Maps(PreservedFields(s, t)[k]) <= Maps(s) + if k in t.fields then Maps(t.fields[k]) else {}
  {
  }

  lemma OtherFieldsKeptPreserving(s: Tree, t: Tree, cur: map<string, Tree>, todo: set<string>, key: string)
    requires s.Dict? && t.Dict? && Unshared(t) && Maps(s) !! Maps(t) && PartlyPreservedFields(s, t, cur, todo)
    requires key in todo && key in t.fields
    ensures OtherFieldsIn(t.dict, cur, key, Rest(s, t, t.fields[key])) && Maps(s) <= Rest(s, t, t.fields[key])
    ensures Maps(t.fields[key]) <= Maps(t) && Unshared(t.fields[key])
  {
    forall k | k in cur && k != key ensures Maps(cur[k]) <= Rest(s, t, t.fields[key]) {
      FieldMaps(s, t, k);
      assert k in t.fields ==> Maps(t.fields[k]) !! Maps(t.fields[key]);
    }
    FieldMaps(s, t, key);
  }

  /** One turn of the loop over the saved keys. */
  method PreserveKey(so: JsonMap, o: JsonMap, key: string, ghost s: Tree, ghost t: Tree, ghost cur: map<string, Tree>,
                     ghost todo: set<string>)
    requires s.Dict? && t.Dict? && s.dict == so && t.dict == o && WalkingFields(s, t, cur, todo) && key in todo
    modifies Maps(t)
    ensures WalkingFields(s, t, AfterKey(s, cur, key), todo - {key})
    decreases t, 1
  {
    OneKeyLess(s, t, cur, todo, key);
    FieldsKept(s, t, cur, todo);
    assert s == Dict(so, s.fields);
    if IsKept(key) {
      if key in cur {
        TextHeld(o.fields[key], cur[key]);
      }
      if key !in o.fields || TrimSpace(NodeText(o.fields[key])) == "" {
        SetField(o, cur, key, so, s.fields, (Maps(s) + Maps(t)) - {o});
      }
    } else if key in o.fields {
      OtherFieldsKeptPreserving(s, t, cur, todo, key);
      PreserveField(o, cur, key, so, s.fields, Rest(s, t, t.fields[key]));
    }
  }

  method PreserveMap(so: JsonMap, o: JsonMap, ghost s: Tree, ghost t: Tree)
    requires Holds(Ref(so), s) && Holds(Ref(o), t) && Unshared(t) && Maps(s) !! Maps(t)
    modifies Maps(t)
    ensures Holds(Ref(o), Preserved(s, t)) && Holds(Ref(so), s)
    decreases t, 2
  {
    ghost var cur := t.fields;
    var todo := so.fields.Keys;
    StartFields(s, t);
    assert t == Dict(o, t.fields);
    while todo != {}
      invariant WalkingFields(s, t, cur, todo)
      decreases |todo|
    {
      var key :| key in todo;
      PreserveKey(so, o, key, s, t, cur, todo);
      cur := AfterKey(s, cur, key);
      todo := todo - {key};
    }
    EndFields(s, t, cur);
  }

  // ---- Read and write back, in place ---------------------------------------------------------------

  lemma {:induction false} HeldLeaves(n: Node, t: Tree)
    requires Holds(n, t)
    ensures ScalarLeaves(t)
    decreases t
  {
    match t
    case Scalar(_) =>
    case Branch(ts) =>
      forall i | 0 <= i < |ts| ensures ScalarLeaves(ts[i]) {
        HeldLeaves(n.items[i], ts[i]);
      }
    case Dict(o, m) =>
      forall k | k in m ensures ScalarLeaves(m[k]) {
        HeldLeaves(o.fields[k], m[k]);
      }
  }

  lemma {:induction false} ScrubbedLeaves(t: Tree)
    requires ScalarLeaves(t)
    ensures ScalarLeaves(Scrubbed(t))
  {
    match t
    case Scalar(_) =>
    case Branch(ts) =>
      forall i | 0 <= i < |ts| ensures ScalarLeaves(Scrubbed(ts[i])) {
        ScrubbedLeaves(ts[i]);
      }
    case Dict(o, m) =>
      forall k | k in m ensures ScalarLeaves(Scrubbed(m[k])) {
        ScrubbedLeaves(m[k]);
      }
  }

  /** A decoded configuration, scrubbed in place and written back against a saved one: it
      holds itself again exactly when its hidden fields are those of the saved objects it is
      matched with. For two copies of one configuration with distinct ids, that is when no
      API key was exposed. */
  method ReadThenWriteBack(saved: Node, copy: Node, ghost s: Tree, ghost t: Tree)
    requires Holds(saved, s) && Holds(copy, t) && Unshared(t) && Maps(s) !! Maps(t)
    modifies Maps(t)
    ensures Holds(copy, Preserved(s, Scrubbed(t)))
    ensures Value(Preserved(s, Scrubbed(t))) == Value(t) <==> Restores(Value(s), Value(t))
    ensures Value(s) == Value(t) && DistinctIDs(Value(s)) ==> (Restores(Value(s), Value(t)) <==> !ExposesApiKey(Value(s)))
  {
    HeldLeaves(saved, s);
    HeldLeaves(copy, t);
    ScrubbedUnshared(t);
    ScrubbedLeaves(t);
    ScrubbedValue(t);
    PreservedValue(s, Scrubbed(t));
    RestoredIff(Value(s), Value(t));
    if Value(s) == Value(t) && DistinctIDs(Value(s)) {
      RestoresItselfIff(Value(s));
    }
    assert allocated(Maps(s));
    ScrubSensitiveAgentConfig(copy, t);
    assert old(Holds(saved, s));
    PreserveSensitiveValues(saved, copy, s, Scrubbed(t));
  }
}
