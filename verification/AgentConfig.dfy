// Hiding an agent's prompts and keys when its configuration is read, and putting
// the hidden values back when the configuration is written.
module AgentConfig {
  import opened Common
  import opened Strings

  datatype Json =
    | Null
    | Bool(b: bool)
    | Number(n: real)
    | String(s: string)
    | List(items: seq<Json>)
    | Object(fields: map<string, Json>)

  // ---- Keys ------------------------------------------------------------------

  function Normalized(key: string): string {
    LowerAscii(Without(key, '_'))
  }

  const KEPT: set<string> := {"systemprompt", "rewriteprompt", "summarizeprompt", "prompt", "instruction"}

  /** The keys whose values an update keeps. */
  predicate IsKept(key: string) {
    Normalized(key) in KEPT
  }

  /** The keys that a read removes: the kept ones, and API keys. */
  predicate IsHidden(key: string) {
    Normalized(key) == "apikey" || IsKept(key)
  }

  function StringValue(v: Json): string {
    if v.String? then v.s else ""
  }

  predicate IsBlank(v: Json) {
    TrimSpace(StringValue(v)) == ""
  }

  lemma BlankIff(v: Json)
    ensures IsBlank(v) <==> !(v.String? && exists k :: 0 <= k < |v.s| && !IsSpace(v.s[k]))
  {
    TrimsToNothingIff(StringValue(v));
  }

  function ItemID(v: Json): string {
    if v.Object? && "id" in v.fields then TrimSpace(StringValue(v.fields["id"])) else ""
  }

  /** Underscores and the case of ASCII letters make no difference to a key. */
  lemma SpellingIrrelevant(a: string, c: char, b: string)
    ensures Normalized(a + "_" + b) == Normalized(a + b)
    ensures 'A' <= c <= 'Z' ==> Normalized(a + [c] + b) == Normalized(a + [(c as int + 32) as char] + b)
  {
    WithoutConcat(a, "_" + b, '_');
    WithoutConcat(a, b, '_');
    assert a + "_" + b == a + ("_" + b);
    if 'A' <= c <= 'Z' {
      var d := (c as int + 32) as char;
      LowerOfThree(a, c, b);
      LowerOfThree(a, d, b);
    }
  }

  lemma LowerOfThree(a: string, c: char, b: string)
    requires c != '_'
    ensures Normalized(a + [c] + b) == Normalized(a) + [LowerChar(c)] + Normalized(b)
  {
    assert a + [c] + b == a + ([c] + b);
    assert ([c] + b)[1..] == b;
    WithoutConcat(a, [c] + b, '_');
    LowerConcat(Without(a, '_'), [c] + Without(b, '_'));
    assert ([c] + Without(b, '_'))[1..] == Without(b, '_');
  }

  lemma {:induction false} WithoutConcat(a: string, b: string, c: char)
    ensures Without(a + b, c) == Without(a, c) + Without(b, c)
  {
    if a == "" {
      assert a + b == b;
    } else {
      assert (a + b)[1..] == a[1..] + b;
      WithoutConcat(a[1..], b, c);
    }
  }

  lemma {:induction false} LowerConcat(a: string, b: string)
    ensures LowerAscii(a + b) == LowerAscii(a) + LowerAscii(b)
  {
    if a == "" {
      assert a + b == b;
    } else {
      assert (a + b)[1..] == a[1..] + b;
      LowerConcat(a[1..], b);
    }
  }

  predicate LowerLetters(key: string) {
    forall k :: 0 <= k < |key| ==> 'a' <= key[k] <= 'z'
  }

  lemma {:induction false} LowerIsNormal(key: string)
    requires LowerLetters(key)
    ensures Normalized(key) == key
  {
    if key != "" {
      LowerIsNormal(key[1..]);
      assert Without(key, '_') == [key[0]] + Without(key[1..], '_');
      assert Without(key, '_')[1..] == Without(key[1..], '_');
    }
  }

  /** Among the names in lower-case letters these are kept on an update, and these hidden on a read. */
  lemma KeptNames(key: string)
    requires LowerLetters(key)
    ensures IsKept(key) <==> key in ["systemprompt", "rewriteprompt", "summarizeprompt", "prompt", "instruction"]
    ensures IsHidden(key) <==> IsKept(key) || key == "apikey"
  {
    LowerIsNormal(key);
  }

  lemma IdIsVisible()
    ensures !IsHidden("id")
  {
    assert Without("id", '_') == "id";
    assert LowerAscii("id") == "id";
  }

  // ---- Scrub -----------------------------------------------------------------

  function Scrub(v: Json): Json {
    match v
    case Object(m) => Object(map k | k in m && !IsHidden(k) :: Scrub(m[k]))
    case List(s) => List(seq(|s|, i requires 0 <= i < |s| => Scrub(s[i])))
    case _ => v
  }

  // ---- Preserve --------------------------------------------------------------

  /** The last item of s that carries the id. */
  function LastWithID(s: seq<Json>, id: string): (r: Option<nat>)
    ensures r.Some? ==> r.value < |s| && ItemID(s[r.value]) == id
  {
    if s == [] then None
    else if ItemID(s[|s| - 1]) == id then Some(|s| - 1)
    else LastWithID(s[..|s| - 1], id)
  }

  /** The saved item that an incoming item at position i is matched with. */
  function Match(saved: seq<Json>, item: Json, i: nat): (r: Option<nat>)
    ensures r.Some? ==> r.value < |saved|
  {
    if ItemID(item) != "" && LastWithID(saved, ItemID(item)).Some? then LastWithID(saved, ItemID(item))
    else if i < |saved| then Some(i)
    else None
  }

  function Preserve(saved: Json, v: Json): Json
    decreases v, 1
  {
    if saved.Object? && v.Object? then Object(PreserveFields(saved.fields, v))
    else if saved.List? && v.List? then List(PreserveItems(saved.items, v))
    else v
  }

  function PreserveFields(e: map<string, Json>, v: Json): map<string, Json>
    requires v.Object?
    decreases v, 0
  {
    map k | k in v.fields.Keys + e.Keys && (k in v.fields || IsKept(k)) ::
      if k in e && IsKept(k) then
        if k in v.fields && !IsBlank(v.fields[k]) then v.fields[k] else e[k]
      else if k in e then Preserve(e[k], v.fields[k])
      else v.fields[k]
  }

  function PreserveItems(saved: seq<Json>, v: Json): (r: seq<Json>)
    requires v.List?
    ensures |r| == |v.items|
    decreases v, 0
  {
    seq(|v.items|, i requires 0 <= i < |v.items| => PreserveItem(saved, v.items[i], i))
  }

  function PreserveItem(saved: seq<Json>, item: Json, i: nat): Json
    decreases item, 2
  {
    var j := Match(saved, item, i);
    if j.Some? then Preserve(saved[j.value], item) else item
  }

  lemma LastWithIDIsLast(s: seq<Json>, id: string, k: nat)
    requires k < |s| && ItemID(s[k]) == id
    requires forall j :: k < j < |s| ==> ItemID(s[j]) != id
    ensures LastWithID(s, id) == Some(k)
  {
    if k < |s| - 1 {
      LastWithIDIsLast(s[..|s| - 1], id, k);
    }
  }

  /** The field k of the preserved object, None if it has none. */
  function FieldAfter(e: map<string, Json>, v: Json, k: string): Option<Json>
    requires v.Object?
  {
    var r := PreserveFields(e, v);
    if k in r then Some(r[k]) else None
  }

  function FieldOf(m: map<string, Json>, k: string): Option<Json> {
    if k in m then Some(m[k]) else None
  }

  lemma UnsavedField(e: map<string, Json>, v: Json, k: string)
    requires v.Object? && k !in e
    ensures FieldAfter(e, v, k) == FieldOf(v.fields, k)
  {
  }

  lemma KeptField(e: map<string, Json>, v: Json, k: string)
    requires v.Object? && k in e && IsKept(k)
    ensures FieldAfter(e, v, k) == Some(if k in v.fields && !IsBlank(v.fields[k]) then v.fields[k] else e[k])
  {
  }

  lemma OpenField(e: map<string, Json>, v: Json, k: string)
    requires v.Object? && k in e && !IsKept(k)
    ensures FieldAfter(e, v, k) == if k in v.fields then Some(Preserve(e[k], v.fields[k])) else None
  {
  }

  lemma SameFields(fields: map<string, Json>, e: map<string, Json>, v: Json)
    requires v.Object? && forall k :: FieldOf(fields, k) == FieldAfter(e, v, k)
    ensures fields == PreserveFields(e, v)
  {
    var r := PreserveFields(e, v);
    forall k ensures k in fields <==> k in r
      ensures k in r ==> fields[k] == r[k]
    {
      assert FieldOf(fields, k) == FieldAfter(e, v, k);
    }
  }

  // ---- Read, then write back ---------------------------------------------------

  /** No list, outside of kept values, holds two items with one non-empty id. */
  ghost predicate DistinctIDs(v: Json) {
    match v
    case Object(m) => forall k :: k in m && !IsHidden(k) ==> DistinctIDs(m[k])
    case List(s) =>
      && (forall i, j :: 0 <= i < j < |s| && ItemID(s[i]) != "" ==> ItemID(s[i]) != ItemID(s[j]))
      && (forall i :: 0 <= i < |s| ==> DistinctIDs(s[i]))
    case _ => true
  }

  /** Some API key lies outside of kept values, where reading removes it for good. */
  ghost predicate ExposesApiKey(v: Json) {
    match v
    case Object(m) => exists k :: k in m && !IsKept(k) && (IsHidden(k) || ExposesApiKey(m[k]))
    case List(s) => exists i :: 0 <= i < |s| && ExposesApiKey(s[i])
    case _ => false
  }

  lemma ScrubKeepsID(v: Json)
    ensures ItemID(Scrub(v)) == ItemID(v)
  {
    IdIsVisible();
  }

  /** With distinct ids every scrubbed item is matched with its own original. */
  lemma MatchesItself(s: seq<Json>, i: nat)
    requires DistinctIDs(List(s)) && i < |s|
    ensures Match(s, Scrub(s[i]), i) == Some(i)
  {
    ScrubKeepsID(s[i]);
    var id := ItemID(s[i]);
    if id != "" {
      forall j | i < j < |s| ensures ItemID(s[j]) != id { assert ItemID(s[i]) != ItemID(s[j]); }
      LastWithIDIsLast(s, id, i);
    }
  }

  /** What a field becomes when it is read and written back. */
  lemma FieldReadBack(m: map<string, Json>, k: string)
    ensures var r := PreserveFields(m, Scrub(Object(m)));
            && (k in r <==> k in m && (IsKept(k) || !IsHidden(k)))
            && (k in r && IsKept(k) ==> r[k] == m[k])
            && (k in r && !IsKept(k) ==> r[k] == Preserve(m[k], Scrub(m[k])))
  {
    var hidden := IsHidden(k);
    var kept := IsKept(k);
    assert kept ==> hidden;
    var t := Scrub(Object(m)).fields;
    assert k in t <==> k in m && !hidden;
  }

  ghost predicate FieldExposes(m: map<string, Json>, k: string) {
    k in m && !IsKept(k) && (IsHidden(k) || ExposesApiKey(m[k]))
  }

  lemma FieldComesBack(m: map<string, Json>, k: string)
    requires k in m && !IsHidden(k) ==> (Preserve(m[k], Scrub(m[k])) == m[k] <==> !ExposesApiKey(m[k]))
    ensures var r := PreserveFields(m, Scrub(Object(m)));
            && (k !in m ==> k !in r)
            && (k in m ==> ((k in r && r[k] == m[k]) <==> !FieldExposes(m, k)))
  {
    FieldReadBack(m, k);
  }

  /** Fields come back one by one: a field is lost exactly when it is an API key. */
  lemma FieldsReadBack(m: map<string, Json>)
    requires forall k :: k in m && !IsHidden(k) ==> (Preserve(m[k], Scrub(m[k])) == m[k] <==> !ExposesApiKey(m[k]))
    ensures PreserveFields(m, Scrub(Object(m))) == m <==> !ExposesApiKey(Object(m))
  {
    var r := PreserveFields(m, Scrub(Object(m)));
    forall k
      ensures k !in m ==> k !in r
      ensures k in m ==> ((k in r && r[k] == m[k]) <==> !FieldExposes(m, k))
    {
      FieldComesBack(m, k);
    }
    SameExactlyIfNoneExposes(m, r);
    ExposedByAField(m);
  }

  lemma SameExactlyIfNoneExposes(m: map<string, Json>, r: map<string, Json>)
    requires forall k :: k !in m ==> k !in r
    requires forall k :: k in m ==> ((k in r && r[k] == m[k]) <==> !FieldExposes(m, k))
    ensures r == m <==> forall k :: k in m ==> !FieldExposes(m, k)
  {
  }

  lemma ExposedByAField(m: map<string, Json>)
    ensures ExposesApiKey(Object(m)) <==> exists k :: k in m && FieldExposes(m, k)
  {
    if ExposesApiKey(Object(m)) {
      var k :| k in m && !IsKept(k) && (IsHidden(k) || ExposesApiKey(m[k]));
      assert FieldExposes(m, k);
    }
  }

  lemma ItemReadBack(s: seq<Json>, i: nat)
    requires DistinctIDs(List(s)) && i < |s|
    ensures PreserveItems(s, Scrub(List(s)))[i] == Preserve(s[i], Scrub(s[i]))
  {
    var t := Scrub(List(s));
    MatchesItself(s, i);
    assert PreserveItems(s, t)[i] == PreserveItem(s, t.items[i], i);
  }

  lemma ItemsReadBack(s: seq<Json>, r: seq<Json>)
    requires |r| == |s| && forall i :: 0 <= i < |s| ==> (r[i] == s[i] <==> !ExposesApiKey(s[i]))
    ensures r == s <==> !ExposesApiKey(List(s))
  {
    if forall i :: 0 <= i < |s| ==> r[i] == s[i] {
      assert r == s;
    }
  }

  /** Writing back what was read restores everything, exactly when no API key was exposed. */
  lemma {:induction false} ReadThenWriteBack(v: Json)
    requires DistinctIDs(v)
    ensures Preserve(v, Scrub(v)) == v <==> !ExposesApiKey(v)
    decreases v
  {
    match v
    case Object(m) =>
      forall k | k in m && !IsHidden(k)
        ensures Preserve(m[k], Scrub(m[k])) == m[k] <==> !ExposesApiKey(m[k])
      {
        ReadThenWriteBack(m[k]);
      }
      FieldsReadBack(m);
    case List(s) =>
      var r := PreserveItems(s, Scrub(v));
      forall i | 0 <= i < |s|
        ensures r[i] == s[i] <==> !ExposesApiKey(s[i])
      {
        ItemReadBack(s, i);
        ReadThenWriteBack(s[i]);
      }
      ItemsReadBack(s, r);
    case _ =>
  }

  // Whatever the ids are: what a write puts back is that of the saved item an item is matched with.

  /** No key at any level that reading removes. */
  ghost predicate NothingHidden(v: Json) {
    match v
    case Object(m) => forall k :: k in m ==> !IsHidden(k) && NothingHidden(m[k])
    case List(s) => forall i :: 0 <= i < |s| ==> NothingHidden(s[i])
    case _ => true
  }

  /** A read shows nothing hidden, at any level. */
  lemma {:induction false} ScrubHidesAll(v: Json)
    ensures NothingHidden(Scrub(v))
  {
    match v
    case Object(m) =>
      forall k | k in m ensures NothingHidden(Scrub(m[k])) { ScrubHidesAll(m[k]); }
    case List(s) =>
      forall i | 0 <= i < |s| ensures NothingHidden(Scrub(s[i])) { ScrubHidesAll(s[i]); }
    case _ =>
  }

  lemma {:induction false} NothingHiddenIff(v: Json)
    ensures Scrub(v) == v <==> NothingHidden(v)
  {
    match v
    case Object(m) =>
      var t := Scrub(v).fields;
      forall k | k in m ensures (k in t && t[k] == m[k]) <==> !IsHidden(k) && NothingHidden(m[k]) {
        NothingHiddenIff(m[k]);
      }
      assert t == m <==> forall k :: k in m ==> k in t && t[k] == m[k];
    case List(s) =>
      var t := Scrub(v).items;
      forall i | 0 <= i < |s| ensures t[i] == s[i] <==> NothingHidden(s[i]) {
        NothingHiddenIff(s[i]);
      }
      assert t == s <==> forall i :: 0 <= i < |s| ==> t[i] == s[i];
    case _ =>
  }

  /** The hidden fields of v, at every level, are those of the saved value it is matched with:
      the kept fields are the same, there is no API key, and what is matched with nothing
      hides nothing. */
  ghost predicate Restores(saved: Json, v: Json)
    decreases v, 0
  {
    match v
    case Object(m) =>
      if saved.Object? then
        && (forall k :: k in m && IsHidden(k) ==> IsKept(k))
        && (forall k :: IsKept(k) ==> FieldOf(m, k) == FieldOf(saved.fields, k))
        && (forall k :: k in m && !IsHidden(k) ==>
              if k in saved.fields then Restores(saved.fields[k], m[k]) else NothingHidden(m[k]))
      else NothingHidden(v)
    case List(s) =>
      if saved.List? then forall i :: 0 <= i < |s| ==> ItemRestores(saved.items, s[i], i) else NothingHidden(v)
    case _ => true
  }

  /** The item's hidden fields are those of the saved item that it is matched with. */
  ghost predicate ItemRestores(saved: seq<Json>, item: Json, i: nat)
    decreases item, 1
  {
    var j := Match(saved, item, i);
    if j.Some? then Restores(saved[j.value], item) else NothingHidden(item)
  }

  /** What Restores says of one field. */
  ghost predicate FieldRestores(e: map<string, Json>, m: map<string, Json>, k: string) {
    if IsKept(k) then FieldOf(m, k) == FieldOf(e, k)
    else k in m ==> !IsHidden(k) && if k in e then Restores(e[k], m[k]) else NothingHidden(m[k])
  }

  lemma RestoresFields(e: map<string, Json>, m: map<string, Json>)
    ensures Restores(Object(e), Object(m)) <==> forall k :: FieldRestores(e, m, k)
  {
    assert forall k :: IsKept(k) ==> IsHidden(k);
    if forall k :: FieldRestores(e, m, k) {
      forall k | k in m ensures IsHidden(k) ==> IsKept(k)
        ensures !IsHidden(k) ==> if k in e then Restores(e[k], m[k]) else NothingHidden(m[k])
      {
        assert FieldRestores(e, m, k);
      }
      forall k | IsKept(k) ensures FieldOf(m, k) == FieldOf(e, k) {
        assert FieldRestores(e, m, k);
      }
    }
  }

  lemma FieldRestored(e: map<string, Json>, m: map<string, Json>, k: string)
    requires k in m && k in e ==> (Preserve(e[k], Scrub(m[k])) == m[k] <==> Restores(e[k], m[k]))
    ensures FieldAfter(e, Scrub(Object(m)), k) == FieldOf(m, k) <==> FieldRestores(e, m, k)
  {
    var t := Scrub(Object(m));
    assert IsKept(k) ==> IsHidden(k);
    if k !in e {
      UnsavedField(e, t, k);
      if k in m {
        NothingHiddenIff(m[k]);
      }
    } else if IsKept(k) {
      KeptField(e, t, k);
    } else {
      OpenField(e, t, k);
    }
  }

  lemma FieldsRestored(e: map<string, Json>, m: map<string, Json>)
    requires forall k :: k in m && k in e ==> (Preserve(e[k], Scrub(m[k])) == m[k] <==> Restores(e[k], m[k]))
    ensures PreserveFields(e, Scrub(Object(m))) == m <==> forall k :: FieldRestores(e, m, k)
  {
    var t := Scrub(Object(m));
    if forall k :: FieldRestores(e, m, k) {
      forall k ensures FieldOf(m, k) == FieldAfter(e, t, k) {
        assert FieldRestores(e, m, k);
        FieldRestored(e, m, k);
      }
      SameFields(m, e, t);
    }
    if PreserveFields(e, t) == m {
      forall k ensures FieldRestores(e, m, k) {
        assert FieldAfter(e, t, k) == FieldOf(m, k);
        FieldRestored(e, m, k);
      }
    }
  }

  lemma ItemRestored(saved: seq<Json>, item: Json, i: nat)
    requires var j := Match(saved, item, i);
             j.Some? ==> (Preserve(saved[j.value], Scrub(item)) == item <==> Restores(saved[j.value], item))
    ensures PreserveItem(saved, Scrub(item), i) == item <==> ItemRestores(saved, item, i)
  {
    ScrubKeepsID(item);
    NothingHiddenIff(item);
  }

  lemma ItemsRestored(saved: seq<Json>, s: seq<Json>)
    requires forall i :: 0 <= i < |s| ==> (PreserveItem(saved, Scrub(s[i]), i) == s[i] <==> ItemRestores(saved, s[i], i))
    ensures PreserveItems(saved, Scrub(List(s))) == s <==> forall i :: 0 <= i < |s| ==> ItemRestores(saved, s[i], i)
  {
    var t := Scrub(List(s));
    var r := PreserveItems(saved, t);
    forall i | 0 <= i < |s| ensures r[i] == s[i] <==> ItemRestores(saved, s[i], i) {
      assert t.items[i] == Scrub(s[i]);
    }
    assert r == s <==> forall i :: 0 <= i < |s| ==> r[i] == s[i];
  }

  lemma ObjectRestored(e: map<string, Json>, m: map<string, Json>)
    requires forall k :: k in m && k in e ==> (Preserve(e[k], Scrub(m[k])) == m[k] <==> Restores(e[k], m[k]))
    ensures Preserve(Object(e), Scrub(Object(m))) == Object(m) <==> Restores(Object(e), Object(m))
  {
    FieldsRestored(e, m);
    RestoresFields(e, m);
  }

  lemma ListRestored(saved: seq<Json>, s: seq<Json>)
    requires forall i :: 0 <= i < |s| ==> (PreserveItem(saved, Scrub(s[i]), i) == s[i] <==> ItemRestores(saved, s[i], i))
    ensures Preserve(List(saved), Scrub(List(s))) == List(s) <==> Restores(List(saved), List(s))
  {
    ItemsRestored(saved, s);
    RestoresItems(saved, s);
    assert Preserve(List(saved), Scrub(List(s))) == List(PreserveItems(saved, Scrub(List(s))));
  }

  lemma RestoresItems(saved: seq<Json>, s: seq<Json>)
    ensures Restores(List(saved), List(s)) <==> forall i :: 0 <= i < |s| ==> ItemRestores(saved, s[i], i)
  {
  }

  lemma OtherRestored(saved: Json, v: Json)
    requires !(saved.Object? && v.Object?) && !(saved.List? && v.List?)
    ensures Preserve(saved, Scrub(v)) == v <==> Restores(saved, v)
  {
    NothingHiddenIff(v);
  }

  /** For all values: what was read of v, written over a saved value, gives v exactly when
      every hidden field of v is that of the saved object it is matched with. */
  lemma {:induction false} RestoredIff(saved: Json, v: Json)
    ensures Preserve(saved, Scrub(v)) == v <==> Restores(saved, v)
    decreases v
  {
    if saved.Object? && v.Object? {
      var e, m := saved.fields, v.fields;
      forall k | k in m && k in e ensures Preserve(e[k], Scrub(m[k])) == m[k] <==> Restores(e[k], m[k]) {
        RestoredIff(e[k], m[k]);
      }
      ObjectRestored(e, m);
    } else if saved.List? && v.List? {
      var s := v.items;
      forall i | 0 <= i < |s| ensures PreserveItem(saved.items, Scrub(s[i]), i) == s[i] <==> ItemRestores(saved.items, s[i], i) {
        var j := Match(saved.items, s[i], i);
        if j.Some? {
          RestoredIff(saved.items[j.value], s[i]);
        }
        ItemRestored(saved.items, s[i], i);
      }
      ListRestored(saved.items, s);
    } else {
      OtherRestored(saved, v);
    }
  }

  /** The condition for a value written back over itself: when ids are distinct, no API key. */
  lemma RestoresItselfIff(v: Json)
    requires DistinctIDs(v)
    ensures Restores(v, v) <==> !ExposesApiKey(v)
  {
    RestoredIff(v, v);
    ReadThenWriteBack(v);
  }

  function Agent(prompt: string): Json {
    Object(map["id" := String("a"), "prompt" := String(prompt)])
  }

  /** What a read shows of such an agent. */
  function Hidden(): Json {
    Object(map["id" := String("a")])
  }

  lemma AgentReadBack(prompt: string)
    ensures Scrub(Agent(prompt)) == Hidden()
    ensures Preserve(Agent(prompt), Hidden()) == Agent(prompt)
  {
    var m := Agent(prompt).fields;
    assert forall k :: k in m <==> k == "id" || k == "prompt";
    assert !IsHidden("id") && IsHidden("prompt") && IsKept("prompt") by {
      IdIsVisible();
      PromptIsKept();
    }
    TwoFields(m, "id", "prompt");
    assert Hidden().fields == map["id" := m["id"]];
  }

  /** An object of one visible and one kept plain field, read and written back. */
  lemma TwoFields(m: map<string, Json>, visible: string, kept: string)
    requires m.Keys == {visible, kept} && !IsHidden(visible) && IsKept(kept) && m[visible].String?
    ensures Scrub(Object(m)) == Object(map[visible := m[visible]])
    ensures Preserve(Object(m), Object(map[visible := m[visible]])) == Object(m)
  {
    var t := map[visible := m[visible]];
    var v := Object(t);
    assert Scrub(Object(m)).fields == t;
    forall k ensures FieldOf(m, k) == FieldAfter(m, v, k) {
      if k == kept {
        KeptField(m, v, k);
      } else if k == visible {
        OpenField(m, v, k);
      } else {
        UnsavedField(m, v, k);
      }
    }
    SameFields(m, m, v);
  }

  lemma AgentID(v: Json)
    requires v.Object? && "id" in v.fields && v.fields["id"] == String("a")
    ensures ItemID(v) == "a"
  {
    assert TrimSpace("a") == "a";
  }

  /** Every item of that id is matched with the last saved one. */
  lemma MatchedWithLast(s: seq<Json>, item: Json, i: nat)
    requires |s| == 2 && ItemID(s[1]) == "a" && ItemID(item) == "a"
    ensures Match(s, item, i) == Some(1)
  {
    LastWithIDIsLast(s, "a", 1);
  }

  /** Two items with one id: the first gets the second one's prompt. */
  lemma DuplicateIDsMixSecrets(p: string, q: string)
    ensures var v := List([Agent(p), Agent(q)]);
            Preserve(v, Scrub(v)) == List([Agent(q), Agent(q)])
  {
    AgentReadBack(p);
    AgentReadBack(q);
    AgentID(Hidden());
    AgentID(Agent(q));
    PairReadBack([Agent(p), Agent(q)], Hidden());
  }

  lemma PairReadBack(s: seq<Json>, shown: Json)
    requires |s| == 2 && ItemID(s[1]) == "a" && ItemID(shown) == "a"
    requires Scrub(s[0]) == Scrub(s[1]) == shown && Preserve(s[1], shown) == s[1]
    ensures Preserve(List(s), Scrub(List(s))) == List([s[1], s[1]])
  {
    var t := Scrub(List(s));
    assert t.items == [shown, shown];
    forall i | 0 <= i < 2 ensures PreserveItem(s, shown, i) == s[1] {
      MatchedWithLast(s, shown, i);
    }
    assert PreserveItems(s, t) == [s[1], s[1]];
  }

  lemma PromptIsKept()
    ensures IsKept("prompt")
  {
    assert Without("prompt", '_') == "prompt";
    assert LowerAscii("prompt") == "prompt";
  }

  // ---- What an update can change -------------------------------------------------

  lemma PreserveKeepsText(saved: Json, v: Json)
    ensures StringValue(Preserve(saved, v)) == StringValue(v)
  {
  }

  lemma PreserveKeepsID(saved: Json, v: Json)
    ensures ItemID(Preserve(saved, v)) == ItemID(v)
  {
    IdIsVisible();
    if saved.Object? && v.Object? && "id" in v.fields && "id" in saved.fields {
      PreserveKeepsText(saved.fields["id"], v.fields["id"]);
    }
  }

  /** Nothing visible changes: reading the result shows what reading the update shows. */
  lemma {:induction false} OnlySecretsChange(saved: Json, v: Json)
    ensures Scrub(Preserve(saved, v)) == Scrub(v)
    decreases v
  {
    match v
    case Object(m) =>
      if saved.Object? {
        var r := PreserveFields(saved.fields, v);
        forall k | k in m && !IsHidden(k)
          ensures Scrub(r[k]) == Scrub(m[k])
        {
          if k in saved.fields {
            OnlySecretsChange(saved.fields[k], m[k]);
          }
        }
        assert Scrub(Object(r)).fields == Scrub(v).fields;
      }
    case List(s) =>
      if saved.List? {
        var r := PreserveItems(saved.items, v);
        forall i | 0 <= i < |s|
          ensures Scrub(r[i]) == Scrub(s[i])
        {
          assert r[i] == PreserveItem(saved.items, s[i], i);
          var k := Match(saved.items, s[i], i);
          if k.Some? {
            OnlySecretsChange(saved.items[k.value], s[i]);
          }
        }
        assert Scrub(List(r)).items == Scrub(v).items;
      }
    case _ =>
  }

  /** The value of a kept key after an update: the new one exactly if it is a text with some
      character that is not white space, or is the saved one anyway; else the saved one, as
      when the update has no such key. */
  lemma KeptFieldIff(e: map<string, Json>, v: Json, k: string)
    requires v.Object? && k in e && IsKept(k)
    ensures var r := Preserve(Object(e), v);
            && r.Object? && k in r.fields
            && if k !in v.fields then r.fields[k] == e[k]
               else
                 && (r.fields[k] == v.fields[k] || r.fields[k] == e[k])
                 && (r.fields[k] == v.fields[k] <==>
                       || v.fields[k] == e[k]
                       || (v.fields[k].String? && exists i :: 0 <= i < |v.fields[k].s| && !IsSpace(v.fields[k].s[i])))
  {
    if k in v.fields {
      BlankIff(v.fields[k]);
    }
  }

  /** Every kept text of v that is not all white space stands unchanged at the same place in r. */
  ghost predicate KeepsStrings(v: Json, r: Json) {
    match v
    case Object(m) =>
      r.Object? && forall k :: k in m ==>
        k in r.fields
        && if IsKept(k) then (m[k].String? && exists i :: 0 <= i < |m[k].s| && !IsSpace(m[k].s[i])) ==> r.fields[k] == m[k]
           else KeepsStrings(m[k], r.fields[k])
    case List(s) =>
      r.List? && |r.items| == |s| && forall i :: 0 <= i < |s| ==> KeepsStrings(s[i], r.items[i])
    case _ => r == v
  }

  lemma {:induction false} KeepsItself(v: Json)
    ensures KeepsStrings(v, v)
  {
    match v
    case Object(m) =>
      forall k | k in m ensures KeepsStrings(m[k], m[k]) { KeepsItself(m[k]); }
    case List(s) =>
      forall i | 0 <= i < |s| ensures KeepsStrings(s[i], s[i]) { KeepsItself(s[i]); }
    case _ =>
  }

  /** A prompt that the update spells out is never overwritten by a saved one. */
  lemma {:induction false} NewStringsSurvive(saved: Json, v: Json)
    ensures KeepsStrings(v, Preserve(saved, v))
    decreases v
  {
    KeepsItself(v);
    if saved.Object? && v.Object? {
      var e, m := saved.fields, v.fields;
      var r := PreserveFields(e, v);
      forall k | k in m && !IsKept(k)
        ensures KeepsStrings(m[k], r[k])
      {
        if k in e {
          NewStringsSurvive(e[k], m[k]);
        }
      }
      forall k | k in m && IsKept(k) && m[k].String? && exists i :: 0 <= i < |m[k].s| && !IsSpace(m[k].s[i])
        ensures r[k] == m[k]
      {
        BlankIff(m[k]);
      }
    } else if saved.List? && v.List? {
      var r := PreserveItems(saved.items, v);
      forall i | 0 <= i < |r|
        ensures KeepsStrings(v.items[i], r[i])
      {
        assert r[i] == PreserveItem(saved.items, v.items[i], i);
        var j := Match(saved.items, v.items[i], i);
        if j.Some? {
          NewStringsSurvive(saved.items[j.value], v.items[i]);
        }
      }
    }
  }

  /** Preserving twice is preserving once. */
  lemma {:induction false} PreserveIdempotent(saved: Json, v: Json)
    ensures Preserve(saved, Preserve(saved, v)) == Preserve(saved, v)
    decreases v
  {
    match v
    case Object(m) =>
      if saved.Object? {
        var e := saved.fields;
        var r := PreserveFields(e, v);
        forall k | k in m && k in e && !IsKept(k)
          ensures Preserve(e[k], r[k]) == r[k]
        {
          PreserveIdempotent(e[k], m[k]);
        }
        assert PreserveFields(e, Object(r)) == r;
      }
    case List(s) =>
      if saved.List? {
        var r := PreserveItems(saved.items, v);
        forall i | 0 <= i < |s|
          ensures PreserveItem(saved.items, r[i], i) == r[i]
        {
          assert r[i] == PreserveItem(saved.items, s[i], i);
          var k := Match(saved.items, s[i], i);
          if k.Some? {
            PreserveKeepsID(saved.items[k.value], s[i]);
            PreserveIdempotent(saved.items[k.value], s[i]);
          }
        }
        assert PreserveItems(saved.items, List(r)) == r;
      }
    case _ =>
  }
}
