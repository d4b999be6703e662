// Usage figures of a user's models: recorded metrics are attributed to the listed
// models by id or by unambiguous name, summed, and written into the list.
module ModelUsage {
  import opened Common
  import opened Strings

  datatype Tokens = Tokens(input: int, output: int, total: int)

  datatype Latency = Latency(totalMs: int, count: int)

  /** The figures of one metric, or the sum of several. */
  datatype Usage = Usage(requests: int, successes: int, tokens: Tokens, latency: Latency)

  function Plus(a: Usage, b: Usage): Usage {
    Usage(a.requests + b.requests, a.successes + b.successes,
          Tokens(a.tokens.input + b.tokens.input, a.tokens.output + b.tokens.output, a.tokens.total + b.tokens.total),
          Latency(a.latency.totalMs + b.latency.totalMs, a.latency.count + b.latency.count))
  }

  /** Sums of no figures are None. */
  function Join(a: Option<Usage>, b: Option<Usage>): Option<Usage> {
    if a.None? then b else if b.None? then a else Some(Plus(a.value, b.value))
  }

  function Requests(u: Option<Usage>): int {
    if u.None? then 0 else u.value.requests
  }

  datatype Metric = Metric(userID: string, modelID: string, modelName: string, usage: Usage)

  /** A rate as the exact quotient that the source rounds. */
  datatype Rate = Zero | Rate(part: int, whole: int)

  class Item {
    const ulid: string
    const name: string
    const createdBy: string
    var usageCount: int
    var inputTokens: int
    var outputTokens: int
    var totalTokens: int
    var usageRate: Rate
    var successRate: Rate
    var latency: Option<Rate>

    constructor (ulid: string, name: string, createdBy: string)
      ensures this.ulid == ulid && this.name == name && this.createdBy == createdBy
      ensures usageCount == inputTokens == outputTokens == totalTokens == 0
      ensures usageRate == Zero && successRate == Zero && latency == None
    {
      this.ulid, this.name, this.createdBy := ulid, name, createdBy;
      usageCount, inputTokens, outputTokens, totalTokens := 0, 0, 0, 0;
      usageRate, successRate, latency := Zero, Zero, None;
    }
  }

  /** The lookup key of a user's model, made from trimmed, lower-cased text. Everything
      here holds for any way to make it. */
  type Key = (string, string) -> string

  // ---- Attribution -----------------------------------------------------------------------

  predicate HasID(items: seq<Item?>, key: Key, i: nat, k: string)
    requires i < |items|
  {
    items[i] != null && key(items[i].createdBy, items[i].ulid) == k
  }

  predicate HasName(items: seq<Item?>, key: Key, i: nat, k: string)
    requires i < |items|
  {
    items[i] != null && key(items[i].createdBy, items[i].name) == k
  }

  /** The last of the first n items with this id key. */
  function ByID(items: seq<Item?>, key: Key, n: nat, k: string): (r: Option<nat>)
    requires n <= |items|
    ensures r.Some? ==> r.value < n && HasID(items, key, r.value, k)
    ensures r.None? ==> forall i :: 0 <= i < n ==> !HasID(items, key, i, k)
  {
    if n == 0 then None
    else if HasID(items, key, n - 1, k) then Some(n - 1)
    else ByID(items, key, n - 1, k)
  }

  /** The first of the first n items with this name key. */
  function ByName(items: seq<Item?>, key: Key, n: nat, k: string): (r: Option<nat>)
    requires n <= |items|
    ensures r.Some? ==> r.value < n && HasName(items, key, r.value, k)
    ensures r.None? ==> forall i :: 0 <= i < n ==> !HasName(items, key, i, k)
  {
    if n == 0 then None
    else if ByName(items, key, n - 1, k).Some? then ByName(items, key, n - 1, k)
    else if HasName(items, key, n - 1, k) then Some(n - 1)
    else None
  }

  /** At least two of the first n items have this name key. */
  function IsDuplicate(items: seq<Item?>, key: Key, n: nat, k: string): bool
    requires n <= |items|
  {
    n > 0 && (IsDuplicate(items, key, n - 1, k) || (HasName(items, key, n - 1, k) && ByName(items, key, n - 1, k).Some?))
  }

  /** The item a metric counts for: by id if it names a listed one, else by a name that only one item has. */
  function Attributed(items: seq<Item?>, key: Key, m: Metric): (r: Option<nat>)
    ensures r.Some? ==> r.value < |items| && items[r.value] != null
  {
    var byID := if TrimSpace(m.modelID) != "" then ByID(items, key, |items|, key(m.userID, m.modelID)) else None;
    if byID.Some? then byID
    else if TrimSpace(m.modelName) == "" then None
    else
      var k := key(m.userID, m.modelName);
      if IsDuplicate(items, key, |items|, k) then None else ByName(items, key, |items|, k)
  }

  lemma {:induction false} DuplicateIff(items: seq<Item?>, key: Key, n: nat, k: string)
    requires n <= |items|
    ensures IsDuplicate(items, key, n, k) <==>
      exists i, j :: 0 <= i < j < n && HasName(items, key, i, k) && HasName(items, key, j, k)
  {
    if n > 0 {
      DuplicateIff(items, key, n - 1, k);
      if ByName(items, key, n - 1, k).Some? {
        var i := ByName(items, key, n - 1, k).value;
        assert HasName(items, key, i, k);
      }
    }
  }

  /** A metric without a listed id counts for nothing when two items share its name. */
  lemma AmbiguousNameGetsNothing(items: seq<Item?>, key: Key, m: Metric, i: nat, j: nat)
    requires i < j < |items|
    requires HasName(items, key, i, key(m.userID, m.modelName)) && HasName(items, key, j, key(m.userID, m.modelName))
    requires TrimSpace(m.modelID) == "" || ByID(items, key, |items|, key(m.userID, m.modelID)) == None
    ensures Attributed(items, key, m) == None
  {
    DuplicateIff(items, key, |items|, key(m.userID, m.modelName));
  }

  lemma {:induction false} ByIDIsLast(items: seq<Item?>, key: Key, n: nat, k: string, i: nat)
    requires i < n <= |items| && HasID(items, key, i, k) && forall j :: i < j < n ==> !HasID(items, key, j, k)
    ensures ByID(items, key, n, k) == Some(i)
  {
    if i < n - 1 {
      ByIDIsLast(items, key, n - 1, k, i);
    }
  }

  /** A metric with a listed id counts for the last item that has it, whatever its name. */
  lemma IdDecides(items: seq<Item?>, key: Key, m: Metric, i: nat)
    requires i < |items| && TrimSpace(m.modelID) != "" && HasID(items, key, i, key(m.userID, m.modelID))
    requires forall j :: i < j < |items| ==> !HasID(items, key, j, key(m.userID, m.modelID))
    ensures Attributed(items, key, m) == Some(i)
  {
    ByIDIsLast(items, key, |items|, key(m.userID, m.modelID), i);
  }

  /** One without counts for the only item of its name, if there is one. */
  lemma NameDecides(items: seq<Item?>, key: Key, m: Metric)
    requires TrimSpace(m.modelID) == "" || forall j :: 0 <= j < |items| ==> !HasID(items, key, j, key(m.userID, m.modelID))
    ensures var r := Attributed(items, key, m);
            && (r.None? <==>
                  || TrimSpace(m.modelName) == ""
                  || (forall j :: 0 <= j < |items| ==> !HasName(items, key, j, key(m.userID, m.modelName)))
                  || (exists i, j :: 0 <= i < j < |items| && HasName(items, key, i, key(m.userID, m.modelName))
                                     && HasName(items, key, j, key(m.userID, m.modelName))))
            && (r.Some? ==> HasName(items, key, r.value, key(m.userID, m.modelName)))
  {
    DuplicateIff(items, key, |items|, key(m.userID, m.modelName));
  }

  /** An item is given metrics of its own id, or of its own name when no other item has it. */
  lemma AttributionIsOwn(items: seq<Item?>, key: Key, m: Metric)
    requires Attributed(items, key, m).Some?
    ensures var i := Attributed(items, key, m).value;
            || (TrimSpace(m.modelID) != "" && HasID(items, key, i, key(m.userID, m.modelID)))
            || (&& TrimSpace(m.modelName) != "" && HasName(items, key, i, key(m.userID, m.modelName))
                && forall j :: 0 <= j < |items| && j != i ==> !HasName(items, key, j, key(m.userID, m.modelName)))
  {
    DuplicateIff(items, key, |items|, key(m.userID, m.modelName));
  }

  /** The source's key; lower stands for strings.ToLower. */
  function SourceKey(lower: string -> string): Key {
    (user, model) => TrimSpace(user) + "\0" + lower(TrimSpace(model))
  }

  /** With the source's keys, and without NUL in user names, a metric is counted for an item
      of its own user, and for its own id or name but for spaces around it and for case. */
  lemma AttributedToOwner(items: seq<Item?>, lower: string -> string, m: Metric)
    requires var i := Attributed(items, SourceKey(lower), m);
             i.Some? && '\0' !in TrimSpace(m.userID) && '\0' !in TrimSpace(items[i.value].createdBy)
    ensures var item := items[Attributed(items, SourceKey(lower), m).value];
            && TrimSpace(item.createdBy) == TrimSpace(m.userID)
            && (lower(TrimSpace(item.ulid)) == lower(TrimSpace(m.modelID))
                || lower(TrimSpace(item.name)) == lower(TrimSpace(m.modelName)))
  {
    var key := SourceKey(lower);
    var i := Attributed(items, key, m).value;
    AttributionIsOwn(items, key, m);
    var user, owner := TrimSpace(m.userID), TrimSpace(items[i].createdBy);
    if HasID(items, key, i, key(m.userID, m.modelID)) {
      SeparatedOnce(owner, lower(TrimSpace(items[i].ulid)), user, lower(TrimSpace(m.modelID)), '\0');
    } else {
      SeparatedOnce(owner, lower(TrimSpace(items[i].name)), user, lower(TrimSpace(m.modelName)), '\0');
    }
  }

  // ---- Sums ------------------------------------------------------------------------------

  /** The owning item's ulid and user. */
  datatype Owner = Owner(ulid: string, user: string)

  /** Which item each metric counts for. */
  type Attribution = Metric -> Option<Owner>

  function Owners(items: seq<Item?>, key: Key): Attribution {
    (m: Metric) =>
      var i := Attributed(items, key, m);
      if i.None? then None else Some(Owner(items[i.value].ulid, items[i.value].createdBy))
  }

  /** What a metric adds to the aggregate kept under an item's ulid. */
  function Share(at: Attribution, m: Metric, ulid: string): Option<Usage> {
    if at(m).Some? && at(m).value.ulid == ulid then Some(m.usage) else None
  }

  function Sum(at: Attribution, metrics: seq<Metric>, ulid: string): Option<Usage> {
    if metrics == [] then None
    else Join(Sum(at, metrics[..|metrics| - 1], ulid), Share(at, metrics[|metrics| - 1], ulid))
  }

  /** The requests that count for any of a user's items. */
  function UserShare(at: Attribution, m: Metric, user: string): int {
    if at(m).Some? && at(m).value.user == user then m.usage.requests else 0
  }

  function UserTotal(at: Attribution, metrics: seq<Metric>, user: string): int {
    if metrics == [] then 0
    else UserTotal(at, metrics[..|metrics| - 1], user) + UserShare(at, metrics[|metrics| - 1], user)
  }

  datatype Figure = RequestCount | SuccessCount | InputTokens | OutputTokens | TotalTokens | LatencyTotal | LatencyCount

  function FigureOf(f: Figure, u: Usage): int {
    match f
    case RequestCount => u.requests
    case SuccessCount => u.successes
    case InputTokens => u.tokens.input
    case OutputTokens => u.tokens.output
    case TotalTokens => u.tokens.total
    case LatencyTotal => u.latency.totalMs
    case LatencyCount => u.latency.count
  }

  predicate CountsFor(at: Attribution, m: Metric, ulid: string) {
    at(m).Some? && at(m).value.ulid == ulid
  }

  /** One figure added up over the metrics that count for an item. */
  function FigureSum(f: Figure, at: Attribution, metrics: seq<Metric>, ulid: string): int {
    if metrics == [] then 0
    else FigureSum(f, at, metrics[1..], ulid) + if CountsFor(at, metrics[0], ulid) then FigureOf(f, metrics[0].usage) else 0
  }

  lemma {:induction false} FigureSumSnoc(f: Figure, at: Attribution, metrics: seq<Metric>, m: Metric, ulid: string)
    ensures FigureSum(f, at, metrics + [m], ulid)
            == FigureSum(f, at, metrics, ulid) + if CountsFor(at, m, ulid) then FigureOf(f, m.usage) else 0
  {
    if metrics == [] {
      assert [] + [m] == [m] && [m][1..] == [];
    } else {
      assert (metrics + [m])[1..] == metrics[1..] + [m];
      FigureSumSnoc(f, at, metrics[1..], m, ulid);
    }
  }

  /** There is an aggregate exactly if some metric counts for the item, and each of its seven
      figures is the sum of that figure. */
  lemma {:induction false} EachFigureIsSummed(f: Figure, at: Attribution, metrics: seq<Metric>, ulid: string)
    ensures Sum(at, metrics, ulid).Some? <==> exists k :: 0 <= k < |metrics| && CountsFor(at, metrics[k], ulid)
    ensures Sum(at, metrics, ulid).Some? ==> FigureOf(f, Sum(at, metrics, ulid).value) == FigureSum(f, at, metrics, ulid)
    ensures Sum(at, metrics, ulid).None? ==> FigureSum(f, at, metrics, ulid) == 0
  {
    if metrics != [] {
      var n := |metrics| - 1;
      EachFigureIsSummed(f, at, metrics[..n], ulid);
      FigureSumSnoc(f, at, metrics[..n], metrics[n], ulid);
      assert metrics == metrics[..n] + [metrics[n]];
      assert forall k :: 0 <= k < n ==> metrics[..n][k] == metrics[k];
    }
  }

  // ---- The method ----------------------------------------------------------------------------

  predicate Distinct(items: seq<Item?>) {
    forall i, j :: 0 <= i < j < |items| && items[i] != null ==> items[i] != items[j]
  }

  /** What one item shows, given the sum of its metrics and what its rate and latency were before. */
  ghost predicate Shows(item: Item, sum: Option<Usage>, total: int, rate: Rate, latency: Option<Rate>)
    reads item
  {
    match sum
    case None =>
      && item.usageCount == item.inputTokens == item.outputTokens == item.totalTokens == 0
      && item.usageRate == item.successRate == Zero && item.latency == latency
    case Some(u) =>
      && item.usageCount == u.requests && item.inputTokens == u.tokens.input
      && item.outputTokens == u.tokens.output && item.totalTokens == u.tokens.total
      && item.usageRate == (if u.requests == 0 then Zero else if total > 0 then Rate(u.requests, total) else rate)
      && item.successRate == (if u.requests == 0 then Zero else Rate(u.successes, u.requests))
      && item.latency == if u.requests != 0 && u.latency.count > 0 then Some(Rate(u.latency.totalMs, u.latency.count)) else latency
  }

  method IndexItems(items: seq<Item?>, key: Key)
    returns (byID: map<string, nat>, byName: map<string, nat>, duplicates: set<string>)
    ensures forall k :: (if k in byID then Some(byID[k]) else None) == ByID(items, key, |items|, k)
    ensures forall k :: (if k in byName then Some(byName[k]) else None) == ByName(items, key, |items|, k)
    ensures forall k :: k in duplicates <==> IsDuplicate(items, key, |items|, k)
  {
    byID, byName, duplicates := map[], map[], {};
    for n := 0 to |items|
      invariant forall k :: (if k in byID then Some(byID[k]) else None) == ByID(items, key, n, k)
      invariant forall k :: (if k in byName then Some(byName[k]) else None) == ByName(items, key, n, k)
      invariant forall k :: k in duplicates <==> IsDuplicate(items, key, n, k)
    {
      if items[n] == null {
        continue;
      }
      byID := byID[key(items[n].createdBy, items[n].ulid) := n];
      var nameKey := key(items[n].createdBy, items[n].name);
      if nameKey in byName {
        duplicates := duplicates + {nameKey};
      } else {
        byName := byName[nameKey := n];
      }
    }
  }

  method Lookup(items: seq<Item?>, key: Key, byID: map<string, nat>, byName: map<string, nat>, duplicates: set<string>, m: Metric)
    returns (r: Option<nat>)
    requires forall k :: (if k in byID then Some(byID[k]) else None) == ByID(items, key, |items|, k)
    requires forall k :: (if k in byName then Some(byName[k]) else None) == ByName(items, key, |items|, k)
    requires forall k :: k in duplicates <==> IsDuplicate(items, key, |items|, k)
    ensures r == Attributed(items, key, m)
  {
    r := None;
    if TrimSpace(m.modelID) != "" {
      var k := key(m.userID, m.modelID);
      assert ByID(items, key, |items|, k) == if k in byID then Some(byID[k]) else None;
      if k in byID {
        return Some(byID[k]);
      }
    }
    if TrimSpace(m.modelName) != "" {
      var k := key(m.userID, m.modelName);
      assert ByName(items, key, |items|, k) == if k in byName then Some(byName[k]) else None;
      if k !in duplicates && k in byName {
        return Some(byName[k]);
      }
    }
  }

  function Under(aggregates: map<string, Usage>, ulid: string): Option<Usage> {
    if ulid in aggregates then Some(aggregates[ulid]) else None
  }

  function TotalOf(totals: map<string, int>, user: string): int {
    if user in totals then totals[user] else 0
  }

  /** The two maps hold the sums over the metrics so far. */
  ghost predicate Tallies(at: Attribution, metrics: seq<Metric>,
                          aggregates: map<string, Usage>, totals: map<string, int>) {
    && (forall u :: Under(aggregates, u) == Sum(at, metrics, u))
    && (forall c :: TotalOf(totals, c) == UserTotal(at, metrics, c))
  }

  lemma SumSnoc(at: Attribution, metrics: seq<Metric>, m: Metric, u: string)
    ensures Sum(at, metrics + [m], u) == Join(Sum(at, metrics, u), Share(at, m, u))
  {
    assert (metrics + [m])[..|metrics|] == metrics;
  }

  lemma TotalSnoc(at: Attribution, metrics: seq<Metric>, m: Metric, c: string)
    ensures UserTotal(at, metrics + [m], c) == UserTotal(at, metrics, c) + UserShare(at, m, c)
  {
    assert (metrics + [m])[..|metrics|] == metrics;
  }

  /** A metric changes the sums of one item and one user, or nothing. */
  lemma TalliesStep(at: Attribution, metrics: seq<Metric>, m: Metric,
                    aggregates: map<string, Usage>, totals: map<string, int>)
    requires Tallies(at, metrics, aggregates, totals)
    ensures at(m).None? ==> Tallies(at, metrics + [m], aggregates, totals)
    ensures at(m).Some? ==>
              var (u, c) := (at(m).value.ulid, at(m).value.user);
              Tallies(at, metrics + [m], aggregates[u := Join(Under(aggregates, u), Some(m.usage)).value],
                      totals[c := TotalOf(totals, c) + m.usage.requests])
  {
    forall u ensures Sum(at, metrics + [m], u) == Join(Under(aggregates, u), Share(at, m, u)) {
      SumSnoc(at, metrics, m, u);
    }
    forall c ensures UserTotal(at, metrics + [m], c) == TotalOf(totals, c) + UserShare(at, m, c) {
      TotalSnoc(at, metrics, m, c);
    }
  }

  method AddMetric(m: Metric, owner: Option<Owner>, aggregates: map<string, Usage>, totals: map<string, int>,
                   ghost at: Attribution, ghost metrics: seq<Metric>)
    returns (aggregates': map<string, Usage>, totals': map<string, int>)
    requires Tallies(at, metrics, aggregates, totals) && owner == at(m)
    ensures Tallies(at, metrics + [m], aggregates', totals')
  {
    TalliesStep(at, metrics, m, aggregates, totals);
    aggregates', totals' := aggregates, totals;
    if owner != None {
      var ulid, user := owner.value.ulid, owner.value.user;
      aggregates' := aggregates[ulid := if ulid in aggregates then Plus(aggregates[ulid], m.usage) else m.usage];
      totals' := totals[user := TotalOf(totals, user) + m.usage.requests];
    }
  }

  method Aggregated(items: seq<Item?>, key: Key, metrics: seq<Metric>)
    returns (aggregates: map<string, Usage>, totals: map<string, int>)
    ensures Tallies(Owners(items, key), metrics, aggregates, totals)
  {
    ghost var at := Owners(items, key);
    var byID, byName, duplicates := IndexItems(items, key);
    aggregates, totals := map[], map[];
    assert metrics[..0] == [];
    for n := 0 to |metrics|
      invariant Tallies(at, metrics[..n], aggregates, totals)
    {
      assert metrics[..n + 1] == metrics[..n] + [metrics[n]];
      var found := Lookup(items, key, byID, byName, duplicates, metrics[n]);
      var owner := None;
      if found != None {
        owner := Some(Owner(items[found.value].ulid, items[found.value].createdBy));
      }
      aggregates, totals := AddMetric(metrics[n], owner, aggregates, totals, at, metrics[..n]);
    }
    assert metrics[..|metrics|] == metrics;
  }

  method Fill(item: Item, aggregate: Option<Usage>, total: int)
    modifies item
    ensures Shows(item, aggregate, total, old(item.usageRate), old(item.latency))
  {
    if aggregate == None {
      item.usageRate, item.usageCount, item.successRate := Zero, 0, Zero;
      item.inputTokens, item.outputTokens, item.totalTokens := 0, 0, 0;
      return;
    }
    var sum := aggregate.value;
    item.usageCount := sum.requests;
    item.inputTokens := sum.tokens.input;
    item.outputTokens := sum.tokens.output;
    item.totalTokens := sum.tokens.total;
    if sum.requests == 0 {
      item.usageRate, item.successRate := Zero, Zero;
      return;
    }
    if total > 0 {
      item.usageRate := Rate(sum.requests, total);
    }
    item.successRate := Rate(sum.successes, sum.requests);
    if sum.latency.count > 0 {
      item.latency := Some(Rate(sum.latency.totalMs, sum.latency.count));
    }
  }

  method ApplyModelUsageMetrics(items: seq<Item?>, key: Key, metrics: seq<Metric>)
    requires Distinct(items)
    modifies set item | item in items && item != null
    ensures forall i :: 0 <= i < |items| && items[i] != null ==>
              Shows(items[i], Sum(Owners(items, key), metrics, items[i].ulid),
                    UserTotal(Owners(items, key), metrics, items[i].createdBy),
                    old(items[i].usageRate), old(items[i].latency))
  {
    ghost var at := Owners(items, key);
    var aggregates, totals := Aggregated(items, key, metrics);
    for n := 0 to |items|
      invariant forall i :: 0 <= i < n && items[i] != null ==>
                  Shows(items[i], Sum(at, metrics, items[i].ulid), UserTotal(at, metrics, items[i].createdBy),
                        old(items[i].usageRate), old(items[i].latency))
      invariant forall i :: n <= i < |items| && items[i] != null ==>
                  items[i].usageRate == old(items[i].usageRate) && items[i].latency == old(items[i].latency)
    {
      var item := items[n];
      if item == null {
        continue;
      }
      var aggregate := Under(aggregates, item.ulid);
      assert Under(aggregates, item.ulid) == Sum(at, metrics, item.ulid);
      assert TotalOf(totals, item.createdBy) == UserTotal(at, metrics, item.createdBy);
      Fill(item, aggregate, TotalOf(totals, item.createdBy));
    }
  }

  // ---- Order does not matter -------------------------------------------------------------------

  lemma {:induction false} SumConcat(at: Attribution, a: seq<Metric>, b: seq<Metric>, u: string)
    ensures Sum(at, a + b, u) == Join(Sum(at, a, u), Sum(at, b, u))
    decreases |b|
  {
    if b == [] {
      assert a + b == a;
    } else {
      var n := |b| - 1;
      SumConcat(at, a, b[..n], u);
      assert a + b == (a + b[..n]) + [b[n]];
      SumSnoc(at, a + b[..n], b[n], u);
    }
  }

  lemma {:induction false} TotalConcat(at: Attribution, a: seq<Metric>, b: seq<Metric>, c: string)
    ensures UserTotal(at, a + b, c) == UserTotal(at, a, c) + UserTotal(at, b, c)
    decreases |b|
  {
    if b == [] {
      assert a + b == a;
    } else {
      var n := |b| - 1;
      TotalConcat(at, a, b[..n], c);
      assert a + b == (a + b[..n]) + [b[n]];
      TotalSnoc(at, a + b[..n], b[n], c);
    }
  }

  lemma SumWithout(at: Attribution, a: seq<Metric>, m: Metric, b: seq<Metric>, u: string)
    ensures Sum(at, (a + [m]) + b, u) == Join(Sum(at, a + b, u), Share(at, m, u))
  {
    SumConcat(at, a + [m], b, u);
    SumSnoc(at, a, m, u);
    SumConcat(at, a, b, u);
  }

  lemma TotalWithout(at: Attribution, a: seq<Metric>, m: Metric, b: seq<Metric>, c: string)
    ensures UserTotal(at, (a + [m]) + b, c) == UserTotal(at, a + b, c) + UserShare(at, m, c)
  {
    TotalConcat(at, a + [m], b, c);
    TotalSnoc(at, a, m, c);
    TotalConcat(at, a, b, c);
  }

  /** Taking one metric out anywhere takes its share out of the sums. */
  lemma Without(at: Attribution, metrics: seq<Metric>, j: nat, u: string, c: string)
    requires j < |metrics|
    ensures var rest := metrics[..j] + metrics[j + 1..];
            && Sum(at, metrics, u) == Join(Sum(at, rest, u), Share(at, metrics[j], u))
            && UserTotal(at, metrics, c) == UserTotal(at, rest, c) + UserShare(at, metrics[j], c)
            && multiset(rest) == multiset(metrics) - multiset{metrics[j]}
  {
    var (a, m, b) := (metrics[..j], metrics[j], metrics[j + 1..]);
    assert metrics == (a + [m]) + b;
    assert multiset(metrics) == multiset(a) + multiset{m} + multiset(b);
    SumWithout(at, a, m, b, u);
    TotalWithout(at, a, m, b, c);
  }

  /** The figures depend on which metrics were recorded, not on their order. */
  lemma {:induction false} OrderIrrelevant(at: Attribution, a: seq<Metric>, b: seq<Metric>, u: string, c: string)
    requires multiset(a) == multiset(b)
    ensures Sum(at, a, u) == Sum(at, b, u)
    ensures UserTotal(at, a, c) == UserTotal(at, b, c)
    decreases |a|
  {
    if a == [] {
      assert |b| == |multiset(b)| == 0;
    } else {
      var n := |a| - 1;
      assert a[n] in multiset(b);
      var j :| 0 <= j < |b| && b[j] == a[n];
      Without(at, a, n, u, c);
      Without(at, b, j, u, c);
      assert a[..n] + a[n + 1..] == a[..n];
      OrderIrrelevant(at, a[..n], b[..j] + b[j + 1..], u, c);
    }
  }

  // ---- Nothing is lost or counted twice -----------------------------------------------------------

  predicate DistinctUlids(items: seq<Item?>) {
    forall i, j :: 0 <= i < j < |items| && items[i] != null && items[j] != null ==> items[i].ulid != items[j].ulid
  }

  predicate IsOwner(items: seq<Item?>, i: int, owner: Owner) {
    0 <= i < |items| && items[i] != null && items[i].ulid == owner.ulid && items[i].createdBy == owner.user
  }

  /** A user's usage counts in the list, over the first n items. */
  function Shown(items: seq<Item?>, at: Attribution, metrics: seq<Metric>, user: string, n: nat): int
    requires n <= |items|
  {
    if n == 0 then 0
    else Shown(items, at, metrics, user, n - 1)
         + if items[n - 1] != null && items[n - 1].createdBy == user then Requests(Sum(at, metrics, items[n - 1].ulid)) else 0
  }

  lemma {:induction false} ShownNothing(items: seq<Item?>, at: Attribution, user: string, n: nat)
    requires n <= |items|
    ensures Shown(items, at, [], user, n) == 0
  {
    if n > 0 {
      ShownNothing(items, at, user, n - 1);
    }
  }

  /** A metric that counts for no item changes nothing. */
  lemma {:induction false} ShownSame(items: seq<Item?>, at: Attribution, metrics: seq<Metric>, m: Metric, user: string, n: nat)
    requires n <= |items|
    requires at(m).Some? ==> forall i :: 0 <= i < n && items[i] != null ==> items[i].ulid != at(m).value.ulid
    ensures Shown(items, at, metrics + [m], user, n) == Shown(items, at, metrics, user, n)
  {
    if n > 0 {
      ShownSame(items, at, metrics, m, user, n - 1);
      if items[n - 1] != null {
        SumSnoc(at, metrics, m, items[n - 1].ulid);
      }
    }
  }

  /** A metric shows up once, at the item it is attributed to. */
  lemma {:induction false} ShownOnce(items: seq<Item?>, at: Attribution, metrics: seq<Metric>, m: Metric, user: string,
                                     n: nat, i: nat)
    requires i < n <= |items| && DistinctUlids(items) && at(m).Some? && IsOwner(items, i, at(m).value)
    ensures Shown(items, at, metrics + [m], user, n) == Shown(items, at, metrics, user, n) + UserShare(at, m, user)
  {
    if items[n - 1] != null {
      SumSnoc(at, metrics, m, items[n - 1].ulid);
    }
    if i == n - 1 {
      ShownSame(items, at, metrics, m, user, n - 1);
    } else {
      ShownOnce(items, at, metrics, m, user, n - 1, i);
    }
  }

  /** Conservation: a user's usage counts add up to the requests attributed to that user's items. */
  lemma {:induction false} CountsAddUp(items: seq<Item?>, key: Key, metrics: seq<Metric>, user: string)
    requires DistinctUlids(items)
    ensures Shown(items, Owners(items, key), metrics, user, |items|) == UserTotal(Owners(items, key), metrics, user)
    decreases |metrics|
  {
    var at := Owners(items, key);
    if metrics == [] {
      ShownNothing(items, at, user, |items|);
    } else {
      var n := |metrics| - 1;
      var m := metrics[n];
      assert metrics == metrics[..n] + [m];
      CountsAddUp(items, key, metrics[..n], user);
      TotalSnoc(at, metrics[..n], m, user);
      if at(m).None? {
        ShownSame(items, at, metrics[..n], m, user, |items|);
      } else {
        var i := Attributed(items, key, m).value;
        ShownOnce(items, at, metrics[..n], m, user, |items|, i);
      }
    }
  }
}
