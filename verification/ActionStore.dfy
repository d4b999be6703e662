// The tables of dispatched actions and of the observations made of them. Each
// function below is one statement, or one that only reads followed by one that writes:
// rows are never deleted, and an action's row never changes.
module ActionStore {
  import opened Common
  import opened Protocol

  /** An observation's row; its key is copied from the action's row. */
  datatype Row = Row(key: string, observation: Observation)

  /** Both tables by action id. saves lists the observations that were accepted so far, by any process. */
  datatype Tables = Tables(actions: map<string, Action>, rows: map<string, Row>, saves: seq<Observation>)

  const EMPTY := Tables(map[], map[], [])

  predicate KeyTaken(t: Tables, key: string) {
    exists id :: id in t.actions && t.actions[id].idempotencyKey == key
  }

  /** Both the action id and the key are unique: an action that meets either is not inserted. */
  function WithAction(t: Tables, a: Action): Tables {
    if a.actionID in t.actions || KeyTaken(t, a.idempotencyKey) then t
    else t.(actions := t.actions[a.actionID := a])
  }

  /** Only observations of registered actions are taken; a second one changes the status alone. */
  function WithObservation(t: Tables, o: Observation): Tables {
    if o.actionID !in t.actions then t
    else
      var row :=
        if o.actionID in t.rows then t.rows[o.actionID].(observation := t.rows[o.actionID].observation.(status := o.status))
        else Row(t.actions[o.actionID].idempotencyKey, o.(attachments := []));
      t.(rows := t.rows[o.actionID := row], saves := t.saves + [o])
  }

  predicate HoldsAt(t: Tables, id: string, key: string) {
    id in t.rows && t.rows[id].key == key
  }

  /** Some observation is stored under the key. */
  predicate Holds(t: Tables, key: string) {
    exists id :: id in t.rows && HoldsAt(t, id, key)
  }

  class ActionTables {
    var actions: map<string, Action>
    var rows: map<string, Row>
    ghost var saves: seq<Observation>

    ghost function State(): Tables
      reads this
    {
      Tables(actions, rows, saves)
    }

    constructor ()
      ensures State() == EMPTY
    {
      actions, rows, saves := map[], map[], [];
    }

    method SaveAction(a: Action)
      modifies this
      ensures State() == WithAction(old(State()), a)
      ensures actions == if a.actionID in old(actions)
                            || exists id :: id in old(actions) && old(actions)[id].idempotencyKey == a.idempotencyKey
                         then old(actions) else old(actions)[a.actionID := a]
      ensures rows == old(rows)
    {
      if a.actionID !in actions && !exists id :: id in actions && actions[id].idempotencyKey == a.idempotencyKey {
        actions := actions[a.actionID := a];
      }
    }

    /** Fails exactly for an action that is not registered. */
    method SaveObservation(o: Observation) returns (ok: bool)
      modifies this
      ensures ok <==> o.actionID in old(actions)
      ensures State() == WithObservation(old(State()), o)
      ensures actions == old(actions) && (!ok ==> rows == old(rows)) && rows - {o.actionID} == old(rows) - {o.actionID}
      ensures ok ==> o.actionID in rows
      ensures ok && o.actionID in old(rows) ==>
                var was := old(rows)[o.actionID];
                rows[o.actionID] == Row(was.key, was.observation.(status := o.status))
      ensures ok && o.actionID !in old(rows) ==>
                rows[o.actionID] == Row(actions[o.actionID].idempotencyKey,
                                        Observation(o.taskID, o.actionID, o.sessionID, o.sequence, o.status, []))
    {
      if o.actionID !in actions {
        return false;
      }
      var row := Row(actions[o.actionID].idempotencyKey, o.(attachments := []));
      if o.actionID in rows {
        row := rows[o.actionID].(observation := rows[o.actionID].observation.(status := o.status));
      }
      rows := rows[o.actionID := row];
      saves := saves + [o];
      ok := true;
    }

    /** Any row with the key; consistent tables have at most one. */
    method FindObservationByIdempotency(key: string) returns (found: Option<Observation>)
      ensures found.Some? <==> Holds(State(), key)
      ensures found.Some? ==> exists id :: HoldsAt(State(), id, key) && rows[id].observation == found.value
    {
      if id :| id in rows && rows[id].key == key {
        assert HoldsAt(State(), id, key);
        return Some(rows[id].observation);
      }
      found := None;
    }
  }

  // ---- What the tables say ----------------------------------------------------------------

  /** The first observation of an action that was saved. */
  function First(saves: seq<Observation>, id: string): (r: Option<Observation>)
    ensures r.Some? ==> r.value in saves && r.value.actionID == id
  {
    if saves == [] then None
    else
      var n := |saves| - 1;
      if First(saves[..n], id).Some? then First(saves[..n], id)
      else if saves[n].actionID == id then Some(saves[n])
      else None
  }

  /** The last one. */
  function Last(saves: seq<Observation>, id: string): (r: Option<Observation>)
    ensures r.Some? <==> First(saves, id).Some?
  {
    if saves == [] then None
    else
      var n := |saves| - 1;
      if saves[n].actionID == id then Some(saves[n]) else Last(saves[..n], id)
  }

  lemma SavesSnoc(saves: seq<Observation>, o: Observation, id: string)
    ensures First(saves + [o], id)
            == if First(saves, id).Some? then First(saves, id) else if o.actionID == id then Some(o) else None
    ensures Last(saves + [o], id) == if o.actionID == id then Some(o) else Last(saves, id)
  {
    assert (saves + [o])[..|saves|] == saves;
  }

  lemma {:induction false} FirstIsFirst(saves: seq<Observation>, id: string, k: nat)
    requires k < |saves| && saves[k].actionID == id && forall j :: 0 <= j < k ==> saves[j].actionID != id
    ensures First(saves, id) == Some(saves[k])
  {
    var n := |saves| - 1;
    if k < n {
      FirstIsFirst(saves[..n], id, k);
    } else {
      assert forall j :: 0 <= j < n ==> saves[..n][j].actionID != id;
    }
  }

  lemma {:induction false} LastIsLast(saves: seq<Observation>, id: string, k: nat)
    requires k < |saves| && saves[k].actionID == id && forall j :: k < j < |saves| ==> saves[j].actionID != id
    ensures Last(saves, id) == Some(saves[k])
  {
    var n := |saves| - 1;
    if k < n {
      LastIsLast(saves[..n], id, k);
    }
  }

  /** What is stored of an action: all but attachments of the first observation saved of it,
      with the status of the last. */
  lemma StoredFirstWithLastStatus(saves: seq<Observation>, id: string, f: nat, l: nat)
    requires f <= l < |saves| && saves[f].actionID == id == saves[l].actionID
    requires forall j :: 0 <= j < f || l < j < |saves| ==> saves[j].actionID != id
    ensures First(saves, id).Some?
    ensures StoredForm(saves, id) == Observation(saves[f].taskID, id, saves[f].sessionID, saves[f].sequence, saves[l].status, [])
  {
    FirstIsFirst(saves, id, f);
    LastIsLast(saves, id, l);
  }

  /** Task, session and sequence of the first observation saved, and the status of the last. */
  function StoredForm(saves: seq<Observation>, id: string): Observation
    requires First(saves, id).Some?
  {
    First(saves, id).value.(status := Last(saves, id).value.status, attachments := [])
  }

  /** The id of each row, and one action per key. */
  ghost predicate ActionsKeyed(t: Tables) {
    && (forall id :: id in t.actions ==> t.actions[id].actionID == id)
    && (forall i, j :: i in t.actions && j in t.actions && t.actions[i].idempotencyKey == t.actions[j].idempotencyKey ==> i == j)
  }

  /** A row for exactly the actions that an observation was saved of, in its stored form. */
  ghost predicate RowsAreSaves(t: Tables) {
    forall id ::
      && (id in t.rows <==> First(t.saves, id).Some?)
      && (id in t.rows ==> id in t.actions && t.rows[id] == Row(t.actions[id].idempotencyKey, StoredForm(t.saves, id)))
  }

  /** What statements only ever make of empty tables. */
  ghost predicate Consistent(t: Tables) {
    ActionsKeyed(t) && RowsAreSaves(t)
  }

  lemma EmptyIsConsistent()
    ensures Consistent(EMPTY)
  {
  }

  lemma ActionConsistent(t: Tables, a: Action)
    requires Consistent(t)
    ensures Consistent(WithAction(t, a))
  {
  }

  lemma ObservationConsistent(t: Tables, o: Observation)
    requires Consistent(t)
    ensures Consistent(WithObservation(t, o))
  {
    var u := WithObservation(t, o);
    if o.actionID in t.actions {
      forall id
        ensures id in u.rows <==> First(u.saves, id).Some?
        ensures id in u.rows ==> id in u.actions && u.rows[id] == Row(u.actions[id].idempotencyKey, StoredForm(u.saves, id))
      {
        SavesSnoc(t.saves, o, id);
      }
    }
  }

  /** So the lookup by key has one answer at most. */
  lemma OneRowPerKey(t: Tables, i: string, j: string, key: string)
    requires Consistent(t) && HoldsAt(t, i, key) && HoldsAt(t, j, key)
    ensures i == j
  {
  }
}
