// Devices: which one an action goes to, and to which user each one belongs. The
// store's row decides ownership; the hub only caches it.
module Devices {
  import opened Common
  import opened Protocol

  datatype Device = Device(userID: string, capabilities: seq<string>, connection: nat)

  // ---- Selection -----------------------------------------------------------------------

  datatype Selection =
    | Selected(deviceID: string)
    | Ambiguous
    | BoundToAnotherUser
    | CapabilityUnsupported
    | Offline

  predicate OfAnotherUser(device: Device, userID: string) {
    device.userID != "" && device.userID != userID
  }

  function Others(devices: map<string, Device>, userID: string): set<string> {
    set id | id in devices && OfAnotherUser(devices[id], userID)
  }

  function Lacking(devices: map<string, Device>, userID: string, capability: string): set<string> {
    set id | id in devices && !OfAnotherUser(devices[id], userID) && !Supports(devices[id].capabilities, capability)
  }

  /** The devices that could take the action. */
  function Matching(devices: map<string, Device>, userID: string, capability: string): set<string> {
    set id | id in devices && !OfAnotherUser(devices[id], userID) && Supports(devices[id].capabilities, capability)
  }

  function Unable(devices: map<string, Device>, capability: string): set<string> {
    set id | id in devices && !Supports(devices[id].capabilities, capability)
  }

  lemma OneMore(done: set<string>, id: string, s: set<string>)
    requires id !in done
    ensures |(done + {id}) * s| == |done * s| + if id in s then 1 else 0
  {
    if id in s {
      assert (done + {id}) * s == done * s + {id};
    } else {
      assert (done + {id}) * s == done * s;
    }
  }

  /** Every connected device is another user's, lacks the capability, or matches. */
  lemma Partition(devices: map<string, Device>, userID: string, capability: string)
    ensures |devices| == |Others(devices, userID)| + |Lacking(devices, userID, capability)| + |Matching(devices, userID, capability)|
  {
    var o, l, m := Others(devices, userID), Lacking(devices, userID, capability), Matching(devices, userID, capability);
    assert devices.Keys == (o + l) + m;
    assert |(o + l) + m| == |o + l| + |m|;
    assert |o + l| == |o| + |l|;
    assert |devices.Keys| == |devices|;
  }

  datatype Diagnostics = Diagnostics(connected: nat, currentUser: nat, matching: nat, otherUser: nat, unsupported: nat)

  /** The counts over the devices in done. */
  ghost function Tally(devices: map<string, Device>, done: set<string>, userID: string, capability: string): Diagnostics {
    var others := |done * Others(devices, userID)|;
    OthersWithin(devices, done, userID);
    Diagnostics(|done|, |done| - others, |done * Matching(devices, userID, capability)|, others,
                |done * Unable(devices, capability)|)
  }

  lemma OthersWithin(devices: map<string, Device>, done: set<string>, userID: string)
    ensures |done * Others(devices, userID)| <= |done|
  {
    var a := done * Others(devices, userID);
    assert done == a + (done - a);
    assert |done| == |a| + |done - a|;
  }

  function Counted(d: Diagnostics, device: Device, userID: string, capability: string): Diagnostics {
    var supports := Supports(device.capabilities, capability);
    var current := device.userID == "" || device.userID == userID;
    Diagnostics(
      d.connected + 1,
      d.currentUser + if current then 1 else 0,
      d.matching + if current && supports then 1 else 0,
      d.otherUser + if OfAnotherUser(device, userID) then 1 else 0,
      d.unsupported + if supports then 0 else 1)
  }

  lemma TallyStep(devices: map<string, Device>, done: set<string>, id: string, userID: string, capability: string)
    requires id in devices && id !in done
    ensures Tally(devices, done + {id}, userID, capability)
            == Counted(Tally(devices, done, userID, capability), devices[id], userID, capability)
  {
    OneMore(done, id, Others(devices, userID));
    OneMore(done, id, Unable(devices, capability));
    OneMore(done, id, Matching(devices, userID, capability));
  }

  lemma TallyAll(devices: map<string, Device>, userID: string, capability: string)
    ensures var d := Tally(devices, devices.Keys, userID, capability);
            && d.connected == |devices| && d.currentUser == |devices| - |Others(devices, userID)|
            && d.matching == |Matching(devices, userID, capability)|
            && d.otherUser == |Others(devices, userID)| && d.unsupported == |Unable(devices, capability)|
  {
    var done := devices.Keys;
    OthersWithin(devices, done, userID);
    assert done * Others(devices, userID) == Others(devices, userID);
    assert done * Unable(devices, capability) == Unable(devices, capability);
    assert done * Matching(devices, userID, capability) == Matching(devices, userID, capability);
    assert |done| == |devices|;
  }

  /** What the selection loop knows after the devices in done: three counts and the match. */
  ghost predicate SelectionSoFar(devices: map<string, Device>, done: set<string>, userID: string, capability: string,
                                 p: Scan) {
    && p.connected == |done| && p.ownedByOther == |done * Others(devices, userID)|
    && p.unsupported == |done * Lacking(devices, userID, capability)|
    && done * Matching(devices, userID, capability) == if p.selected == "" then {} else {p.selected}
  }

  lemma SelectionStep(devices: map<string, Device>, done: set<string>, id: string, userID: string, capability: string,
                      p: Scan)
    requires SelectionSoFar(devices, done, userID, capability, p)
    requires id in devices && id !in done && id != "" && done <= devices.Keys
    ensures match Considered(p, id, devices[id], userID, capability)
            case Some(next) => SelectionSoFar(devices, done + {id}, userID, capability, next)
            case None => SeveralMatch(devices, userID, capability)
  {
    OneMore(done, id, Others(devices, userID));
    OneMore(done, id, Lacking(devices, userID, capability));
    MatchStep(done, id, Matching(devices, userID, capability), p.selected);
    assert id in Matching(devices, userID, capability) ==> id !in Others(devices, userID);
  }

  /** The matches among the devices seen, one device later. */
  lemma MatchStep(done: set<string>, id: string, m: set<string>, selected: string)
    requires id !in done && done * m == if selected == "" then {} else {selected}
    ensures id !in m ==> (done + {id}) * m == done * m
    ensures id in m && selected == "" ==> (done + {id}) * m == {id}
    ensures id in m && selected != "" ==> |m| >= 2
  {
    if id !in m {
      assert (done + {id}) * m == done * m;
    } else if selected == "" {
      assert (done + {id}) * m == {id};
    } else {
      assert selected in done * m;
      TwoMatch(m, selected, id);
    }
  }

  /** Two devices match, and so not all belong to others. */
  ghost predicate SeveralMatch(devices: map<string, Device>, userID: string, capability: string) {
    |Matching(devices, userID, capability)| >= 2 && devices != map[] && Others(devices, userID) != devices.Keys
  }

  lemma TwoMatch(m: set<string>, a: string, b: string)
    requires a != b && a in m && b in m
    ensures |m| >= 2
  {
    assert m == {a, b} + (m - {a, b});
  }

  /** What the counts mean when all devices were seen. */
  lemma SelectionEnd(devices: map<string, Device>, userID: string, capability: string, p: Scan)
    requires SelectionSoFar(devices, devices.Keys, userID, capability, p)
    ensures Matching(devices, userID, capability) == if p.selected == "" then {} else {p.selected}
    ensures p.connected == |devices| && (p.connected == 0 <==> devices == map[])
    ensures p.ownedByOther == p.connected <==> Others(devices, userID) == devices.Keys
    ensures p.selected == "" ==> p.unsupported + p.ownedByOther == p.connected
    ensures p.selected != "" ==> devices != map[] && Others(devices, userID) != devices.Keys
  {
    var done := devices.Keys;
    assert done * Others(devices, userID) == Others(devices, userID);
    assert done * Lacking(devices, userID, capability) == Lacking(devices, userID, capability);
    assert done * Matching(devices, userID, capability) == Matching(devices, userID, capability);
    NoneSelected(devices, userID, capability);
    if p.selected != "" {
      assert p.selected in Matching(devices, userID, capability);
    }
  }

  /** A device may be used by this user: it is connected and no other user's. */
  predicate MayBind(devices: map<string, Device>, deviceID: string, userID: string) {
    deviceID in devices && !OfAnotherUser(devices[deviceID], userID)
  }

  function Bind(devices: map<string, Device>, deviceID: string, userID: string): map<string, Device> {
    if MayBind(devices, deviceID, userID) then devices[deviceID := devices[deviceID].(userID := userID)] else devices
  }

  /** A connection takes its own device away, not a successor's. */
  function Disconnected(devices: map<string, Device>, deviceID: string, connection: nat): map<string, Device> {
    if deviceID in devices && devices[deviceID].connection == connection then devices - {deviceID} else devices
  }

  class DeviceTable {
    var devices: map<string, Device>

    constructor ()
      ensures devices == map[]
    {
      devices := map[];
    }

    /** The last section of Register, and the connection it must close. */
    method Install(deviceID: string, device: Device) returns (replaced: Option<nat>)
      modifies this
      ensures devices == old(devices)[deviceID := device]
      ensures replaced == if deviceID in old(devices) && old(devices)[deviceID].connection != device.connection
                          then Some(old(devices)[deviceID].connection) else None
    {
      replaced := None;
      if deviceID in devices && devices[deviceID].connection != device.connection {
        replaced := Some(devices[deviceID].connection);
      }
      devices := devices[deviceID := device];
    }

    /** A connection that was replaced does not take its successor away. */
    method Unregister(deviceID: string, connection: nat) returns (removed: bool)
      modifies this
      ensures removed <==> deviceID in old(devices) && old(devices)[deviceID].connection == connection
      ensures devices == Disconnected(old(devices), deviceID, connection)
      ensures devices == if removed then old(devices) - {deviceID} else old(devices)
    {
      removed := false;
      if deviceID in devices && devices[deviceID].connection == connection {
        devices := devices - {deviceID};
        removed := true;
      }
    }

    /** The last section of bindDevice. */
    method BindInMemory(deviceID: string, userID: string) returns (ok: bool)
      modifies this
      ensures ok == MayBind(old(devices), deviceID, userID) && devices == Bind(old(devices), deviceID, userID)
    {
      if deviceID !in devices {
        return false;
      }
      var device := devices[deviceID];
      if device.userID != "" && device.userID != userID {
        return false;
      }
      devices := devices[deviceID := device.(userID := userID)];
      ok := true;
    }

    method Diagnose(userID: string, capability: string) returns (d: Diagnostics)
      ensures d.connected == |devices| && d.otherUser == |Others(devices, userID)|
      ensures d.currentUser == |devices| - |Others(devices, userID)|
      ensures d.unsupported == |Unable(devices, capability)| && d.matching == |Matching(devices, userID, capability)|
    {
      d := Count(devices, userID, capability);
      TallyAll(devices, userID, capability);
    }

    /** The check of a device the caller asked for, which must be one of the matching ones. */
    method CheckRequested(requested: string, userID: string, capability: string) returns (r: Selection)
      ensures r == Selected(requested) <==> requested in Matching(devices, userID, capability)
      ensures r.Selected? || r.Offline? || r.BoundToAnotherUser? || r.CapabilityUnsupported?
      ensures r.Selected? ==> r.deviceID == requested
      ensures r.Offline? <==> requested !in devices
      ensures r.BoundToAnotherUser? <==> requested in Others(devices, userID)
    {
      if requested !in devices {
        return Offline;
      }
      var device := devices[requested];
      if device.userID != "" && device.userID != userID {
        return BoundToAnotherUser;
      }
      if !Supports(device.capabilities, capability) {
        return CapabilityUnsupported;
      }
      r := Selected(requested);
    }

    /** The device for an action that names none; a device id is never empty. */
    method Select(userID: string, capability: string) returns (r: Selection)
      requires "" !in devices
      ensures r.Selected? <==> |Matching(devices, userID, capability)| == 1
      ensures r.Selected? ==> Matching(devices, userID, capability) == {r.deviceID}
      ensures r.Ambiguous? <==> |Matching(devices, userID, capability)| >= 2
      ensures r.Offline? <==> devices == map[]
      ensures r.BoundToAnotherUser? <==> devices != map[] && Others(devices, userID) == devices.Keys
    {
      r := Choose(devices, userID, capability);
    }
  }

  method OneLess(all: set<string>, todo: set<string>, ghost done: set<string>, id: string)
    returns (todo': set<string>, ghost done': set<string>)
    requires id in todo && todo <= all && done == all - todo
    ensures todo' == todo - {id} && todo' <= all && |todo'| < |todo|
    ensures done' == done + {id} && done' == all - todo'
  {
    todo' := todo - {id};
    done' := done + {id};
    assert todo == todo' + {id};
  }

  /** The counts shown to the user, whatever order the devices come in. */
  method Count(devices: map<string, Device>, userID: string, capability: string) returns (d: Diagnostics)
    ensures d == Tally(devices, devices.Keys, userID, capability)
  {
    d := Diagnostics(0, 0, 0, 0, 0);
    var todo := devices.Keys;
    ghost var done: set<string> := {};
    while todo != {}
      invariant todo <= devices.Keys && done == devices.Keys - todo
      invariant d == Tally(devices, done, userID, capability)
      decreases |todo|
    {
      var id :| id in todo;
      TallyStep(devices, done, id, userID, capability);
      todo, done := OneLess(devices.Keys, todo, done, id);
      d := Counted(d, devices[id], userID, capability);
    }
    assert done == devices.Keys;
  }

  datatype Scan = Scan(selected: string, connected: int, ownedByOther: int, unsupported: int)

  /** One turn of the selection loop; None when a second device matches. */
  function Considered(p: Scan, id: string, device: Device, userID: string, capability: string): Option<Scan> {
    var seen := p.(connected := p.connected + 1);
    if OfAnotherUser(device, userID) then Some(seen.(ownedByOther := p.ownedByOther + 1))
    else if !Supports(device.capabilities, capability) then Some(seen.(unsupported := p.unsupported + 1))
    else if p.selected != "" then None
    else Some(seen.(selected := id))
  }

  /** The result does not depend on the order the devices come in. */
  method Choose(devices: map<string, Device>, userID: string, capability: string) returns (r: Selection)
    requires "" !in devices
    ensures r.Selected? <==> |Matching(devices, userID, capability)| == 1
    ensures r.Selected? ==> Matching(devices, userID, capability) == {r.deviceID}
    ensures r.Ambiguous? <==> |Matching(devices, userID, capability)| >= 2
    ensures r.Offline? <==> devices == map[]
    ensures r.BoundToAnotherUser? <==> devices != map[] && Others(devices, userID) == devices.Keys
  {
    var p := Scan("", 0, 0, 0);
    var todo := devices.Keys;
    ghost var done: set<string> := {};
    while todo != {}
      invariant todo <= devices.Keys && done == devices.Keys - todo
      invariant SelectionSoFar(devices, done, userID, capability, p)
      decreases |todo|
    {
      var id :| id in todo;
      SelectionStep(devices, done, id, userID, capability, p);
      var next := Considered(p, id, devices[id], userID, capability);
      if next.None? {
        return Ambiguous;
      }
      todo, done := OneLess(devices.Keys, todo, done, id);
      p := next.value;
    }
    assert done == devices.Keys;
    SelectionEnd(devices, userID, capability, p);
    if p.selected == "" {
      if p.connected > 0 && p.ownedByOther == p.connected {
        return BoundToAnotherUser;
      }
      if p.connected > 0 && p.unsupported + p.ownedByOther >= p.connected {
        return CapabilityUnsupported;
      }
      return Offline;
    }
    r := Selected(p.selected);
  }

  lemma NoneSelected(devices: map<string, Device>, userID: string, capability: string)
    ensures var o := Others(devices, userID);
            && |devices| == |o| + |Lacking(devices, userID, capability)| + |Matching(devices, userID, capability)|
            && (devices == map[] <==> |devices| == 0)
            && (|o| == |devices| <==> o == devices.Keys)
  {
    Partition(devices, userID, capability);
    var o := Others(devices, userID);
    if |o| == |devices| {
      assert Lacking(devices, userID, capability) == {} && Matching(devices, userID, capability) == {};
      forall id | id in devices ensures id in o {
        assert id in o || id in Lacking(devices, userID, capability) || id in Matching(devices, userID, capability);
      }
    }
  }

  // ---- The store's rows ------------------------------------------------------------------------

  /** INSERT … ON CONFLICT: the owner of a known device is not among the updated columns. */
  function Upsert(rows: map<string, string>, deviceID: string, userID: string): map<string, string> {
    if deviceID in rows then rows else rows[deviceID := userID]
  }

  /** The rows that UPDATE … WHERE user_id is empty or the same affects. */
  predicate RowMatches(rows: map<string, string>, deviceID: string, userID: string) {
    deviceID in rows && (rows[deviceID] == "" || rows[deviceID] == userID)
  }

  function BindRows(rows: map<string, string>, deviceID: string, userID: string): map<string, string> {
    if RowMatches(rows, deviceID, userID) then rows[deviceID := userID] else rows
  }

  class DeviceRows {
    /** The user_id column by device id. */
    var rows: map<string, string>

    constructor (rows: map<string, string>)
      ensures this.rows == rows
    {
      this.rows := rows;
    }

    method FindDevice(deviceID: string) returns (userID: Option<string>)
      ensures userID == if deviceID in rows then Some(rows[deviceID]) else None
    {
      userID := None;
      if deviceID in rows {
        userID := Some(rows[deviceID]);
      }
    }

    method UpsertDevice(deviceID: string, userID: string)
      modifies this
      ensures rows == Upsert(old(rows), deviceID, userID)
    {
      if deviceID !in rows {
        rows := rows[deviceID := userID];
      }
    }

    method BindDevice(deviceID: string, userID: string) returns (ok: bool)
      modifies this
      ensures ok == RowMatches(old(rows), deviceID, userID) && rows == BindRows(old(rows), deviceID, userID)
    {
      if deviceID !in rows || !(rows[deviceID] == "" || rows[deviceID] == userID) {
        return false;
      }
      rows := rows[deviceID := userID];
      ok := true;
    }
  }

  // ---- Ownership: every interleaving of registrations and bindings ---------------------------

  datatype RegisterPhase =
    | Asking
    | Found(userID: string)
    | Upserted(userID: string)
    | Installed

  datatype Registration = Registration(deviceID: string, capabilities: seq<string>, connection: nat, phase: RegisterPhase)

  datatype BindPhase =
    | Entering
    | Checked
    | Stored
    | Bound
    | Rejected

  datatype Binding = Binding(deviceID: string, userID: string, phase: BindPhase)

  /** rows is the store's user_id column by device id. */
  datatype World = World(
    rows: map<string, string>,
    devices: map<string, Device>,
    registrations: seq<Registration>,
    bindings: seq<Binding>)

  datatype Step =
    | NewRegistration(deviceID: string, capabilities: seq<string>, connection: nat)
    | FindRow(registration: nat)
    | UpsertRow(registration: nat)
    | InstallDevice(registration: nat)
    | Disconnect(deviceID: string, connection: nat)
    | NewBinding(deviceID: string, userID: string)
    | CheckMemory(binding: nat)
    | BindRow(binding: nat)
    | BindMemory(binding: nat)

  function Registering(w: World, r: nat, phase: RegisterPhase): World
    requires r < |w.registrations|
  {
    w.(registrations := w.registrations[r := w.registrations[r].(phase := phase)])
  }

  function BindingAt(w: World, b: nat, phase: BindPhase): World
    requires b < |w.bindings|
  {
    w.(bindings := w.bindings[b := w.bindings[b].(phase := phase)])
  }

  function Apply(w: World, step: Step): World {
    match step
    case NewRegistration(id, capabilities, connection) =>
      if id == "" then w else w.(registrations := w.registrations + [Registration(id, capabilities, connection, Asking)])
    case FindRow(r) =>
      if r < |w.registrations| && w.registrations[r].phase.Asking? then
        var id := w.registrations[r].deviceID;
        Registering(w, r, Found(if id in w.rows then w.rows[id] else ""))
      else w
    case UpsertRow(r) =>
      if r < |w.registrations| && w.registrations[r].phase.Found? then
        var id, user := w.registrations[r].deviceID, w.registrations[r].phase.userID;
        Registering(w.(rows := Upsert(w.rows, id, user)), r, Upserted(user))
      else w
    case InstallDevice(r) =>
      if r < |w.registrations| && w.registrations[r].phase.Upserted? then
        var reg := w.registrations[r];
        var device := Device(reg.phase.userID, reg.capabilities, reg.connection);
        Registering(w.(devices := w.devices[reg.deviceID := device]), r, Installed)
      else w
    case Disconnect(id, connection) =>
      w.(devices := Disconnected(w.devices, id, connection))
    case NewBinding(id, user) => w.(bindings := w.bindings + [Binding(id, user, Entering)])
    case CheckMemory(b) =>
      if b < |w.bindings| && w.bindings[b].phase.Entering? then
        var (id, user) := (w.bindings[b].deviceID, w.bindings[b].userID);
        BindingAt(w, b, if user != "" && MayBind(w.devices, id, user) then Checked else Rejected)
      else w
    case BindRow(b) =>
      if b < |w.bindings| && w.bindings[b].phase.Checked? then
        var (id, user) := (w.bindings[b].deviceID, w.bindings[b].userID);
        BindingAt(w.(rows := BindRows(w.rows, id, user)), b, if RowMatches(w.rows, id, user) then Stored else Rejected)
      else w
    case BindMemory(b) =>
      if b < |w.bindings| && w.bindings[b].phase.Stored? then
        var (id, user) := (w.bindings[b].deviceID, w.bindings[b].userID);
        BindingAt(w.(devices := Bind(w.devices, id, user)), b, if MayBind(w.devices, id, user) then Bound else Rejected)
      else w
  }

  function Run(w: World, steps: seq<Step>): World
    decreases |steps|
  {
    if steps == [] then w else Run(Apply(w, steps[0]), steps[1..])
  }

  /** What the hub or a registration under way believes of the owner: nothing, or the truth. */
  predicate Agrees(rows: map<string, string>, deviceID: string, userID: string) {
    userID == "" || (deviceID in rows && rows[deviceID] == userID)
  }

  ghost predicate CacheAgrees(w: World) {
    && (forall id :: id in w.devices ==> id != "" && id in w.rows && Agrees(w.rows, id, w.devices[id].userID))
    && (forall r :: 0 <= r < |w.registrations| ==> w.registrations[r].deviceID != "")
    && (forall r :: 0 <= r < |w.registrations| && w.registrations[r].phase.Found? ==>
          Agrees(w.rows, w.registrations[r].deviceID, w.registrations[r].phase.userID))
    && (forall r :: 0 <= r < |w.registrations| && w.registrations[r].phase.Upserted? ==>
          w.registrations[r].deviceID in w.rows && Agrees(w.rows, w.registrations[r].deviceID, w.registrations[r].phase.userID))
  }

  ghost predicate BindersOwn(w: World) {
    forall b :: 0 <= b < |w.bindings| ==>
      && (w.bindings[b].phase.Checked? ==> w.bindings[b].userID != "")
      && (w.bindings[b].phase.Stored? || w.bindings[b].phase.Bound? ==>
            w.bindings[b].userID != "" && w.bindings[b].deviceID in w.rows && w.rows[w.bindings[b].deviceID] == w.bindings[b].userID)
  }

  /** A stored owner is never replaced. */
  ghost predicate OwnersStay(w: World, v: World) {
    forall id :: id in w.rows ==> id in v.rows && (w.rows[id] != "" ==> v.rows[id] == w.rows[id])
  }

  lemma StepOwners(w: World, step: Step)
    ensures OwnersStay(w, Apply(w, step))
  {
  }

  lemma RegistrationAgrees(w: World, step: Step)
    requires CacheAgrees(w) && (step.NewRegistration? || step.FindRow? || step.UpsertRow? || step.InstallDevice?)
    ensures CacheAgrees(Apply(w, step))
  {
  }

  lemma BindingAgrees(w: World, step: Step)
    requires CacheAgrees(w) && BindersOwn(w) && (step.BindRow? || step.BindMemory?)
    ensures CacheAgrees(Apply(w, step))
  {
  }

  lemma StepAgrees(w: World, step: Step)
    requires CacheAgrees(w) && BindersOwn(w)
    ensures CacheAgrees(Apply(w, step))
  {
    if step.NewRegistration? || step.FindRow? || step.UpsertRow? || step.InstallDevice? {
      RegistrationAgrees(w, step);
    } else if step.BindRow? || step.BindMemory? {
      BindingAgrees(w, step);
    }
  }

  lemma StepBinders(w: World, step: Step)
    requires BindersOwn(w)
    ensures BindersOwn(Apply(w, step))
  {
  }

  /** Whatever interleaves, the hub's owners agree with the store's and stored owners stay. */
  lemma {:induction false} RunAgrees(w: World, steps: seq<Step>)
    requires CacheAgrees(w) && BindersOwn(w)
    ensures CacheAgrees(Run(w, steps)) && BindersOwn(Run(w, steps)) && OwnersStay(w, Run(w, steps))
    decreases |steps|
  {
    if steps != [] {
      StepAgrees(w, steps[0]);
      StepBinders(w, steps[0]);
      StepOwners(w, steps[0]);
      RunAgrees(Apply(w, steps[0]), steps[1..]);
    }
  }

  /** A hub just started beside a store that already has rows. */
  function Start(rows: map<string, string>): World {
    World(rows, map[], [], [])
  }

  /** When a binding succeeded, the stored owner is that user and stays so, and the
      device, whenever it is connected, is held for that user or for nobody yet. */
  lemma BoundDeviceIsOwned(rows: map<string, string>, steps: seq<Step>, later: seq<Step>, b: nat)
    requires var w := Run(Start(rows), steps);
             b < |w.bindings| && w.bindings[b].phase.Bound?
    ensures var binding := Run(Start(rows), steps).bindings[b];
            var v := Run(Run(Start(rows), steps), later);
            && binding.deviceID in v.rows && v.rows[binding.deviceID] == binding.userID
            && (binding.deviceID in v.devices ==> v.devices[binding.deviceID].userID in {"", binding.userID})
  {
    RunAgrees(Start(rows), steps);
    RunAgrees(Run(Start(rows), steps), later);
  }

  /** So two users are never both told that they have the same device. */
  lemma OneUserPerDevice(rows: map<string, string>, steps: seq<Step>, a: nat, b: nat)
    requires var w := Run(Start(rows), steps);
             && a < |w.bindings| && b < |w.bindings|
             && w.bindings[a].phase.Bound? && w.bindings[b].phase.Bound?
             && w.bindings[a].deviceID == w.bindings[b].deviceID
    ensures var w := Run(Start(rows), steps);
            w.bindings[a].userID == w.bindings[b].userID != ""
  {
    RunAgrees(Start(rows), steps);
  }

  /** A bound device is one of its user's for every capability it has, whenever it is
      connected, and of no other user's while it is held for its user. */
  lemma OwnerSelects(rows: map<string, string>, steps: seq<Step>, later: seq<Step>, b: nat, capability: string, user: string)
    requires var w := Run(Start(rows), steps);
             b < |w.bindings| && w.bindings[b].phase.Bound?
    ensures var binding := Run(Start(rows), steps).bindings[b];
            var devices := Run(Run(Start(rows), steps), later).devices;
            binding.deviceID in devices ==>
              && (capability in devices[binding.deviceID].capabilities <==>
                    binding.deviceID in Matching(devices, binding.userID, capability))
              && (binding.deviceID in Matching(devices, user, capability) ==>
                    user == binding.userID || devices[binding.deviceID].userID == "")
  {
    BoundDeviceIsOwned(rows, steps, later, b);
  }

  lemma FourSteps(w: World, a: Step, b: Step, c: Step, d: Step)
    ensures Run(w, [a, b, c, d]) == Apply(Apply(Apply(Apply(w, a), b), c), d)
  {
    assert [a, b, c, d][1..] == [b, c, d] && [b, c, d][1..] == [c, d] && [c, d][1..] == [d] && [d][1..] == [];
    assert Run(w, [a, b, c, d]) == Run(Apply(w, a), [b, c, d]);
    assert Run(Apply(w, a), [b, c, d]) == Run(Apply(Apply(w, a), b), [c, d]);
    assert Run(Apply(Apply(w, a), b), [c, d]) == Run(Apply(Apply(Apply(w, a), b), c), [d]);
  }

  /** w with one more registration, and the tables as it has left them. */
  function WithRegistration(w: World, rows: map<string, string>, devices: map<string, Device>, registration: Registration): World {
    w.(rows := rows, devices := devices, registrations := w.registrations + [registration])
  }

  lemma RegistrationSteps(w: World, rows: map<string, string>, devices: map<string, Device>, a: Registration)
    ensures var r, x := |w.registrations|, WithRegistration(w, rows, devices, a);
            && (a.phase.Asking? ==>
                  Apply(x, FindRow(r))
                    == WithRegistration(w, rows, devices,
                                        a.(phase := Found(if a.deviceID in rows then rows[a.deviceID] else ""))))
            && (a.phase.Found? ==>
                  Apply(x, UpsertRow(r))
                    == WithRegistration(w, Upsert(rows, a.deviceID, a.phase.userID), devices,
                                        a.(phase := Upserted(a.phase.userID))))
            && (a.phase.Upserted? ==>
                  Apply(x, InstallDevice(r))
                    == WithRegistration(w, rows, devices[a.deviceID := Device(a.phase.userID, a.capabilities, a.connection)],
                                        a.(phase := Installed)))
  {
  }

  /** An undisturbed registration puts the device into the table for its stored owner, if it
      has one, and into the store if it is not there yet. */
  lemma RegisteredForItsOwner(w: World, id: string, capabilities: seq<string>, connection: nat)
    requires id != ""
    ensures var r := |w.registrations|;
            var v := Run(w, [NewRegistration(id, capabilities, connection), FindRow(r), UpsertRow(r), InstallDevice(r)]);
            && v.devices == w.devices[id := Device(if id in w.rows then w.rows[id] else "", capabilities, connection)]
            && v.rows == if id in w.rows then w.rows else w.rows[id := ""]
  {
    var r, owner := |w.registrations|, if id in w.rows then w.rows[id] else "";
    var a := Registration(id, capabilities, connection, Asking);
    FourSteps(w, NewRegistration(id, capabilities, connection), FindRow(r), UpsertRow(r), InstallDevice(r));
    assert Apply(w, NewRegistration(id, capabilities, connection)) == WithRegistration(w, w.rows, w.devices, a);
    RegistrationSteps(w, w.rows, w.devices, a);
    RegistrationSteps(w, w.rows, w.devices, a.(phase := Found(owner)));
    RegistrationSteps(w, Upsert(w.rows, id, owner), w.devices, a.(phase := Upserted(owner)));
  }

  /** w with one more binding, and the tables as it has left them. */
  function WithBinding(w: World, rows: map<string, string>, devices: map<string, Device>, binding: Binding): World {
    w.(rows := rows, devices := devices, bindings := w.bindings + [binding])
  }

  lemma BindingSteps(w: World, rows: map<string, string>, devices: map<string, Device>, a: Binding)
    ensures var b, x, id, user := |w.bindings|, WithBinding(w, rows, devices, a), a.deviceID, a.userID;
            && Apply(x, CheckMemory(b))
                 == (if a.phase.Entering? then
                       WithBinding(w, rows, devices,
                                   a.(phase := if user != "" && MayBind(devices, id, user) then Checked else Rejected))
                     else x)
            && Apply(x, BindRow(b))
                 == (if a.phase.Checked? then
                       WithBinding(w, BindRows(rows, id, user), devices,
                                   a.(phase := if RowMatches(rows, id, user) then Stored else Rejected))
                     else x)
            && Apply(x, BindMemory(b))
                 == (if a.phase.Stored? then
                       WithBinding(w, rows, Bind(devices, id, user),
                                   a.(phase := if MayBind(devices, id, user) then Bound else Rejected))
                     else x)
  {
  }

  /** An undisturbed binding succeeds exactly if the device is connected and no other user's, in
      memory and in the store; then both hold it for the user. */
  lemma BindsIff(w: World, id: string, user: string)
    ensures var b := |w.bindings|;
            var v := Run(w, [NewBinding(id, user), CheckMemory(b), BindRow(b), BindMemory(b)]);
            && |v.bindings| == b + 1
            && (v.bindings[b].phase.Bound? <==>
                  && user != "" && id in w.devices && id in w.rows
                  && w.devices[id].userID in {"", user} && w.rows[id] in {"", user})
            && (v.bindings[b].phase.Bound? ==>
                  && v.rows == w.rows[id := user]
                  && v.devices == w.devices[id := Device(user, w.devices[id].capabilities, w.devices[id].connection)])
            && (!v.bindings[b].phase.Bound? ==> v.devices == w.devices && v.rows == w.rows)
  {
    var b, a := |w.bindings|, Binding(id, user, Entering);
    FourSteps(w, NewBinding(id, user), CheckMemory(b), BindRow(b), BindMemory(b));
    assert Apply(w, NewBinding(id, user)) == WithBinding(w, w.rows, w.devices, a);
    BindingSteps(w, w.rows, w.devices, a);
    BindingSteps(w, w.rows, w.devices, a.(phase := Rejected));
    BindingSteps(w, w.rows, w.devices, a.(phase := Checked));
    BindingSteps(w, BindRows(w.rows, id, user), w.devices, a.(phase := Stored));
  }

  predicate IsConnected(w: World, id: string, connection: nat) {
    id in w.devices && w.devices[id].connection == connection
  }

  /** No registration of this connection is under way. */
  predicate AllInstalled(w: World, id: string, connection: nat) {
    forall r :: 0 <= r < |w.registrations| && w.registrations[r].deviceID == id && w.registrations[r].connection == connection ==>
      w.registrations[r].phase.Installed?
  }

  predicate Registers(step: Step, id: string, connection: nat) {
    step.NewRegistration? && step.deviceID == id && step.connection == connection
  }

  lemma StepKeepsGone(w: World, step: Step, id: string, connection: nat)
    requires AllInstalled(w, id, connection) && !IsConnected(w, id, connection) && !Registers(step, id, connection)
    ensures AllInstalled(Apply(w, step), id, connection) && !IsConnected(Apply(w, step), id, connection)
  {
  }

  lemma {:induction false} RunKeepsGone(w: World, steps: seq<Step>, id: string, connection: nat)
    requires AllInstalled(w, id, connection) && !IsConnected(w, id, connection)
    requires forall k :: 0 <= k < |steps| ==> !Registers(steps[k], id, connection)
    ensures !IsConnected(Run(w, steps), id, connection)
    decreases |steps|
  {
    if steps != [] {
      StepKeepsGone(w, steps[0], id, connection);
      RunKeepsGone(Apply(w, steps[0]), steps[1..], id, connection);
    }
  }

  /** A registered connection that has ended takes its device away for good, and nothing else:
      not the device's next connection, nor any other device. */
  lemma GoneForGood(w: World, id: string, connection: nat, later: seq<Step>)
    requires AllInstalled(w, id, connection)
    requires forall k :: 0 <= k < |later| ==> !Registers(later[k], id, connection)
    ensures var v := Apply(w, Disconnect(id, connection));
            && v.devices == (if IsConnected(w, id, connection) then w.devices - {id} else w.devices)
            && !IsConnected(Run(v, later), id, connection)
  {
    RunKeepsGone(Apply(w, Disconnect(id, connection)), later, id, connection);
  }

  /** No device is ever kept under an empty id, which selection takes for none. */
  lemma NoEmptyID(rows: map<string, string>, steps: seq<Step>)
    ensures "" !in Run(Start(rows), steps).devices
  {
    RunAgrees(Start(rows), steps);
  }
}
