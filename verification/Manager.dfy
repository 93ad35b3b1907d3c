/** Concurrent add, update and remove of managed folders over two maps: the live `folders` and the
    saved configuration. A folder's operation lock admits one operation per folder; one writer at a
    time saves the configuration; everything else interleaves. */
module Manager {
  import opened Core

  type FolderId = nat
  type DeviceId = nat

  /** What an operation is careful about: the paths that another folder could come near, the endpoint
      that the identity file holds, and the device the folder refers to. The paths are the root and
      those of the private paths, state and identity, that lie outside the management directory; what
      lies in the folder's own directory there, `normalize` keeps from every other folder. */
  datatype View = View(paths: set<WirePath>, endpoint: nat, device: Option<DeviceId>, peer: Option<nat>)
  {
    /** What `normalize` lets through: there are paths, and none of them is the file system root,
        which would overlap the management directory. */
    predicate Normal() {
      paths != {} && forall p :: p in paths ==> p.components != []
    }
  }

  /** `paths_conflict`, or a shared endpoint identity. */
  predicate Conflict(v: View, w: View) {
    v.endpoint == w.endpoint || exists a, b :: a in v.paths && b in w.paths && Overlaps(a.components, b.components)
  }

  /** The operation that holds a folder's lock. A failing operation stops its worker before it
      rolls back; `Removed` is saved as gone but still in `folders`. */
  datatype Operation =
    | Adding
    | AddFailing
    | Updating(former: View)
    | UpdateFailing(former: View)
    | Removing
    | Removed

  /** A configuration being written: whose it is, and the complete new contents. */
  datatype Writer = NoWriter | Saving(owner: Option<FolderId>, folders: map<FolderId, View>, devices: map<DeviceId, nat>)

  datatype State = State(
    folders: map<FolderId, View>,
    saved: map<FolderId, View>,
    devices: map<DeviceId, nat>,
    operations: map<FolderId, Operation>,
    writer: Writer)

  datatype Event =
    | Reserve(id: FolderId, view: View)
    | UpdateReserve(id: FolderId, view: View)
    | RemoveBegin(id: FolderId)
    | StartFails(id: FolderId)
    | SaveBegin(id: FolderId)
    | SaveCommit
    | SaveFails
    | RollBack(id: FolderId)
    | Forget(id: FolderId)
    | AddDevice(device: DeviceId, endpoint: nat)
    | UpdateDevice(device: DeviceId, endpoint: nat)
    | RemoveDevice(device: DeviceId)
    | RemoveStopFails(id: FolderId)
    | StopFails(id: FolderId)

  /** `validate_device_reference`. */
  predicate DeviceKnown(devices: map<DeviceId, nat>, v: View) {
    v.device.Some? ==> v.device.value in devices && (v.peer.Some? ==> devices[v.device.value] == v.peer.value)
  }

  /** The check under the snapshot lock, against both maps. */
  predicate Free(s: State, view: View, but: set<FolderId>) {
    && (forall j :: j in s.folders && j !in but ==> !Conflict(view, s.folders[j]))
    && (forall j :: j in s.saved && j !in but ==> !Conflict(view, s.saved[j]))
  }

  predicate Holds(s: State, id: FolderId) {
    id in s.operations
  }

  predicate Owns(s: State, id: FolderId) {
    s.writer.Saving? && s.writer.owner == Some(id)
  }

  predicate Enabled(s: State, e: Event) {
    match e
    case Reserve(id, view) => id !in s.folders && id !in s.saved && !Holds(s, id) && view.Normal() && Free(s, view, {})
    case UpdateReserve(id, view) => id in s.folders && !Holds(s, id) && view.Normal() && Free(s, view, {id})
    case RemoveBegin(id) => id in s.folders && !Holds(s, id)
    case StartFails(id) => Holds(s, id) && !Owns(s, id) && (s.operations[id].Adding? || s.operations[id].Updating?)
    case SaveBegin(id) =>
      Holds(s, id) && id in s.folders && s.writer == NoWriter
      && (s.operations[id].Adding? || s.operations[id].Updating? || s.operations[id].Removing?)
    case SaveCommit => s.writer.Saving?
    case SaveFails => s.writer.Saving?
    case RollBack(id) => Holds(s, id) && (s.operations[id].AddFailing? || s.operations[id].UpdateFailing?)
    case Forget(id) => Holds(s, id) && s.operations[id].Removed?
    case AddDevice(device, endpoint) =>
      s.writer == NoWriter && device !in s.devices && endpoint !in s.devices.Values
    case UpdateDevice(device, endpoint) =>
      s.writer == NoWriter && device in s.devices
      && forall d :: d in s.devices && d != device ==> s.devices[d] != endpoint
    case RemoveDevice(device) =>
      s.writer == NoWriter && device in s.devices
      && forall j :: j in s.saved ==> s.saved[j].device != Some(device)
    case RemoveStopFails(id) => Holds(s, id) && !Owns(s, id) && s.operations[id].Removing?
    case StopFails(id) =>
      Holds(s, id) && !Owns(s, id)
      && (s.operations[id].AddFailing? || s.operations[id].Updating? || s.operations[id].UpdateFailing?)
  }

  function Done(s: State, id: FolderId): State {
    s.(operations := s.operations - {id})
  }

  /** Undoing an operation that did not get through. */
  function Undone(s: State, id: FolderId): State
    requires Holds(s, id)
  {
    match s.operations[id]
    case Updating(former) => Done(s, id).(folders := s.folders[id := former])
    case UpdateFailing(former) => Done(s, id).(folders := s.folders[id := former])
    case Removing => Done(s, id)
    case _ => Done(s, id).(folders := s.folders - {id})
  }

  /** The operation learns that its save failed. */
  function Failing(s: State, id: FolderId): State
    requires Holds(s, id)
  {
    match s.operations[id]
    case Adding => s.(operations := s.operations[id := AddFailing])
    case Updating(former) => s.(operations := s.operations[id := UpdateFailing(former)])
    case _ => Done(s, id)
  }

  function Apply(s: State, e: Event): State
    requires Enabled(s, e)
  {
    match e
    case Reserve(id, view) => s.(folders := s.folders[id := view], operations := s.operations[id := Adding])
    case UpdateReserve(id, view) =>
      s.(folders := s.folders[id := view], operations := s.operations[id := Updating(s.folders[id])])
    case RemoveBegin(id) => s.(operations := s.operations[id := Removing])
    case StartFails(id) => Undone(s, id)
    case SaveBegin(id) =>
      if s.operations[id].Removing? then s.(writer := Saving(Some(id), s.saved - {id}, s.devices))
      else if !DeviceKnown(s.devices, s.folders[id]) || (s.operations[id].Updating? && id !in s.saved) then Failing(s, id)
      else s.(writer := Saving(Some(id), s.saved[id := s.folders[id]], s.devices))
    case SaveCommit =>
      var next := s.(saved := s.writer.folders, devices := s.writer.devices, writer := NoWriter);
      if s.writer.owner.None? || !Holds(s, s.writer.owner.value) then next
      else if s.operations[s.writer.owner.value].Removing? then
        next.(operations := s.operations[s.writer.owner.value := Removed])
      else Done(next, s.writer.owner.value)
    case SaveFails =>
      var next := s.(writer := NoWriter);
      if s.writer.owner.Some? && Holds(s, s.writer.owner.value) then Failing(next, s.writer.owner.value) else next
    case RollBack(id) => Undone(s, id)
    case Forget(id) => Undone(s, id)
    case AddDevice(device, endpoint) => s.(writer := Saving(None, s.saved, s.devices[device := endpoint]))
    case UpdateDevice(device, endpoint) => s.(writer := Saving(None, s.saved, s.devices[device := endpoint]))
    case RemoveDevice(device) => s.(writer := Saving(None, s.saved, s.devices - {device}))
    case RemoveStopFails(id) => Done(s, id)
    case StopFails(id) => Done(s, id)
  }

  ghost predicate Runs(s: State, events: seq<Event>, t: State)
    decreases |events|
  {
    if events == [] then t == s
    else Enabled(s, events[0]) && Runs(Apply(s, events[0]), events[1..], t)
  }

  // ---------------------------------------------------------------- safety

  /** The folder shows this view, live or saved. */
  predicate Shows(s: State, id: FolderId, v: View) {
    (id in s.folders && s.folders[id] == v) || (id in s.saved && s.saved[id] == v)
  }

  ghost predicate Apart(s: State) {
    forall i, j, v, w :: i != j && Shows(s, i, v) && Shows(s, j, w) ==> !Conflict(v, w)
  }

  /** No device that a folder refers to is missing, and no two devices share an endpoint. */
  ghost predicate DevicesOk(folders: map<FolderId, View>, devices: map<DeviceId, nat>) {
    && (forall id :: id in folders && folders[id].device.Some? ==> folders[id].device.value in devices)
    && (forall d, e :: d in devices && e in devices && d != e ==> devices[d] != devices[e])
  }

  /** Whatever conflicts with `b` conflicts with `a` already: the same endpoint, and every path of `b`
      lies at or below one of `a`. */
  predicate Shelters(a: View, b: View) {
    a.endpoint == b.endpoint && forall q :: q in b.paths ==> exists c :: c in a.paths && c.components <= q.components
  }

  /** The saved view is the live one; or, after an excusable failed stop, it shelters it. */
  predicate Fits(strict: bool, saved: View, live: View) {
    if strict then saved == live else Shelters(saved, live)
  }

  /** How the two maps stand for one folder, given the operation on it. */
  ghost predicate InStep(strict: bool, s: State, id: FolderId) {
    if id !in s.operations then
      (id in s.folders <==> id in s.saved) && (id in s.folders ==> Fits(strict, s.saved[id], s.folders[id]))
    else
      && id in s.folders
      && match s.operations[id]
         case Adding => id !in s.saved
         case AddFailing => id !in s.saved
         case Updating(former) => id in s.saved && Fits(strict, s.saved[id], former) && former.Normal()
         case UpdateFailing(former) => id in s.saved && Fits(strict, s.saved[id], former) && former.Normal()
         case Removing => id in s.saved && Fits(strict, s.saved[id], s.folders[id])
         case Removed => id !in s.saved
  }

  /** A failed stop of an add or update is excusable if the view it leaves behind is saved, or
      sheltered by the saved one. A caller can tell before stopping the worker. */
  predicate Excusable(strict: bool, s: State, e: Event) {
    e.StopFails? ==> e.id in s.saved && e.id in s.folders && Fits(strict, s.saved[e.id], s.folders[e.id])
  }

  /** A draft differs from the configuration in its owner's folder, or in the devices alone. */
  ghost predicate DraftOk(s: State) {
    s.writer.Saving? ==>
      && DevicesOk(s.writer.folders, s.writer.devices)
      && match s.writer.owner
         case None => s.writer.folders == s.saved
         case Some(id) =>
           && id in s.operations && id in s.folders && s.writer.devices == s.devices
           && match s.operations[id]
              case Adding => s.writer.folders == s.saved[id := s.folders[id]]
              case Updating(_) => s.writer.folders == s.saved[id := s.folders[id]]
              case Removing => s.writer.folders == s.saved - {id}
              case _ => false
  }

  ghost predicate AllNormal(s: State) {
    forall id, v :: Shows(s, id, v) ==> v.Normal()
  }

  ghost predicate Safe(strict: bool, s: State) {
    && Apart(s) && AllNormal(s) && DevicesOk(s.saved, s.devices)
    && (forall id :: InStep(strict, s, id))
    && DraftOk(s)
  }

  lemma ConflictIsMutual(v: View, w: View)
    ensures Conflict(v, w) <==> Conflict(w, v)
  {
    if Conflict(v, w) && v.endpoint != w.endpoint {
      var a, b :| a in v.paths && b in w.paths && Overlaps(a.components, b.components);
      assert Overlaps(b.components, a.components);
    }
    if Conflict(w, v) && v.endpoint != w.endpoint {
      var a, b :| a in w.paths && b in v.paths && Overlaps(a.components, b.components);
      assert Overlaps(b.components, a.components);
    }
  }

  /** What the event newly reserves for a folder. */
  predicate Reserves(e: Event, id: FolderId, v: View) {
    (e.Reserve? && e.id == id && e.view == v) || (e.UpdateReserve? && e.id == id && e.view == v)
  }

  lemma ShelteredConflicts(a: View, b: View, v: View)
    requires Shelters(a, b) && Conflict(v, b)
    ensures Conflict(v, a)
  {
    if v.endpoint != b.endpoint {
      var x, q :| x in v.paths && q in b.paths && Overlaps(x.components, q.components);
      var c :| c in a.paths && c.components <= q.components;
      assert Overlaps(x.components, c.components);
    }
  }

  /** The view that an update would return to. */
  predicate Former(s: State, id: FolderId, v: View) {
    && id in s.operations
    && (s.operations[id].Updating? || s.operations[id].UpdateFailing?)
    && s.operations[id].former == v
  }

  lemma Provenance(s: State, e: Event, id: FolderId, v: View)
    requires DraftOk(s) && Enabled(s, e) && Shows(Apply(s, e), id, v)
    ensures Shows(s, id, v) || Reserves(e, id, v) || Former(s, id, v)
  {
    hide DevicesOk, Conflict, DeviceKnown, Free;
  }

  /** Only a reservation shows anything beyond what is shown already: a rollback returns to a view
      that the saved one shelters, and a save writes what is live. */
  lemma NothingNew(strict: bool, s: State, e: Event, id: FolderId, v: View) returns (u: View)
    requires InStep(strict, s, id) && DraftOk(s) && AllNormal(s) && Enabled(s, e) && Shows(Apply(s, e), id, v)
    ensures Reserves(e, id, v) || (Shows(s, id, u) && Shelters(u, v))
    ensures v.Normal()
  {
    hide DevicesOk, Conflict, DeviceKnown, Free, Shelters, Apply, DraftOk, View.Normal;
    Provenance(s, e, id, v);
    SheltersItself(v);
    u := if Former(s, id, v) && !Shows(s, id, v) && id in s.saved then s.saved[id] else v;
  }

  lemma SheltersItself(v: View)
    ensures Shelters(v, v)
  {
  }

  lemma ReservedIsFree(s: State, e: Event, id: FolderId, v: View, j: FolderId, w: View)
    requires Enabled(s, e) && Reserves(e, id, v) && j != id && Shows(s, j, w)
    ensures !Conflict(v, w)
  {
    hide Conflict;
  }

  /** Two views apart from each other keep apart what they shelter. */
  lemma ShelteredApart(a: View, v: View, b: View, w: View)
    requires !Conflict(a, b) && Shelters(a, v) && Shelters(b, w)
    ensures !Conflict(v, w)
  {
    hide Conflict, Shelters;
    if Conflict(v, w) {
      ConflictIsMutual(v, w);
      ShelteredConflicts(a, v, w);
      ConflictIsMutual(w, a);
      ShelteredConflicts(b, w, a);
    }
  }

  lemma KeepsApart(strict: bool, s: State, e: Event)
    requires Safe(strict, s) && Enabled(s, e)
    ensures Apart(Apply(s, e)) && AllNormal(Apply(s, e))
  {
    hide Enabled, Apply, Shows, Conflict, InStep, DraftOk, DevicesOk, Shelters, AllNormal;
    var t := Apply(s, e);
    forall i, j, v, w | i != j && Shows(t, i, v) && Shows(t, j, w) ensures !Conflict(v, w) {
      assert InStep(strict, s, i) && InStep(strict, s, j);
      var a := NothingNew(strict, s, e, i, v);
      var b := NothingNew(strict, s, e, j, w);
      SheltersItself(v);
      SheltersItself(w);
      if Shows(s, i, a) && Shelters(a, v) && Shows(s, j, b) && Shelters(b, w) {
        ShelteredApart(a, v, b, w);
      } else if Shows(s, j, b) && Shelters(b, w) {
        ReservedIsFree(s, e, i, v, j, b);
        ShelteredApart(v, v, b, w);
      } else {
        ReservedIsFree(s, e, j, w, i, a);
        ShelteredApart(w, w, a, v);
        ConflictIsMutual(v, w);
      }
    }
    KeepsNormal(strict, s, e);
  }

  lemma KeepsNormal(strict: bool, s: State, e: Event)
    requires Safe(strict, s) && Enabled(s, e)
    ensures AllNormal(Apply(s, e))
  {
    hide Enabled, Apply, Shows, Conflict, InStep, DraftOk, DevicesOk, Shelters, Apart;
    forall id, v | Shows(Apply(s, e), id, v) ensures v.Normal() {
      assert InStep(strict, s, id);
      var u := NothingNew(strict, s, e, id, v);
    }
  }

  lemma SavesInStep(strict: bool, s: State, e: Event, id: FolderId)
    requires InStep(strict, s, id) && DraftOk(s) && Enabled(s, e) && (e.SaveBegin? || e.SaveCommit? || e.SaveFails?)
    ensures InStep(strict, Apply(s, e), id)
  {
    hide DevicesOk, Conflict, DeviceKnown, Free, Shelters, View.Normal;
    if id in s.folders { SheltersItself(s.folders[id]); }
  }

  lemma KeepsInStep(strict: bool, s: State, e: Event, id: FolderId)
    requires InStep(strict, s, id) && DraftOk(s) && AllNormal(s) && Enabled(s, e) && Excusable(strict, s, e)
    ensures InStep(strict, Apply(s, e), id)
  {
    hide DraftOk, Conflict, DeviceKnown, Free, Shelters, View.Normal, DevicesOk;
    assert forall v :: Shows(s, id, v) ==> v.Normal();
    if e.SaveBegin? || e.SaveCommit? || e.SaveFails? {
      SavesInStep(strict, s, e, id);
    }
  }

  lemma KeepsDevices(s: State, e: Event)
    requires DraftOk(s) && Enabled(s, e) && DevicesOk(s.saved, s.devices)
    ensures DevicesOk(Apply(s, e).saved, Apply(s, e).devices)
  {
    hide Conflict, DeviceKnown, Free, DevicesOk;
  }

  predicate StartsWriting(e: Event) {
    e.SaveBegin? || e.AddDevice? || e.UpdateDevice? || e.RemoveDevice?
  }

  lemma KeepsOldDraft(s: State, e: Event)
    requires DraftOk(s) && Enabled(s, e) && !StartsWriting(e)
    ensures DraftOk(Apply(s, e))
  {
    hide Conflict, DeviceKnown, Free, DevicesOk;
  }

  lemma MakesDraft(s: State, e: Event)
    requires Enabled(s, e) && StartsWriting(e) && DevicesOk(s.saved, s.devices) && s.writer == NoWriter
    ensures DraftOk(Apply(s, e))
  {
    hide Conflict, Free;
  }

  lemma KeepsDraft(s: State, e: Event)
    requires DraftOk(s) && Enabled(s, e) && DevicesOk(s.saved, s.devices)
    ensures DevicesOk(Apply(s, e).saved, Apply(s, e).devices) && DraftOk(Apply(s, e))
  {
    hide Conflict, DevicesOk, DraftOk, Apply;
    KeepsDevices(s, e);
    if StartsWriting(e) { MakesDraft(s, e); } else { KeepsOldDraft(s, e); }
  }

  lemma StepIsSafe(strict: bool, s: State, e: Event)
    requires Safe(strict, s) && Enabled(s, e) && Excusable(strict, s, e)
    ensures Safe(strict, Apply(s, e))
  {
    hide Enabled, Apply, Apart, InStep, DraftOk, DevicesOk, AllNormal, Excusable;
    KeepsApart(strict, s, e);
    KeepsDraft(s, e);
    forall id ensures InStep(strict, Apply(s, e), id) {
      assert InStep(strict, s, id);
      KeepsInStep(strict, s, e, id);
    }
  }

  /** Every failed stop of the run is excusable where it happens. */
  ghost predicate AllExcusable(strict: bool, s: State, events: seq<Event>)
    decreases |events|
  {
    events != [] && Enabled(s, events[0]) ==>
      Excusable(strict, s, events[0]) && AllExcusable(strict, Apply(s, events[0]), events[1..])
  }

  lemma {:induction false} RunsAreSafe(strict: bool, s: State, events: seq<Event>, t: State)
    requires Safe(strict, s) && Runs(s, events, t) && AllExcusable(strict, s, events)
    ensures Safe(strict, t)
    decreases |events|
  {
    hide Safe, Enabled, Apply, Excusable;
    if events != [] {
      StepIsSafe(strict, s, events[0]);
      RunsAreSafe(strict, Apply(s, events[0]), events[1..], t);
    }
  }

  /** A configuration as it is opened: nothing under way, both maps equal, no conflict. */
  ghost predicate Opened(s: State) {
    && s.operations == map[] && s.writer == NoWriter && s.folders == s.saved
    && DevicesOk(s.saved, s.devices)
    && (forall i :: i in s.saved ==> s.saved[i].Normal())
    && forall i, j :: i in s.saved && j in s.saved && i != j ==> !Conflict(s.saved[i], s.saved[j])
  }

  /** In every interleaving in which each failed stop is excusable: whatever two distinct folders
      show, live or saved, does not conflict; no saved folder refers to a missing device; an update
      that is still under way could be rolled back without a conflict; and what an idle folder shows
      is sheltered by what is saved of it, and is just that if no failed stop left another view. */
  lemma FoldersStayApart(s: State, events: seq<Event>, t: State)
    requires Opened(s) && Runs(s, events, t) && AllExcusable(false, s, events)
    ensures forall i, j, v, w :: i != j && Shows(t, i, v) && Shows(t, j, w) ==>
              v.endpoint != w.endpoint && forall a, b :: a in v.paths && b in w.paths ==> !(a.components <= b.components)
    ensures forall id :: id in t.saved && t.saved[id].device.Some? ==> t.saved[id].device.value in t.devices
    ensures forall d, e :: d in t.devices && e in t.devices && d != e ==> t.devices[d] != t.devices[e]
    ensures forall id, j, w :: id in t.operations && t.operations[id].Updating? && j != id && Shows(t, j, w) ==>
              !Conflict(t.operations[id].former, w)
    ensures forall id :: id in t.folders && id !in t.operations ==> id in t.saved && Shelters(t.saved[id], t.folders[id])
    ensures AllExcusable(true, s, events) ==>
              forall id :: id in t.folders && id !in t.operations ==> id in t.saved && t.saved[id] == t.folders[id]
  {
    hide Runs, Conflict, Shelters, AllExcusable;
    OpenedIsSafe(false, s);
    RunsAreSafe(false, s, events, t);
    forall i, j, v, w | i != j && Shows(t, i, v) && Shows(t, j, w)
      ensures v.endpoint != w.endpoint && forall a, b :: a in v.paths && b in w.paths ==> !(a.components <= b.components)
    {
      ApartMeans(v, w);
    }
    forall id, j, w | id in t.operations && t.operations[id].Updating? && j != id && Shows(t, j, w)
      ensures !Conflict(t.operations[id].former, w)
    {
      assert InStep(false, t, id);
      assert Shows(t, id, t.saved[id]);
      SheltersItself(w);
      ShelteredApart(t.saved[id], t.operations[id].former, w, w);
    }
    forall id | id in t.folders && id !in t.operations ensures id in t.saved && Shelters(t.saved[id], t.folders[id]) {
      assert InStep(false, t, id);
    }
    if AllExcusable(true, s, events) {
      OpenedIsSafe(true, s);
      RunsAreSafe(true, s, events, t);
      forall id | id in t.folders && id !in t.operations ensures id in t.saved && t.saved[id] == t.folders[id] {
        assert InStep(true, t, id);
      }
    }
  }

  /** Not to conflict: different endpoints, and no path at, above or below one of the other. */
  lemma ApartMeans(v: View, w: View)
    ensures Conflict(v, w) <==>
            v.endpoint == w.endpoint
            || exists a, b :: a in v.paths && b in w.paths && (a.components <= b.components || b.components <= a.components)
    ensures !Conflict(v, w) ==> forall a, b :: a in v.paths && b in w.paths ==> !(a.components <= b.components)
  {
    forall a: WirePath, b: WirePath
      ensures Overlaps(a.components, b.components) <==> a.components <= b.components || b.components <= a.components
    {
    }
  }

  lemma OpenedIsSafe(strict: bool, s: State)
    requires Opened(s)
    ensures Safe(strict, s)
  {
    hide Conflict, Shelters, View.Normal;
    forall i, j, v, w | i != j && Shows(s, i, v) && Shows(s, j, w) ensures !Conflict(v, w) {
      assert i in s.saved && j in s.saved && s.saved[i] == v && s.saved[j] == w;
    }
    forall id | id in s.saved ensures Shelters(s.saved[id], s.saved[id]) { SheltersItself(s.saved[id]); }
  }

  // ---------------------------------------------------------------- undisturbed operations

  /** The device exists, and a folder that names its peer names the device's endpoint. */
  predicate Refers(devices: map<DeviceId, nat>, v: View) {
    match v.device
    case None => true
    case Some(d) => d in devices && (v.peer == None || v.peer == Some(devices[d]))
  }

  /** An add whose worker starts and whose device is known is saved, and nothing else changes. */
  lemma AddIsSaved(s: State, id: FolderId, view: View)
    requires Enabled(s, Reserve(id, view)) && s.writer == NoWriter && Refers(s.devices, view)
    ensures var r := Apply(s, Reserve(id, view));
            && r.folders == s.folders[id := view] && r.saved == s.saved
            && Enabled(r, SaveBegin(id)) && Apply(r, SaveBegin(id)).writer.Saving?
            && Apply(Apply(r, SaveBegin(id)), SaveCommit) == s.(folders := s.folders[id := view], saved := s.saved[id := view])
  {
    hide Conflict, View.Normal, Free;
    assert s.operations[id := Adding] - {id} == s.operations;
  }

  /** An add that does not get through leaves everything as before: its worker does not start, its
      device is not known, or it cannot be saved. */
  lemma AddIsUndone(s: State, id: FolderId, view: View)
    requires Enabled(s, Reserve(id, view)) && s.writer == NoWriter
    ensures var r := Apply(s, Reserve(id, view));
            && Enabled(r, StartFails(id)) && Apply(r, StartFails(id)) == s
            && Enabled(r, SaveBegin(id))
            && var b := Apply(r, SaveBegin(id));
            var f := if Refers(s.devices, view) then Apply(b, SaveFails) else b;
            Enabled(f, RollBack(id)) && Apply(f, RollBack(id)) == s
  {
    hide Conflict, View.Normal, Free;
    assert s.folders[id := view] - {id} == s.folders;
    assert s.operations[id := Adding] - {id} == s.operations && s.operations[id := AddFailing] - {id} == s.operations;
    assert s.operations[id := Adding][id := AddFailing] == s.operations[id := AddFailing];
  }

  /** An update likewise is saved. */
  lemma UpdateIsSaved(s: State, id: FolderId, view: View)
    requires Enabled(s, UpdateReserve(id, view)) && s.writer == NoWriter && Refers(s.devices, view) && id in s.saved
    ensures var r := Apply(s, UpdateReserve(id, view));
            && r.folders == s.folders[id := view] && r.saved == s.saved
            && Enabled(r, SaveBegin(id)) && Apply(r, SaveBegin(id)).writer.Saving?
            && Apply(Apply(r, SaveBegin(id)), SaveCommit) == s.(folders := s.folders[id := view], saved := s.saved[id := view])
  {
    hide Conflict, View.Normal, Free;
    assert s.operations[id := Updating(s.folders[id])] - {id} == s.operations;
  }

  /** And one that does not get through returns to the view that was live before. */
  lemma UpdateIsUndone(s: State, id: FolderId, view: View)
    requires Enabled(s, UpdateReserve(id, view)) && s.writer == NoWriter
    ensures var r := Apply(s, UpdateReserve(id, view));
            && Enabled(r, StartFails(id)) && Apply(r, StartFails(id)) == s
            && Enabled(r, SaveBegin(id))
            && var b := Apply(r, SaveBegin(id));
            var f := if Refers(s.devices, view) && id in s.saved then Apply(b, SaveFails) else b;
            Enabled(f, RollBack(id)) && Apply(f, RollBack(id)) == s
  {
    hide Conflict, View.Normal, Free;
    var live := s.folders[id];
    assert s.folders[id := view][id := live] == s.folders;
    assert s.operations[id := Updating(live)] - {id} == s.operations && s.operations[id := UpdateFailing(live)] - {id} == s.operations;
    assert s.operations[id := Updating(live)][id := UpdateFailing(live)] == s.operations[id := UpdateFailing(live)];
  }

  /** A remove forgets the folder in both maps, or, if it cannot be saved, in neither. */
  lemma RemoveIsComplete(s: State, id: FolderId)
    requires Enabled(s, RemoveBegin(id)) && s.writer == NoWriter
    ensures var r := Apply(s, RemoveBegin(id));
            && Enabled(r, SaveBegin(id))
            && var b := Apply(r, SaveBegin(id));
            && b.writer.Saving? && Apply(b, SaveFails) == s
            && Enabled(Apply(b, SaveCommit), Forget(id))
            && Apply(Apply(b, SaveCommit), Forget(id)) == s.(folders := s.folders - {id}, saved := s.saved - {id})
  {
    assert s.operations[id := Removing] - {id} == s.operations && s.operations[id := Removing][id := Removed] - {id} == s.operations;
  }

  /** A device is added or changed only under an endpoint that no other device has, removed only when
      no saved folder refers to it, and saved or left as it was. */
  lemma DevicesAreSaved(s: State, d: DeviceId, endpoint: nat)
    requires s.writer == NoWriter
    ensures Enabled(s, AddDevice(d, endpoint)) <==> d !in s.devices && forall e :: e in s.devices ==> s.devices[e] != endpoint
    ensures Enabled(s, UpdateDevice(d, endpoint)) <==> d in s.devices && forall e :: e in s.devices && e != d ==> s.devices[e] != endpoint
    ensures Enabled(s, RemoveDevice(d)) <==> d in s.devices && forall id :: id in s.saved ==> s.saved[id].device != Some(d)
    ensures forall e :: e in {AddDevice(d, endpoint), UpdateDevice(d, endpoint), RemoveDevice(d)} && Enabled(s, e) ==>
              && Apply(Apply(s, e), SaveFails) == s
              && Apply(Apply(s, e), SaveCommit) == s.(devices := if e.RemoveDevice? then s.devices - {d} else s.devices[d := endpoint])
  {
  }

  // ---------------------------------------------------------------- a worker that will not stop

  lemma {:induction false} FreshNumber(used: set<nat>) returns (n: nat)
    ensures forall m :: m in used ==> m < n
  {
    n := 0;
    if used != {} {
      var m :| m in used;
      var k := FreshNumber(used - {m});
      n := if k <= m then m + 1 else k;
      assert forall x :: x in used ==> x == m || x in used - {m};
    }
  }

  lemma {:induction false} FreshName(used: set<string>) returns (name: string)
    ensures forall m :: m in used ==> |m| < |name|
  {
    name := "";
    if used != {} {
      var m :| m in used;
      name := FreshName(used - {m});
      if |name| <= |m| { name := m + "x"; }
    }
  }

  function AllPaths(s: State): set<WirePath> {
    (set id, p | id in s.folders && p in s.folders[id].paths :: p) + (set id, p | id in s.saved && p in s.saved[id].paths :: p)
  }

  function AllEndpoints(s: State): set<nat> {
    (set id | id in s.folders :: s.folders[id].endpoint) + (set id | id in s.saved :: s.saved[id].endpoint)
  }

  lemma ShownIsListed(s: State, id: FolderId, v: View)
    requires Shows(s, id, v)
    ensures v.endpoint in AllEndpoints(s) && v.paths <= AllPaths(s)
  {
  }

  /** A component that no listed path has at this depth. */
  lemma FreshComponent(paths: set<WirePath>, k: nat) returns (x: string)
    ensures forall p :: p in paths && |p.components| > k ==> p.components[k] != x
  {
    x := FreshName(set p | p in paths && |p.components| > k :: p.components[k]);
  }

  /** Appending a fresh component to `q` leaves only the paths that lead to `q`, or lie below it. */
  lemma Extended(b: seq<string>, q: seq<string>, x: string)
    ensures Overlaps(b, q + [x]) ==> Overlaps(b, q)
    ensures Overlaps(b, q + [x]) && !(|b| > |q| && b[|q|] == x) ==> b <= q
  {
    var long := q + [x];
    assert long[..|q|] == q && long[|q|] == x;
    if b <= long && |b| > |q| { assert b[|q|] == long[|q|]; }
    if long <= b { assert b[|q|] == long[|q|] && b[..|q|] == long[..|q|]; }
    if b <= long && |b| <= |q| { assert b == long[..|b|] == q[..|b|]; }
  }

  /** A view at a path that nobody shows conflicts only through its endpoint. */
  lemma Elsewhere(u: View, x: string, endpoint: nat)
    requires u.Normal() && forall p :: p in u.paths ==> p.components[0] != x
    ensures Conflict(u, Remote(x, endpoint)) <==> u.endpoint == endpoint
    ensures Conflict(Remote(x, endpoint), u) <==> u.endpoint == endpoint
  {
    forall p | p in u.paths ensures !Overlaps(p.components, [x]) && !Overlaps([x], p.components) {
      assert [x][0] == x;
    }
  }

  function Remote(x: string, endpoint: nat): View {
    View({WirePath([x])}, endpoint, None, None)
  }

  /** A view conflicts with `live` and with nothing else shown, if the saved view does not shelter it. */
  lemma Intruder(s: State, id: FolderId) returns (v: View)
    requires Apart(s) && AllNormal(s) && id in s.folders
    requires id in s.saved ==> !Shelters(s.saved[id], s.folders[id])
    ensures v.Normal() && Conflict(v, s.folders[id])
    ensures forall j, u :: Shows(s, j, u) && (j != id || (j in s.saved && u == s.saved[j])) ==> !Conflict(v, u)
  {
    var live := s.folders[id];
    assert Shows(s, id, live);
    if id in s.saved && s.saved[id].endpoint != live.endpoint {
      v := IntruderByEndpoint(s, id);
    } else {
      v := IntruderByPath(s, id);
    }
  }

  lemma IntruderByEndpoint(s: State, id: FolderId) returns (v: View)
    requires Apart(s) && AllNormal(s) && id in s.folders && id in s.saved && s.saved[id].endpoint != s.folders[id].endpoint
    ensures v.Normal() && Conflict(v, s.folders[id])
    ensures forall j, u :: Shows(s, j, u) && (j != id || u == s.saved[id]) ==> !Conflict(v, u)
  {
    var live := s.folders[id];
    assert Shows(s, id, live);
    var x := FreshComponent(AllPaths(s), 0);
    v := Remote(x, live.endpoint);
    forall j, u | Shows(s, j, u) && (j != id || u == s.saved[id]) ensures !Conflict(v, u) {
      ShownIsListed(s, j, u);
      Elsewhere(u, x, live.endpoint);
      assert j != id ==> !Conflict(u, live);
    }
  }

  lemma IntruderByPath(s: State, id: FolderId) returns (v: View)
    requires Apart(s) && AllNormal(s) && id in s.folders
    requires id in s.saved ==> s.saved[id].endpoint == s.folders[id].endpoint && !Shelters(s.saved[id], s.folders[id])
    ensures v.Normal() && Conflict(v, s.folders[id])
    ensures forall j, u :: Shows(s, j, u) && (j != id || (j in s.saved && u == s.saved[j])) ==> !Conflict(v, u)
  {
    var live := s.folders[id];
    assert Shows(s, id, live);
    var q :| q in live.paths && (id in s.saved ==> forall c :: c in s.saved[id].paths ==> !(c.components <= q.components));
    var x := FreshComponent(AllPaths(s), |q.components|);
    var e := FreshNumber(AllEndpoints(s));
    var path := WirePath(q.components + [x]);
    v := View({path}, e, None, None);
    assert path in v.paths && Overlaps(path.components, q.components);
    forall j, u | Shows(s, j, u) && (j != id || (j in s.saved && u == s.saved[j])) ensures !Conflict(v, u) {
      ShownIsListed(s, j, u);
      if Conflict(v, u) {
        var b :| b in u.paths && Overlaps(path.components, b.components);
        Extended(b.components, q.components, x);
        ConflictIsMutual(u, live);
        assert j != id ==> Conflict(u, live);
      }
    }
  }

  /** A view that conflicts with nothing shown, nor with `v`. */
  lemma Bystander(s: State, v: View) returns (w: View)
    requires AllNormal(s) && v.Normal()
    ensures w.Normal() && !Conflict(v, w) && forall j, u :: Shows(s, j, u) ==> !Conflict(w, u)
  {
    var x := FreshComponent(AllPaths(s) + v.paths, 0);
    var e := FreshNumber(AllEndpoints(s) + {v.endpoint});
    w := Remote(x, e);
    Elsewhere(v, x, e);
    forall j, u | Shows(s, j, u) ensures !Conflict(w, u) {
      ShownIsListed(s, j, u);
      Elsewhere(u, x, e);
    }
  }

  /** To shelter a view is to conflict with everything that conflicts with it. */
  lemma SheltersExactly(a: View, b: View)
    requires a.Normal() && b.Normal()
    ensures Shelters(a, b) <==> forall v: View :: v.Normal() && Conflict(v, b) ==> Conflict(v, a)
  {
    if Shelters(a, b) {
      forall v: View | v.Normal() && Conflict(v, b) ensures Conflict(v, a) { ShelteredConflicts(a, b, v); }
    } else {
      var s := State(map[0 := b], map[0 := a], map[], map[], NoWriter);
      assert forall id, v :: Shows(s, id, v) ==> id == 0 && (v == a || v == b);
      var v := Intruder(s, 0);
      assert Shows(s, 0, a);
      assert v.Normal() && Conflict(v, b) && !Conflict(v, a);
    }
  }

  ghost predicate Clash(s: State) {
    exists i, j :: i in s.folders && j in s.folders && i != j && Conflict(s.folders[i], s.folders[j])
  }

  /** Two folders come into conflict through later steps, all failed stops among them excusable. */
  ghost predicate CanClash(s: State) {
    exists events, t :: Runs(s, events, t) && AllExcusable(false, s, events) && Clash(t)
  }

  lemma NoClashWhenApart(s: State)
    requires Apart(s)
    ensures !Clash(s)
  {
    hide Conflict;
    forall i, j | i in s.folders && j in s.folders && i != j ensures !Conflict(s.folders[i], s.folders[j]) {
      assert Shows(s, i, s.folders[i]) && Shows(s, j, s.folders[j]);
    }
  }

  lemma FreeOfShown(s: State, v: View, but: set<FolderId>)
    requires forall j, u :: Shows(s, j, u) && j !in but ==> !Conflict(v, u)
    ensures Free(s, v, but)
  {
    hide Conflict;
    forall j | j in s.folders && j !in but ensures !Conflict(v, s.folders[j]) { assert Shows(s, j, s.folders[j]); }
    forall j | j in s.saved && j !in but ensures !Conflict(v, s.saved[j]) { assert Shows(s, j, s.saved[j]); }
  }

  /** The state between: folder `id` is being updated to `w`, and folder `j` has reserved `v`. */
  lemma TwoReserve(s: State, id: FolderId, j: FolderId, v: View, w: View)
    requires id in s.folders && id !in s.operations && id != j
    requires j !in s.folders && j !in s.saved && j !in s.operations
    requires v.Normal() && w.Normal() && !Conflict(v, w) && Free(s, w, {id}) && Free(s, v, {id})
    requires id in s.saved ==> !Conflict(v, s.saved[id])
    ensures var live := s.folders[id];
            var t := s.(folders := s.folders[id := w][j := v], operations := s.operations[id := Updating(live)][j := Adding]);
            Runs(s, [UpdateReserve(id, w), Reserve(j, v)], t)
  {
    hide Conflict, View.Normal;
    var e0, e1 := UpdateReserve(id, w), Reserve(j, v);
    assert Enabled(s, e0);
    var m := Apply(s, e0);
    assert Free(m, v, {});
    assert Enabled(m, e1);
    RunsTwo(s, e0, e1);
  }

  lemma RunsTwo(s: State, e0: Event, e1: Event)
    requires Enabled(s, e0) && Enabled(Apply(s, e0), e1)
    ensures Runs(s, [e0, e1], Apply(Apply(s, e0), e1))
  {
    hide Enabled, Apply;
    assert [e0, e1][1..] == [e1] && [e1][1..] == [];
    var t := Apply(Apply(s, e0), e1);
    assert Runs(t, [], t);
    assert Runs(Apply(s, e0), [e1], t);
  }

  lemma {:induction false} RunsJoin(s: State, a: seq<Event>, m: State, b: seq<Event>, t: State)
    requires Runs(s, a, m) && Runs(m, b, t)
    ensures Runs(s, a + b, t)
    decreases |a|
  {
    hide Enabled, Apply;
    if a == [] {
      assert a + b == b;
    } else {
      RunsJoin(Apply(s, a[0]), a[1..], m, b, t);
      assert (a + b)[1..] == a[1..] + b;
    }
  }

  lemma {:induction false} WithoutStops(s: State, events: seq<Event>)
    requires forall i :: 0 <= i < |events| ==> !events[i].StopFails?
    ensures AllExcusable(false, s, events)
    decreases |events|
  {
    hide Apply, Enabled;
    if events != [] && Enabled(s, events[0]) {
      WithoutStops(Apply(s, events[0]), events[1..]);
    }
  }

  /** The rollback of a further update returns to the unsheltered view, which another folder has
      taken meanwhile. */
  lemma UnshelteredClashes(s: State, id: FolderId)
    requires Apart(s) && AllNormal(s) && id in s.folders && id !in s.operations && !Owns(s, id)
    requires id in s.saved ==> !Shelters(s.saved[id], s.folders[id])
    ensures CanClash(s)
  {
    hide Conflict, Shelters, View.Normal, Apart, AllNormal;
    var v := Intruder(s, id);
    var w := Bystander(s, v);
    var j := FreshNumber(s.folders.Keys + s.saved.Keys + s.operations.Keys);
    FreeOfShown(s, w, {id});
    FreeOfShown(s, v, {id});
    assert id in s.saved ==> Shows(s, id, s.saved[id]);
    TwoReserve(s, id, j, v, w);
    var live := s.folders[id];
    var m := s.(folders := s.folders[id := w][j := v], operations := s.operations[id := Updating(live)][j := Adding]);
    var first, last := [UpdateReserve(id, w), Reserve(j, v)], StartFails(id);
    var t := Apply(m, last);
    assert [last][1..] == [] && Runs(t, [], t);
    assert Runs(m, [last], t);
    RunsJoin(s, first, m, [last], t);
    WithoutStops(s, first + [last]);
    assert j in t.folders && id in t.folders && t.folders[j] == v && t.folders[id] == live;
  }

  /** A failed stop is harmless exactly when it is excusable: then the invariant goes on holding and
      no later steps bring two folders into conflict; and otherwise some do. */
  lemma StopFailsExactly(s: State, id: FolderId)
    requires Safe(false, s) && Enabled(s, StopFails(id))
    ensures Safe(false, Apply(s, StopFails(id))) <==> Excusable(false, s, StopFails(id))
    ensures CanClash(Apply(s, StopFails(id))) <==> !Excusable(false, s, StopFails(id))
    ensures id in s.folders
    ensures Excusable(false, s, StopFails(id)) <==>
            !s.operations[id].AddFailing? && id in s.saved && Shelters(s.saved[id], s.folders[id])
  {
    hide Apart, DevicesOk, DraftOk, Free, Shelters, AllExcusable, Runs, AllNormal;
    var e := StopFails(id);
    var t := Apply(s, e);
    assert InStep(false, s, id);
    assert Safe(false, t) ==> InStep(false, t, id);
    if Excusable(false, s, e) {
      StepIsSafe(false, s, e);
      if CanClash(t) {
        var events, u :| Runs(t, events, u) && AllExcusable(false, t, events) && Clash(u);
        RunsAreSafe(false, t, events, u);
        NoClashWhenApart(u);
        assert false;
      }
    } else {
      KeepsApart(false, s, e);
      UnshelteredClashes(t, id);
    }
  }

  /** The same for the stricter condition, under which live and saved view stay equal. */
  lemma StrictStopExactly(s: State, id: FolderId)
    requires Safe(true, s) && Enabled(s, StopFails(id))
    ensures id in s.folders
    ensures Safe(true, Apply(s, StopFails(id))) <==> !s.operations[id].AddFailing? && s.folders[id] == s.operations[id].former
  {
    hide Apart, DevicesOk, DraftOk, Free, AllNormal;
    var e := StopFails(id);
    assert InStep(true, s, id);
    if Excusable(true, s, e) { StepIsSafe(true, s, e); }
    assert Safe(true, Apply(s, e)) ==> InStep(true, Apply(s, e), id);
  }

  /** One folder, whose worker does not stop when its path is to be changed. */
  function Before(): State {
    State(map[1 := Remote("a", 1)], map[1 := Remote("a", 1)], map[], map[], NoWriter)
  }

  function Diverged(): State {
    Before().(folders := map[1 := Remote("b", 2)])
  }

  lemma Diverges()
    ensures Runs(Before(), [UpdateReserve(1, Remote("b", 2)), StopFails(1)], Diverged())
  {
    var s, e0, e1 := Before(), UpdateReserve(1, Remote("b", 2)), StopFails(1);
    hide Conflict;
    var m := s.(folders := map[1 := Remote("b", 2)], operations := map[1 := Updating(Remote("a", 1))]);
    assert Enabled(s, e0) && Apply(s, e0) == m;
    assert Enabled(m, e1) && Apply(m, e1) == Diverged();
    RunsTwo(s, e0, e1);
  }

  /** A run that ends with two folders on one path: the update could not stop the running worker, so
      an unsaved view stays; the next update is rolled back to it after another folder took its path. */
  lemma UnsavedViewIsLost() returns (s: State, events: seq<Event>, t: State)
    ensures Opened(s) && Runs(s, events, t) && StopFails(1) in events && Clash(t)
  {
    s := Before();
    var first := [UpdateReserve(1, Remote("b", 2)), StopFails(1)];
    Diverges();
    var m := Diverged();
    assert forall id, v :: Shows(m, id, v) ==> id == 1;
    UnshelteredClashes(m, 1);
    hide Runs, Conflict, Clash, AllExcusable;
    var second, u :| Runs(m, second, u) && AllExcusable(false, m, second) && Clash(u);
    RunsJoin(s, first, m, second, u);
    events, t := first + second, u;
    assert events[1] == StopFails(1);
  }
}
