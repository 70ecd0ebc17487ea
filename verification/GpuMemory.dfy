/**
  GPU memory: the allocator's reservations and the loader that drives it.

  Memory is counted in one fixed integral unit. The devices are numbered from 0, as detection numbers
  them; `used` is what the driver reports and may change at any time.
*/
module GpuMemory {
  import opened Prelude
  import opened Models

  datatype Device = Device(total: int, used: int, reserved: int)

  datatype Allocation = Allocation(device: nat, amount: int)

  datatype State = State(
    margin: int,           // memory_reserve_mb
    fallback: bool,        // fallback_to_cpu
    enabled: bool,         // the status is AVAILABLE
    devices: seq<Device>,
    allocations: map<QualifiedId, Allocation>)

  /** "cuda:n", "cpu", or the RuntimeError. */
  datatype Placement = Cuda(device: nat) | Cpu | Refused

  function Free(d: Device): int {
    d.total - d.used - d.reserved
  }

  predicate Fits(s: State, i: nat, required: int) {
    i < |s.devices| && Free(s.devices[i]) - s.margin >= required
  }

  predicate IsAvailable(s: State) {
    s.enabled && s.devices != []
  }

  /** `can_allocate`, with auto-selection when no device is named. */
  predicate CanAllocate(s: State, required: int, wanted: Option<nat>) {
    IsAvailable(s) &&
    match wanted
    case Some(i) => Fits(s, i, required)
    case None => exists i :: 0 <= i < |s.devices| && Fits(s, i, required)
  }

  // ---------- selection ----------

  /** The running best of the selection loop over the first n devices. */
  function BestOf(s: State, required: int, n: nat): Option<nat>
    requires n <= |s.devices|
  {
    if n == 0 then None
    else
      var best := BestOf(s, required, n - 1);
      if !Fits(s, n - 1, required) then best
      else if best == None || (best.value < |s.devices| && Free(s.devices[n - 1]) > Free(s.devices[best.value]))
      then Some(n - 1)
      else best
  }

  /** The selection takes a fitting device with the most free memory, the first such, and gives up only
      when none fits. */
  lemma {:induction false} BestIsGreatest(s: State, required: int, n: nat)
    requires n <= |s.devices|
    ensures match BestOf(s, required, n)
      case Some(b) =>
        && b < n && Fits(s, b, required)
        && (forall i :: 0 <= i < n && Fits(s, i, required) ==> Free(s.devices[i]) <= Free(s.devices[b]))
        && (forall i :: 0 <= i < b && Fits(s, i, required) ==> Free(s.devices[i]) < Free(s.devices[b]))
      case None => forall i :: 0 <= i < n ==> !Fits(s, i, required)
  {
    if n == 0 {
    } else {
      BestIsGreatest(s, required, n - 1);
    }
  }

  function Target(s: State, required: int, wanted: Option<nat>): Option<nat> {
    if !IsAvailable(s) then None
    else match wanted
      case Some(i) => if Fits(s, i, required) then Some(i) else None
      case None => BestOf(s, required, |s.devices|)
  }

  /** `can_allocate` foretells the selection. */
  lemma CanAllocateFindsTarget(s: State, required: int, wanted: Option<nat>)
    ensures CanAllocate(s, required, wanted) <==> Target(s, required, wanted).Some?
    ensures Target(s, required, wanted).Some? ==> Fits(s, Target(s, required, wanted).value, required)
  {
    BestIsGreatest(s, required, |s.devices|);
  }

  // ---------- allocate and release ----------

  /** The allocations on one device. */
  function On(allocations: map<QualifiedId, Allocation>, i: nat): map<QualifiedId, int> {
    map id | id in allocations && allocations[id].device == i :: allocations[id].amount
  }

  function Reserve(devices: seq<Device>, i: nat, amount: int): seq<Device> {
    if i < |devices| then devices[i := devices[i].(reserved := devices[i].reserved + amount)] else devices
  }

  function Allocated(s: State, id: QualifiedId, required: int, wanted: Option<nat>): (Placement, State) {
    if id in s.allocations then (Cuda(s.allocations[id].device), s)
    else match Target(s, required, wanted)
      case Some(i) =>
        (Cuda(i), s.(allocations := s.allocations[id := Allocation(i, required)],
                     devices := Reserve(s.devices, i, required)))
      case None => (if s.fallback then Cpu else Refused, s)
  }

  function Released(s: State, id: QualifiedId): State {
    if id !in s.allocations then s
    else
      var a := s.allocations[id];
      s.(allocations := s.allocations - {id}, devices := Reserve(s.devices, a.device, -a.amount))
  }

  datatype Event =
    | Allocate(id: QualifiedId, required: int, wanted: Option<nat>)
    | Release(id: QualifiedId)
    | ReleaseAll
    | UpdateStats(used: seq<int>)

  /** Every device gives back what is allocated on it. */
  ghost function ReleasedAll(s: State): State {
    s.(allocations := map[],
       devices := seq(|s.devices|, i requires 0 <= i < |s.devices| =>
         s.devices[i].(reserved := s.devices[i].reserved - Sum(On(s.allocations, i)))))
  }

  function Updated(s: State, used: seq<int>): State {
    s.(devices := seq(|s.devices|, i requires 0 <= i < |s.devices| =>
         if i < |used| then s.devices[i].(used := used[i]) else s.devices[i]))
  }

  ghost function Apply(s: State, e: Event): State {
    match e
    case Allocate(id, required, wanted) => Allocated(s, id, required, wanted).1
    case Release(id) => Released(s, id)
    case ReleaseAll => ReleasedAll(s)
    case UpdateStats(used) => Updated(s, used)
  }

  /** Amounts of memory are not negative, in requests and in the driver's figures. */
  predicate Sensible(e: Event) {
    match e
    case Allocate(_, required, _) => required >= 0
    case UpdateStats(used) => forall i :: 0 <= i < |used| ==> used[i] >= 0
    case _ => true
  }

  // ---------- conservation ----------

  ghost predicate DeviceCounts(s: State, i: nat)
    requires i < |s.devices|
  {
    && s.devices[i].reserved == Sum(On(s.allocations, i))
    && s.devices[i].used >= 0
    && (On(s.allocations, i) != map[] ==> s.devices[i].reserved + s.margin <= s.devices[i].total)
  }

  /** Reservations are the sums of the allocations, and a device that holds one keeps its margin. */
  ghost predicate Conserved(s: State) {
    && (forall id :: id in s.allocations ==>
          s.allocations[id].device < |s.devices| && s.allocations[id].amount >= 0)
    && forall i: nat :: i < |s.devices| ==> DeviceCounts(s, i)
  }

  lemma OnInsert(allocations: map<QualifiedId, Allocation>, id: QualifiedId, a: Allocation, i: nat)
    requires id !in allocations
    ensures On(allocations[id := a], i) ==
      if a.device == i then On(allocations, i)[id := a.amount] else On(allocations, i)
    ensures Sum(On(allocations[id := a], i)) == Sum(On(allocations, i)) + if a.device == i then a.amount else 0
  {
    if a.device == i {
      SumUpdate(On(allocations, i), id, a.amount);
      assert On(allocations[id := a], i) == On(allocations, i)[id := a.amount];
    } else {
      assert On(allocations[id := a], i) == On(allocations, i);
    }
  }

  lemma OnRemove(allocations: map<QualifiedId, Allocation>, id: QualifiedId, i: nat)
    requires id in allocations
    ensures On(allocations - {id}, i) == On(allocations, i) - {id}
    ensures Sum(On(allocations - {id}, i)) ==
      Sum(On(allocations, i)) - if allocations[id].device == i then allocations[id].amount else 0
  {
    var rest := allocations - {id};
    assert allocations == rest[id := allocations[id]];
    OnInsert(rest, id, allocations[id], i);
    assert On(rest, i) == On(allocations, i) - {id};
  }

  lemma AllocateConserves(s: State, id: QualifiedId, required: int, wanted: Option<nat>)
    requires Conserved(s) && required >= 0
    ensures Conserved(Allocated(s, id, required, wanted).1)
  {
    var s', target := Allocated(s, id, required, wanted).1, Target(s, required, wanted);
    CanAllocateFindsTarget(s, required, wanted);
    if id !in s.allocations && target.Some? {
      forall i: nat | i < |s'.devices| ensures DeviceCounts(s', i) {
        assert DeviceCounts(s, i);
        OnInsert(s.allocations, id, Allocation(target.value, required), i);
      }
    }
  }

  lemma ReleaseConserves(s: State, id: QualifiedId)
    requires Conserved(s)
    ensures Conserved(Released(s, id))
  {
    var s' := Released(s, id);
    if id in s.allocations {
      forall i: nat | i < |s'.devices| ensures DeviceCounts(s', i) {
        assert DeviceCounts(s, i);
        OnRemove(s.allocations, id, i);
      }
    }
  }

  lemma ConservedStep(s: State, e: Event)
    requires Conserved(s) && Sensible(e)
    ensures Conserved(Apply(s, e))
  {
    match e
    case Allocate(id, required, wanted) => AllocateConserves(s, id, required, wanted);
    case Release(id) => ReleaseConserves(s, id);
    case _ =>
      var s' := Apply(s, e);
      forall i: nat | i < |s'.devices| ensures DeviceCounts(s', i) {
        assert DeviceCounts(s, i);
        assert On(map[], i) == map[];
      }
  }

  ghost function After(s: State, events: seq<Event>): State
    decreases |events|
  {
    if events == [] then s else After(Apply(s, events[0]), events[1..])
  }

  predicate Untouched(s: State) {
    s.allocations == map[] && forall i :: 0 <= i < |s.devices| ==> s.devices[i].reserved == 0 && s.devices[i].used >= 0
  }

  lemma {:induction false} ConservedRun(s: State, events: seq<Event>)
    requires Conserved(s) && forall k :: 0 <= k < |events| ==> Sensible(events[k])
    ensures Conserved(After(s, events))
    decreases |events|
  {
    if events == [] {
    } else {
      ConservedStep(s, events[0]);
      ConservedRun(Apply(s, events[0]), events[1..]);
    }
  }

  /** Over every run from detection: each device's reservation is the sum of the allocations on it, a
      device that holds an allocation keeps its margin free of reservations, and releasing everything
      brings every reservation back to 0. */
  lemma ReservationsAreConserved(s: State, events: seq<Event>, i: nat)
    requires Untouched(s) && forall k :: 0 <= k < |events| ==> Sensible(events[k])
    requires i < |After(s, events).devices|
    ensures var r := After(s, events);
      && r.devices[i].reserved == Sum(On(r.allocations, i))
      && (On(r.allocations, i) != map[] ==> r.devices[i].reserved + r.margin <= r.devices[i].total)
      && Untouched(ReleasedAll(r))
  {
    forall j: nat | j < |s.devices| ensures DeviceCounts(s, j) {
      assert On(s.allocations, j) == map[];
    }
    ConservedRun(s, events);
    var r := After(s, events);
    forall j: nat | j < |r.devices| ensures ReleasedAll(r).devices[j].reserved == 0 && r.devices[j].used >= 0 {
      assert DeviceCounts(r, j);
    }
    assert DeviceCounts(r, i);
  }

  /** The request may go to device i, and there is room for it beside what the driver and the reservations
      take, and the margin. */
  predicate HasRoom(s: State, i: nat, required: int, wanted: Option<nat>) {
    && s.enabled && i < |s.devices| && (wanted == None || wanted == Some(i))
    && s.devices[i].used + s.devices[i].reserved + s.margin + required <= s.devices[i].total
  }

  lemma CanAllocateExactly(s: State, required: int, wanted: Option<nat>)
    ensures CanAllocate(s, required, wanted) <==> exists i: nat :: HasRoom(s, i, required, wanted)
  {
    if CanAllocate(s, required, wanted) {
      var i :| 0 <= i < |s.devices| && Fits(s, i, required) && (wanted == None || wanted == Some(i));
      assert HasRoom(s, i, required, wanted);
    }
    if i: nat :| HasRoom(s, i, required, wanted) {
      assert Fits(s, i, required);
    }
  }

  /** A new request goes to a device with room, and of those that have room to the first of the most memory
      free; margin and driver's share stay untouched by what is reserved then. Only when no device has room
      is it sent to the CPU, or refused where there is no fallback. */
  lemma AllocationFits(s: State, id: QualifiedId, required: int, wanted: Option<nat>)
    requires id !in s.allocations
    ensures var (placement, s') := Allocated(s, id, required, wanted);
      match placement
      case Cuda(i) =>
        && HasRoom(s, i, required, wanted)
        && s'.devices[i] == s.devices[i].(reserved := s.devices[i].reserved + required)
        && s'.devices[i].used + s'.devices[i].reserved + s.margin <= s'.devices[i].total
        && forall j: nat :: HasRoom(s, j, required, wanted) && j != i ==>
             var mine, its := s.devices[i].used + s.devices[i].reserved, s.devices[j].used + s.devices[j].reserved;
             if j < i then s.devices[j].total - its < s.devices[i].total - mine
             else s.devices[j].total - its <= s.devices[i].total - mine
      case _ =>
        && s' == s && (placement == Cpu <==> s.fallback)
        && forall i: nat :: !HasRoom(s, i, required, wanted)
  {
    BestIsGreatest(s, required, |s.devices|);
    forall i: nat ensures HasRoom(s, i, required, wanted) ==> Fits(s, i, required) {
    }
  }

  /** A version that holds memory already is told its device again. */
  lemma AllocatedAgain(s: State, id: QualifiedId, required: int, wanted: Option<nat>)
    requires id in s.allocations
    ensures Allocated(s, id, required, wanted) == (Cuda(s.allocations[id].device), s)
  {
  }

  /** Allocating for a new id and releasing it again is the identity. */
  lemma ReleaseUndoesAllocate(s: State, id: QualifiedId, required: int, wanted: Option<nat>)
    requires id !in s.allocations
    ensures Released(Allocated(s, id, required, wanted).1, id) == s
  {
  }

  // ---------- the loader ----------

  datatype Module = Inference | Preprocess | Postprocess

  /** `_gpu_allocations` and `_loaded_modules`, over the allocator. */
  datatype Loader = Loader(
    gpu: State,
    tracked: map<QualifiedId, Placement>,
    modules: map<QualifiedId, seq<Module>>)

  /** The file of a module: not there, there but not importable or without its function, or good. */
  datatype File = Missing | Broken | Good

  /** What `load` meets: the three files, and whether instance, checks and warm-up succeed after them. */
  datatype Attempt = Attempt(inference: File, preprocess: File, postprocess: File, rest: bool)

  /** The modules `_import_module` is called for; only the inference module is obligatory. */
  function Imports(a: Attempt): seq<Module> {
    if a.inference == Missing then []
    else if a.inference == Broken then [Inference]
    else
      var pre := if a.preprocess == Missing then [Inference] else [Inference, Preprocess];
      if a.preprocess == Broken || a.postprocess == Missing then pre else pre + [Postprocess]
  }

  predicate Succeeds(a: Attempt) {
    a.inference == Good && a.preprocess != Broken && a.postprocess != Broken && a.rest
  }

  /** Each module is tried once, in order, if its file is there and those before it were good enough. */
  lemma ImportsExactly(a: Attempt)
    ensures Inference in Imports(a) <==> a.inference != Missing
    ensures Preprocess in Imports(a) <==> a.inference == Good && a.preprocess != Missing
    ensures Postprocess in Imports(a) <==> a.inference == Good && a.preprocess != Broken && a.postprocess != Missing
    ensures forall i, j :: 0 <= i < j < |Imports(a)| ==>
      Imports(a)[i] != Imports(a)[j] && Imports(a)[i] != Postprocess && Imports(a)[j] != Inference
  {
    assert Inference in [Inference, Preprocess] && Preprocess in [Inference, Preprocess];
  }

  /** `_allocate_device`: the device it returns, and what it tracks. */
  function DeviceAllocated(l: Loader, id: QualifiedId, required: int): (Placement, Loader) {
    if !CanAllocate(l.gpu, required, None) then (Cpu, l)
    else
      var (placement, gpu) := Allocated(l.gpu, id, required, None);
      if placement == Refused then (Cpu, l)
      else (placement, l.(gpu := gpu, tracked := l.tracked[id := placement]))
  }

  /** `_release_device`. */
  function DeviceReleased(l: Loader, id: QualifiedId): Loader {
    if id !in l.tracked then l
    else l.(gpu := if l.tracked[id].Cuda? then Released(l.gpu, id) else l.gpu, tracked := l.tracked - {id})
  }

  function ModulesOf(l: Loader, id: QualifiedId): seq<Module> {
    if id in l.modules then l.modules[id] else []
  }

  /** Every call of `_import_module` records its module before it executes it. */
  function Recorded(l: Loader, id: QualifiedId, imports: seq<Module>): Loader {
    if imports == [] then l else l.(modules := l.modules[id := ModulesOf(l, id) + imports])
  }

  /** `load`: every failing path releases the device; none forgets a module. */
  function Loaded(l: Loader, id: QualifiedId, required: int, a: Attempt): Loader {
    var r := Recorded(DeviceAllocated(l, id, required).1, id, Imports(a));
    if Succeeds(a) then r else DeviceReleased(r, id)
  }

  function AfterUnload(l: Loader, id: QualifiedId): (bool, Loader) {
    if id !in l.modules then (false, l) else (true, DeviceReleased(l.(modules := l.modules - {id}), id))
  }

  /** What the loader tracks is what the allocator holds, each on a GPU. */
  ghost predicate Coherent(l: Loader) {
    && l.tracked.Keys == l.gpu.allocations.Keys
    && forall id :: id in l.tracked ==> l.tracked[id] == Cuda(l.gpu.allocations[id].device)
  }

  lemma AllocateKeepsCoherent(l: Loader, id: QualifiedId, required: int)
    requires Coherent(l)
    ensures Coherent(DeviceAllocated(l, id, required).1)
  {
    CanAllocateFindsTarget(l.gpu, required, None);
  }

  lemma LoadKeepsCoherent(l: Loader, id: QualifiedId, required: int, a: Attempt)
    requires Coherent(l)
    ensures Coherent(Loaded(l, id, required, a)) && Coherent(AfterUnload(l, id).1)
  {
    AllocateKeepsCoherent(l, id, required);
  }

  /** The device a load is told is the one that is tracked for it, unless memory is short when it starts:
      then it is told to use the CPU, and a reload keeps the reservation of the earlier load besides. */
  lemma ToldDeviceIsTracked(l: Loader, id: QualifiedId, required: int)
    requires Coherent(l)
    ensures var (device, l') := DeviceAllocated(l, id, required);
      && (CanAllocate(l.gpu, required, None) ==> id in l'.tracked && l'.tracked[id] == device && device.Cuda?)
      && (!CanAllocate(l.gpu, required, None) ==> device == Cpu && l' == l)
  {
    CanAllocateFindsTarget(l.gpu, required, None);
  }

  lemma DeviceRoundTrip(l: Loader, id: QualifiedId, required: int)
    requires Coherent(l) && id !in l.tracked
    ensures DeviceReleased(DeviceAllocated(l, id, required).1, id) == l
  {
    CanAllocateFindsTarget(l.gpu, required, None);
    if CanAllocate(l.gpu, required, None) {
      ReleaseUndoesAllocate(l.gpu, id, required, None);
      var (placement, gpu) := Allocated(l.gpu, id, required, None);
      assert l.tracked[id := placement] - {id} == l.tracked;
    }
  }

  /** Records of modules and bookkeeping of devices do not touch each other. */
  lemma RecordedCommutes(l: Loader, id: QualifiedId, imports: seq<Module>)
    ensures DeviceReleased(Recorded(l, id, imports), id) == Recorded(DeviceReleased(l, id), id, imports)
  {
  }

  lemma RecordedTwice(l: Loader, id: QualifiedId, a: seq<Module>, b: seq<Module>)
    ensures Recorded(Recorded(l, id, a), id, b) == Recorded(l, id, a + b)
  {
    assert ModulesOf(l, id) + a + b == ModulesOf(l, id) + (a + b);
    if a == [] {
      assert a + b == b;
    } else if b == [] {
      assert a + b == a;
    }
  }

  /** What a failed load leaves behind: the records of the modules it tried, and for a version that held
      GPU memory the loss of it. */
  lemma FailedLoadLeaves(l: Loader, id: QualifiedId, required: int, a: Attempt)
    requires Coherent(l) && !Succeeds(a)
    ensures Loaded(l, id, required, a).modules == Recorded(l, id, Imports(a)).modules
    ensures id !in Loaded(l, id, required, a).tracked && id !in Loaded(l, id, required, a).gpu.allocations
    ensures id !in l.tracked ==> Loaded(l, id, required, a) == Recorded(l, id, Imports(a))
  {
    RecordedCommutes(DeviceAllocated(l, id, required).1, id, Imports(a));
    AllocateKeepsCoherent(l, id, required);
    if id !in l.tracked {
      DeviceRoundTrip(l, id, required);
    }
  }

  /** A failed load leaves allocator and loader as they were exactly when the version held no GPU memory and
      there was no inference module to import. */
  lemma FailedLoadRestores(l: Loader, id: QualifiedId, required: int, a: Attempt)
    requires Coherent(l) && !Succeeds(a)
    ensures Loaded(l, id, required, a) == l <==> id !in l.tracked && a.inference == Missing
  {
    FailedLoadLeaves(l, id, required, a);
    if Imports(a) != [] {
      assert |ModulesOf(Recorded(l, id, Imports(a)), id)| > |ModulesOf(l, id)|;
    }
  }

  /** Which versions the loader would unload changes, by a failed load, exactly when an inference module is
      found for a version not recorded before: it was never loaded, and unloading it reports success. */
  lemma FailedLoadCanBeUnloaded(l: Loader, id: QualifiedId, required: int, a: Attempt)
    requires Coherent(l) && !Succeeds(a)
    ensures var l' := Loaded(l, id, required, a);
      && (l'.modules.Keys == l.modules.Keys <==> (a.inference != Missing ==> id in l.modules))
      && (AfterUnload(l', id).0 <==> id in l.modules || a.inference != Missing)
  {
    FailedLoadLeaves(l, id, required, a);
    if id !in l.modules && a.inference != Missing {
      assert id in Loaded(l, id, required, a).modules.Keys;
    }
  }

  /** Loading a version and unloading it gives everything back, whether or not the load succeeds, exactly
      when the loader knew nothing of the version and finds an inference module. */
  lemma UnloadUndoesLoad(l: Loader, id: QualifiedId, required: int, a: Attempt)
    requires Coherent(l)
    ensures AfterUnload(Loaded(l, id, required, a), id) == (true, l) <==>
      id !in l.tracked && id !in l.modules && a.inference != Missing
  {
    var r := Loaded(l, id, required, a);
    if !Succeeds(a) {
      FailedLoadLeaves(l, id, required, a);
    }
    if id in l.tracked || id in l.modules {
      assert id !in AfterUnload(r, id).1.modules;
      AllocateKeepsCoherent(l, id, required);
      assert AfterUnload(r, id).0 ==> id !in AfterUnload(r, id).1.tracked;
    } else if a.inference != Missing {
      DeviceRoundTrip(l, id, required);
      assert r.modules - {id} == l.modules;
    }
  }

  // ---------- the object ----------

  class GpuDevice {
    const total: int
    var used: int
    var reserved: int

    function View(): Device
      reads this
    {
      Device(total, used, reserved)
    }

    constructor (total: int)
      ensures View() == Device(total, 0, 0)
    {
      this.total, used, reserved := total, 0, 0;
    }
  }

  class GpuManager {
    const margin: int
    const fallback: bool
    var enabled: bool
    var devices: seq<GpuDevice>
    var allocations: map<QualifiedId, Allocation>

    ghost predicate Valid()
      reads this
    {
      forall i, j :: 0 <= i < j < |devices| ==> devices[i] != devices[j]
    }

    function Devices(from: nat): (r: seq<Device>)
      requires from <= |devices|
      reads this`devices, devices
      ensures |r| == |devices| - from
      ensures forall i :: 0 <= i < |r| ==> r[i] == devices[from + i].View()
      decreases |devices| - from
    {
      if from == |devices| then [] else [devices[from].View()] + Devices(from + 1)
    }

    ghost function View(): State
      reads this, devices
    {
      State(margin, fallback, enabled, Devices(0), allocations)
    }

    constructor (margin: int, fallback: bool)
      ensures Valid() && fresh(devices)
      ensures View() == State(margin, fallback, false, [], map[])
    {
      this.margin, this.fallback, enabled, devices, allocations := margin, fallback, false, [], map[];
    }

    /** The part of `_detect_gpus` that records one device. */
    method AddDevice(total: int)
      requires Valid()
      modifies this
      ensures Valid() && fresh(set d | d in devices && d !in old(devices))
      ensures View() == old(View()).(enabled := true, devices := old(Devices(0)) + [Device(total, 0, 0)])
    {
      var device := new GpuDevice(total);
      devices := devices + [device];
      enabled := true;
      assert Devices(0) == old(Devices(0)) + [Device(total, 0, 0)];
    }

    /** `can_allocate`. */
    method MayAllocate(required: int, wanted: Option<nat>) returns (may: bool)
      ensures may <==> CanAllocate(View(), required, wanted)
    {
      if !enabled || devices == [] {
        return false;
      }
      if wanted.Some? {
        var i := wanted.value;
        return i < |devices| && devices[i].total - devices[i].used - devices[i].reserved - margin >= required;
      }
      var i := 0;
      while i < |devices|
        invariant 0 <= i <= |devices|
        invariant forall j :: 0 <= j < i ==> !Fits(View(), j, required)
      {
        if devices[i].total - devices[i].used - devices[i].reserved - margin >= required {
          assert Fits(View(), i, required);
          return true;
        }
        i := i + 1;
      }
      return false;
    }

    method SelectDevice(required: int) returns (target: Option<nat>)
      ensures target == BestOf(View(), required, |devices|)
    {
      target := None;
      var i := 0;
      while i < |devices|
        invariant 0 <= i <= |devices|
        invariant target == BestOf(View(), required, i)
        invariant target.Some? ==> target.value < i
      {
        var free := devices[i].total - devices[i].used - devices[i].reserved;
        if free - margin >= required {
          if target == None {
            target := Some(i);
          } else {
            var best := devices[target.value];
            if free > best.total - best.used - best.reserved {
              target := Some(i);
            }
          }
        }
        i := i + 1;
      }
    }

    method FindTarget(required: int, wanted: Option<nat>) returns (target: Option<nat>)
      ensures target == Target(View(), required, wanted)
    {
      if !enabled || devices == [] {
        return None;
      }
      match wanted
      case Some(i) =>
        if i < |devices| && devices[i].total - devices[i].used - devices[i].reserved - margin >= required {
          return Some(i);
        }
        return None;
      case None =>
        target := SelectDevice(required);
    }

    method Allocate(id: QualifiedId, required: int, wanted: Option<nat>) returns (placement: Placement)
      requires Valid()
      modifies this`allocations, devices
      ensures (placement, View()) == Allocated(old(View()), id, required, wanted)
    {
      if id in allocations {
        return Cuda(allocations[id].device);
      }
      var target := FindTarget(required, wanted);
      CanAllocateFindsTarget(View(), required, wanted);
      if target.Some? {
        allocations := allocations[id := Allocation(target.value, required)];
        AddReserved(target.value, required);
        return Cuda(target.value);
      }
      return if fallback then Cpu else Refused;
    }

    method AddReserved(i: nat, amount: int)
      requires Valid()
      modifies devices
      ensures Devices(0) == Reserve(old(Devices(0)), i, amount)
    {
      if i < |devices| {
        devices[i].reserved := devices[i].reserved + amount;
      }
      assert Devices(0) == Reserve(old(Devices(0)), i, amount);
    }

    method Release(id: QualifiedId) returns (released: bool)
      requires Valid()
      modifies this`allocations, devices
      ensures released == (id in old(allocations))
      ensures View() == Released(old(View()), id)
    {
      if id !in allocations {
        return false;
      }
      var a := allocations[id];
      allocations := allocations - {id};
      AddReserved(a.device, -a.amount);
      return true;
    }

    /** `release_all`: one subtraction per allocation, in any order. */
    method ReleaseAll() returns (count: nat)
      requires Valid()
      modifies this`allocations, devices
      ensures count == |old(allocations)|
      ensures View() == ReleasedAll(old(View()))
    {
      count := |allocations|;
      ghost var before := Devices(0);
      var rest := allocations;
      assert forall i: nat :: Settled(before, Devices(0), allocations, rest, i);
      while rest != map[]
        invariant allocations == old(allocations) && |Devices(0)| == |before|
        invariant forall i: nat :: Settled(before, Devices(0), allocations, rest, i)
        decreases |rest|
      {
        var id :| id in rest;
        var a := rest[id];
        ghost var current := Devices(0);
        AddReserved(a.device, -a.amount);
        SettleOne(before, current, allocations, rest, id);
        rest := rest - {id};
      }
      AllSettled(before, Devices(0), old(View()));
      allocations := map[];
    }
  }

  class ModelLoader {
    const gpu: GpuManager
    var tracked: map<QualifiedId, Placement>
    var modules: map<QualifiedId, seq<Module>>

    ghost function View(): Loader
      reads this, gpu, gpu.devices
    {
      Loader(gpu.View(), tracked, modules)
    }

    constructor (gpu: GpuManager)
      ensures this.gpu == gpu && tracked == map[] && modules == map[]
    {
      this.gpu, tracked, modules := gpu, map[], map[];
    }

    method AllocateDevice(id: QualifiedId, required: int) returns (device: Placement)
      requires gpu.Valid()
      modifies this`tracked, gpu`allocations, gpu.devices
      ensures (device, View()) == DeviceAllocated(old(View()), id, required)
    {
      var may := gpu.MayAllocate(required, None);
      if !may {
        return Cpu;
      }
      device := gpu.Allocate(id, required, None);
      if device == Refused {
        CanAllocateFindsTarget(old(gpu.View()), required, None);
        return Cpu;
      }
      tracked := tracked[id := device];
    }

    method ReleaseDevice(id: QualifiedId)
      requires gpu.Valid()
      modifies this`tracked, gpu`allocations, gpu.devices
      ensures View() == DeviceReleased(old(View()), id)
    {
      if id !in tracked {
        return;
      }
      var placement := tracked[id];
      tracked := tracked - {id};
      if placement.Cuda? {
        var _ := gpu.Release(id);
      }
    }

    /** `_import_module`, as far as the loader remembers it. */
    method ImportModule(id: QualifiedId, m: Module)
      modifies this`modules
      ensures View() == Recorded(old(View()), id, [m])
    {
      if id !in modules {
        modules := modules[id := []];
      }
      modules := modules[id := modules[id] + [m]];
    }

    /** The three import steps, up to the first that raises. */
    method ImportModules(id: QualifiedId, a: Attempt) returns (imported: bool)
      modifies this`modules
      ensures View() == Recorded(old(View()), id, Imports(a))
      ensures imported <==> a.inference == Good && a.preprocess != Broken && a.postprocess != Broken
    {
      if a.inference == Missing {
        return false;
      }
      ImportModule(id, Inference);
      if a.inference == Broken {
        return false;
      }
      ghost var before := old(View());
      if a.preprocess != Missing {
        ImportModule(id, Preprocess);
        RecordedTwice(before, id, [Inference], [Preprocess]);
        assert [Inference] + [Preprocess] == [Inference, Preprocess];
        if a.preprocess == Broken {
          return false;
        }
      }
      if a.postprocess != Missing {
        ghost var pre := if a.preprocess == Missing then [Inference] else [Inference, Preprocess];
        RecordedTwice(before, id, pre, [Postprocess]);
        ImportModule(id, Postprocess);
      }
      return a.postprocess != Broken;
    }

    method Load(id: QualifiedId, required: int, a: Attempt) returns (success: bool)
      requires gpu.Valid()
      modifies this, gpu`allocations, gpu.devices
      ensures success <==> a.inference == Good && a.preprocess != Broken && a.postprocess != Broken && a.rest
      ensures View() == Loaded(old(View()), id, required, a)
    {
      var _ := AllocateDevice(id, required);
      var imported := ImportModules(id, a);
      success := imported && a.rest;
      if !success {
        ReleaseDevice(id);
      }
    }

    method Unload(id: QualifiedId) returns (unloaded: bool)
      requires gpu.Valid()
      modifies this, gpu`allocations, gpu.devices
      ensures (unloaded, View()) == AfterUnload(old(View()), id)
    {
      if id !in modules {
        return false;
      }
      modules := modules - {id};
      ReleaseDevice(id);
      return true;
    }
  }

  lemma SettleOne(before: seq<Device>, now: seq<Device>, all: map<QualifiedId, Allocation>,
                  rest: map<QualifiedId, Allocation>, id: QualifiedId)
    requires id in rest && forall i: nat :: Settled(before, now, all, rest, i)
    ensures var now' := Reserve(now, rest[id].device, -rest[id].amount);
      forall i: nat :: Settled(before, now', all, rest - {id}, i)
  {
    var now' := Reserve(now, rest[id].device, -rest[id].amount);
    forall i: nat ensures Settled(before, now', all, rest - {id}, i) {
      assert Settled(before, now, all, rest, i);
      OnRemove(rest, id, i);
    }
  }

  lemma AllSettled(before: seq<Device>, now: seq<Device>, s: State)
    requires s.devices == before && |now| == |before|
    requires forall i: nat :: Settled(before, now, s.allocations, map[], i)
    ensures ReleasedAll(s).devices == now
  {
    forall i: nat | i < |before| ensures now[i] == ReleasedAll(s).devices[i] {
      assert Settled(before, now, s.allocations, map[], i);
      assert On(map[], i) == map[];
    }
  }

  /** The device has given back what is allocated on it, but for what remains. */
  ghost predicate Settled(before: seq<Device>, now: seq<Device>, all: map<QualifiedId, Allocation>,
                          rest: map<QualifiedId, Allocation>, i: nat)
  {
    i < |before| && i < |now| ==>
      now[i] == before[i].(reserved := before[i].reserved - Sum(On(all, i)) + Sum(On(rest, i)))
  }
}
