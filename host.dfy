/// The OpenCL host bookkeeping of include/tpm/host.hpp and src/host.cpp.
/// `HostImpl` keeps five uuid-keyed maps (platforms, devices, contexts,
/// command queues, kernels) whose records name each other.  The OpenCL
/// runtime is an oracle: platform and device enumeration arrive as values
/// and program builds as a predicate.  Device and platform uuids are
/// name-based (equal names give equal uuids); context, queue and kernel
/// uuids come from a random generator, modelled as a counter of issued
/// serials, so a new one never equals an old one.
module Host {

  datatype Uuid = Nil | Named(name: string) | Random(serial: nat)

  datatype DeviceType = Default | Cpu | Gpu | Accelerator | Custom | AllTypes

  /// What the OpenCL runtime reports for a device; the IL version string
  /// arrives split at white space.
  datatype ClDevice = ClDevice(kind: DeviceType, computeUnits: nat, clockFrequency: nat, memory: nat,
                               ilVersion: seq<string>, available: bool, compilerAvailable: bool,
                               name: string, vendor: string, profile: string, version: string)

  /// What the OpenCL runtime reports for a platform, with its devices (none
  /// when the device query fails).
  datatype ClPlatform = ClPlatform(name: string, profile: string, vendor: string, version: string,
                                   devices: seq<ClDevice>)

  datatype DeviceInfo = DeviceInfo(kind: DeviceType, uuid: Uuid, maxComputeUnits: nat, maxClockFrequency: nat,
                                   maxMemory: nat, ilVersion: seq<string>, available: bool,
                                   compilerAvailable: bool, name: string, vendor: string,
                                   profile: string, version: string)

  datatype PlatformInfo = PlatformInfo(devices: seq<DeviceInfo>, uuid: Uuid, profile: string,
                                       version: string, name: string, vendor: string)

  datatype Info = Info(platforms: seq<PlatformInfo>)

  /// The records of HostImpl; the OpenCL handles they hold are represented
  /// by what they were built from.
  datatype PlatformData = PlatformData(platform: ClPlatform, devices: seq<Uuid>, context: Uuid)
  datatype DeviceData = DeviceData(device: ClDevice, platform: Uuid, context: Uuid, queue: Uuid)
  datatype ContextData = ContextData(platform: Uuid, devices: seq<Uuid>, queues: seq<Uuid>, kernel: Uuid)
  datatype QueueData = QueueData(context: Uuid, device: Uuid)
  datatype KernelData = KernelData(source: string, context: Uuid)

  /// The state of a HostImpl: the five maps and the number of random uuids
  /// issued so far.
  datatype Maps = Maps(platforms: map<Uuid, PlatformData>, devices: map<Uuid, DeviceData>,
                       contexts: map<Uuid, ContextData>, queues: map<Uuid, QueueData>,
                       kernels: map<Uuid, KernelData>, serial: nat)

  const Empty: Maps := Maps(map[], map[], map[], map[], map[], 0)

  /// The base Host: not valid, no platforms, and initialize and both
  /// compile overloads refuse.
  const BaseValid: bool := false
  const BaseInfo: Info := Info([])
  const BaseInitialize: bool := false
  const BaseCompile: bool := false

  // ---------------------------------------------------------------------
  // Referential integrity

  /// A random uuid that was already issued.
  predicate Issued(u: Uuid, serial: nat)
  {
    u.Random? && u.serial < serial
  }

  /// A random uuid issued while the counter went from lo to hi.
  predicate IssuedBetween(u: Uuid, lo: nat, hi: nat)
  {
    u.Random? && lo <= u.serial < hi
  }

  predicate Ref<V>(u: Uuid, m: map<Uuid, V>)
  {
    u == Nil || u in m
  }

  /// Every record names only records that exist (or nil where the field is
  /// not yet set), and every context, queue and kernel uuid was issued.
  ghost predicate Consistent(s: Maps)
  {
    PlatformsOk(s) && DevicesOk(s) && ContextsOk(s) && QueuesOk(s) && KernelsOk(s)
  }

  ghost predicate PlatformsOk(s: Maps)
  {
    forall u :: u in s.platforms ==>
      Ref(s.platforms[u].context, s.contexts) && (forall d :: d in s.platforms[u].devices ==> d in s.devices)
  }

  ghost predicate DevicesOk(s: Maps)
  {
    forall u :: u in s.devices ==>
      s.devices[u].platform in s.platforms && Ref(s.devices[u].context, s.contexts) && Ref(s.devices[u].queue, s.queues)
  }

  ghost predicate ContextsOk(s: Maps)
  {
    forall u :: u in s.contexts ==>
      Issued(u, s.serial) && s.contexts[u].platform in s.platforms && Ref(s.contexts[u].kernel, s.kernels) &&
      (forall d :: d in s.contexts[u].devices ==> d in s.devices) &&
      (forall q :: q in s.contexts[u].queues ==> q in s.queues)
  }

  ghost predicate QueuesOk(s: Maps)
  {
    forall u :: u in s.queues ==>
      Issued(u, s.serial) && s.queues[u].context in s.contexts && s.queues[u].device in s.devices
  }

  ghost predicate KernelsOk(s: Maps)
  {
    forall u :: u in s.kernels ==> Issued(u, s.serial) && s.kernels[u].context in s.contexts
  }

  lemma EmptyConsistent()
    ensures Consistent(Empty)
  {
  }

  /// std::unordered_map::insert: an existing key keeps its value.
  function InsertNew<V>(m: map<Uuid, V>, k: Uuid, v: V): (r: map<Uuid, V>)
    ensures r.Keys == m.Keys + {k}
    ensures k !in m ==> r[k] == v
    ensures forall u :: u in m ==> r[u] == m[u]
  {
    if k in m then m else m[k := v]
  }

  /// Maps that only grew: every old entry is still there, unchanged.
  ghost predicate Extends<V>(old_: map<Uuid, V>, new_: map<Uuid, V>)
  {
    forall u :: u in old_ ==> u in new_ && new_[u] == old_[u]
  }

  // ---------------------------------------------------------------------
  // info()

  function DeviceUuid(d: ClDevice): Uuid
  {
    Named(d.name)
  }

  function PlatformUuid(p: ClPlatform): Uuid
  {
    Named(p.name)
  }

  function Describe(d: ClDevice): DeviceInfo
  {
    DeviceInfo(d.kind, DeviceUuid(d), d.computeUnits, d.clockFrequency, d.memory, d.ilVersion,
               d.available, d.compilerAvailable, d.name, d.vendor, d.profile, d.version)
  }

  function DescribeAll(ds: seq<ClDevice>): (r: seq<DeviceInfo>)
    ensures |r| == |ds| && forall i :: 0 <= i < |ds| ==> r[i] == Describe(ds[i])
  {
    if ds == [] then [] else DescribeAll(ds[..|ds| - 1]) + [Describe(ds[|ds| - 1])]
  }

  function DeviceUuids(ds: seq<ClDevice>): (r: seq<Uuid>)
    ensures |r| == |ds| && forall i :: 0 <= i < |ds| ==> r[i] == DeviceUuid(ds[i])
  {
    if ds == [] then [] else DeviceUuids(ds[..|ds| - 1]) + [DeviceUuid(ds[|ds| - 1])]
  }

  /// The PlatformInfo info() reports for an enumerated platform.
  function Report(p: ClPlatform): PlatformInfo
  {
    PlatformInfo(DescribeAll(p.devices), PlatformUuid(p), p.profile, p.version, p.name, p.vendor)
  }

  function ReportAll(ps: seq<ClPlatform>): (r: seq<PlatformInfo>)
    ensures |r| == |ps| && forall i :: 0 <= i < |ps| ==> r[i] == Report(ps[i])
  {
    if ps == [] then [] else ReportAll(ps[..|ps| - 1]) + [Report(ps[|ps| - 1])]
  }

  /// devices.insert of each enumerated device of platform pu, in order.
  function RegisterDevices(m: map<Uuid, DeviceData>, pu: Uuid, ds: seq<ClDevice>): map<Uuid, DeviceData>
  {
    if ds == [] then m
    else
      var d := ds[|ds| - 1];
      InsertNew(RegisterDevices(m, pu, ds[..|ds| - 1]), DeviceUuid(d), DeviceData(d, pu, Nil, Nil))
  }

  /// One iteration of info()'s platform loop: a platform without devices is
  /// only reported; otherwise its devices and then the platform itself are
  /// inserted.
  function RegisterPlatform(s: Maps, p: ClPlatform): Maps
  {
    if p.devices == [] then s
    else
      s.(devices := RegisterDevices(s.devices, PlatformUuid(p), p.devices),
         platforms := InsertNew(s.platforms, PlatformUuid(p), PlatformData(p, DeviceUuids(p.devices), Nil)))
  }

  function RegisterPlatforms(s: Maps, ps: seq<ClPlatform>): Maps
  {
    if ps == [] then s else RegisterPlatform(RegisterPlatforms(s, ps[..|ps| - 1]), ps[|ps| - 1])
  }

  lemma {:induction false} RegisterDevicesFacts(m: map<Uuid, DeviceData>, pu: Uuid, ds: seq<ClDevice>)
    ensures var r := RegisterDevices(m, pu, ds);
      Extends(m, r) &&
      (forall d :: d in ds ==> DeviceUuid(d) in r) &&
      (forall u :: u in r ==> u in m || (r[u] == DeviceData(r[u].device, pu, Nil, Nil) && r[u].device in ds && DeviceUuid(r[u].device) == u))
  {
    if ds != [] {
      RegisterDevicesFacts(m, pu, ds[..|ds| - 1]);
      assert ds == ds[..|ds| - 1] + [ds[|ds| - 1]];
    }
  }

  /// info() keeps every record that was there and never touches contexts,
  /// queues, kernels or the uuid generator.
  lemma {:induction false} InfoExtends(s: Maps, ps: seq<ClPlatform>)
    ensures var r := RegisterPlatforms(s, ps);
      Extends(s.platforms, r.platforms) && Extends(s.devices, r.devices) &&
      r.contexts == s.contexts && r.queues == s.queues && r.kernels == s.kernels && r.serial == s.serial
  {
    if ps != [] {
      var s' := RegisterPlatforms(s, ps[..|ps| - 1]);
      InfoExtends(s, ps[..|ps| - 1]);
      var p := ps[|ps| - 1];
      if p.devices != [] {
        RegisterDevicesFacts(s'.devices, PlatformUuid(p), p.devices);
      }
    }
  }

  /// After info(), every enumerated device is registered, and every platform
  /// with at least one device is registered.
  lemma {:induction false} InfoRegisters(s: Maps, ps: seq<ClPlatform>)
    ensures var r := RegisterPlatforms(s, ps);
      (forall p, d :: p in ps && d in p.devices ==> DeviceUuid(d) in r.devices) &&
      (forall p :: p in ps && p.devices != [] ==> PlatformUuid(p) in r.platforms)
  {
    if ps != [] {
      var init := ps[..|ps| - 1];
      var p := ps[|ps| - 1];
      InfoRegisters(s, init);
      RegisterPlatformAdds(RegisterPlatforms(s, init), p);
      assert ps == init + [p];
    }
  }

  /// Registering one platform keeps every registered key and adds its
  /// devices, and itself when it has any.
  lemma RegisterPlatformAdds(s: Maps, p: ClPlatform)
    ensures var r := RegisterPlatform(s, p);
      s.devices.Keys <= r.devices.Keys && s.platforms.Keys <= r.platforms.Keys &&
      (forall d :: d in p.devices ==> DeviceUuid(d) in r.devices) &&
      (p.devices != [] ==> PlatformUuid(p) in r.platforms)
  {
    if p.devices != [] {
      RegisterDevicesFacts(s.devices, PlatformUuid(p), p.devices);
    }
  }

  /// A platform that reports no devices is listed in the response but
  /// never inserted into the platforms map.
  lemma DevicelessPlatformNotRegistered(s: Maps, p: ClPlatform)
    requires p.devices == []
    ensures RegisterPlatform(s, p) == s
  {
  }

  /// A device uuid new to the map belongs to a device enumerated under
  /// some platform, and its record names that platform: the first platform
  /// under which a device of that name was enumerated.
  lemma {:induction false} InfoDevicePlatform(s: Maps, ps: seq<ClPlatform>)
    ensures var r := RegisterPlatforms(s, ps);
      forall u :: u in r.devices && u !in s.devices ==>
        exists p :: p in ps && r.devices[u].device in p.devices &&
          r.devices[u] == DeviceData(r.devices[u].device, PlatformUuid(p), Nil, Nil) &&
          DeviceUuid(r.devices[u].device) == u
  {
    if ps != [] {
      var init := ps[..|ps| - 1];
      var s' := RegisterPlatforms(s, init);
      var r := RegisterPlatforms(s, ps);
      InfoDevicePlatform(s, init);
      InfoExtends(s, init);
      var p := ps[|ps| - 1];
      if p.devices != [] {
        RegisterDevicesFacts(s'.devices, PlatformUuid(p), p.devices);
      }
      forall u | u in r.devices && u !in s.devices
        ensures exists p' :: (p' in ps && r.devices[u].device in p'.devices &&
          r.devices[u] == DeviceData(r.devices[u].device, PlatformUuid(p'), Nil, Nil) &&
          DeviceUuid(r.devices[u].device) == u)
      {
        if u in s'.devices {
          var q :| q in init && s'.devices[u].device in q.devices &&
            s'.devices[u] == DeviceData(s'.devices[u].device, PlatformUuid(q), Nil, Nil) &&
            DeviceUuid(s'.devices[u].device) == u;
          assert q in ps;
        } else {
          assert p in ps;
        }
      }
    }
  }

  /// info() keeps the maps consistent: each new device names its platform,
  /// which is registered in the same step.
  lemma {:induction false} InfoConsistent(s: Maps, ps: seq<ClPlatform>)
    requires Consistent(s)
    ensures Consistent(RegisterPlatforms(s, ps))
  {
    if ps != [] {
      var init := ps[..|ps| - 1];
      InfoConsistent(s, init);
      RegisterPlatformConsistent(RegisterPlatforms(s, init), ps[|ps| - 1]);
    }
  }

  lemma RegisterPlatformConsistent(s: Maps, p: ClPlatform)
    requires Consistent(s)
    ensures Consistent(RegisterPlatform(s, p))
  {
    if p.devices != [] {
      var r := RegisterPlatform(s, p);
      RegisterDevicesFacts(s.devices, PlatformUuid(p), p.devices);
      RegisterPlatformPlatformsOk(s, p);
      RegisterPlatformDevicesOk(s, p);
      assert ContextsOk(r);
      assert QueuesOk(r);
      assert KernelsOk(r);
    }
  }

  lemma RegisterPlatformPlatformsOk(s: Maps, p: ClPlatform)
    requires PlatformsOk(s) && p.devices != []
    ensures PlatformsOk(RegisterPlatform(s, p))
  {
    var r := RegisterPlatform(s, p);
    RegisterDevicesFacts(s.devices, PlatformUuid(p), p.devices);
    forall u | u in r.platforms
      ensures Ref(r.platforms[u].context, r.contexts) && (forall d :: d in r.platforms[u].devices ==> d in r.devices)
    {
      if u !in s.platforms {
        assert r.platforms[u].devices == DeviceUuids(p.devices);
      }
    }
  }

  lemma RegisterPlatformDevicesOk(s: Maps, p: ClPlatform)
    requires DevicesOk(s) && p.devices != []
    ensures DevicesOk(RegisterPlatform(s, p))
  {
    var r := RegisterPlatform(s, p);
    RegisterDevicesFacts(s.devices, PlatformUuid(p), p.devices);
    assert PlatformUuid(p) in r.platforms;
  }

  // ---------------------------------------------------------------------
  // initialize()

  /// The requested devices of one platform, in request order.
  datatype Group = Group(platform: Uuid, members: seq<Uuid>)

  /// The position of the group for platform p, if there is one.
  function GroupOf(gs: seq<Group>, p: Uuid): (r: int)
    ensures -1 <= r < |gs|
    ensures 0 <= r ==> gs[r].platform == p
    ensures r < 0 ==> forall i :: 0 <= i < |gs| ==> gs[i].platform != p
  {
    if gs == [] then -1
    else if gs[|gs| - 1].platform == p then |gs| - 1
    else GroupOf(gs[..|gs| - 1], p)
  }

  /// platform_device_map after one more requested device: appended to its
  /// platform's group, or a new group.
  function AddToGroups(gs: seq<Group>, p: Uuid, id: Uuid): (r: seq<Group>)
    ensures var g := GroupOf(gs, p);
      |r| == (if g < 0 then |gs| + 1 else |gs|) &&
      (forall i :: 0 <= i < |gs| ==> r[i].platform == gs[i].platform) &&
      (forall i :: 0 <= i < |gs| && i != g ==> r[i] == gs[i]) &&
      (g < 0 ==> r[|gs|] == Group(p, [id])) &&
      (0 <= g ==> r[g] == Group(p, gs[g].members + [id]))
  {
    var i := GroupOf(gs, p);
    if 0 <= i then gs[i := Group(p, gs[i].members + [id])] else gs + [Group(p, [id])]
  }

  predicate Known(devices: map<Uuid, DeviceData>, ids: seq<Uuid>)
  {
    forall i :: 0 <= i < |ids| ==> ids[i] in devices
  }

  /// The grouping loop of initialize(), in first-appearance order.
  function Groups(devices: map<Uuid, DeviceData>, ids: seq<Uuid>): seq<Group>
    requires Known(devices, ids)
  {
    if ids == [] then []
    else
      var id := ids[|ids| - 1];
      AddToGroups(Groups(devices, ids[..|ids| - 1]), devices[id].platform, id)
  }

  /// The requested devices whose platform is p, in request order.
  function OfPlatform(devices: map<Uuid, DeviceData>, ids: seq<Uuid>, p: Uuid): seq<Uuid>
    requires Known(devices, ids)
  {
    if ids == [] then []
    else
      var id := ids[|ids| - 1];
      OfPlatform(devices, ids[..|ids| - 1], p) + (if devices[id].platform == p then [id] else [])
  }

  /// Every requested device's platform has a group, and there are groups
  /// exactly when some device was requested.
  lemma {:induction false} GroupsCover(devices: map<Uuid, DeviceData>, ids: seq<Uuid>)
    requires Known(devices, ids)
    ensures var gs := Groups(devices, ids);
      (forall k :: 0 <= k < |ids| ==> GroupOf(gs, devices[ids[k]].platform) >= 0) &&
      (|gs| == 0 <==> |ids| == 0)
  {
    if ids != [] {
      var init := ids[..|ids| - 1];
      GroupsCover(devices, init);
      var gs := Groups(devices, init);
      forall k | 0 <= k < |ids| - 1
        ensures GroupOf(gs, devices[ids[k]].platform) >= 0
      {
        assert ids[k] == init[k];
      }
      GroupsCoverStep(devices, ids, gs);
    }
  }

  /// The step of GroupsCover: the last device on top of groups that cover
  /// the earlier ones.
  lemma GroupsCoverStep(devices: map<Uuid, DeviceData>, ids: seq<Uuid>, gs: seq<Group>)
    requires ids != [] && Known(devices, ids)
    requires forall k :: 0 <= k < |ids| - 1 ==> GroupOf(gs, devices[ids[k]].platform) >= 0
    ensures var id := ids[|ids| - 1];
      var r := AddToGroups(gs, devices[id].platform, id);
      |r| > 0 && forall k :: 0 <= k < |ids| ==> GroupOf(r, devices[ids[k]].platform) >= 0
  {
    var id := ids[|ids| - 1];
    var p := devices[id].platform;
    forall k | 0 <= k < |ids|
      ensures GroupOf(AddToGroups(gs, p, id), devices[ids[k]].platform) >= 0
    {
      var q := devices[ids[k]].platform;
      AddToGroupsFinds(gs, p, id, q);
      if k < |ids| - 1 {
        assert GroupOf(gs, q) >= 0;
      } else {
        assert q == p;
      }
    }
  }

  /// Adding a device keeps every platform that had a group found, and
  /// finds the device's own platform.
  lemma AddToGroupsFinds(gs: seq<Group>, p: Uuid, id: Uuid, q: Uuid)
    ensures GroupOf(gs, q) >= 0 ==> GroupOf(AddToGroups(gs, p, id), q) >= 0
    ensures GroupOf(AddToGroups(gs, p, id), p) >= 0
  {
    var r := AddToGroups(gs, p, id);
    var j := GroupOf(gs, p);
    if GroupOf(gs, q) >= 0 {
      GroupOfFound(r, GroupOf(gs, q), q);
    }
    if j < 0 {
      GroupOfFound(r, |gs|, p);
    } else {
      GroupOfFound(r, j, p);
    }
  }

  /// A platform that some group has is found.
  lemma GroupOfFound(gs: seq<Group>, i: nat, p: Uuid)
    requires i < |gs| && gs[i].platform == p
    ensures GroupOf(gs, p) >= 0
  {
    assert gs[i].platform == p;
  }

  /// No two groups share a platform.
  predicate DistinctPlatforms(gs: seq<Group>)
  {
    forall i, j :: 0 <= i < j < |gs| ==> gs[i].platform != gs[j].platform
  }

  lemma AddToGroupsDistinct(gs: seq<Group>, p: Uuid, id: Uuid)
    requires DistinctPlatforms(gs)
    ensures DistinctPlatforms(AddToGroups(gs, p, id))
  {
    var r := AddToGroups(gs, p, id);
    forall i, j | 0 <= i < j < |r|
      ensures r[i].platform != r[j].platform
    {
      if j == |gs| {
        assert r[i].platform == gs[i].platform;
      } else {
        assert r[i].platform == gs[i].platform && r[j].platform == gs[j].platform;
      }
    }
  }

  /// The grouping never makes two groups for one platform.
  lemma {:induction false} GroupsDistinct(devices: map<Uuid, DeviceData>, ids: seq<Uuid>)
    requires Known(devices, ids)
    ensures DistinctPlatforms(Groups(devices, ids))
  {
    if ids != [] {
      var init := ids[..|ids| - 1];
      GroupsDistinct(devices, init);
      AddToGroupsDistinct(Groups(devices, init), devices[ids[|ids| - 1]].platform, ids[|ids| - 1]);
    }
  }

  /// The group of platform p lists exactly p's requested devices, in
  /// request order, and is never empty.
  ghost predicate MembersExact(devices: map<Uuid, DeviceData>, ids: seq<Uuid>, gs: seq<Group>)
    requires Known(devices, ids)
  {
    forall i :: 0 <= i < |gs| ==> gs[i].members == OfPlatform(devices, ids, gs[i].platform) && gs[i].members != []
  }

  lemma {:induction false} GroupsMembers(devices: map<Uuid, DeviceData>, ids: seq<Uuid>)
    requires Known(devices, ids)
    ensures MembersExact(devices, ids, Groups(devices, ids))
  {
    if ids != [] {
      var init := ids[..|ids| - 1];
      var id := ids[|ids| - 1];
      var p := devices[id].platform;
      GroupsMembers(devices, init);
      GroupsDistinct(devices, init);
      var gs := Groups(devices, init);
      var r := Groups(devices, ids);
      assert r == AddToGroups(gs, p, id);
      var g := GroupOf(gs, p);
      NoGroupNoMembers(devices, init, p);
      forall i | 0 <= i < |r|
        ensures r[i].members == OfPlatform(devices, ids, r[i].platform) && r[i].members != []
      {
        if i == |gs| {
          assert r[i] == Group(p, [id]);
          assert OfPlatform(devices, init, p) == [];
        } else if i == g {
          assert r[i] == Group(p, gs[i].members + [id]);
        } else {
          assert r[i] == gs[i];
          assert gs[i].platform != p;
        }
      }
    }
  }

  /// A platform with requested devices has a group.
  lemma NoGroupNoMembers(devices: map<Uuid, DeviceData>, ids: seq<Uuid>, p: Uuid)
    requires Known(devices, ids)
    ensures OfPlatform(devices, ids, p) != [] ==> GroupOf(Groups(devices, ids), p) >= 0
  {
    if OfPlatform(devices, ids, p) != [] {
      OfPlatformMembers(devices, ids, p);
      GroupsCover(devices, ids);
      var d := OfPlatform(devices, ids, p)[0];
      assert d in OfPlatform(devices, ids, p);
      var k :| 0 <= k < |ids| && ids[k] == d;
      assert GroupOf(Groups(devices, ids), devices[ids[k]].platform) >= 0;
    }
  }

  /// The n random uuids issued from serial start on.
  function Issue(start: nat, n: nat): (r: seq<Uuid>)
    ensures |r| == n && forall i :: 0 <= i < n ==> r[i] == Random(start + i)
  {
    if n == 0 then [] else Issue(start, n - 1) + [Random(start + n - 1)]
  }

  /// The newQueue uuid the generator issues next.
  function Next(s: Maps): Uuid
  {
    Random(s.serial)
  }

  /// The first part of a group's iteration: a new context uuid, recorded
  /// as the platform's context.
  function StartGroup(s: Maps, p: Uuid): Maps
    requires p in s.platforms
  {
    s.(platforms := s.platforms[p := s.platforms[p].(context := Next(s))], serial := s.serial + 1)
  }

  /// The inner loop of a group: for each device, record the context, issue
  /// a queue uuid, insert the queue record (context, device), record the
  /// queue on the device and list it on the context.
  function AddQueues(s: Maps, ctx: Uuid, ds: seq<Uuid>, cd: ContextData): (r: (Maps, ContextData))
    requires forall d :: d in ds ==> d in s.devices
    ensures r.0.devices.Keys == s.devices.Keys && r.0.platforms == s.platforms
    ensures r.0.contexts == s.contexts && r.0.kernels == s.kernels
  {
    if ds == [] then (s, cd)
    else
      var prev := AddQueues(s, ctx, ds[..|ds| - 1], cd);
      var t := prev.0;
      var dev := ds[|ds| - 1];
      var q := Next(t);
      (t.(devices := t.devices[dev := t.devices[dev].(context := ctx, queue := q)],
          queues := InsertNew(t.queues, q, QueueData(ctx, dev)),
          serial := t.serial + 1),
       prev.1.(queues := prev.1.queues + [q]))
  }

  /// One iteration of initialize()'s group loop.
  function InitGroup(s: Maps, g: Group): Maps
    requires g.platform in s.platforms && forall d :: d in g.members ==> d in s.devices
  {
    var ctx := Next(s);
    var r := AddQueues(StartGroup(s, g.platform), ctx, g.members, ContextData(g.platform, g.members, [], Nil));
    r.0.(contexts := InsertNew(r.0.contexts, ctx, r.1))
  }

  ghost predicate GroupsKnown(s: Maps, gs: seq<Group>)
  {
    forall i :: 0 <= i < |gs| ==> gs[i].platform in s.platforms && forall d :: d in gs[i].members ==> d in s.devices
  }

  function InitGroups(s: Maps, gs: seq<Group>): (r: Maps)
    requires GroupsKnown(s, gs)
    ensures r.devices.Keys == s.devices.Keys && r.platforms.Keys == s.platforms.Keys
  {
    if gs == [] then s
    else
      var t := InitGroups(s, gs[..|gs| - 1]);
      InitGroup(t, gs[|gs| - 1])
  }

  /// Everything initialize() needs of its state: consistent maps and known
  /// requested devices (operator[] would otherwise insert a default record
  /// whose null device the OpenCL context constructor rejects).
  lemma GroupsAreKnown(s: Maps, ids: seq<Uuid>)
    requires Consistent(s) && Known(s.devices, ids)
    ensures GroupsKnown(s, Groups(s.devices, ids))
  {
    var gs := Groups(s.devices, ids);
    GroupsMembers(s.devices, ids);
    forall i | 0 <= i < |gs|
      ensures gs[i].platform in s.platforms && forall d :: d in gs[i].members ==> d in s.devices
    {
      OfPlatformMembers(s.devices, ids, gs[i].platform);
      var d := gs[i].members[0];
      assert d in gs[i].members;
    }
  }

  lemma {:induction false} OfPlatformMembers(devices: map<Uuid, DeviceData>, ids: seq<Uuid>, p: Uuid)
    requires Known(devices, ids)
    ensures forall d :: d in OfPlatform(devices, ids, p) ==> d in ids && d in devices && devices[d].platform == p
  {
    if ids != [] {
      OfPlatformMembers(devices, ids[..|ids| - 1], p);
    }
  }

  /// initialize(ids) as a function of the state.
  function Initialized(s: Maps, ids: seq<Uuid>): Maps
    requires Consistent(s) && Known(s.devices, ids)
  {
    GroupsAreKnown(s, ids);
    InitGroups(s, Groups(s.devices, ids))
  }

  /// initialize() returns true exactly when some device was requested.
  lemma InitializeResult(s: Maps, ids: seq<Uuid>)
    requires Known(s.devices, ids)
    ensures |Groups(s.devices, ids)| > 0 <==> |ids| > 0
  {
    GroupsCover(s.devices, ids);
  }

  /// The inner loop issues one queue uuid per device and lists them on the
  /// context in order.
  lemma {:induction false} AddQueuesSerial(s: Maps, ctx: Uuid, ds: seq<Uuid>, cd: ContextData)
    requires forall d :: d in ds ==> d in s.devices
    ensures AddQueues(s, ctx, ds, cd).0.serial == s.serial + |ds|
    ensures AddQueues(s, ctx, ds, cd).1 == cd.(queues := cd.queues + Issue(s.serial, |ds|))
  {
    AddQueuesCount(s, ctx, ds, cd);
    AddQueuesList(s, ctx, ds, cd);
  }

  lemma {:induction false} AddQueuesCount(s: Maps, ctx: Uuid, ds: seq<Uuid>, cd: ContextData)
    requires forall d :: d in ds ==> d in s.devices
    ensures AddQueues(s, ctx, ds, cd).0.serial == s.serial + |ds|
  {
    if ds != [] {
      AddQueuesCount(s, ctx, ds[..|ds| - 1], cd);
    }
  }

  lemma {:induction false} AddQueuesList(s: Maps, ctx: Uuid, ds: seq<Uuid>, cd: ContextData)
    requires forall d :: d in ds ==> d in s.devices
    ensures AddQueues(s, ctx, ds, cd).1 == cd.(queues := cd.queues + Issue(s.serial, |ds|))
  {
    if ds != [] {
      var init := ds[..|ds| - 1];
      AddQueuesList(s, ctx, init, cd);
      AddQueuesCount(s, ctx, init, cd);
      assert Issue(s.serial, |ds|) == Issue(s.serial, |init|) + [Random(s.serial + |init|)];
    }
  }

  /// The inner loop inserts one queue record per issued uuid and keeps the
  /// records already there.
  lemma {:induction false} AddQueuesIssues(s: Maps, ctx: Uuid, ds: seq<Uuid>, cd: ContextData)
    requires forall d :: d in ds ==> d in s.devices
    ensures var q := AddQueues(s, ctx, ds, cd).0.queues;
      (forall u :: u in q <==> u in s.queues || IssuedBetween(u, s.serial, s.serial + |ds|)) &&
      (forall u :: u in s.queues ==> q[u] == s.queues[u])
  {
    if ds != [] {
      var init := ds[..|ds| - 1];
      AddQueuesIssues(s, ctx, init, cd);
      AddQueuesSerial(s, ctx, init, cd);
      assert Issue(s.serial, |ds|) == Issue(s.serial, |init|) + [Random(s.serial + |init|)];
    }
  }

  /// The inner loop leaves every device outside the group unchanged.
  lemma {:induction false} AddQueuesFrame(s: Maps, ctx: Uuid, ds: seq<Uuid>, cd: ContextData)
    requires forall d :: d in ds ==> d in s.devices
    ensures var r := AddQueues(s, ctx, ds, cd);
      forall u :: u in s.devices && u !in ds ==> r.0.devices[u] == s.devices[u]
  {
    if ds != [] {
      AddQueuesFrame(s, ctx, ds[..|ds| - 1], cd);
    }
  }

  /// The last position of u in ds.
  function LastIndex(ds: seq<Uuid>, u: Uuid): (i: nat)
    requires u in ds
    ensures i < |ds| && ds[i] == u && forall j :: i < j < |ds| ==> ds[j] != u
  {
    if ds[|ds| - 1] == u then |ds| - 1 else LastIndex(ds[..|ds| - 1], u)
  }

  /// Every device of ds carries context ctx and the queue issued at its
  /// last position in ds, counting from serial.
  ghost predicate Queued(sd: map<Uuid, DeviceData>, rd: map<Uuid, DeviceData>, ctx: Uuid, serial: nat, ds: seq<Uuid>)
    requires forall d :: d in ds ==> d in sd
  {
    forall u :: u in ds ==>
      u in rd && rd[u] == sd[u].(context := ctx, queue := Random(serial + LastIndex(ds, u)))
  }

  lemma QueuedStep(sd: map<Uuid, DeviceData>, td: map<Uuid, DeviceData>, ctx: Uuid, serial: nat, ds: seq<Uuid>)
    requires ds != [] && forall d :: d in ds ==> d in sd
    requires Queued(sd, td, ctx, serial, ds[..|ds| - 1])
    requires ds[|ds| - 1] !in ds[..|ds| - 1] ==> ds[|ds| - 1] in td && td[ds[|ds| - 1]] == sd[ds[|ds| - 1]]
    ensures ds[|ds| - 1] in td
    ensures var dev := ds[|ds| - 1];
      Queued(sd, td[dev := td[dev].(context := ctx, queue := Random(serial + |ds| - 1))], ctx, serial, ds)
  {
    var init := ds[..|ds| - 1];
    var dev := ds[|ds| - 1];
    var rd := td[dev := td[dev].(context := ctx, queue := Random(serial + |ds| - 1))];
    forall u | u in ds
      ensures u in rd && rd[u] == sd[u].(context := ctx, queue := Random(serial + LastIndex(ds, u)))
    {
      if u == dev {
        assert LastIndex(ds, u) == |init|;
      } else {
        assert u in init;
        assert LastIndex(ds, u) == LastIndex(init, u);
      }
    }
  }

  lemma AddQueuesLast(s: Maps, ctx: Uuid, ds: seq<Uuid>, cd: ContextData)
    requires ds != [] && forall d :: d in ds ==> d in s.devices
    ensures var t := AddQueues(s, ctx, ds[..|ds| - 1], cd).0;
      var dev := ds[|ds| - 1];
      AddQueues(s, ctx, ds, cd).0.devices == t.devices[dev := t.devices[dev].(context := ctx, queue := Random(t.serial))]
  {
  }

  /// The inner loop gives every device of the group the group's context and
  /// the queue issued at its last position, keeping its platform and its
  /// OpenCL device.
  lemma {:induction false} AddQueuesDevices(s: Maps, ctx: Uuid, ds: seq<Uuid>, cd: ContextData)
    requires forall d :: d in ds ==> d in s.devices
    ensures Queued(s.devices, AddQueues(s, ctx, ds, cd).0.devices, ctx, s.serial, ds)
  {
    if ds != [] {
      var init := ds[..|ds| - 1];
      var dev := ds[|ds| - 1];
      var t := AddQueues(s, ctx, init, cd).0;
      var rd := t.devices[dev := t.devices[dev].(context := ctx, queue := Random(s.serial + |ds| - 1))];
      assert Queued(s.devices, rd, ctx, s.serial, ds) by {
        AddQueuesDevices(s, ctx, init, cd);
        AddQueuesFrame(s, ctx, init, cd);
        QueuedStep(s.devices, t.devices, ctx, s.serial, ds);
      }
      assert AddQueues(s, ctx, ds, cd).0.devices == rd by {
        AddQueuesSerial(s, ctx, init, cd);
        AddQueuesLast(s, ctx, ds, cd);
      }
    }
  }

  /// One more device: one more queue record, under the next serial.
  lemma AddQueuesLastQueue(s: Maps, ctx: Uuid, ds: seq<Uuid>, cd: ContextData)
    requires ds != [] && forall d :: d in ds ==> d in s.devices
    ensures var t := AddQueues(s, ctx, ds[..|ds| - 1], cd).0;
      AddQueues(s, ctx, ds, cd).0.queues == InsertNew(t.queues, Random(t.serial), QueueData(ctx, ds[|ds| - 1]))
  {
  }

  /// The k-th queue of qs is recorded in qm as (ctx, the k-th device).
  ghost predicate RecordsAt(qm: map<Uuid, QueueData>, ctx: Uuid, ds: seq<Uuid>, qs: seq<Uuid>)
  {
    |qs| == |ds| && forall k :: 0 <= k < |ds| ==> qs[k] in qm && qm[qs[k]] == QueueData(ctx, ds[k])
  }

  /// Each queue the inner loop issues is recorded as (ctx, its device).
  lemma {:induction false} AddQueuesRecords(s: Maps, ctx: Uuid, ds: seq<Uuid>, cd: ContextData)
    requires forall d :: d in ds ==> d in s.devices
    requires forall q :: q in s.queues ==> Issued(q, s.serial)
    ensures RecordsAt(AddQueues(s, ctx, ds, cd).0.queues, ctx, ds, Issue(s.serial, |ds|))
  {
    if ds != [] {
      var init := ds[..|ds| - 1];
      var t := AddQueues(s, ctx, init, cd).0;
      var q := AddQueues(s, ctx, ds, cd).0.queues;
      var qs := Issue(s.serial, |ds|);
      var qi := Issue(s.serial, |init|);
      var newQueue := Random(s.serial + |init|);
      assert q == InsertNew(t.queues, newQueue, QueueData(ctx, ds[|init|])) by {
        AddQueuesSerial(s, ctx, init, cd);
        AddQueuesLastQueue(s, ctx, ds, cd);
      }
      assert newQueue !in t.queues by {
        AddQueuesIssues(s, ctx, init, cd);
        assert !Issued(newQueue, s.serial);
      }
      assert RecordsAt(t.queues, ctx, init, qs[..|init|]) by {
        AddQueuesRecords(s, ctx, init, cd);
        assert qs[..|init|] == qi;
      }
      RecordsStep(t.queues, ctx, ds, qs);
    }
  }

  lemma RecordsStep(tq: map<Uuid, QueueData>, ctx: Uuid, ds: seq<Uuid>, qs: seq<Uuid>)
    requires ds != [] && |qs| == |ds| && qs[|ds| - 1] !in tq
    requires RecordsAt(tq, ctx, ds[..|ds| - 1], qs[..|ds| - 1])
    ensures RecordsAt(InsertNew(tq, qs[|ds| - 1], QueueData(ctx, ds[|ds| - 1])), ctx, ds, qs)
  {
    var q := InsertNew(tq, qs[|ds| - 1], QueueData(ctx, ds[|ds| - 1]));
    forall k | 0 <= k < |ds|
      ensures qs[k] in q && q[qs[k]] == QueueData(ctx, ds[k])
    {
      if k < |ds| - 1 {
        assert qs[..|ds| - 1][k] == qs[k] && ds[..|ds| - 1][k] == ds[k];
      }
    }
  }

  /// The inner loop changes only the context and queue of a device.
  lemma {:induction false} AddQueuesKeepsDevices(s: Maps, ctx: Uuid, ds: seq<Uuid>, cd: ContextData)
    requires forall d :: d in ds ==> d in s.devices
    ensures var r := AddQueues(s, ctx, ds, cd).0;
      forall u :: u in s.devices ==> r.devices[u].device == s.devices[u].device && r.devices[u].platform == s.devices[u].platform
  {
    if ds != [] {
      AddQueuesKeepsDevices(s, ctx, ds[..|ds| - 1], cd);
    }
  }

  /// What one group's iteration does to the platforms, contexts and
  /// kernels: the platform's context is a new uuid, and the new context
  /// lists the group's devices and the queues issued after it.
  lemma InitGroupMaps(s: Maps, g: Group)
    requires Consistent(s)
    requires g.platform in s.platforms && forall d :: d in g.members ==> d in s.devices
    ensures Next(s) !in s.contexts
    ensures InitGroup(s, g).serial == s.serial + 1 + |g.members|
    ensures InitGroup(s, g).platforms == s.platforms[g.platform := s.platforms[g.platform].(context := Next(s))]
    ensures InitGroup(s, g).contexts
      == s.contexts[Next(s) := ContextData(g.platform, g.members, Issue(s.serial + 1, |g.members|), Nil)]
    ensures InitGroup(s, g).kernels == s.kernels
  {
    NextContextFresh(s);
    InitGroupSerial(s, g);
    InitGroupContext(s, g);
  }

  /// The uuid a group's iteration issues for its context is not a context
  /// yet.
  lemma NextContextFresh(s: Maps)
    requires Consistent(s)
    ensures Next(s) !in s.contexts
  {
    assert !Issued(Next(s), s.serial);
  }

  /// A group's iteration issues 1 + |members| uuids.
  lemma InitGroupSerial(s: Maps, g: Group)
    requires g.platform in s.platforms && forall d :: d in g.members ==> d in s.devices
    ensures InitGroup(s, g).serial == s.serial + 1 + |g.members|
  {
    AddQueuesSerial(StartGroup(s, g.platform), Next(s), g.members, ContextData(g.platform, g.members, [], Nil));
  }

  /// A group's new context lists the group's devices and the queues issued
  /// after the context.
  lemma InitGroupContext(s: Maps, g: Group)
    requires Next(s) !in s.contexts
    requires g.platform in s.platforms && forall d :: d in g.members ==> d in s.devices
    ensures InitGroup(s, g).contexts
      == s.contexts[Next(s) := ContextData(g.platform, g.members, Issue(s.serial + 1, |g.members|), Nil)]
  {
    var cd0 := ContextData(g.platform, g.members, [], Nil);
    var qs := Issue(s.serial + 1, |g.members|);
    var r := AddQueues(StartGroup(s, g.platform), Next(s), g.members, cd0);
    AddQueuesSerial(StartGroup(s, g.platform), Next(s), g.members, cd0);
    assert [] + qs == qs;
    assert r.1 == ContextData(g.platform, g.members, qs, Nil);
    assert r.0.contexts == s.contexts;
    InsertNewFresh(s.contexts, Next(s), r.1);
  }

  lemma InsertNewFresh<V>(m: map<Uuid, V>, k: Uuid, v: V)
    requires k !in m
    ensures InsertNew(m, k, v) == m[k := v]
  {
  }

  /// What one group's iteration does to the devices: the group's devices
  /// get the new context and their queue, the others are unchanged, and no
  /// device changes platform or OpenCL device.
  lemma InitGroupDevices(s: Maps, g: Group)
    requires g.platform in s.platforms && forall d :: d in g.members ==> d in s.devices
    ensures InitGroup(s, g).devices.Keys == s.devices.Keys
    ensures forall d :: d in s.devices ==>
      InitGroup(s, g).devices[d].device == s.devices[d].device &&
      InitGroup(s, g).devices[d].platform == s.devices[d].platform
    ensures forall d :: d in s.devices && d !in g.members ==> InitGroup(s, g).devices[d] == s.devices[d]
    ensures Queued(s.devices, InitGroup(s, g).devices, Next(s), s.serial + 1, g.members)
  {
    InitGroupKeepsDevices(s, g);
    InitGroupOthers(s, g);
    InitGroupQueued(s, g);
  }

  /// One group's iteration changes no device's platform or OpenCL device.
  lemma InitGroupKeepsDevices(s: Maps, g: Group)
    requires g.platform in s.platforms && forall d :: d in g.members ==> d in s.devices
    ensures forall d :: d in s.devices ==>
      d in InitGroup(s, g).devices &&
      InitGroup(s, g).devices[d].device == s.devices[d].device &&
      InitGroup(s, g).devices[d].platform == s.devices[d].platform
  {
    var cd0 := ContextData(g.platform, g.members, [], Nil);
    AddQueuesKeepsDevices(StartGroup(s, g.platform), Next(s), g.members, cd0);
  }

  /// One group's iteration leaves the devices outside the group alone.
  lemma InitGroupOthers(s: Maps, g: Group)
    requires g.platform in s.platforms && forall d :: d in g.members ==> d in s.devices
    ensures forall d :: d in s.devices && d !in g.members ==> d in InitGroup(s, g).devices && InitGroup(s, g).devices[d] == s.devices[d]
  {
    var cd0 := ContextData(g.platform, g.members, [], Nil);
    AddQueuesFrame(StartGroup(s, g.platform), Next(s), g.members, cd0);
  }

  /// One group's iteration gives each of its devices the new context and
  /// its queue.
  lemma InitGroupQueued(s: Maps, g: Group)
    requires g.platform in s.platforms && forall d :: d in g.members ==> d in s.devices
    ensures Queued(s.devices, InitGroup(s, g).devices, Next(s), s.serial + 1, g.members)
  {
    var cd0 := ContextData(g.platform, g.members, [], Nil);
    AddQueuesDevices(StartGroup(s, g.platform), Next(s), g.members, cd0);
  }

  /// What one group's iteration does to the queues: the issued queues are
  /// new and recorded as (new context, device), the old ones are kept.
  lemma InitGroupQueues(s: Maps, g: Group)
    requires forall q :: q in s.queues ==> Issued(q, s.serial)
    requires g.platform in s.platforms && forall d :: d in g.members ==> d in s.devices
    ensures forall q :: q in InitGroup(s, g).queues <==> q in s.queues || IssuedBetween(q, s.serial + 1, s.serial + 1 + |g.members|)
    ensures forall q :: q in s.queues ==> InitGroup(s, g).queues[q] == s.queues[q]
    ensures RecordsAt(InitGroup(s, g).queues, Next(s), g.members, Issue(s.serial + 1, |g.members|))
  {
    InitGroupQueueKeys(s, g);
    InitGroupKeepsQueues(s, g);
    InitGroupRecords(s, g);
  }

  /// The queues of one group's iteration are the old ones and the issued
  /// ones.
  lemma InitGroupQueueKeys(s: Maps, g: Group)
    requires forall q :: q in s.queues ==> Issued(q, s.serial)
    requires g.platform in s.platforms && forall d :: d in g.members ==> d in s.devices
    ensures forall q :: q in InitGroup(s, g).queues <==> q in s.queues || IssuedBetween(q, s.serial + 1, s.serial + 1 + |g.members|)
  {
    var s1 := StartGroup(s, g.platform);
    var cd0 := ContextData(g.platform, g.members, [], Nil);
    assert InitGroup(s, g).queues == AddQueues(s1, Next(s), g.members, cd0).0.queues;
    AddQueuesIssues(s1, Next(s), g.members, cd0);
  }

  /// One group's iteration keeps every old queue record.
  lemma InitGroupKeepsQueues(s: Maps, g: Group)
    requires forall q :: q in s.queues ==> Issued(q, s.serial)
    requires g.platform in s.platforms && forall d :: d in g.members ==> d in s.devices
    ensures forall q :: q in s.queues ==> q in InitGroup(s, g).queues && InitGroup(s, g).queues[q] == s.queues[q]
  {
    var s1 := StartGroup(s, g.platform);
    var cd0 := ContextData(g.platform, g.members, [], Nil);
    assert InitGroup(s, g).queues == AddQueues(s1, Next(s), g.members, cd0).0.queues;
    AddQueuesIssues(s1, Next(s), g.members, cd0);
  }

  /// One group's iteration records each issued queue as (new context, its
  /// device).
  lemma InitGroupRecords(s: Maps, g: Group)
    requires forall q :: q in s.queues ==> Issued(q, s.serial)
    requires g.platform in s.platforms && forall d :: d in g.members ==> d in s.devices
    ensures RecordsAt(InitGroup(s, g).queues, Next(s), g.members, Issue(s.serial + 1, |g.members|))
  {
    var s1 := StartGroup(s, g.platform);
    var cd0 := ContextData(g.platform, g.members, [], Nil);
    assert forall q :: q in s1.queues ==> Issued(q, s1.serial);
    assert InitGroup(s, g).queues == AddQueues(s1, Next(s), g.members, cd0).0.queues;
    AddQueuesRecords(s1, Next(s), g.members, cd0);
  }

  /// The state after one group's iteration, described map by map: u is s
  /// with a new context ctx for group g, whose queues are qs.
  ghost predicate GroupStep(s: Maps, u: Maps, g: Group, ctx: Uuid, qs: seq<Uuid>)
    requires forall d :: d in g.members ==> d in s.devices
  {
    g.platform in s.platforms &&
    ctx == Random(s.serial) && qs == Issue(s.serial + 1, |g.members|) &&
    u.serial == s.serial + 1 + |g.members| &&
    u.platforms == s.platforms[g.platform := s.platforms[g.platform].(context := ctx)] &&
    u.contexts == s.contexts[ctx := ContextData(g.platform, g.members, qs, Nil)] &&
    u.kernels == s.kernels &&
    u.devices.Keys == s.devices.Keys &&
    (forall d :: d in s.devices ==> u.devices[d].platform == s.devices[d].platform) &&
    (forall d :: d in s.devices && d !in g.members ==> u.devices[d] == s.devices[d]) &&
    Queued(s.devices, u.devices, ctx, s.serial + 1, g.members) &&
    (forall q :: q in u.queues <==> q in s.queues || IssuedBetween(q, s.serial + 1, s.serial + 1 + |g.members|)) &&
    (forall q :: q in s.queues ==> u.queues[q] == s.queues[q]) &&
    RecordsAt(u.queues, ctx, g.members, qs)
  }

  lemma InitGroupStep(s: Maps, g: Group)
    requires Consistent(s)
    requires g.platform in s.platforms && forall d :: d in g.members ==> d in s.devices
    ensures GroupStep(s, InitGroup(s, g), g, Next(s), Issue(s.serial + 1, |g.members|))
  {
    InitGroupMaps(s, g);
    InitGroupDevices(s, g);
    InitGroupQueues(s, g);
  }

  lemma StepPlatformsOk(s: Maps, u: Maps, g: Group, ctx: Uuid, qs: seq<Uuid>)
    requires forall d :: d in g.members ==> d in s.devices
    requires Consistent(s) && GroupStep(s, u, g, ctx, qs)
    ensures PlatformsOk(u)
  {
  }

  lemma StepDevicesOk(s: Maps, u: Maps, g: Group, ctx: Uuid, qs: seq<Uuid>)
    requires forall d :: d in g.members ==> d in s.devices
    requires Consistent(s) && GroupStep(s, u, g, ctx, qs)
    ensures DevicesOk(u)
  {
    forall d | d in u.devices
      ensures u.devices[d].platform in u.platforms && Ref(u.devices[d].context, u.contexts) && Ref(u.devices[d].queue, u.queues)
    {
      if d in g.members {
        assert IssuedBetween(u.devices[d].queue, s.serial + 1, u.serial);
      }
    }
  }

  lemma StepContextsOk(s: Maps, u: Maps, g: Group, ctx: Uuid, qs: seq<Uuid>)
    requires forall d :: d in g.members ==> d in s.devices
    requires Consistent(s) && GroupStep(s, u, g, ctx, qs)
    ensures ContextsOk(u)
  {
    forall q | q in qs
      ensures q in u.queues
    {
      var k :| 0 <= k < |qs| && qs[k] == q;
      assert IssuedBetween(q, s.serial + 1, u.serial);
    }
  }

  lemma StepQueuesOk(s: Maps, u: Maps, g: Group, ctx: Uuid, qs: seq<Uuid>)
    requires forall d :: d in g.members ==> d in s.devices
    requires Consistent(s) && GroupStep(s, u, g, ctx, qs)
    ensures QueuesOk(u)
  {
    forall q | q in u.queues
      ensures Issued(q, u.serial) && u.queues[q].context in u.contexts && u.queues[q].device in u.devices
    {
      if q !in s.queues {
        var k := q.serial - s.serial - 1;
        assert qs[k] == q;
      }
    }
  }

  /// One group's iteration keeps every record's references valid.
  lemma InitGroupConsistent(s: Maps, g: Group)
    requires Consistent(s)
    requires g.platform in s.platforms && forall d :: d in g.members ==> d in s.devices
    ensures Consistent(InitGroup(s, g))
  {
    var u := InitGroup(s, g);
    var ctx := Next(s);
    var qs := Issue(s.serial + 1, |g.members|);
    InitGroupStep(s, g);
    StepPlatformsOk(s, u, g, ctx, qs);
    StepDevicesOk(s, u, g, ctx, qs);
    StepContextsOk(s, u, g, ctx, qs);
    StepQueuesOk(s, u, g, ctx, qs);
  }

  /// What initialize() leaves for group g, relative to the state s0 it
  /// started from: the platform's context is new, belongs to the platform,
  /// lists exactly the group's devices and one new queue per device,
  /// recorded as (context, device), and every device of the group uses that
  /// context and one of those queues.
  ghost predicate GroupDone(s0: Maps, r: Maps, g: Group)
  {
    g.platform in r.platforms &&
    var c := r.platforms[g.platform].context;
    c !in s0.contexts && c in r.contexts &&
    r.contexts[c].platform == g.platform && r.contexts[c].devices == g.members && r.contexts[c].kernel == Nil &&
    RecordsAt(r.queues, c, g.members, r.contexts[c].queues) &&
    (forall q :: q in r.contexts[c].queues ==> q !in s0.queues) &&
    (forall d :: d in g.members ==> d in r.devices && r.devices[d].context == c && r.devices[d].queue in r.contexts[c].queues)
  }

  lemma StepDone(s: Maps, u: Maps, g: Group, ctx: Uuid, qs: seq<Uuid>)
    requires forall d :: d in g.members ==> d in s.devices
    requires Consistent(s) && GroupStep(s, u, g, ctx, qs)
    ensures GroupDone(s, u, g)
  {
    assert ctx !in s.contexts by {
      assert !Issued(ctx, s.serial);
    }
    forall q | q in qs
      ensures q !in s.queues
    {
      assert !Issued(q, s.serial);
    }
    forall d | d in g.members
      ensures u.devices[d].queue in qs
    {
      assert qs[LastIndex(g.members, d)] == u.devices[d].queue;
    }
  }

  /// A later group, of another platform and with other devices, leaves an
  /// earlier group's outcome in place.
  lemma StepKeepsDone(s0: Maps, t: Maps, u: Maps, g: Group, h: Group, ctx: Uuid, qs: seq<Uuid>)
    requires forall d :: d in h.members ==> d in t.devices
    requires Consistent(t) && GroupStep(t, u, h, ctx, qs)
    requires GroupDone(s0, t, g)
    requires g.platform != h.platform && forall d :: d in g.members ==> d !in h.members
    ensures GroupDone(s0, u, g)
  {
    var c := t.platforms[g.platform].context;
    assert c != ctx by {
      assert Issued(c, t.serial);
    }
    var cq := t.contexts[c].queues;
    forall k | 0 <= k < |g.members|
      ensures cq[k] in u.queues && u.queues[cq[k]] == QueueData(c, g.members[k])
    {
      assert cq[k] in t.queues;
    }
    forall d | d in g.members
      ensures d in u.devices && u.devices[d] == t.devices[d]
    {
    }
  }

  /// The last group's iteration's platform is never an earlier group's.
  lemma GroupOfPrefix(gs: seq<Group>, p: Uuid)
    requires gs != [] && GroupOf(gs[..|gs| - 1], p) >= 0
    ensures GroupOf(gs, p) >= 0
  {
    var i := GroupOf(gs[..|gs| - 1], p);
    assert gs[i] == gs[..|gs| - 1][i];
  }

  /// No device is requested under two groups.
  predicate MembersDisjoint(gs: seq<Group>)
  {
    forall i, j, d :: 0 <= i < j < |gs| && d in gs[i].members ==> d !in gs[j].members
  }

  /// The group loop of initialize() keeps the maps consistent.
  lemma {:induction false} InitGroupsConsistent(s: Maps, gs: seq<Group>)
    requires Consistent(s) && GroupsKnown(s, gs)
    ensures Consistent(InitGroups(s, gs))
  {
    if gs != [] {
      var init := gs[..|gs| - 1];
      assert GroupsKnown(s, init);
      InitGroupsConsistent(s, init);
      InitGroupConsistent(InitGroups(s, init), gs[|gs| - 1]);
    }
  }

  /// The group loop only adds contexts and queues, leaves the kernels, and
  /// touches no platform without a group and no device outside the groups.
  ghost predicate Framed(s: Maps, r: Maps, gs: seq<Group>)
  {
    Extends(s.contexts, r.contexts) && Extends(s.queues, r.queues) && r.kernels == s.kernels &&
    r.platforms.Keys == s.platforms.Keys && r.devices.Keys == s.devices.Keys &&
    (forall p :: p in s.platforms && GroupOf(gs, p) < 0 ==> r.platforms[p] == s.platforms[p]) &&
    (forall d :: d in s.devices && (forall i :: 0 <= i < |gs| ==> d !in gs[i].members) ==> r.devices[d] == s.devices[d]) &&
    (forall d :: d in s.devices ==> r.devices[d].platform == s.devices[d].platform)
  }

  lemma FramedStep(s: Maps, t: Maps, u: Maps, gs: seq<Group>, ctx: Uuid, qs: seq<Uuid>)
    requires gs != [] && forall d :: d in gs[|gs| - 1].members ==> d in t.devices
    requires Framed(s, t, gs[..|gs| - 1]) && GroupStep(t, u, gs[|gs| - 1], ctx, qs) && ctx !in t.contexts
    ensures Framed(s, u, gs)
  {
    var init := gs[..|gs| - 1];
    var g := gs[|gs| - 1];
    FramedPlatformsStep(s.platforms, t.platforms, u.platforms, gs, ctx);
    FramedDevicesStep(s.devices, t.devices, u.devices, init, gs);
  }

  /// A platform without a group keeps its record through one more group.
  lemma FramedPlatformsStep(sp: map<Uuid, PlatformData>, tp: map<Uuid, PlatformData>, up: map<Uuid, PlatformData>,
                            gs: seq<Group>, ctx: Uuid)
    requires gs != [] && gs[|gs| - 1].platform in tp
    requires forall p :: p in sp && GroupOf(gs[..|gs| - 1], p) < 0 ==> p in tp && tp[p] == sp[p]
    requires up == tp[gs[|gs| - 1].platform := tp[gs[|gs| - 1].platform].(context := ctx)]
    ensures forall p :: p in sp && GroupOf(gs, p) < 0 ==> up[p] == sp[p]
  {
    var g := gs[|gs| - 1];
    forall p | p in sp && GroupOf(gs, p) < 0
      ensures up[p] == sp[p]
    {
      assert p != g.platform;
      if GroupOf(gs[..|gs| - 1], p) >= 0 {
        GroupOfPrefix(gs, p);
      }
    }
  }

  /// A device outside every group keeps its record through one more group.
  lemma FramedDevicesStep(sd: map<Uuid, DeviceData>, td: map<Uuid, DeviceData>, ud: map<Uuid, DeviceData>,
                          init: seq<Group>, gs: seq<Group>)
    requires gs != [] && init == gs[..|gs| - 1]
    requires forall d :: d in sd && (forall i :: 0 <= i < |init| ==> d !in init[i].members) ==> d in td && td[d] == sd[d]
    requires forall d :: d in td && d !in gs[|gs| - 1].members ==> d in ud && ud[d] == td[d]
    ensures forall d :: d in sd && (forall i :: 0 <= i < |gs| ==> d !in gs[i].members) ==> ud[d] == sd[d]
  {
    forall d | d in sd && (forall i :: 0 <= i < |gs| ==> d !in gs[i].members)
      ensures ud[d] == sd[d]
    {
      assert d !in gs[|gs| - 1].members;
      forall i | 0 <= i < |init|
        ensures d !in init[i].members
      {
        assert init[i] == gs[i];
      }
    }
  }

  lemma {:induction false} InitGroupsFrame(s: Maps, gs: seq<Group>)
    requires Consistent(s) && GroupsKnown(s, gs)
    ensures Framed(s, InitGroups(s, gs), gs)
  {
    if gs != [] {
      var init := gs[..|gs| - 1];
      var g := gs[|gs| - 1];
      assert GroupsKnown(s, init);
      InitGroupsFrame(s, init);
      InitGroupsConsistent(s, init);
      var t := InitGroups(s, init);
      InitGroupStep(t, g);
      assert Next(t) !in t.contexts by {
        assert !Issued(Next(t), t.serial);
      }
      FramedStep(s, t, InitGroups(s, gs), gs, Next(t), Issue(t.serial + 1, |g.members|));
    }
  }

  /// Outcomes relative to a later state hold relative to an earlier one.
  lemma DoneSince(s0: Maps, t: Maps, u: Maps, g: Group)
    requires GroupDone(t, u, g)
    requires Extends(s0.contexts, t.contexts) && Extends(s0.queues, t.queues)
    ensures GroupDone(s0, u, g)
  {
  }

  /// Every group has its outcome, and every new context is the current
  /// context of some group's platform.
  ghost predicate AllDone(s: Maps, r: Maps, gs: seq<Group>)
  {
    EveryGroupDone(s, r, gs) && NewContextsPlaced(s, r, gs)
  }

  ghost predicate EveryGroupDone(s: Maps, r: Maps, gs: seq<Group>)
  {
    forall i :: 0 <= i < |gs| ==> GroupDone(s, r, gs[i])
  }

  ghost predicate NewContextsPlaced(s: Maps, r: Maps, gs: seq<Group>)
  {
    forall c :: c in r.contexts && c !in s.contexts ==>
      GroupOf(gs, r.contexts[c].platform) >= 0 && r.contexts[c].platform in r.platforms &&
      r.platforms[r.contexts[c].platform].context == c
  }

  lemma AllDoneStep(s: Maps, t: Maps, u: Maps, gs: seq<Group>, ctx: Uuid, qs: seq<Uuid>)
    requires gs != [] && DistinctPlatforms(gs) && MembersDisjoint(gs)
    requires forall d :: d in gs[|gs| - 1].members ==> d in t.devices
    requires Consistent(t) && Framed(s, t, gs[..|gs| - 1])
    requires AllDone(s, t, gs[..|gs| - 1]) && GroupStep(t, u, gs[|gs| - 1], ctx, qs)
    ensures AllDone(s, u, gs)
  {
    var g := gs[|gs| - 1];
    StepDone(t, u, g, ctx, qs);
    DoneSince(s, t, u, g);
    StepKeepsOthersDone(s, t, u, g, ctx, qs);
    GroupsDoneStep(s, t, u, gs);
    ContextsPlacedStep(s, t, u, gs, ctx, qs);
  }

  /// A group step leaves every group of another platform, with none of its
  /// devices, as it was.
  lemma StepKeepsOthersDone(s0: Maps, t: Maps, u: Maps, h: Group, ctx: Uuid, qs: seq<Uuid>)
    requires forall d :: d in h.members ==> d in t.devices
    requires Consistent(t) && GroupStep(t, u, h, ctx, qs)
    ensures forall g :: GroupDone(s0, t, g) && g.platform != h.platform && Apart(g, h) ==> GroupDone(s0, u, g)
  {
    forall g | GroupDone(s0, t, g) && g.platform != h.platform && Apart(g, h)
      ensures GroupDone(s0, u, g)
    {
      StepKeepsDone(s0, t, u, g, h, ctx, qs);
    }
  }

  /// Two groups share no device.
  predicate Apart(g: Group, h: Group)
  {
    forall d :: d in g.members ==> d !in h.members
  }

  lemma GroupsDoneStep(s: Maps, t: Maps, u: Maps, gs: seq<Group>)
    requires gs != [] && DistinctPlatforms(gs) && MembersDisjoint(gs)
    requires EveryGroupDone(s, t, gs[..|gs| - 1]) && GroupDone(s, u, gs[|gs| - 1])
    requires forall g :: GroupDone(s, t, g) && g.platform != gs[|gs| - 1].platform && Apart(g, gs[|gs| - 1]) ==> GroupDone(s, u, g)
    ensures EveryGroupDone(s, u, gs)
  {
    forall i | 0 <= i < |gs| - 1
      ensures GroupDone(s, u, gs[i])
    {
      assert gs[..|gs| - 1][i] == gs[i];
      assert gs[i].platform != gs[|gs| - 1].platform;
      assert Apart(gs[i], gs[|gs| - 1]);
    }
  }

  lemma ContextsPlacedStep(s: Maps, t: Maps, u: Maps, gs: seq<Group>, ctx: Uuid, qs: seq<Uuid>)
    requires gs != [] && DistinctPlatforms(gs)
    requires forall d :: d in gs[|gs| - 1].members ==> d in t.devices
    requires NewContextsPlaced(s, t, gs[..|gs| - 1]) && GroupStep(t, u, gs[|gs| - 1], ctx, qs)
    ensures NewContextsPlaced(s, u, gs)
  {
    var init := gs[..|gs| - 1];
    var g := gs[|gs| - 1];
    forall c | c in u.contexts && c !in s.contexts
      ensures GroupOf(gs, u.contexts[c].platform) >= 0 && u.contexts[c].platform in u.platforms &&
        u.platforms[u.contexts[c].platform].context == c
    {
      if c != ctx {
        var p := t.contexts[c].platform;
        assert GroupOf(init, p) >= 0;
        GroupOfPrefix(gs, p);
        assert p != g.platform;
      }
    }
  }

  /// After the group loop every group has its outcome.
  lemma {:induction false} InitGroupsDone(s: Maps, gs: seq<Group>)
    requires Consistent(s) && GroupsKnown(s, gs) && DistinctPlatforms(gs) && MembersDisjoint(gs)
    ensures AllDone(s, InitGroups(s, gs), gs)
  {
    if gs != [] {
      var init := gs[..|gs| - 1];
      var g := gs[|gs| - 1];
      assert GroupsKnown(s, init);
      assert DistinctPlatforms(init) && MembersDisjoint(init);
      InitGroupsDone(s, init);
      InitGroupsFrame(s, init);
      InitGroupsConsistent(s, init);
      var t := InitGroups(s, init);
      InitGroupStep(t, g);
      AllDoneStep(s, t, InitGroups(s, gs), gs, Next(t), Issue(t.serial + 1, |g.members|));
    }
  }

  /// A device's platform decides its group, so groups share no device.
  lemma GroupsDisjoint(devices: map<Uuid, DeviceData>, ids: seq<Uuid>)
    requires Known(devices, ids)
    ensures MembersDisjoint(Groups(devices, ids))
  {
    var gs := Groups(devices, ids);
    GroupsMembers(devices, ids);
    GroupsDistinct(devices, ids);
    forall i, j, d | 0 <= i < j < |gs| && d in gs[i].members
      ensures d !in gs[j].members
    {
      OfPlatformMembers(devices, ids, gs[i].platform);
      OfPlatformMembers(devices, ids, gs[j].platform);
    }
  }

  /// initialize() keeps the maps consistent.
  lemma InitializeConsistent(s: Maps, ids: seq<Uuid>)
    requires Consistent(s) && Known(s.devices, ids)
    ensures Consistent(Initialized(s, ids))
  {
    GroupsAreKnown(s, ids);
    InitGroupsConsistent(s, Groups(s.devices, ids));
  }

  /// For each requested device, initialize() gives its platform a new
  /// context that lists exactly that platform's requested devices in
  /// request order, issues one new queue per listed device recorded as
  /// (context, device), and points the device at the context and one of
  /// those queues.
  lemma InitializeContexts(s: Maps, ids: seq<Uuid>)
    requires Consistent(s) && Known(s.devices, ids)
    ensures forall k :: 0 <= k < |ids| ==>
      var p := s.devices[ids[k]].platform;
      GroupDone(s, Initialized(s, ids), Group(p, OfPlatform(s.devices, ids, p))) &&
      ids[k] in OfPlatform(s.devices, ids, p)
  {
    var gs := Groups(s.devices, ids);
    GroupsAreKnown(s, ids);
    GroupsDistinct(s.devices, ids);
    GroupsDisjoint(s.devices, ids);
    GroupsCover(s.devices, ids);
    GroupsMembers(s.devices, ids);
    InitGroupsDone(s, gs);
    forall k | 0 <= k < |ids|
      ensures var p := s.devices[ids[k]].platform;
        GroupDone(s, Initialized(s, ids), Group(p, OfPlatform(s.devices, ids, p))) &&
        ids[k] in OfPlatform(s.devices, ids, p)
    {
      var p := s.devices[ids[k]].platform;
      var i := GroupOf(gs, p);
      assert gs[i] == Group(p, OfPlatform(s.devices, ids, p));
      OfPlatformHas(s.devices, ids, k);
    }
  }

  lemma {:induction false} OfPlatformHas(devices: map<Uuid, DeviceData>, ids: seq<Uuid>, k: nat)
    requires Known(devices, ids) && k < |ids|
    ensures ids[k] in OfPlatform(devices, ids, devices[ids[k]].platform)
  {
    var init := ids[..|ids| - 1];
    if k < |init| {
      assert init[k] == ids[k];
      OfPlatformHas(devices, init, k);
    }
  }

  /// initialize() creates one context per platform that has requested
  /// devices and no other: every new context is its platform's current one.
  lemma InitializeNewContexts(s: Maps, ids: seq<Uuid>)
    requires Consistent(s) && Known(s.devices, ids)
    ensures var r := Initialized(s, ids);
      forall c :: c in r.contexts && c !in s.contexts ==>
        r.contexts[c].platform in r.platforms && r.platforms[r.contexts[c].platform].context == c &&
        OfPlatform(s.devices, ids, r.contexts[c].platform) != []
  {
    var gs := Groups(s.devices, ids);
    var r := Initialized(s, ids);
    GroupsAreKnown(s, ids);
    GroupsDistinct(s.devices, ids);
    GroupsDisjoint(s.devices, ids);
    GroupsMembers(s.devices, ids);
    InitGroupsDone(s, gs);
    forall c | c in r.contexts && c !in s.contexts
      ensures OfPlatform(s.devices, ids, r.contexts[c].platform) != []
    {
      var i := GroupOf(gs, r.contexts[c].platform);
      assert gs[i].members != [];
    }
  }

  /// initialize() leaves the kernels, keeps every old context and queue
  /// record, and does not touch a platform without requested devices or a
  /// device that was not requested.
  lemma InitializeFrame(s: Maps, ids: seq<Uuid>)
    requires Consistent(s) && Known(s.devices, ids)
    ensures var r := Initialized(s, ids);
      Extends(s.contexts, r.contexts) && Extends(s.queues, r.queues) && r.kernels == s.kernels &&
      (forall p :: p in s.platforms && OfPlatform(s.devices, ids, p) == [] ==> r.platforms[p] == s.platforms[p]) &&
      (forall d :: d in s.devices && d !in ids ==> r.devices[d] == s.devices[d])
  {
    var gs := Groups(s.devices, ids);
    GroupsAreKnown(s, ids);
    InitGroupsFrame(s, gs);
    var r := InitGroups(s, gs);
    assert r == Initialized(s, ids);
    forall p | p in s.platforms && OfPlatform(s.devices, ids, p) == []
      ensures r.platforms[p] == s.platforms[p]
    {
      UnrequestedPlatform(s.devices, ids, p);
    }
    forall d | d in s.devices && d !in ids
      ensures r.devices[d] == s.devices[d]
    {
      forall i | 0 <= i < |gs|
        ensures d !in gs[i].members
      {
        UnrequestedDevice(s.devices, ids, d, i);
      }
    }
  }

  /// A platform without requested devices has no group.
  lemma UnrequestedPlatform(devices: map<Uuid, DeviceData>, ids: seq<Uuid>, p: Uuid)
    requires Known(devices, ids) && OfPlatform(devices, ids, p) == []
    ensures GroupOf(Groups(devices, ids), p) < 0
  {
    GroupsMembers(devices, ids);
  }

  /// A device that was not requested is in no group.
  lemma UnrequestedDevice(devices: map<Uuid, DeviceData>, ids: seq<Uuid>, d: Uuid, i: nat)
    requires Known(devices, ids) && d !in ids && i < |Groups(devices, ids)|
    ensures d !in Groups(devices, ids)[i].members
  {
    var gs := Groups(devices, ids);
    OfPlatformMembers(devices, ids, gs[i].platform);
    GroupsMembers(devices, ids);
  }

  // ---------------------------------------------------------------------
  // compile()

  /// What compile() needs of its platforms: contexts.find on each
  /// platform's context is dereferenced without a check.
  ghost predicate Compilable(s: Maps, ps: seq<Uuid>)
  {
    forall p :: p in ps ==> p in s.platforms && s.platforms[p].context in s.contexts
  }

  /// One iteration of compile(): the program is built on the platform's
  /// context; builds succeed exactly on the contexts in ok.  A failure
  /// changes nothing; a success issues a kernel uuid, records it on the
  /// context and inserts its record.
  function CompileOne(s: Maps, p: Uuid, kernel: string, ok: set<Uuid>): (Maps, bool)
    requires p in s.platforms && s.platforms[p].context in s.contexts
  {
    var c := s.platforms[p].context;
    if c !in ok then (s, false)
    else
      var k := Next(s);
      (s.(contexts := s.contexts[c := s.contexts[c].(kernel := k)],
          kernels := InsertNew(s.kernels, k, KernelData(kernel, c)),
          serial := s.serial + 1),
       true)
  }

  /// compile(ps, kernel) as a function of the state: the new state and the
  /// accumulated result.
  function Compiled(s: Maps, ps: seq<Uuid>, kernel: string, ok: set<Uuid>): (r: (Maps, bool))
    requires Compilable(s, ps)
    ensures r.0.platforms == s.platforms && r.0.devices == s.devices && r.0.queues == s.queues
    ensures r.0.contexts.Keys == s.contexts.Keys
  {
    if ps == [] then (s, false)
    else
      var prev := Compiled(s, ps[..|ps| - 1], kernel, ok);
      var step := CompileOne(prev.0, ps[|ps| - 1], kernel, ok);
      (step.0, prev.1 || step.1)
  }

  /// One more platform: one more iteration on the state so far.
  lemma CompiledStep(s: Maps, ps: seq<Uuid>, kernel: string, ok: set<Uuid>)
    requires ps != [] && Compilable(s, ps)
    ensures var prev := Compiled(s, ps[..|ps| - 1], kernel, ok);
      var step := CompileOne(prev.0, ps[|ps| - 1], kernel, ok);
      Compiled(s, ps, kernel, ok) == (step.0, prev.1 || step.1)
  {
  }

  /// Before the i-th iteration the i-th platform and its context exist.
  lemma CompileLoopReady(s: Maps, ps: seq<Uuid>, i: nat, kernel: string, ok: set<Uuid>)
    requires i < |ps| && Compilable(s, ps)
    ensures Compilable(s, ps[..i])
    ensures var t := Compiled(s, ps[..i], kernel, ok).0;
      ps[i] in t.platforms && t.platforms[ps[i]].context in t.contexts
  {
    assert ps[i] in ps;
  }

  /// The i-th iteration of compile() extends the fold by one platform.
  lemma CompileLoopStep(s: Maps, ps: seq<Uuid>, i: nat, kernel: string, ok: set<Uuid>,
                        resultBefore: bool, after: Maps, stepOk: bool)
    requires i < |ps| && Compilable(s, ps)
    requires Compilable(s, ps[..i]) && resultBefore == Compiled(s, ps[..i], kernel, ok).1
    requires var t := Compiled(s, ps[..i], kernel, ok).0;
      ps[i] in t.platforms && t.platforms[ps[i]].context in t.contexts &&
      (after, stepOk) == CompileOne(t, ps[i], kernel, ok)
    ensures Compilable(s, ps[..i + 1])
    ensures (after, resultBefore || stepOk) == Compiled(s, ps[..i + 1], kernel, ok)
  {
    var prefix := ps[..i + 1];
    assert prefix[..i] == ps[..i] && prefix[i] == ps[i];
    assert Compilable(s, prefix);
    CompiledStep(s, prefix, kernel, ok);
    var prev := Compiled(s, ps[..i], kernel, ok);
    assert Compiled(s, prefix, kernel, ok) == (CompileOne(prev.0, ps[i], kernel, ok).0, prev.1 || stepOk);
  }

  /// The j-th iteration of a group's inner loop extends the fold by one
  /// device.
  lemma AddQueuesLoopStep(s1: Maps, ctx: Uuid, ds: seq<Uuid>, cd0: ContextData, j: nat,
                          before: Maps, cd: ContextData, after: Maps)
    requires j < |ds| && forall d :: d in ds ==> d in s1.devices
    requires (before, cd) == AddQueues(s1, ctx, ds[..j], cd0)
    requires ds[j] in before.devices
    requires after == before.(devices := before.devices[ds[j] := before.devices[ds[j]].(context := ctx, queue := Random(before.serial))],
                              queues := InsertNew(before.queues, Random(before.serial), QueueData(ctx, ds[j])),
                              serial := before.serial + 1)
    ensures (after, cd.(queues := cd.queues + [Random(before.serial)])) == AddQueues(s1, ctx, ds[..j + 1], cd0)
  {
    var prefix := ds[..j + 1];
    assert prefix[..j] == ds[..j] && prefix[j] == ds[j];
    assert ds[j] in ds;
  }

  /// Before the j-th iteration of a group's inner loop, the j-th device is
  /// still known.
  lemma AddQueuesLoopReady(s1: Maps, ctx: Uuid, ds: seq<Uuid>, cd0: ContextData, j: nat)
    requires j < |ds| && forall d :: d in ds ==> d in s1.devices
    ensures ds[j] in AddQueues(s1, ctx, ds[..j], cd0).0.devices
  {
    assert ds[j] in ds;
  }

  /// The state after the first k groups of the loop, counted rather than
  /// sliced.
  ghost function InitFirst(s: Maps, gs: seq<Group>, k: nat): (r: Maps)
    requires k <= |gs| && GroupsKnown(s, gs)
    ensures r.devices.Keys == s.devices.Keys && r.platforms.Keys == s.platforms.Keys
  {
    if k == 0 then s else InitGroup(InitFirst(s, gs, k - 1), gs[k - 1])
  }

  lemma PrefixKnown(s: Maps, gs: seq<Group>, k: nat)
    requires k <= |gs| && GroupsKnown(s, gs)
    ensures GroupsKnown(s, gs[..k])
  {
    var prefix := gs[..k];
    assert forall i :: 0 <= i < k ==> prefix[i] == gs[i];
  }

  /// After all the groups, the counted fold is the group loop.
  lemma {:induction false} InitFirstAll(s: Maps, gs: seq<Group>, k: nat)
    requires k <= |gs| && GroupsKnown(s, gs)
    ensures GroupsKnown(s, gs[..k]) && InitFirst(s, gs, k) == InitGroups(s, gs[..k])
  {
    PrefixKnown(s, gs, k);
    if k > 0 {
      InitFirstAll(s, gs, k - 1);
      var prefix := gs[..k];
      assert prefix[..k - 1] == gs[..k - 1] && prefix[k - 1] == gs[k - 1];
      var t := InitFirst(s, gs, k - 1);
      assert InitFirst(s, gs, k) == InitGroup(t, gs[k - 1]);
      assert InitGroups(s, prefix) == InitGroup(t, gs[k - 1]);
    }
  }

  /// initialize() is the counted fold over all the groups.
  lemma InitializedByCount(s: Maps, ids: seq<Uuid>)
    requires Consistent(s) && Known(s.devices, ids)
    ensures GroupsKnown(s, Groups(s.devices, ids))
    ensures Initialized(s, ids) == InitFirst(s, Groups(s.devices, ids), |Groups(s.devices, ids)|)
  {
    var gs := Groups(s.devices, ids);
    GroupsAreKnown(s, ids);
    InitFirstAll(s, gs, |gs|);
    assert gs[..|gs|] == gs;
  }

  /// One iteration of the group loop, spelled out step by step, is
  /// InitGroup.
  lemma InitGroupIs(t: Maps, g: Group, mid: Maps, added: Maps, cd: ContextData, after: Maps)
    requires g.platform in t.platforms && forall d :: d in g.members ==> d in t.devices
    requires mid == StartGroup(t, g.platform)
    requires (added, cd) == AddQueues(mid, Next(t), g.members, ContextData(g.platform, g.members, [], Nil))
    requires after == added.(contexts := InsertNew(added.contexts, Next(t), cd))
    ensures after == InitGroup(t, g)
  {
  }

  /// compile() returns true exactly when some platform's build succeeded.
  lemma {:induction false} CompileResult(s: Maps, ps: seq<Uuid>, kernel: string, ok: set<Uuid>)
    requires Compilable(s, ps)
    ensures Compiled(s, ps, kernel, ok).1 <==> exists i :: 0 <= i < |ps| && s.platforms[ps[i]].context in ok
  {
    CompileResultFound(s, ps, kernel, ok);
    if exists i :: 0 <= i < |ps| && s.platforms[ps[i]].context in ok {
      var i :| 0 <= i < |ps| && s.platforms[ps[i]].context in ok;
      CompileResultFrom(s, ps, kernel, ok, i);
    }
  }

  lemma {:induction false} CompileResultFound(s: Maps, ps: seq<Uuid>, kernel: string, ok: set<Uuid>)
    requires Compilable(s, ps)
    ensures Compiled(s, ps, kernel, ok).1 ==> exists i :: 0 <= i < |ps| && s.platforms[ps[i]].context in ok
  {
    if ps != [] {
      var init := ps[..|ps| - 1];
      CompileResultFound(s, init, kernel, ok);
      if exists i :: 0 <= i < |init| && s.platforms[init[i]].context in ok {
        var i :| 0 <= i < |init| && s.platforms[init[i]].context in ok;
        assert ps[i] == init[i];
      }
    }
  }

  lemma {:induction false} CompileResultFrom(s: Maps, ps: seq<Uuid>, kernel: string, ok: set<Uuid>, i: nat)
    requires Compilable(s, ps) && i < |ps| && s.platforms[ps[i]].context in ok
    ensures Compiled(s, ps, kernel, ok).1
  {
    if i < |ps| - 1 {
      var init := ps[..|ps| - 1];
      assert init[i] == ps[i];
      CompileResultFrom(s, init, kernel, ok, i);
    }
  }

  /// Context c ends up with a kernel, new since s0, built from the source
  /// kernel on c.
  ghost predicate Built(s0: Maps, r: Maps, c: Uuid, kernel: string)
  {
    c in r.contexts && r.contexts[c].kernel in r.kernels && r.contexts[c].kernel !in s0.kernels &&
    r.kernels[r.contexts[c].kernel] == KernelData(kernel, c)
  }

  /// Every platform whose build succeeded has a new kernel recorded on its
  /// context; every context no build succeeded on keeps its kernel; the old
  /// kernel records stay, and each new one was built from the source on a
  /// context that builds.
  ghost predicate KernelsSince(s: Maps, r: Maps, ps: seq<Uuid>, kernel: string, ok: set<Uuid>)
    requires Compilable(s, ps)
  {
    BuiltOnEach(s, r, ps, kernel, ok) && KernelsKept(s, r, kernel, ok)
  }

  ghost predicate BuiltOnEach(s: Maps, r: Maps, ps: seq<Uuid>, kernel: string, ok: set<Uuid>)
    requires Compilable(s, ps)
  {
    forall i :: 0 <= i < |ps| && s.platforms[ps[i]].context in ok ==> Built(s, r, s.platforms[ps[i]].context, kernel)
  }

  ghost predicate KernelsKept(s: Maps, r: Maps, kernel: string, ok: set<Uuid>)
  {
    (forall c :: c in s.contexts && c !in ok ==> c in r.contexts && r.contexts[c] == s.contexts[c]) &&
    Extends(s.kernels, r.kernels) &&
    (forall k :: k in r.kernels && k !in s.kernels ==>
      IssuedBetween(k, s.serial, r.serial) && r.kernels[k].source == kernel && r.kernels[k].context in ok)
  }

  lemma KernelsStep(s: Maps, t: Maps, ps: seq<Uuid>, kernel: string, ok: set<Uuid>)
    requires ps != [] && Compilable(s, ps)
    requires forall k :: k in s.kernels ==> Issued(k, s.serial)
    requires s.serial <= t.serial && t.platforms == s.platforms && t.contexts.Keys == s.contexts.Keys
    requires KernelsSince(s, t, ps[..|ps| - 1], kernel, ok)
    ensures KernelsSince(s, CompileOne(t, ps[|ps| - 1], kernel, ok).0, ps, kernel, ok)
  {
    var p := ps[|ps| - 1];
    var c := s.platforms[p].context;
    if c in ok {
      assert Next(t) !in t.kernels by {
        assert KernelsKept(s, t, kernel, ok) && !Issued(Next(t), s.serial);
      }
    }
    KeptStep(s, t, p, kernel, ok);
    BuiltStep(s, t, ps, kernel, ok);
  }

  lemma KeptStep(s: Maps, t: Maps, p: Uuid, kernel: string, ok: set<Uuid>)
    requires p in s.platforms && s.platforms[p].context in s.contexts
    requires s.serial <= t.serial && t.platforms == s.platforms && t.contexts.Keys == s.contexts.Keys
    requires KernelsKept(s, t, kernel, ok)
    requires s.platforms[p].context in ok ==> Next(t) !in t.kernels
    ensures KernelsKept(s, CompileOne(t, p, kernel, ok).0, kernel, ok)
  {
  }

  lemma BuiltStep(s: Maps, t: Maps, ps: seq<Uuid>, kernel: string, ok: set<Uuid>)
    requires ps != [] && Compilable(s, ps)
    requires t.platforms == s.platforms && t.contexts.Keys == s.contexts.Keys
    requires BuiltOnEach(s, t, ps[..|ps| - 1], kernel, ok)
    requires s.platforms[ps[|ps| - 1]].context in ok ==> Next(t) !in t.kernels
    requires s.platforms[ps[|ps| - 1]].context in ok ==> Next(t) !in s.kernels
    ensures BuiltOnEach(s, CompileOne(t, ps[|ps| - 1], kernel, ok).0, ps, kernel, ok)
  {
    var init := ps[..|ps| - 1];
    var u := CompileOne(t, ps[|ps| - 1], kernel, ok).0;
    forall i | 0 <= i < |ps| && s.platforms[ps[i]].context in ok
      ensures Built(s, u, s.platforms[ps[i]].context, kernel)
    {
      if i < |init| {
        assert ps[i] == init[i];
      }
    }
  }

  lemma {:induction false} CompileKernels(s: Maps, ps: seq<Uuid>, kernel: string, ok: set<Uuid>)
    requires Consistent(s) && Compilable(s, ps)
    ensures KernelsSince(s, Compiled(s, ps, kernel, ok).0, ps, kernel, ok)
  {
    if ps != [] {
      var init := ps[..|ps| - 1];
      CompileKernels(s, init, kernel, ok);
      CompileSerial(s, init, kernel, ok);
      assert forall k :: k in s.kernels ==> Issued(k, s.serial) by {
        assert KernelsOk(s);
      }
      KernelsStep(s, Compiled(s, init, kernel, ok).0, ps, kernel, ok);
    }
  }

  /// Each iteration that builds issues one uuid.
  lemma {:induction false} CompileSerial(s: Maps, ps: seq<Uuid>, kernel: string, ok: set<Uuid>)
    requires Compilable(s, ps)
    ensures s.serial <= Compiled(s, ps, kernel, ok).0.serial
  {
    if ps != [] {
      CompileSerial(s, ps[..|ps| - 1], kernel, ok);
    }
  }

  /// compile() changes nothing of a context but its kernel.
  lemma {:induction false} CompileFrame(s: Maps, ps: seq<Uuid>, kernel: string, ok: set<Uuid>)
    requires Compilable(s, ps)
    ensures var r := Compiled(s, ps, kernel, ok).0;
      forall c :: c in s.contexts ==> r.contexts[c] == s.contexts[c].(kernel := r.contexts[c].kernel)
  {
    if ps != [] {
      CompileFrame(s, ps[..|ps| - 1], kernel, ok);
    }
  }

  /// One iteration of compile() keeps the maps consistent.
  lemma CompileOneConsistent(s: Maps, p: Uuid, kernel: string, ok: set<Uuid>)
    requires Consistent(s) && p in s.platforms && s.platforms[p].context in s.contexts
    ensures Consistent(CompileOne(s, p, kernel, ok).0)
  {
    var c := s.platforms[p].context;
    if c in ok {
      assert CompileOne(s, p, kernel, ok).0 == AddKernel(s, c, kernel);
      AddKernelPlatformsOk(s, c, kernel);
      AddKernelDevicesOk(s, c, kernel);
      AddKernelContextsOk(s, c, kernel);
      AddKernelQueuesOk(s, c, kernel);
      AddKernelKernelsOk(s, c, kernel);
    }
  }

  /// The state after a successful build on context c.
  ghost function AddKernel(s: Maps, c: Uuid, src: string): Maps
    requires c in s.contexts
  {
    var k := Next(s);
    s.(contexts := s.contexts[c := s.contexts[c].(kernel := k)],
       kernels := InsertNew(s.kernels, k, KernelData(src, c)),
       serial := s.serial + 1)
  }

  lemma AddKernelPlatformsOk(s: Maps, c: Uuid, src: string)
    requires c in s.contexts && PlatformsOk(s)
    ensures PlatformsOk(AddKernel(s, c, src))
  {
  }

  lemma AddKernelDevicesOk(s: Maps, c: Uuid, src: string)
    requires c in s.contexts && DevicesOk(s)
    ensures DevicesOk(AddKernel(s, c, src))
  {
  }

  lemma AddKernelContextsOk(s: Maps, c: Uuid, src: string)
    requires c in s.contexts && ContextsOk(s)
    ensures ContextsOk(AddKernel(s, c, src))
  {
  }

  lemma AddKernelQueuesOk(s: Maps, c: Uuid, src: string)
    requires c in s.contexts && QueuesOk(s)
    ensures QueuesOk(AddKernel(s, c, src))
  {
  }

  lemma AddKernelKernelsOk(s: Maps, c: Uuid, src: string)
    requires c in s.contexts && KernelsOk(s)
    ensures KernelsOk(AddKernel(s, c, src))
  {
    assert Next(s) !in s.kernels by {
      assert !Issued(Next(s), s.serial);
    }
  }

  /// compile() keeps the maps consistent.
  lemma {:induction false} CompileConsistent(s: Maps, ps: seq<Uuid>, kernel: string, ok: set<Uuid>)
    requires Consistent(s) && Compilable(s, ps)
    ensures Consistent(Compiled(s, ps, kernel, ok).0)
  {
    if ps != [] {
      var init := ps[..|ps| - 1];
      CompileConsistent(s, init, kernel, ok);
      CompileOneConsistent(Compiled(s, init, kernel, ok).0, ps[|ps| - 1], kernel, ok);
    }
  }

  // ---------------------------------------------------------------------
  // compile() with the missing-context guard

  /// Platform p is registered and its context exists, so compile() can
  /// look the context up.  A platform that initialize() gave no context
  /// (none of its devices was requested) fails this, and the source then
  /// dereferences contexts.end().
  predicate HasContext(s: Maps, p: Uuid)
  {
    p in s.platforms && s.platforms[p].context in s.contexts
  }

  /// One iteration of compile() as intended: a platform without a context
  /// is skipped like a failed build.
  function CompileOneGuarded(s: Maps, p: Uuid, kernel: string, ok: set<Uuid>): (Maps, bool)
  {
    if HasContext(s, p) then CompileOne(s, p, kernel, ok) else (s, false)
  }

  /// compile(ps, kernel) as intended: defined on every list of platforms.
  function CompiledGuarded(s: Maps, ps: seq<Uuid>, kernel: string, ok: set<Uuid>): (r: (Maps, bool))
    ensures r.0.platforms == s.platforms && r.0.devices == s.devices && r.0.queues == s.queues
    ensures r.0.contexts.Keys == s.contexts.Keys
  {
    if ps == [] then (s, false)
    else
      var prev := CompiledGuarded(s, ps[..|ps| - 1], kernel, ok);
      var step := CompileOneGuarded(prev.0, ps[|ps| - 1], kernel, ok);
      (step.0, prev.1 || step.1)
  }

  /// Where every platform has a context, the guard never fires and the
  /// guarded compile is compile() as written.
  lemma {:induction false} CompiledGuardedAgrees(s: Maps, ps: seq<Uuid>, kernel: string, ok: set<Uuid>)
    requires Compilable(s, ps)
    ensures CompiledGuarded(s, ps, kernel, ok) == Compiled(s, ps, kernel, ok)
  {
    if ps != [] {
      var init := ps[..|ps| - 1];
      assert Compilable(s, init) by {
        forall p | p in init ensures p in ps {
          var i :| 0 <= i < |init| && init[i] == p;
          assert ps[i] == p;
        }
      }
      CompiledGuardedAgrees(s, init, kernel, ok);
      assert ps[|ps| - 1] in ps;
    }
  }

  /// The guarded compile reports true exactly when some listed platform
  /// has a context on which the build succeeds.
  lemma CompileGuardedResult(s: Maps, ps: seq<Uuid>, kernel: string, ok: set<Uuid>)
    ensures CompiledGuarded(s, ps, kernel, ok).1 <==>
      exists i :: 0 <= i < |ps| && HasContext(s, ps[i]) && s.platforms[ps[i]].context in ok
  {
    CompileGuardedFound(s, ps, kernel, ok);
    if exists i :: 0 <= i < |ps| && HasContext(s, ps[i]) && s.platforms[ps[i]].context in ok {
      var i :| 0 <= i < |ps| && HasContext(s, ps[i]) && s.platforms[ps[i]].context in ok;
      CompileGuardedFrom(s, ps, kernel, ok, i);
    }
  }

  lemma {:induction false} CompileGuardedFound(s: Maps, ps: seq<Uuid>, kernel: string, ok: set<Uuid>)
    ensures CompiledGuarded(s, ps, kernel, ok).1 ==>
      exists i :: 0 <= i < |ps| && HasContext(s, ps[i]) && s.platforms[ps[i]].context in ok
  {
    if ps != [] {
      var init := ps[..|ps| - 1];
      CompileGuardedFound(s, init, kernel, ok);
      if exists i :: 0 <= i < |init| && HasContext(s, init[i]) && s.platforms[init[i]].context in ok {
        var i :| 0 <= i < |init| && HasContext(s, init[i]) && s.platforms[init[i]].context in ok;
        assert ps[i] == init[i];
      }
    }
  }

  lemma {:induction false} CompileGuardedFrom(s: Maps, ps: seq<Uuid>, kernel: string, ok: set<Uuid>, i: nat)
    requires i < |ps| && HasContext(s, ps[i]) && s.platforms[ps[i]].context in ok
    ensures CompiledGuarded(s, ps, kernel, ok).1
  {
    if i < |ps| - 1 {
      var init := ps[..|ps| - 1];
      assert init[i] == ps[i];
      CompileGuardedFrom(s, init, kernel, ok, i);
    }
  }

  /// The guarded compile keeps the maps consistent.
  lemma {:induction false} CompileGuardedConsistent(s: Maps, ps: seq<Uuid>, kernel: string, ok: set<Uuid>)
    requires Consistent(s)
    ensures Consistent(CompiledGuarded(s, ps, kernel, ok).0)
  {
    if ps != [] {
      var init := ps[..|ps| - 1];
      CompileGuardedConsistent(s, init, kernel, ok);
      var t := CompiledGuarded(s, init, kernel, ok).0;
      if HasContext(t, ps[|ps| - 1]) {
        CompileOneConsistent(t, ps[|ps| - 1], kernel, ok);
      }
    }
  }

  /// The i-th iteration of the guarded compile extends the fold by one
  /// platform.
  lemma CompileGuardedStep(s: Maps, ps: seq<Uuid>, i: nat, kernel: string, ok: set<Uuid>,
                           resultBefore: bool, after: Maps, stepOk: bool)
    requires i < |ps|
    requires (after, stepOk) == CompileOneGuarded(CompiledGuarded(s, ps[..i], kernel, ok).0, ps[i], kernel, ok)
    requires resultBefore == CompiledGuarded(s, ps[..i], kernel, ok).1
    ensures (after, resultBefore || stepOk) == CompiledGuarded(s, ps[..i + 1], kernel, ok)
  {
    var prefix := ps[..i + 1];
    assert prefix[..i] == ps[..i] && prefix[i] == ps[i];
  }

  // ---------------------------------------------------------------------
  // HostImpl

  /// HostImpl::valid() reports true, where the base Host reports false.
  const ImplValid: bool := true

  /// The OpenCL host: the five maps, updated in place by info(),
  /// initialize() and compile().  The runtime's answers arrive as
  /// parameters: the enumerated platforms, and the contexts on which a
  /// program build succeeds.
  class HostImpl {
    var platforms: map<Uuid, PlatformData>
    var devices: map<Uuid, DeviceData>
    var contexts: map<Uuid, ContextData>
    var queues: map<Uuid, QueueData>
    var kernels: map<Uuid, KernelData>
    var serial: nat

    function State(): Maps
      reads this
    {
      Maps(platforms, devices, contexts, queues, kernels, serial)
    }

    constructor()
      ensures State() == Empty
    {
      platforms, devices, contexts, queues, kernels, serial := map[], map[], map[], map[], map[], 0;
    }

    /// info(): report every enumerated platform with its devices, and
    /// register the devices and the platforms that have any.
    method GetInfo(found: seq<ClPlatform>) returns (response: Info)
      modifies this
      ensures response == Info(ReportAll(found))
      ensures State() == RegisterPlatforms(old(State()), found)
    {
      var reported: seq<PlatformInfo> := [];
      var i := 0;
      while i < |found|
        invariant 0 <= i <= |found|
        invariant reported == ReportAll(found[..i])
        invariant State() == RegisterPlatforms(old(State()), found[..i])
      {
        assert found[..i + 1][..i] == found[..i];
        var pinfo := RegisterOne(found[i]);
        reported := reported + [pinfo];
        i := i + 1;
      }
      assert found[..i] == found;
      response := Info(reported);
    }

    /// One iteration of info()'s platform loop: describe the platform; when
    /// it has devices, insert each device and then the platform.
    method RegisterOne(p: ClPlatform) returns (pinfo: PlatformInfo)
      modifies this
      ensures pinfo == Report(p)
      ensures State() == RegisterPlatform(old(State()), p)
    {
      if p.devices == [] {
        pinfo := Report(p);
        return;
      }
      var infos: seq<DeviceInfo> := [];
      var ids: seq<Uuid> := [];
      var registered := devices;
      var j := 0;
      while j < |p.devices|
        invariant 0 <= j <= |p.devices|
        invariant infos == DescribeAll(p.devices[..j]) && ids == DeviceUuids(p.devices[..j])
        invariant registered == RegisterDevices(devices, PlatformUuid(p), p.devices[..j])
        invariant State() == old(State())
      {
        var d := p.devices[j];
        assert p.devices[..j + 1][..j] == p.devices[..j];
        registered := InsertNew(registered, DeviceUuid(d), DeviceData(d, PlatformUuid(p), Nil, Nil));
        infos := infos + [Describe(d)];
        ids := ids + [DeviceUuid(d)];
        j := j + 1;
      }
      assert p.devices[..j] == p.devices;
      devices := registered;
      platforms := InsertNew(platforms, PlatformUuid(p), PlatformData(p, ids, Nil));
      pinfo := PlatformInfo(infos, PlatformUuid(p), p.profile, p.version, p.name, p.vendor);
    }

    /// The first loop of initialize(): platform_device_map, with groups in
    /// order of first appearance.
    method GroupByPlatform(ids: seq<Uuid>) returns (groups: seq<Group>)
      requires Known(devices, ids)
      ensures groups == Groups(devices, ids)
    {
      groups := [];
      var i := 0;
      while i < |ids|
        invariant 0 <= i <= |ids| && Known(devices, ids[..i])
        invariant groups == Groups(devices, ids[..i])
      {
        assert ids[..i + 1][..i] == ids[..i];
        groups := AddToGroups(groups, devices[ids[i]].platform, ids[i]);
        i := i + 1;
      }
      assert ids[..i] == ids;
    }

    /// The inner loop of initialize() for one group: each device gets the
    /// context and a fresh queue, which is recorded and listed on cd.
    method AddQueuesLoop(ctx: Uuid, members: seq<Uuid>, cd0: ContextData) returns (cd: ContextData)
      requires forall d :: d in members ==> d in devices
      modifies this
      ensures (State(), cd) == AddQueues(old(State()), ctx, members, cd0)
    {
      ghost var s1 := State();
      var t := State();
      cd := cd0;
      var j := 0;
      while j < |members|
        invariant 0 <= j <= |members|
        invariant (t, cd) == AddQueues(s1, ctx, members[..j], cd0)
        invariant State() == s1
      {
        AddQueuesLoopReady(s1, ctx, members, cd0, j);
        ghost var before := t;
        ghost var cdBefore := cd;
        var dev := members[j];
        var q := Random(t.serial);
        t := t.(devices := t.devices[dev := t.devices[dev].(context := ctx, queue := q)],
                queues := InsertNew(t.queues, q, QueueData(ctx, dev)),
                serial := t.serial + 1);
        cd := cd.(queues := cd.queues + [q]);
        AddQueuesLoopStep(s1, ctx, members, cd0, j, before, cdBefore, t);
        j := j + 1;
      }
      assert members[..j] == members;
      devices, queues, serial := t.devices, t.queues, t.serial;
    }

    /// initialize(ids): group the requested devices by platform, then give
    /// each group a context and each device a queue.
    method Initialize(ids: seq<Uuid>) returns (result: bool)
      requires Consistent(State()) && Known(devices, ids)
      modifies this
      ensures State() == Initialized(old(State()), ids)
      ensures result <==> |ids| > 0
    {
      var groups := GroupByPlatform(ids);
      GroupsAreKnown(State(), ids);
      InitializeResult(State(), ids);
      InitializedByCount(State(), ids);
      result := InitGroupsLoop(groups);
    }

    /// The group loop of initialize(): one context per group, one queue
    /// per member.
    method InitGroupsLoop(groups: seq<Group>) returns (result: bool)
      requires GroupsKnown(State(), groups)
      modifies this
      ensures State() == InitFirst(old(State()), groups, |groups|)
      ensures result <==> |groups| > 0
    {
      ghost var s0 := State();
      result := false;
      var k := 0;
      while k < |groups|
        invariant 0 <= k <= |groups|
        invariant State() == InitFirst(s0, groups, k)
        invariant result <==> k > 0
      {
        InitGroupOnce(groups[k]);
        result := result || true;
        k := k + 1;
      }
    }

    /// One group of initialize(): take a context uuid for the platform,
    /// then give each member a queue and register the context.
    method InitGroupOnce(g: Group)
      requires g.platform in platforms && forall d :: d in g.members ==> d in devices
      modifies this
      ensures State() == InitGroup(old(State()), g)
    {
      ghost var t := State();
      var ctx := Random(serial);
      serial := serial + 1;
      platforms := platforms[g.platform := platforms[g.platform].(context := ctx)];
      ghost var mid := State();
      var cd := AddQueuesLoop(ctx, g.members, ContextData(g.platform, g.members, [], Nil));
      ghost var added := State();
      contexts := InsertNew(contexts, ctx, cd);
      InitGroupIs(t, g, mid, added, cd, State());
    }

    /// compile(ps, kernel): build the kernel on each listed platform's
    /// context; a failed build is skipped.
    method Compile(ps: seq<Uuid>, kernel: string, ok: set<Uuid>) returns (result: bool)
      requires Compilable(State(), ps)
      modifies this
      ensures (State(), result) == Compiled(old(State()), ps, kernel, ok)
    {
      ghost var s0 := State();
      result := false;
      var i := 0;
      while i < |ps|
        invariant 0 <= i <= |ps|
        invariant (State(), result) == Compiled(s0, ps[..i], kernel, ok)
      {
        ghost var resultBefore := result;
        CompileLoopReady(s0, ps, i, kernel, ok);
        var built := CompileOn(ps[i], kernel, ok);
        result := result || built;
        CompileLoopStep(s0, ps, i, kernel, ok, resultBefore, State(), built);
        i := i + 1;
      }
      assert ps[..i] == ps;
    }

    /// compile(ps, kernel) as intended: a platform without a context is
    /// skipped instead of dereferencing contexts.end().
    method CompileGuarded(ps: seq<Uuid>, kernel: string, ok: set<Uuid>) returns (result: bool)
      modifies this
      ensures (State(), result) == CompiledGuarded(old(State()), ps, kernel, ok)
    {
      ghost var s0 := State();
      result := false;
      var i := 0;
      while i < |ps|
        invariant 0 <= i <= |ps|
        invariant (State(), result) == CompiledGuarded(s0, ps[..i], kernel, ok)
      {
        ghost var resultBefore := result;
        var built := false;
        if ps[i] in platforms && platforms[ps[i]].context in contexts {
          built := CompileOn(ps[i], kernel, ok);
        }
        result := result || built;
        CompileGuardedStep(s0, ps, i, kernel, ok, resultBefore, State(), built);
        i := i + 1;
      }
      assert ps[..i] == ps;
    }

    /// One iteration of compile(): build on the platform's context; on
    /// success issue a kernel uuid, record it on the context and insert the
    /// kernel record.
    method CompileOn(p: Uuid, kernel: string, ok: set<Uuid>) returns (built: bool)
      requires p in platforms && platforms[p].context in contexts
      modifies this
      ensures (State(), built) == CompileOne(old(State()), p, kernel, ok)
    {
      var c := platforms[p].context;
      built := c in ok;
      if built {
        var k := Random(serial);
        serial := serial + 1;
        contexts := contexts[c := contexts[c].(kernel := k)];
        kernels := InsertNew(kernels, k, KernelData(kernel, c));
      }
    }
  }
}
