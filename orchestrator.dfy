/// The device orchestrator of src/orchestrator.cpp and
/// include/tpm/orchestrator.hpp: it asks each host for its platforms, keeps
/// the devices that can run kernels, and forwards initialize and compile to
/// the host behind every platform it recorded.  A host is the base `Host`
/// or a `HostImpl`; several recorded platforms may share one host.
module Orchestration {
  import opened Host

  /// A shared pointer to a host.
  datatype HostRef = BaseHost | ImplHost(impl: HostImpl)

  /// The objects a call through the pointer may change.
  function Objects(h: HostRef): set<HostImpl>
  {
    if h.ImplHost? then {h.impl} else {}
  }

  /// host->valid(): false for the base Host, true for HostImpl.
  function Valid(h: HostRef): (r: bool)
    ensures r <==> h.ImplHost?
  {
    if h.BaseHost? then BaseValid else ImplValid
  }

  /// Orchestrator::DeviceInfo and Orchestrator::PlatformInfo.
  datatype OrchDevice = OrchDevice(uuid: Uuid, mem: nat, ops: nat, spirvSupport: bool)
  datatype OrchPlatform = OrchPlatform(uuid: Uuid, host: HostRef, devices: seq<OrchDevice>)

  /// max_compute_units * max_clock_frequency is a product of two 32-bit
  /// unsigned values and wraps modulo 2^32.
  const Word: nat := 0x1_0000_0000

  predicate StartsWith(s: string, prefix: string)
  {
    |prefix| <= |s| && s[..|prefix|] == prefix
  }

  /// std::any_of over the IL version strings: some of them starts with
  /// "SPIR-V".
  function SpirV(ils: seq<string>): (r: bool)
    ensures r <==> exists i :: 0 <= i < |ils| && StartsWith(ils[i], "SPIR-V")
  {
    if ils == [] then false
    else SpirV(ils[..|ils| - 1]) || StartsWith(ils[|ils| - 1], "SPIR-V")
  }

  /// A device is kept when it is available and has a compiler.
  predicate Usable(d: DeviceInfo)
  {
    d.available && d.compilerAvailable
  }

  /// The record kept for a usable device.
  function Record(d: DeviceInfo): (r: OrchDevice)
    ensures r.uuid == d.uuid && r.mem == d.maxMemory && r.ops < Word
    ensures r.spirvSupport <==> exists i :: 0 <= i < |d.ilVersion| && StartsWith(d.ilVersion[i], "SPIR-V")
  {
    OrchDevice(d.uuid, d.maxMemory, (d.maxComputeUnits * d.maxClockFrequency) % Word, SpirV(d.ilVersion))
  }

  /// push_back's device loop: the records of the usable devices, in report
  /// order.
  function Kept(ds: seq<DeviceInfo>): (r: seq<OrchDevice>)
    ensures |r| <= |ds|
  {
    if ds == [] then []
    else
      var d := ds[|ds| - 1];
      Kept(ds[..|ds| - 1]) + (if Usable(d) then [Record(d)] else [])
  }

  /// Filtering distributes over concatenation, so kept devices keep their
  /// report order.
  lemma {:induction false} KeptAppend(a: seq<DeviceInfo>, b: seq<DeviceInfo>)
    ensures Kept(a + b) == Kept(a) + Kept(b)
  {
    if b != [] {
      var init := b[..|b| - 1];
      KeptAppend(a, init);
      assert (a + b)[..|a + b| - 1] == a + init;
      assert (a + b)[|a + b| - 1] == b[|b| - 1];
      calc {
        Kept(a + b);
        Kept(a + init) + (if Usable(b[|b| - 1]) then [Record(b[|b| - 1])] else []);
        Kept(a) + Kept(init) + (if Usable(b[|b| - 1]) then [Record(b[|b| - 1])] else []);
        Kept(a) + Kept(b);
      }
    } else {
      assert a + b == a;
    }
  }

  /// A record is kept exactly when it is the record of some usable device.
  lemma {:induction false} KeptMembers(ds: seq<DeviceInfo>, x: OrchDevice)
    ensures x in Kept(ds) <==> exists i :: 0 <= i < |ds| && Usable(ds[i]) && x == Record(ds[i])
  {
    if ds != [] {
      var init := ds[..|ds| - 1];
      var last := ds[|ds| - 1];
      KeptMembers(init, x);
      assert Kept(ds) == Kept(init) + (if Usable(last) then [Record(last)] else []);
      assert x in Kept(ds) <==> x in Kept(init) || (Usable(last) && x == Record(last));
      if exists i :: 0 <= i < |init| && Usable(init[i]) && x == Record(init[i]) {
        var i :| 0 <= i < |init| && Usable(init[i]) && x == Record(init[i]);
        assert ds[i] == init[i];
      }
      if exists i :: 0 <= i < |ds| && Usable(ds[i]) && x == Record(ds[i]) {
        var i :| 0 <= i < |ds| && Usable(ds[i]) && x == Record(ds[i]);
        if i < |init| {
          assert init[i] == ds[i];
        }
      }
    }
  }

  /// When every device is usable, nothing is dropped.
  lemma {:induction false} KeptAllUsable(ds: seq<DeviceInfo>)
    requires forall i :: 0 <= i < |ds| ==> Usable(ds[i])
    ensures |Kept(ds)| == |ds|
    ensures forall i :: 0 <= i < |ds| ==> Kept(ds)[i] == Record(ds[i])
  {
    if ds != [] {
      KeptAllUsable(ds[..|ds| - 1]);
    }
  }

  /// The entry push_back records for one reported platform.
  function Summary(p: PlatformInfo, h: HostRef): OrchPlatform
  {
    OrchPlatform(p.uuid, h, Kept(p.devices))
  }

  function Summaries(ps: seq<PlatformInfo>, h: HostRef): (r: seq<OrchPlatform>)
    ensures |r| == |ps| && forall i :: 0 <= i < |ps| ==> r[i] == Summary(ps[i], h)
  {
    if ps == [] then [] else Summaries(ps[..|ps| - 1], h) + [Summary(ps[|ps| - 1], h)]
  }

  lemma SummariesStep(ps: seq<PlatformInfo>, h: HostRef, i: nat)
    requires i < |ps|
    ensures Summaries(ps[..i + 1], h) == Summaries(ps[..i], h) + [Summary(ps[i], h)]
  {
    assert ps[..i + 1][..i] == ps[..i];
  }

  /// The uuids handed to a host's initialize: std::transform of the kept
  /// devices.
  function Uuids(ds: seq<OrchDevice>): (r: seq<Uuid>)
    ensures |r| == |ds| && forall i :: 0 <= i < |ds| ==> r[i] == ds[i].uuid
  {
    if ds == [] then [] else Uuids(ds[..|ds| - 1]) + [ds[|ds| - 1].uuid]
  }

  /// Every device kept from a HostImpl's report is registered in that
  /// host's devices map once info() has run.
  lemma ReportedDevicesKnown(s: Maps, found: seq<ClPlatform>, k: nat)
    requires k < |found|
    ensures Known(RegisterPlatforms(s, found).devices, Uuids(Kept(ReportAll(found)[k].devices)))
  {
    var r := RegisterPlatforms(s, found);
    InfoRegisters(s, found);
    var p := found[k];
    var ds := ReportAll(found)[k].devices;
    assert ds == DescribeAll(p.devices);
    var ids := Uuids(Kept(ds));
    forall i | 0 <= i < |ids|
      ensures ids[i] in r.devices
    {
      var x := Kept(ds)[i];
      KeptMembers(ds, x);
      var j :| 0 <= j < |ds| && Usable(ds[j]) && x == Record(ds[j]);
      assert p in found && p.devices[j] in p.devices;
    }
  }

  /// The device loop of push_back: keep the usable devices, in order.
  method KeepUsable(ds: seq<DeviceInfo>) returns (kept: seq<OrchDevice>)
    ensures kept == Kept(ds)
  {
    kept := [];
    var j := 0;
    while j < |ds|
      invariant 0 <= j <= |ds|
      invariant kept == Kept(ds[..j])
    {
      var d := ds[j];
      assert ds[..j + 1][..j] == ds[..j];
      if !d.available || !d.compilerAvailable {
        // the device is only logged
      } else {
        kept := kept + [OrchDevice(d.uuid, d.maxMemory, (d.maxComputeUnits * d.maxClockFrequency) % Word, SpirV(d.ilVersion))];
      }
      j := j + 1;
    }
    assert ds[..j] == ds;
  }

  // ---------------------------------------------------------------------
  // Calls through the host pointer: the base Host answers with its
  // defaults, a HostImpl runs its own method.

  method HostInfo(host: HostRef, found: seq<ClPlatform>) returns (info: Info)
    modifies Objects(host)
    ensures host.BaseHost? ==> info == BaseInfo
    ensures host.ImplHost? ==>
      info == Info(ReportAll(found)) && host.impl.State() == RegisterPlatforms(old(host.impl.State()), found)
  {
    match host
    case BaseHost => info := BaseInfo;
    case ImplHost(impl) => info := impl.GetInfo(found);
  }

  method HostInitialize(host: HostRef, ids: seq<Uuid>) returns (r: bool)
    requires host.ImplHost? ==> Consistent(host.impl.State()) && Known(host.impl.devices, ids)
    modifies Objects(host)
    ensures host.BaseHost? ==> r == BaseInitialize
    ensures host.ImplHost? ==>
      (r <==> |ids| > 0) && host.impl.State() == Initialized(old(host.impl.State()), ids)
  {
    match host
    case BaseHost => r := BaseInitialize;
    case ImplHost(impl) => r := impl.Initialize(ids);
  }

  method HostCompile(host: HostRef, ps: seq<Uuid>, kernel: string, ok: set<Uuid>) returns (r: bool)
    requires host.ImplHost? ==> Compilable(host.impl.State(), ps)
    modifies Objects(host)
    ensures host.BaseHost? ==> r == BaseCompile
    ensures host.ImplHost? ==> (host.impl.State(), r) == Compiled(old(host.impl.State()), ps, kernel, ok)
  {
    match host
    case BaseHost => r := BaseCompile;
    case ImplHost(impl) => r := impl.Compile(ps, kernel, ok);
  }

  /// compile(ps, kernel) through the pointer, with the missing-context
  /// guard.
  method HostCompileGuarded(host: HostRef, ps: seq<Uuid>, kernel: string, ok: set<Uuid>) returns (r: bool)
    modifies Objects(host)
    ensures host.BaseHost? ==> r == BaseCompile
    ensures host.ImplHost? ==> (host.impl.State(), r) == CompiledGuarded(old(host.impl.State()), ps, kernel, ok)
  {
    match host
    case BaseHost => r := BaseCompile;
    case ImplHost(impl) => r := impl.CompileGuarded(ps, kernel, ok);
  }

  // ---------------------------------------------------------------------
  // initialize() and compile() as folds over the recorded platforms, one
  // host at a time: the k-th entry acts on host h only when it points to h.

  /// An entry whose initialize() reports true: a HostImpl with kept
  /// devices.
  predicate Initializes(e: OrchPlatform)
  {
    e.host.ImplHost? && e.devices != []
  }

  /// Some of the first k entries initializes.
  predicate AnyInitializes(ps: seq<OrchPlatform>, k: nat)
    requires k <= |ps|
  {
    k > 0 && (AnyInitializes(ps, k - 1) || Initializes(ps[k - 1]))
  }

  lemma {:induction false} AnyInitializesIff(ps: seq<OrchPlatform>, k: nat)
    requires k <= |ps|
    ensures AnyInitializes(ps, k) <==> exists j :: 0 <= j < k && Initializes(ps[j])
  {
    if k > 0 {
      AnyInitializesIff(ps, k - 1);
    }
  }

  /// What initialize() needs of host h: consistent maps that know every
  /// device recorded under an entry pointing to h.
  ghost predicate ReadyFor(s: Maps, h: HostImpl, ps: seq<OrchPlatform>)
  {
    Consistent(s) &&
    forall j :: 0 <= j < |ps| && ps[j].host == ImplHost(h) ==> Known(s.devices, Uuids(ps[j].devices))
  }

  /// Every entry's host, with its maps taken from st, is ready for
  /// initialize().
  ghost predicate ReadyAll(ps: seq<OrchPlatform>, st: map<HostImpl, Maps>)
  {
    forall j :: 0 <= j < |ps| && ps[j].host.ImplHost? ==>
      ps[j].host.impl in st && ReadyFor(st[ps[j].host.impl], ps[j].host.impl, ps)
  }

  /// The HostImpl objects named by the entries of ps.
  function ImplsOf(ps: seq<OrchPlatform>): set<HostImpl>
  {
    set k | 0 <= k < |ps| && ps[k].host.ImplHost? :: ps[k].host.impl
  }

  lemma InImplsOf(ps: seq<OrchPlatform>, j: nat)
    requires j < |ps| && ps[j].host.ImplHost?
    ensures ps[j].host.impl in ImplsOf(ps)
  {
  }

  /// m and m' give the same maps to every host the entries of ps name.
  ghost predicate AgreeOn(ps: seq<OrchPlatform>, m: map<HostImpl, Maps>, m': map<HostImpl, Maps>)
  {
    forall j :: 0 <= j < |ps| && ps[j].host.ImplHost? ==>
      ps[j].host.impl in m && ps[j].host.impl in m' && m'[ps[j].host.impl] == m[ps[j].host.impl]
  }

  /// Devices known in m stay known in any extension of m.
  lemma KnownExtended(m: map<Uuid, DeviceData>, m': map<Uuid, DeviceData>, ids: seq<Uuid>)
    requires Known(m, ids) && Extends(m, m')
    ensures Known(m', ids)
  {
    forall i | 0 <= i < |ids|
      ensures ids[i] in m'
    {
      assert ids[i] in m;
    }
  }

  /// An entry already present before push_back stays known to its host.
  lemma PushBackKeepsOld(ps: seq<OrchPlatform>, st: map<HostImpl, Maps>, h: HostImpl, s: Maps, found: seq<ClPlatform>, i: nat)
    requires ReadyAll(ps, st) && Consistent(s) && (h in st ==> st[h] == s)
    requires i < |ps| && ps[i].host.ImplHost?
    ensures Known(st[h := RegisterPlatforms(s, found)][ps[i].host.impl].devices, Uuids(ps[i].devices))
  {
    var g := ps[i].host.impl;
    assert g in st && ReadyFor(st[g], g, ps);
    assert Known(st[g].devices, Uuids(ps[i].devices));
    if g == h {
      InfoExtends(s, found);
      KnownExtended(s.devices, RegisterPlatforms(s, found).devices, Uuids(ps[i].devices));
    }
  }

  /// An entry added by push_back is known to the host it was found on.
  lemma PushBackKnowsNew(s: Maps, h: HostImpl, found: seq<ClPlatform>, k: nat)
    requires k < |found|
    ensures Known(RegisterPlatforms(s, found).devices, Uuids(Summaries(ReportAll(found), ImplHost(h))[k].devices))
  {
    assert Summaries(ReportAll(found), ImplHost(h))[k] == Summary(ReportAll(found)[k], ImplHost(h));
    ReportedDevicesKnown(s, found, k);
  }

  /// After push_back, entry i of the grown list is known to its host.
  lemma PushBackKnownAt(ps: seq<OrchPlatform>, st: map<HostImpl, Maps>, h: HostImpl, s: Maps, found: seq<ClPlatform>, i: nat)
    requires ReadyAll(ps, st) && Consistent(s) && (h in st ==> st[h] == s)
    requires i < |ps| + |found| && (ps + Summaries(ReportAll(found), ImplHost(h)))[i].host.ImplHost?
    ensures var e := (ps + Summaries(ReportAll(found), ImplHost(h)))[i];
      Known(st[h := RegisterPlatforms(s, found)][e.host.impl].devices, Uuids(e.devices))
  {
    var added := Summaries(ReportAll(found), ImplHost(h));
    var e := (ps + added)[i];
    if i < |ps| {
      assert e == ps[i];
      PushBackKeepsOld(ps, st, h, s, found, i);
    } else {
      var k := i - |ps|;
      assert e == added[k] == Summary(ReportAll(found)[k], ImplHost(h));
      PushBackKnowsNew(s, h, found, k);
    }
  }

  /// push_back of a HostImpl with consistent maps keeps every host ready:
  /// info() keeps the maps consistent and only adds devices, and every
  /// device it records for the new entries is registered.
  lemma PushBackKeepsReady(ps: seq<OrchPlatform>, st: map<HostImpl, Maps>, h: HostImpl, s: Maps, found: seq<ClPlatform>)
    requires ReadyAll(ps, st) && Consistent(s) && (h in st ==> st[h] == s)
    ensures ReadyAll(ps + Summaries(ReportAll(found), ImplHost(h)), st[h := RegisterPlatforms(s, found)])
  {
    var ps' := ps + Summaries(ReportAll(found), ImplHost(h));
    var st' := st[h := RegisterPlatforms(s, found)];
    InfoConsistent(s, found);
    forall j | 0 <= j < |ps'| && ps'[j].host.ImplHost?
      ensures ps'[j].host.impl in st' && ReadyFor(st'[ps'[j].host.impl], ps'[j].host.impl, ps')
    {
      var g := ps'[j].host.impl;
      if j < |ps| {
        assert ps'[j] == ps[j];
      }
      forall i | 0 <= i < |ps'| && ps'[i].host == ImplHost(g)
        ensures Known(st'[g].devices, Uuids(ps'[i].devices))
      {
        PushBackKnownAt(ps, st, h, s, found, i);
      }
    }
  }

  /// push_back's effect on readiness, once the orchestrator's view of the
  /// hosts after the call agrees with the updated map of host states.
  lemma PushBackReadyStep(ps: seq<OrchPlatform>, st: map<HostImpl, Maps>, h: HostImpl, s: Maps, found: seq<ClPlatform>, now: map<HostImpl, Maps>)
    requires ReadyAll(ps, st) && Consistent(s) && (h in st ==> st[h] == s)
    requires AgreeOn(ps + Summaries(ReportAll(found), ImplHost(h)), st[h := RegisterPlatforms(s, found)], now)
    ensures ReadyAll(ps + Summaries(ReportAll(found), ImplHost(h)), now)
  {
    PushBackKeepsReady(ps, st, h, s, found);
  }

  /// Host h's maps after the first k entries were initialized.
  ghost function InitUpTo(s: Maps, h: HostImpl, ps: seq<OrchPlatform>, k: nat): (r: Maps)
    requires k <= |ps| && ReadyFor(s, h, ps)
    ensures ReadyFor(r, h, ps) && r.devices.Keys == s.devices.Keys
  {
    if k == 0 then s
    else
      var t := InitUpTo(s, h, ps, k - 1);
      if ps[k - 1].host == ImplHost(h) then
        var ids := Uuids(ps[k - 1].devices);
        InitializeConsistent(t, ids);
        Initialized(t, ids)
      else t
  }

  /// A host behind no recorded entry is left as it was.
  lemma {:induction false} InitUpToUnused(s: Maps, h: HostImpl, ps: seq<OrchPlatform>, k: nat)
    requires k <= |ps| && ReadyFor(s, h, ps)
    requires forall j :: 0 <= j < k ==> ps[j].host != ImplHost(h)
    ensures InitUpTo(s, h, ps, k) == s
  {
    if k > 0 {
      InitUpToUnused(s, h, ps, k - 1);
    }
  }

  /// The builds that succeed on host h: the contexts listed for it.
  function OkOn(ok: map<HostImpl, set<Uuid>>, h: HostImpl): set<Uuid>
  {
    if h in ok then ok[h] else {}
  }

  /// Entry e's build succeeds: its host is a HostImpl and its platform, in
  /// the maps s0 the host had when compile() started, has a context on
  /// which builds succeed.
  predicate BuildsOn(s0: map<HostImpl, Maps>, e: OrchPlatform, ok: map<HostImpl, set<Uuid>>)
  {
    e.host.ImplHost? && e.host.impl in s0 && HasContext(s0[e.host.impl], e.uuid) &&
    s0[e.host.impl].platforms[e.uuid].context in OkOn(ok, e.host.impl)
  }

  /// The build of some of the first k entries succeeds.
  predicate AnyBuilds(ps: seq<OrchPlatform>, s0: map<HostImpl, Maps>, ok: map<HostImpl, set<Uuid>>, k: nat)
    requires k <= |ps|
  {
    k > 0 && (AnyBuilds(ps, s0, ok, k - 1) || BuildsOn(s0, ps[k - 1], ok))
  }

  lemma {:induction false} AnyBuildsIff(ps: seq<OrchPlatform>, s0: map<HostImpl, Maps>, ok: map<HostImpl, set<Uuid>>, k: nat)
    requires k <= |ps|
    ensures AnyBuilds(ps, s0, ok, k) <==> exists j :: 0 <= j < k && BuildsOn(s0, ps[j], ok)
  {
    if k > 0 {
      AnyBuildsIff(ps, s0, ok, k - 1);
    }
  }

  /// What compile() needs of host h: every entry pointing to h names a
  /// registered platform whose context exists.
  ghost predicate CompilableFor(s: Maps, h: HostImpl, ps: seq<OrchPlatform>)
  {
    forall j :: 0 <= j < |ps| && ps[j].host == ImplHost(h) ==> Compilable(s, [ps[j].uuid])
  }

  /// Host h's maps after compile() went through the first k entries, each
  /// entry pointing to h compiling on its own platform; a platform without
  /// a context is skipped, which compile() as written only meets where
  /// CompilableFor holds.
  ghost function CompileUpTo(s: Maps, h: HostImpl, ps: seq<OrchPlatform>, k: nat, kernel: string, ok: set<Uuid>): (r: Maps)
    requires k <= |ps|
    ensures r.platforms == s.platforms && r.devices == s.devices && r.queues == s.queues
    ensures r.contexts.Keys == s.contexts.Keys
  {
    if k == 0 then s
    else
      var t := CompileUpTo(s, h, ps, k - 1, kernel, ok);
      if ps[k - 1].host == ImplHost(h) then CompiledGuarded(t, [ps[k - 1].uuid], kernel, ok).0 else t
  }

  /// compile() of one platform reports success exactly when the build on
  /// its context succeeds.
  lemma CompileSingle(s: Maps, p: Uuid, kernel: string, ok: set<Uuid>)
    requires Compilable(s, [p])
    ensures Compiled(s, [p], kernel, ok).1 <==> s.platforms[p].context in ok
  {
    assert [p][..0] == [];
  }

  /// The guarded compile() of one platform reports success exactly when
  /// the platform has a context and the build on it succeeds.
  lemma CompileSingleGuarded(s: Maps, p: Uuid, kernel: string, ok: set<Uuid>)
    ensures CompiledGuarded(s, [p], kernel, ok).1 <==> HasContext(s, p) && s.platforms[p].context in ok
  {
    assert [p][..0] == [];
  }

  /// compile() keeps every host consistent.
  lemma {:induction false} CompileUpToConsistent(s: Maps, h: HostImpl, ps: seq<OrchPlatform>, k: nat, kernel: string, ok: set<Uuid>)
    requires k <= |ps| && Consistent(s)
    ensures Consistent(CompileUpTo(s, h, ps, k, kernel, ok))
  {
    if k > 0 {
      var t := CompileUpTo(s, h, ps, k - 1, kernel, ok);
      CompileUpToConsistent(s, h, ps, k - 1, kernel, ok);
      if ps[k - 1].host == ImplHost(h) {
        CompileGuardedConsistent(t, [ps[k - 1].uuid], kernel, ok);
      }
    }
  }

  /// A platform all of whose devices are unavailable or lack a compiler is
  /// registered by info() with no context, push_back records it with no
  /// devices, and initialize() of that empty list creates none.  compile()
  /// of it then finds no context: contexts.find(nil) is end(), which the
  /// source dereferences.
  lemma UnusablePlatformHasNoContext(s: Maps, p: ClPlatform)
    requires Consistent(s) && PlatformUuid(p) !in s.platforms && p.devices != []
    requires forall i :: 0 <= i < |p.devices| ==> !(p.devices[i].available && p.devices[i].compilerAvailable)
    ensures var r := RegisterPlatforms(s, [p]);
      Kept(ReportAll([p])[0].devices) == [] &&
      Consistent(r) && Known(r.devices, []) && Initialized(r, []) == r &&
      PlatformUuid(p) in r.platforms && r.platforms[PlatformUuid(p)].context == Nil &&
      !Compilable(Initialized(r, []), [PlatformUuid(p)])
  {
    var r := RegisterPlatforms(s, [p]);
    assert [p][..0] == [];
    var ds := ReportAll([p])[0].devices;
    assert ds == DescribeAll(p.devices);
    KeptNone(ds);
    InfoConsistent(s, [p]);
    assert ContextsOk(r);
    assert Nil !in r.contexts;
  }

  /// A report none of whose devices is usable keeps nothing.
  lemma {:induction false} KeptNone(ds: seq<DeviceInfo>)
    requires forall i :: 0 <= i < |ds| ==> !Usable(ds[i])
    ensures Kept(ds) == []
  {
    if ds != [] {
      KeptNone(ds[..|ds| - 1]);
    }
  }

  // ---------------------------------------------------------------------
  // Orchestrator

  class Orchestrator {
    /// The recorded platforms, each with its host and its kept devices.
    var platforms: seq<OrchPlatform>

    constructor()
      ensures platforms == []
    {
      platforms := [];
    }

    /// The HostImpl objects behind the recorded platforms.
    function Impls(): set<HostImpl>
      reads this
    {
      ImplsOf(platforms)
    }

    /// Every host behind a recorded platform is ready for initialize().
    ghost predicate Ready()
      reads this, Impls()
    {
      ReadyAll(platforms, States())
    }

    /// Every host behind a recorded platform is ready for compile().
    ghost predicate Compilable()
      reads this, Impls()
    {
      forall j :: 0 <= j < |platforms| && platforms[j].host.ImplHost? ==>
        CompilableFor(platforms[j].host.impl.State(), platforms[j].host.impl, platforms)
    }

    /// push_back(host): a valid host is asked for its platforms, and each
    /// is recorded with its usable devices; an invalid host is ignored.
    method PushBack(host: HostRef, found: seq<ClPlatform>)
      modifies this, Objects(host)
      ensures host.BaseHost? ==> platforms == old(platforms)
      ensures host.ImplHost? ==> platforms == old(platforms) + Summaries(ReportAll(found), host)
      ensures host.ImplHost? ==> host.impl.State() == RegisterPlatforms(old(host.impl.State()), found)
      ensures old(Ready()) && (host.ImplHost? ==> Consistent(old(host.impl.State()))) ==> Ready()
    {
      ghost var st := States();
      ghost var ps := platforms;
      ghost var ready := ReadyAll(ps, st);
      if !Valid(host) {
        return;
      }
      ghost var s := host.impl.State();
      var info := HostInfo(host, found);
      RecordAll(info.platforms, host);
      ghost var ps' := ps + Summaries(ReportAll(found), host);
      ghost var st' := st[host.impl := host.impl.State()];
      ghost var now := States();
      forall j | 0 <= j < |ps'| && ps'[j].host.ImplHost?
        ensures ps'[j].host.impl in st' && ps'[j].host.impl in now && now[ps'[j].host.impl] == st'[ps'[j].host.impl]
      {
        InImplsOf(ps', j);
        if j < |ps| {
          assert ps'[j] == ps[j];
          InImplsOf(ps, j);
        }
      }
      if ready && Consistent(s) {
        PushBackReadyStep(ps, st, host.impl, s, found, now);
      }
    }

    /// The platform loop of push_back: record each reported platform with
    /// its usable devices.
    method RecordAll(ps: seq<PlatformInfo>, host: HostRef)
      modifies this
      ensures platforms == old(platforms) + Summaries(ps, host)
    {
      var i := 0;
      while i < |ps|
        invariant 0 <= i <= |ps|
        invariant platforms == old(platforms) + Summaries(ps[..i], host)
      {
        var p := ps[i];
        var devices := KeepUsable(p.devices);
        var entry := OrchPlatform(p.uuid, host, devices);
        assert entry == Summary(ps[i], host);
        SummariesStep(ps, host, i);
        assert platforms + [entry] == old(platforms) + Summaries(ps[..i + 1], host);
        platforms := platforms + [entry];
        i := i + 1;
      }
      assert ps[..i] == ps;
    }

    /// The states of the hosts behind the recorded platforms.
    ghost function States(): (m: map<HostImpl, Maps>)
      reads this, Impls()
      ensures m.Keys == Impls()
    {
      map h | h in Impls() :: h.State()
    }

    /// Every host behind a recorded platform has gone through the first k
    /// entries of initialize(), starting from the states s0.
    ghost predicate InitializedUpTo(s0: map<HostImpl, Maps>, k: nat)
      reads this, Impls()
    {
      k <= |platforms| &&
      forall j :: 0 <= j < |platforms| && platforms[j].host.ImplHost? ==>
        var h := platforms[j].host.impl;
        h in s0 && ReadyFor(s0[h], h, platforms) && h.State() == InitUpTo(s0[h], h, platforms, k)
    }

    /// initialize(): each recorded platform asks its host to initialize
    /// its kept devices; the answer is whether any host did.
    method Initialize() returns (response: bool)
      requires Ready()
      modifies Impls()
      ensures response == AnyInitializes(platforms, |platforms|)
      ensures InitializedUpTo(old(States()), |platforms|)
    {
      ghost var s0 := States();
      response := false;
      var k := 0;
      while k < |platforms|
        invariant 0 <= k <= |platforms|
        invariant InitializedUpTo(s0, k)
        invariant response == AnyInitializes(platforms, k)
      {
        var r := InitializeEntry(s0, k);
        response := response || r;
        k := k + 1;
      }
    }

    /// One iteration of initialize(): the k-th entry's host initializes the
    /// entry's devices.
    method InitializeEntry(ghost s0: map<HostImpl, Maps>, k: nat) returns (r: bool)
      requires k < |platforms| && InitializedUpTo(s0, k)
      modifies Impls()
      ensures InitializedUpTo(s0, k + 1)
      ensures r <==> platforms[k].host.ImplHost? && platforms[k].devices != []
    {
      var p := platforms[k];
      if p.host.ImplHost? {
        assert p.host.impl in Impls();
      }
      label before:
      r := HostInitialize(p.host, Uuids(p.devices));
      forall j | 0 <= j < |platforms| && platforms[j].host.ImplHost?
        ensures var h := platforms[j].host.impl; h.State() == InitUpTo(s0[h], h, platforms, k + 1)
      {
        var h := platforms[j].host.impl;
        if p.host != ImplHost(h) {
          assert h.State() == old@before(h.State());
        }
      }
    }

    /// Every host behind a recorded platform has gone through the first k
    /// entries of compile(kernel), starting from the states s0.
    ghost predicate CompiledUpTo(s0: map<HostImpl, Maps>, kernel: string, ok: map<HostImpl, set<Uuid>>, k: nat)
      reads this, Impls()
    {
      k <= |platforms| &&
      forall j :: 0 <= j < |platforms| && platforms[j].host.ImplHost? ==>
        var h := platforms[j].host.impl;
        h in s0 && h.State() == CompileUpTo(s0[h], h, platforms, k, kernel, OkOn(ok, h))
    }

    /// In the states s0, every entry's platform has a context on its host.
    ghost predicate CompilableAt(s0: map<HostImpl, Maps>)
      reads this
    {
      forall j :: 0 <= j < |platforms| && platforms[j].host.ImplHost? ==>
        platforms[j].host.impl in s0 && CompilableFor(s0[platforms[j].host.impl], platforms[j].host.impl, platforms)
    }

    /// compile(kernel), as written: each recorded platform asks its host to
    /// build the kernel on that platform; the answer is whether any build
    /// succeeded.  The host looks the platform's context up unchecked, so
    /// every platform must have one.
    method Compile(kernel: string, ok: map<HostImpl, set<Uuid>>) returns (response: bool)
      requires Compilable()
      modifies Impls()
      ensures response == AnyBuilds(platforms, old(States()), ok, |platforms|)
      ensures CompiledUpTo(old(States()), kernel, ok, |platforms|)
    {
      ghost var s0 := States();
      assert CompilableAt(s0);
      response := false;
      var k := 0;
      while k < |platforms|
        invariant 0 <= k <= |platforms|
        invariant platforms == old(platforms) && s0 == old(States())
        invariant CompiledUpTo(s0, kernel, ok, k) && CompilableAt(s0)
        invariant response == AnyBuilds(platforms, s0, ok, k)
      {
        var r := CompileEntry(s0, kernel, ok, k);
        response := response || r;
        k := k + 1;
      }
    }

    /// One iteration of compile(): the k-th entry's host builds the kernel
    /// on the entry's platform.
    method CompileEntry(ghost s0: map<HostImpl, Maps>, kernel: string, ok: map<HostImpl, set<Uuid>>, k: nat) returns (r: bool)
      requires k < |platforms| && CompiledUpTo(s0, kernel, ok, k) && CompilableAt(s0)
      modifies Impls()
      ensures CompiledUpTo(s0, kernel, ok, k + 1)
      ensures r <==> BuildsOn(s0, platforms[k], ok)
    {
      var p := platforms[k];
      var okHere := {};
      if p.host.ImplHost? {
        assert p.host.impl in Impls();
        okHere := OkOn(ok, p.host.impl);
        var h := p.host.impl;
        assert Host.Compilable(s0[h], [p.uuid]);
        assert h.State() == CompileUpTo(s0[h], h, platforms, k, kernel, okHere);
      }
      label before:
      r := HostCompile(p.host, [p.uuid], kernel, okHere);
      if p.host.ImplHost? {
        CompileSingle(old@before(p.host.impl.State()), p.uuid, kernel, okHere);
        CompiledGuardedAgrees(old@before(p.host.impl.State()), [p.uuid], kernel, okHere);
      }
      forall j | 0 <= j < |platforms| && platforms[j].host.ImplHost?
        ensures var h := platforms[j].host.impl; h.State() == CompileUpTo(s0[h], h, platforms, k + 1, kernel, OkOn(ok, h))
      {
        var h := platforms[j].host.impl;
        if p.host != ImplHost(h) {
          assert h.State() == old@before(h.State());
        }
      }
    }

    /// compile(kernel) as intended: a platform whose host has no context
    /// for it is skipped like a failed build, so nothing is demanded of the
    /// hosts.
    method CompileGuarded(kernel: string, ok: map<HostImpl, set<Uuid>>) returns (response: bool)
      modifies Impls()
      ensures response == AnyBuilds(platforms, old(States()), ok, |platforms|)
      ensures CompiledUpTo(old(States()), kernel, ok, |platforms|)
    {
      ghost var s0 := States();
      response := false;
      var k := 0;
      while k < |platforms|
        invariant 0 <= k <= |platforms|
        invariant platforms == old(platforms) && s0 == old(States())
        invariant CompiledUpTo(s0, kernel, ok, k)
        invariant response == AnyBuilds(platforms, s0, ok, k)
      {
        var r := CompileEntryGuarded(s0, kernel, ok, k);
        response := response || r;
        k := k + 1;
      }
    }

    /// One iteration of the guarded compile().
    method CompileEntryGuarded(ghost s0: map<HostImpl, Maps>, kernel: string, ok: map<HostImpl, set<Uuid>>, k: nat) returns (r: bool)
      requires k < |platforms| && CompiledUpTo(s0, kernel, ok, k)
      modifies Impls()
      ensures CompiledUpTo(s0, kernel, ok, k + 1)
      ensures r <==> BuildsOn(s0, platforms[k], ok)
    {
      var p := platforms[k];
      var okHere := {};
      if p.host.ImplHost? {
        assert p.host.impl in Impls();
        okHere := OkOn(ok, p.host.impl);
      }
      label before:
      r := HostCompileGuarded(p.host, [p.uuid], kernel, okHere);
      if p.host.ImplHost? {
        CompileSingleGuarded(old@before(p.host.impl.State()), p.uuid, kernel, okHere);
      }
      forall j | 0 <= j < |platforms| && platforms[j].host.ImplHost?
        ensures var h := platforms[j].host.impl; h.State() == CompileUpTo(s0[h], h, platforms, k + 1, kernel, OkOn(ok, h))
      {
        var h := platforms[j].host.impl;
        if p.host != ImplHost(h) {
          assert h.State() == old@before(h.State());
        }
      }
    }
  }
}
