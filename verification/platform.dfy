/**
  The dynamic platform: Homebridge hands it each cached accessory through
  `configureAccessory`, and once launching has finished `discoverDevices`
  reconciles the configured sensors against that cache, restoring or creating
  one accessory per sensor and starting one poller for each.

  `uuid.generate` is a parameter: any deterministic function of the MAC
  address.  Starting a poller is recorded as the accessory the poller owns once
  its constructor's synchronous setup has run; registering is recorded as the
  accessory passed to `registerPlatformAccessories`.
 */
module OriaPlatform {
  import opened Wrappers
  import opened Homebridge
  import opened OriaAccessory

  /** `configureAccessory`: the accessory goes to the end of the cache list. */
  function ConfigureAccessory(cache: seq<SensorAccessory>, a: SensorAccessory): (r: seq<SensorAccessory>)
    ensures |r| == |cache| + 1
    ensures r[..|cache|] == cache
    ensures r[|cache|] == a
  {
    cache + [a]
  }

  /**
    The cache list as Homebridge builds it at start-up: the platform's list
    starts empty and receives one `configureAccessory` call per persisted
    accessory, in the persisted order.
   */
  function RestoreCache(persisted: seq<SensorAccessory>): seq<SensorAccessory>
    decreases |persisted|
  {
    if persisted == [] then []
    else ConfigureAccessory(RestoreCache(persisted[..|persisted| - 1]), persisted[|persisted| - 1])
  }

  /** Restoring the persisted accessories reproduces them in order, nothing lost or reordered. */
  lemma {:induction false} RestoreCacheKeepsOrder(persisted: seq<SensorAccessory>)
    ensures RestoreCache(persisted) == persisted
    decreases |persisted|
  {
    if persisted != [] {
      var init := persisted[..|persisted| - 1];
      RestoreCacheKeepsOrder(init);
      assert persisted == init + [persisted[|persisted| - 1]];
    }
  }

  predicate HasUuid(cache: seq<SensorAccessory>, u: Uuid) {
    exists j :: 0 <= j < |cache| && cache[j].uuid == u
  }

  /** `accessories.find(accessory => accessory.UUID === uuid)`, as an index. */
  function FindFirst(cache: seq<SensorAccessory>, u: Uuid): (r: Option<nat>)
    ensures r.Some? ==> r.value < |cache| && cache[r.value].uuid == u
    ensures r.Some? ==> forall j :: 0 <= j < r.value ==> cache[j].uuid != u
    ensures r.None? <==> !HasUuid(cache, u)
    decreases |cache|
  {
    if cache == [] then None
    else if cache[0].uuid == u then Some(0)
    else match FindFirst(cache[1..], u)
      case None => assert forall j :: 1 <= j < |cache| ==> cache[j] == cache[1..][j - 1]; None
      case Some(i) => Some(i + 1)
  }

  /**
    `new this.api.platformAccessory(device.name, uuid)` with the device as its
    context.  Homebridge gives every new accessory an information service.
   */
  function NewAccessory(device: SensorConfig, u: Uuid): SensorAccessory {
    Accessory(device.name, u, device, map[AccessoryInformation := map[]])
  }

  /**
    The accessory a configured sensor's poller ends up owning: the first cached
    accessory with the sensor's identity, set up, or else a new one, set up.
   */
  function ExpectedPoller(cache: seq<SensorAccessory>, device: SensorConfig, generate: string -> Uuid): SensorAccessory {
    var u := generate(device.macAddress);
    match FindFirst(cache, u)
    case Some(i) => Setup(cache[i])
    case None => Setup(NewAccessory(device, u))
  }

  /** The configured sensors, in order, whose identity no cached accessory carries. */
  function Uncached(cache: seq<SensorAccessory>, devices: seq<SensorConfig>, generate: string -> Uuid): (r: seq<SensorConfig>)
    ensures |r| <= |devices|
    ensures forall j :: 0 <= j < |r| ==> r[j] in devices && !HasUuid(cache, generate(r[j].macAddress))
    decreases |devices|
  {
    if devices == [] then []
    else
      var rest := Uncached(cache, devices[1..], generate);
      assert forall d :: d in devices[1..] ==> d in devices;
      if HasUuid(cache, generate(devices[0].macAddress)) then rest else [devices[0]] + rest
  }

  /** What one `discoverDevices` run leaves behind. */
  datatype Discovery = Discovery(
    cache: seq<SensorAccessory>,        // the platform's accessory list afterwards
    pollers: seq<SensorAccessory>,      // one per `new ThermobeaconOriaAccessory`, in order
    registered: seq<SensorAccessory>)   // one per `registerPlatformAccessories` call, in order

  /**
    `discoverDevices`.  A restored accessory is the cached object itself, so the
    constructor's setup shows up in the cache list; a new accessory is set up,
    registered, and never added to the list.
   */
  function DiscoverDevices(cache: seq<SensorAccessory>, devices: seq<SensorConfig>, generate: string -> Uuid): (r: Discovery)
    ensures |r.pollers| == |devices|
    ensures |r.cache| == |cache|
    ensures forall i :: 0 <= i < |cache| ==> SameIdentity(r.cache[i], cache[i])
    decreases |devices|
  {
    if devices == [] then Discovery(cache, [], [])
    else
      var device := devices[0];
      var u := generate(device.macAddress);
      match FindFirst(cache, u)
      case Some(i) =>
        var restored := Setup(cache[i]);
        var rest := DiscoverDevices(cache[i := restored], devices[1..], generate);
        Discovery(rest.cache, [restored] + rest.pollers, rest.registered)
      case None =>
        var created := Setup(NewAccessory(device, u));
        var rest := DiscoverDevices(cache, devices[1..], generate);
        Discovery(rest.cache, [created] + rest.pollers, [created] + rest.registered)
  }

  /** Caches whose entries carry the same identities position by position. */
  predicate SameUuids(c1: seq<SensorAccessory>, c2: seq<SensorAccessory>) {
    |c1| == |c2| && forall i :: 0 <= i < |c1| ==> c1[i].uuid == c2[i].uuid
  }

  /** Lookup by identity sees only the identities. */
  lemma SameUuidsFind(c1: seq<SensorAccessory>, c2: seq<SensorAccessory>, u: Uuid)
    requires SameUuids(c1, c2)
    ensures FindFirst(c1, u) == FindFirst(c2, u)
    ensures HasUuid(c1, u) == HasUuid(c2, u)
  {
    if HasUuid(c1, u) {
      var j :| 0 <= j < |c1| && c1[j].uuid == u;
      assert c2[j].uuid == u;
    }
    if HasUuid(c2, u) {
      var j :| 0 <= j < |c2| && c2[j].uuid == u;
      assert c1[j].uuid == u;
    }
    if FindFirst(c1, u).Some? && FindFirst(c2, u).Some? {
      var i1, i2 := FindFirst(c1, u).value, FindFirst(c2, u).value;
      assert i1 == i2;
    }
  }

  /** Which sensors are uncached depends only on the cached identities. */
  lemma {:induction false} SameUuidsUncached(c1: seq<SensorAccessory>, c2: seq<SensorAccessory>, devices: seq<SensorConfig>, generate: string -> Uuid)
    requires SameUuids(c1, c2)
    ensures Uncached(c1, devices, generate) == Uncached(c2, devices, generate)
    decreases |devices|
  {
    if devices != [] {
      SameUuidsFind(c1, c2, generate(devices[0].macAddress));
      SameUuidsUncached(c1, c2, devices[1..], generate);
    }
  }

  /**
    Exactly one poller is started per configured sensor, in configuration
    order, for the accessory whose identity is the uuid of the sensor's MAC
    address: the first cached accessory with that uuid if there is one (its
    display name and context kept), else a new accessory named after the
    sensor with the sensor as its context.
   */
  lemma DiscoverPollers(cache: seq<SensorAccessory>, devices: seq<SensorConfig>, generate: string -> Uuid)
    ensures var r := DiscoverDevices(cache, devices, generate);
      forall k :: 0 <= k < |devices| ==> r.pollers[k] == ExpectedPoller(cache, devices[k], generate)
    ensures var r := DiscoverDevices(cache, devices, generate);
      forall k :: 0 <= k < |devices| ==>
        && r.pollers[k].uuid == generate(devices[k].macAddress)
        && HasChannels(r.pollers[k])
        && (HasUuid(cache, r.pollers[k].uuid) ==>
              SameIdentity(r.pollers[k], cache[FindFirst(cache, r.pollers[k].uuid).value]))
        && (!HasUuid(cache, r.pollers[k].uuid) ==>
              r.pollers[k].displayName == devices[k].name && r.pollers[k].context == devices[k])
  {
    forall k | 0 <= k < |devices|
      ensures DiscoverDevices(cache, devices, generate).pollers[k] == ExpectedPoller(cache, devices[k], generate)
    {
      DiscoverPollerAt(cache, devices, generate, k, devices[k]);
    }
  }

  /** The cache the rest of the configured sensors are matched against after the first one. */
  function AfterFirst(cache: seq<SensorAccessory>, device: SensorConfig, generate: string -> Uuid): (r: seq<SensorAccessory>)
    ensures SameUuids(r, cache)
  {
    match FindFirst(cache, generate(device.macAddress))
    case Some(i) => cache[i := Setup(cache[i])]
    case None => cache
  }

  /** One step of `discoverDevices`: the first sensor, then the rest against the updated cache. */
  lemma DiscoverStep(cache: seq<SensorAccessory>, devices: seq<SensorConfig>, generate: string -> Uuid)
    requires devices != []
    ensures var r := DiscoverDevices(cache, devices, generate);
      var rest := DiscoverDevices(AfterFirst(cache, devices[0], generate), devices[1..], generate);
      var started := ExpectedPoller(cache, devices[0], generate);
      && r.cache == rest.cache
      && r.pollers == [started] + rest.pollers
      && r.registered == (if HasUuid(cache, started.uuid) then [] else [started]) + rest.registered
  {
  }

  /** The `k`-th poller, by induction on `k`: earlier restores do not change later lookups. */
  lemma {:induction false} DiscoverPollerAt(cache: seq<SensorAccessory>, devices: seq<SensorConfig>, generate: string -> Uuid, k: nat, device: SensorConfig)
    requires k < |devices| && devices[k] == device
    ensures DiscoverDevices(cache, devices, generate).pollers[k] == ExpectedPoller(cache, device, generate)
    decreases k
  {
    var next := AfterFirst(cache, devices[0], generate);
    var rest := DiscoverDevices(next, devices[1..], generate);
    assert DiscoverDevices(cache, devices, generate).pollers == [ExpectedPoller(cache, devices[0], generate)] + rest.pollers by {
      DiscoverStep(cache, devices, generate);
    }
    if k > 0 {
      DiscoverPollerAt(next, devices[1..], generate, k - 1, device);
      ExpectedPollerAfterFirst(cache, devices[0], device, generate);
    }
  }

  /** An earlier sensor's restore does not change which accessory a later sensor's poller gets. */
  lemma ExpectedPollerAfterFirst(cache: seq<SensorAccessory>, first: SensorConfig, device: SensorConfig, generate: string -> Uuid)
    ensures ExpectedPoller(AfterFirst(cache, first, generate), device, generate) == ExpectedPoller(cache, device, generate)
  {
    var next := AfterFirst(cache, first, generate);
    var u := generate(device.macAddress);
    SameUuidsFind(next, cache, u);
    if FindFirst(cache, u).Some? {
      var i := FindFirst(cache, u).value;
      AfterFirstAt(cache, first, generate, i);
      SetupAgain(cache[i], next[i]);
    }
  }

  /**
    A registration call is made exactly for the configured sensors whose uuid
    no cached accessory carries, once each, in configuration order, with a new
    accessory named after the sensor; so the number of registrations is the
    number of such sensors, and two uncached sensors with the same MAC address
    are each created and registered.
   */
  lemma DiscoverRegistrations(cache: seq<SensorAccessory>, devices: seq<SensorConfig>, generate: string -> Uuid)
    ensures var r := DiscoverDevices(cache, devices, generate);
      var newcomers := Uncached(cache, devices, generate);
      && |r.registered| == |newcomers|
      && forall j :: 0 <= j < |newcomers| ==>
           && r.registered[j] == Setup(NewAccessory(newcomers[j], generate(newcomers[j].macAddress)))
           && r.registered[j].displayName == newcomers[j].name
           && r.registered[j].uuid == generate(newcomers[j].macAddress)
           && r.registered[j].context == newcomers[j]
  {
    RegistrationsAreNew(cache, devices, generate);
  }

  /** The registrations are the uncached sensors' new accessories, set up, in order. */
  lemma {:induction false} RegistrationsAreNew(cache: seq<SensorAccessory>, devices: seq<SensorConfig>, generate: string -> Uuid)
    ensures var r := DiscoverDevices(cache, devices, generate);
      var newcomers := Uncached(cache, devices, generate);
      && |r.registered| == |newcomers|
      && forall j :: 0 <= j < |newcomers| ==>
           r.registered[j] == Setup(NewAccessory(newcomers[j], generate(newcomers[j].macAddress)))
    decreases |devices|
  {
    if devices != [] {
      var next := AfterFirst(cache, devices[0], generate);
      var rest := DiscoverDevices(next, devices[1..], generate);
      var u := generate(devices[0].macAddress);
      SameUuidsUncached(next, cache, devices[1..], generate);
      RegistrationsAreNew(next, devices[1..], generate);
      if HasUuid(cache, u) {
        assert DiscoverDevices(cache, devices, generate).registered == rest.registered;
      } else {
        assert DiscoverDevices(cache, devices, generate).registered
            == [Setup(NewAccessory(devices[0], u))] + rest.registered;
      }
    }
  }

  /** Restored accessories are never registered again: every registration carries a uuid absent from the cache. */
  lemma NoRestoredRegistration(cache: seq<SensorAccessory>, devices: seq<SensorConfig>, generate: string -> Uuid)
    ensures forall j :: 0 <= j < |DiscoverDevices(cache, devices, generate).registered| ==>
      !HasUuid(cache, DiscoverDevices(cache, devices, generate).registered[j].uuid)
  {
    DiscoverRegistrations(cache, devices, generate);
  }

  /**
    Discovery never prunes or reorders the cache list and adds nothing to it.
    A cached accessory that no configured sensor finds first is left exactly
    as it was; one that is found is the restored object, which carries the
    constructor's setup and nothing else.
   */
  lemma DiscoverCache(cache: seq<SensorAccessory>, devices: seq<SensorConfig>, generate: string -> Uuid)
    ensures var r := DiscoverDevices(cache, devices, generate);
      forall i :: 0 <= i < |cache| ==>
        (forall k :: 0 <= k < |devices| ==> FindFirst(cache, generate(devices[k].macAddress)) != Some(i)) ==>
        r.cache[i] == cache[i]
    ensures var r := DiscoverDevices(cache, devices, generate);
      forall k :: 0 <= k < |devices| && FindFirst(cache, generate(devices[k].macAddress)).Some? ==>
        var i := FindFirst(cache, generate(devices[k].macAddress)).value;
        r.cache[i] == Setup(cache[i]) == r.pollers[k]
  {
    var r := DiscoverDevices(cache, devices, generate);
    forall i | 0 <= i < |cache| &&
        (forall k :: 0 <= k < |devices| ==> FindFirst(cache, generate(devices[k].macAddress)) != Some(i))
      ensures r.cache[i] == cache[i]
    {
      CacheEntryUnmatched(cache, devices, generate, i);
    }
    forall k | 0 <= k < |devices| && FindFirst(cache, generate(devices[k].macAddress)).Some?
      ensures var i := FindFirst(cache, generate(devices[k].macAddress)).value;
        r.cache[i] == Setup(cache[i]) == r.pollers[k]
    {
      CacheEntryMatched(cache, devices, generate, k, devices[k], FindFirst(cache, generate(devices[k].macAddress)).value);
      DiscoverPollerAt(cache, devices, generate, k, devices[k]);
    }
  }

  /** Each cache entry ends up as it was or as the constructor's setup left it. */
  lemma {:induction false} CacheEntryEither(cache: seq<SensorAccessory>, devices: seq<SensorConfig>, generate: string -> Uuid, i: nat)
    requires i < |cache|
    ensures var r := DiscoverDevices(cache, devices, generate);
      r.cache[i] == cache[i] || r.cache[i] == Setup(cache[i])
    decreases |devices|
  {
    if devices != [] {
      DiscoverStep(cache, devices, generate);
      var next := AfterFirst(cache, devices[0], generate);
      CacheEntryEither(next, devices[1..], generate, i);
      SetupIdempotent(cache[i]);
    }
  }

  /** A cache entry no sensor finds first is never touched. */
  lemma {:induction false} CacheEntryUnmatched(cache: seq<SensorAccessory>, devices: seq<SensorConfig>, generate: string -> Uuid, i: nat)
    requires i < |cache|
    requires forall k :: 0 <= k < |devices| ==> FindFirst(cache, generate(devices[k].macAddress)) != Some(i)
    ensures DiscoverDevices(cache, devices, generate).cache[i] == cache[i]
    decreases |devices|
  {
    if devices != [] {
      DiscoverStep(cache, devices, generate);
      var next := AfterFirst(cache, devices[0], generate);
      assert FindFirst(cache, generate(devices[0].macAddress)) != Some(i);
      forall k | 0 <= k < |devices[1..]|
        ensures FindFirst(next, generate(devices[1..][k].macAddress)) != Some(i)
      {
        assert devices[1..][k] == devices[k + 1];
        SameUuidsFind(next, cache, generate(devices[k + 1].macAddress));
      }
      CacheEntryUnmatched(next, devices[1..], generate, i);
    }
  }

  /** A cache entry some sensor finds first ends up set up (once or more, to the same effect). */
  lemma {:induction false} CacheEntryMatched(cache: seq<SensorAccessory>, devices: seq<SensorConfig>, generate: string -> Uuid, k: nat, device: SensorConfig, i: nat)
    requires k < |devices| && devices[k] == device
    requires FindFirst(cache, generate(device.macAddress)) == Some(i)
    ensures DiscoverDevices(cache, devices, generate).cache[i] == Setup(cache[i])
    decreases k
  {
    var next := AfterFirst(cache, devices[0], generate);
    var rest := DiscoverDevices(next, devices[1..], generate);
    assert DiscoverDevices(cache, devices, generate).cache == rest.cache by {
      DiscoverStep(cache, devices, generate);
    }
    AfterFirstAt(cache, devices[0], generate, i);
    SetupAgain(cache[i], next[i]);
    if k == 0 {
      CacheEntryEither(next, devices[1..], generate, i);
    } else {
      SameUuidsFind(next, cache, generate(device.macAddress));
      CacheEntryMatched(next, devices[1..], generate, k - 1, device, i);
    }
  }

  /** Entry `i` after the first sensor's step: untouched, or set up if the sensor found it. */
  lemma AfterFirstAt(cache: seq<SensorAccessory>, device: SensorConfig, generate: string -> Uuid, i: nat)
    requires i < |cache|
    ensures var next := AfterFirst(cache, device, generate);
      && |next| == |cache|
      && (next[i] == cache[i] || next[i] == Setup(cache[i]))
      && (FindFirst(cache, generate(device.macAddress)) == Some(i) ==> next[i] == Setup(cache[i]))
  {
  }

  /** Setting up an entry that is either untouched or already set up gives the same accessory. */
  lemma SetupAgain(a: SensorAccessory, b: SensorAccessory)
    requires b == a || b == Setup(a)
    ensures Setup(b) == Setup(a)
  {
    SetupIdempotent(a);
  }

  /** `find` returns the first index carrying the uuid. */
  lemma FindFirstIs(cache: seq<SensorAccessory>, u: Uuid, i: nat)
    requires i < |cache| && cache[i].uuid == u
    requires forall j :: 0 <= j < i ==> cache[j].uuid != u
    ensures FindFirst(cache, u) == Some(i)
  {
    assert HasUuid(cache, u);
    var f := FindFirst(cache, u).value;
    assert !(f < i);
  }

  /** A sensor whose uuid is not cached is among the uncached sensors. */
  lemma {:induction false} UncachedContains(cache: seq<SensorAccessory>, devices: seq<SensorConfig>, generate: string -> Uuid, k: nat)
    requires k < |devices| && !HasUuid(cache, generate(devices[k].macAddress))
    ensures exists j :: 0 <= j < |Uncached(cache, devices, generate)| && Uncached(cache, devices, generate)[j] == devices[k]
    decreases k
  {
    var rest := Uncached(cache, devices[1..], generate);
    if k == 0 {
      assert Uncached(cache, devices, generate)[0] == devices[0];
    } else {
      assert devices[1..][k - 1] == devices[k];
      UncachedContains(cache, devices[1..], generate, k - 1);
      var j :| 0 <= j < |rest| && rest[j] == devices[k];
      if HasUuid(cache, generate(devices[0].macAddress)) {
        assert Uncached(cache, devices, generate)[j] == devices[k];
      } else {
        assert Uncached(cache, devices, generate)[j + 1] == devices[k];
      }
    }
  }

  /** No two configured sensors share an identity. */
  predicate DistinctIdentities(devices: seq<SensorConfig>, generate: string -> Uuid) {
    forall k1, k2 ::
      (0 <= k1 < |devices| && 0 <= k2 < |devices| &&
       generate(devices[k1].macAddress) == generate(devices[k2].macAddress)) ==> k1 == k2
  }

  /** What Homebridge persists after a discovery: the cache list, then the registered accessories. */
  function Persisted(d: Discovery): seq<SensorAccessory> {
    d.cache + d.registered
  }

  /** The registrations follow the cache list in what is persisted. */
  lemma PersistedRegistration(d: Discovery, j: nat)
    requires j < |d.registered|
    ensures |d.cache| + j < |Persisted(d)| && Persisted(d)[|d.cache| + j] == d.registered[j]
  {
  }

  /** If every sensor's identity is cached, no sensor is uncached. */
  lemma {:induction false} UncachedEmpty(cache: seq<SensorAccessory>, devices: seq<SensorConfig>, generate: string -> Uuid)
    requires forall k :: 0 <= k < |devices| ==> HasUuid(cache, generate(devices[k].macAddress))
    ensures Uncached(cache, devices, generate) == []
    decreases |devices|
  {
    if devices != [] {
      assert forall k :: 0 <= k < |devices[1..]| ==> devices[1..][k] == devices[k + 1];
      UncachedEmpty(cache, devices[1..], generate);
    }
  }

  /** The `j`-th registration carries the identity of the `j`-th uncached sensor. */
  lemma RegisteredUuid(cache: seq<SensorAccessory>, devices: seq<SensorConfig>, generate: string -> Uuid, j: nat)
    requires j < |Uncached(cache, devices, generate)|
    ensures var r := DiscoverDevices(cache, devices, generate);
      j < |r.registered| && r.registered[j].uuid == generate(Uncached(cache, devices, generate)[j].macAddress)
  {
    DiscoverRegistrations(cache, devices, generate);
  }

  /** After a discovery, every configured sensor's identity is persisted. */
  lemma PersistedCovers(cache: seq<SensorAccessory>, devices: seq<SensorConfig>, generate: string -> Uuid, k: nat)
    requires k < |devices|
    ensures HasUuid(Persisted(DiscoverDevices(cache, devices, generate)), generate(devices[k].macAddress))
  {
    var first := DiscoverDevices(cache, devices, generate);
    var persisted := Persisted(first);
    var u := generate(devices[k].macAddress);
    if HasUuid(cache, u) {
      var i := FindFirst(cache, u).value;
      assert first.cache[i].uuid == u;
      assert persisted[i].uuid == u;
    } else {
      var newcomers := Uncached(cache, devices, generate);
      var j: nat :| j < |newcomers| && newcomers[j] == devices[k] by {
        UncachedContains(cache, devices, generate, k);
      }
      RegisteredUuid(cache, devices, generate, j);
      PersistedRegistration(first, j);
      assert |first.cache| == |cache|;
    }
  }

  /** With distinct identities, a restarted sensor's poller gets the accessory it had before. */
  lemma RestartPollerAt(cache: seq<SensorAccessory>, devices: seq<SensorConfig>, generate: string -> Uuid, k: nat)
    requires k < |devices| && DistinctIdentities(devices, generate)
    ensures ExpectedPoller(Persisted(DiscoverDevices(cache, devices, generate)), devices[k], generate)
         == ExpectedPoller(cache, devices[k], generate)
  {
    var first := DiscoverDevices(cache, devices, generate);
    var persisted := Persisted(first);
    var u := generate(devices[k].macAddress);
    SameUuidsFind(first.cache, cache, u);
    PersistedCovers(cache, devices, generate, k);
    match FindFirst(cache, u)
    case Some(i) =>
      assert persisted[i] == Setup(cache[i]) by {
        DiscoverCache(cache, devices, generate);
      }
      FindFirstIs(persisted, u, i);
      SetupIdempotent(cache[i]);
    case None =>
      var f := FindFirst(persisted, u).value;
      assert f >= |cache|;
      var g := f - |cache|;
      var newcomers := Uncached(cache, devices, generate);
      assert g < |newcomers| && persisted[f] == Setup(NewAccessory(newcomers[g], generate(newcomers[g].macAddress))) by {
        DiscoverRegistrations(cache, devices, generate);
        PersistedRegistration(first, g);
      }
      NewcomerIsDevice(cache, devices, generate, k, g);
      SetupIdempotent(NewAccessory(devices[k], u));
  }

  /** With distinct identities, the uncached sensor carrying sensor `k`'s identity is sensor `k`. */
  lemma NewcomerIsDevice(cache: seq<SensorAccessory>, devices: seq<SensorConfig>, generate: string -> Uuid, k: nat, g: nat)
    requires k < |devices| && DistinctIdentities(devices, generate)
    requires g < |Uncached(cache, devices, generate)|
    requires generate(Uncached(cache, devices, generate)[g].macAddress) == generate(devices[k].macAddress)
    ensures Uncached(cache, devices, generate)[g] == devices[k]
  {
    var d := Uncached(cache, devices, generate)[g];
    var k' :| 0 <= k' < |devices| && devices[k'] == d;
    assert generate(devices[k'].macAddress) == generate(devices[k].macAddress);
  }

  /**
    Identity is stable across restarts.  When Homebridge persists the cache list
    and the newly registered accessories and hands them back on the next start,
    a second discovery with the same configuration registers nothing, and, as
    long as no two sensors share an identity, starts each poller for exactly
    the accessory the first run started it for.
   */
  lemma RestartStable(cache: seq<SensorAccessory>, devices: seq<SensorConfig>, generate: string -> Uuid)
    ensures var first := DiscoverDevices(cache, devices, generate);
      var second := DiscoverDevices(RestoreCache(Persisted(first)), devices, generate);
      && second.registered == []
      && (DistinctIdentities(devices, generate) ==> second.pollers == first.pollers)
  {
    var first := DiscoverDevices(cache, devices, generate);
    var persisted := Persisted(first);
    RestoreCacheKeepsOrder(persisted);
    var second := DiscoverDevices(persisted, devices, generate);
    forall k | 0 <= k < |devices| ensures HasUuid(persisted, generate(devices[k].macAddress)) {
      PersistedCovers(cache, devices, generate, k);
    }
    UncachedEmpty(persisted, devices, generate);
    DiscoverRegistrations(persisted, devices, generate);
    if DistinctIdentities(devices, generate) {
      DiscoverPollers(cache, devices, generate);
      DiscoverPollers(persisted, devices, generate);
      forall k | 0 <= k < |devices| ensures second.pollers[k] == first.pollers[k] {
        RestartPollerAt(cache, devices, generate, k);
      }
    }
  }
}
