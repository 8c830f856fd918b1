/**
  The slice of the Homebridge / HAP accessory API the plugin touches, modelled as
  an immutable key-value store: an accessory groups services by type, and each
  service maps characteristic names to their current values.  Writing a
  characteristic (`setCharacteristic` / `updateCharacteristic`) is a `Write`
  record; applying a sequence of writes replays them in order.
 */
module Homebridge {
  import opened Wrappers

  /** The value `uuid.generate` returns; the generator itself is a parameter. */
  type Uuid = string

  datatype ServiceType =
    | AccessoryInformation
    | TemperatureSensor
    | HumiditySensor
    | Battery

  datatype Characteristic =
    | Manufacturer
    | Model
    | SerialNumber
    | Name
    | CurrentTemperature
    | CurrentRelativeHumidity
    | BatteryLevel
    | StatusFault
    | StatusLowBattery

  /** The two values of HAP's `StatusFault` characteristic. */
  datatype FaultCode = NoFault | GeneralFault

  /** The two values of HAP's `StatusLowBattery` characteristic. */
  datatype LowBatteryCode = BatteryLevelNormal | BatteryLevelLow

  datatype Value =
    | Text(text: string)
    | Number(number: real)
    | Fault(fault: FaultCode)
    | LowBattery(lowBattery: LowBatteryCode)

  /** The characteristics a service currently holds. */
  type Service = map<Characteristic, Value>

  /** A `PlatformAccessory<C>`: its persistent identity plus its services. */
  datatype Accessory<C> = Accessory(
    displayName: string,
    uuid: Uuid,
    context: C,
    services: map<ServiceType, Service>)

  /** One characteristic write on one service of an accessory. */
  datatype Write = Write(service: ServiceType, characteristic: Characteristic, value: Value)

  /** The value of characteristic `c` of service `t`, if both exist. */
  function Lookup<C>(a: Accessory<C>, t: ServiceType, c: Characteristic): Option<Value> {
    if t in a.services && c in a.services[t] then Some(a.services[t][c]) else None
  }

  /** Accessories agree on everything `PlatformAccessory` persists except services. */
  ghost predicate SameIdentity<C>(a: Accessory<C>, b: Accessory<C>) {
    a.displayName == b.displayName && a.uuid == b.uuid && a.context == b.context
  }

  /** Two accessories that agree on identity and on every characteristic of every service are equal. */
  lemma AccessoryExtensionality<C>(a: Accessory<C>, b: Accessory<C>)
    requires SameIdentity(a, b)
    requires a.services.Keys == b.services.Keys
    requires forall t, c :: Lookup(a, t, c) == Lookup(b, t, c)
    ensures a == b
  {
    forall t | t in a.services ensures a.services[t] == b.services[t] {
      assert forall c :: c in a.services[t] ==> Lookup(a, t, c) == Lookup(b, t, c);
      assert forall c :: c in b.services[t] ==> Lookup(a, t, c) == Lookup(b, t, c);
    }
  }

  /** Every write targets a service the accessory already has. */
  predicate Targets<C>(a: Accessory<C>, ws: seq<Write>) {
    forall k :: 0 <= k < |ws| ==> ws[k].service in a.services
  }

  function ApplyWrite<C>(a: Accessory<C>, w: Write): Accessory<C>
    requires w.service in a.services
  {
    a.(services := a.services[w.service := a.services[w.service][w.characteristic := w.value]])
  }

  /** Replays `ws` on `a`, first write first. */
  function ApplyWrites<C>(a: Accessory<C>, ws: seq<Write>): (r: Accessory<C>)
    requires Targets(a, ws)
    ensures SameIdentity(r, a)
    ensures r.services.Keys == a.services.Keys
    decreases |ws|
  {
    if ws == [] then a else ApplyWrites(ApplyWrite(a, ws[0]), ws[1..])
  }

  /** The value the last write to (`t`, `c`) in `ws` stores, if any write does. */
  function LastWrite(ws: seq<Write>, t: ServiceType, c: Characteristic): Option<Value>
    decreases |ws|
  {
    if ws == [] then None
    else if Names(ws[|ws| - 1], t, c) then Some(ws[|ws| - 1].value)
    else LastWrite(ws[..|ws| - 1], t, c)
  }

  /** Whether write `w` names characteristic `c` of service `t`. */
  predicate Names(w: Write, t: ServiceType, c: Characteristic) {
    w.service == t && w.characteristic == c
  }

  /** With no write to (`t`, `c`), there is no last one. */
  lemma {:induction false} LastWriteAbsent(ws: seq<Write>, t: ServiceType, c: Characteristic)
    requires forall j :: 0 <= j < |ws| ==> !Names(ws[j], t, c)
    ensures LastWrite(ws, t, c) == None
    decreases |ws|
  {
    if ws != [] {
      assert forall j :: 0 <= j < |ws| - 1 ==> ws[..|ws| - 1][j] == ws[j];
      LastWriteAbsent(ws[..|ws| - 1], t, c);
    }
  }

  /** The last write to (`t`, `c`) is the one at index `k` when no later write names it. */
  lemma {:induction false} LastWriteAt(ws: seq<Write>, t: ServiceType, c: Characteristic, k: int)
    requires 0 <= k < |ws| && Names(ws[k], t, c)
    requires forall j :: k < j < |ws| ==> !Names(ws[j], t, c)
    ensures LastWrite(ws, t, c) == Some(ws[k].value)
    decreases |ws|
  {
    if k < |ws| - 1 {
      assert forall j :: 0 <= j < |ws| - 1 ==> ws[..|ws| - 1][j] == ws[j];
      LastWriteAt(ws[..|ws| - 1], t, c, k);
    }
  }

  /**
    The store semantics of a batch of writes: each characteristic ends up holding
    the value of the last write to it, and every characteristic that no write
    names keeps the value (or the absence of a value) it had before.
   */
  lemma {:induction false} ApplyWritesLastWins<C>(a: Accessory<C>, ws: seq<Write>, t: ServiceType, c: Characteristic)
    requires Targets(a, ws)
    ensures Lookup(ApplyWrites(a, ws), t, c) == if LastWrite(ws, t, c).Some? then LastWrite(ws, t, c) else Lookup(a, t, c)
    decreases |ws|
  {
    if ws != [] {
      var init := ws[..|ws| - 1];
      var w := ws[|ws| - 1];
      assert ws == init + [w];
      assert Targets(a, init) by {
        forall k | 0 <= k < |init| ensures init[k].service in a.services {
          assert init[k] == ws[k];
        }
      }
      ApplyWritesSnoc(a, init, w);
      ApplyWritesLastWins(a, init, t, c);
      LookupApplyWrite(ApplyWrites(a, init), w, t, c);
    }
  }

  /** A single write changes exactly the characteristic it names. */
  lemma LookupApplyWrite<C>(a: Accessory<C>, w: Write, t: ServiceType, c: Characteristic)
    requires w.service in a.services
    ensures Lookup(ApplyWrite(a, w), t, c)
         == if w.service == t && w.characteristic == c then Some(w.value) else Lookup(a, t, c)
  {
  }

  /** Applying `ws + [w]` is applying `ws` and then `w`. */
  lemma {:induction false} ApplyWritesSnoc<C>(a: Accessory<C>, ws: seq<Write>, w: Write)
    requires Targets(a, ws) && w.service in a.services
    ensures Targets(a, ws + [w])
    ensures ApplyWrites(a, ws + [w]) == ApplyWrite(ApplyWrites(a, ws), w)
    decreases |ws|
  {
    assert forall k :: 0 <= k < |ws| ==> ws[k] == (ws + [w])[k];
    assert (ws + [w])[|ws|] == w;
    if ws == [] {
      assert [w][1..] == [];
    } else {
      var a1 := ApplyWrite(a, ws[0]);
      assert (ws + [w])[0] == ws[0];
      assert (ws + [w])[1..] == ws[1..] + [w];
      assert Targets(a1, ws[1..]) by {
        forall k | 0 <= k < |ws[1..]| ensures ws[1..][k].service in a1.services {
          assert ws[1..][k] == ws[k + 1];
        }
      }
      ApplyWritesSnoc(a1, ws[1..], w);
    }
  }
}
