/**
 * The device-facing part of the Cocoro client: building Device objects from
 * the account's boxes and shaping a device's pending updates into the body
 * of a control request. The HTTP exchanges themselves are not modelled; their
 * results are parameters.
 */
module Cocoro {
  import opened Wrappers
  import opened Properties
  import opened Devices

  datatype LabelData = LabelData(name: string)

  /** One Echonet object reachable through a box. */
  datatype EchonetData = EchonetData(
    deviceId: int,
    echonetNode: string,
    echonetObject: string,
    labelData: LabelData)

  /** A box as listed by the account's box query. */
  datatype Box = Box(boxId: string, echonetData: seq<EchonetData>)

  /** What the property query of one box returned. */
  datatype BoxProperties = BoxProperties(properties: seq<Property>, status: seq<PropertyStatus>)

  /** One entry of a control request. */
  datatype ControlEntry = ControlEntry(
    deviceId: int,
    echonetNode: string,
    echonetObject: string,
    status: seq<PropertyStatus>)

  /** The body of a control request. */
  datatype ControlBody = ControlBody(controlList: seq<ControlEntry>)

  predicate NoDuplicates<T(==)>(s: seq<T>)
  {
    forall i, j :: 0 <= i < j < |s| ==> s[i] != s[j]
  }

  /**
   * `keys` lists every key of `m` exactly once: the order in which the
   * JavaScript engine enumerates the keys of the pending-update object.
   */
  predicate KeyOrder(keys: seq<StatusCode>, m: map<StatusCode, PropertyStatus>)
  {
    NoDuplicates(keys) && (forall k :: k in m ==> k in keys) && (forall k :: k in keys ==> k in m)
  }

  /** The values of `m` under `keys`, in that order. */
  function ValuesAt(m: map<StatusCode, PropertyStatus>, keys: seq<StatusCode>): seq<PropertyStatus>
    requires forall k :: k in keys ==> k in m
  {
    seq(|keys|, i requires 0 <= i < |keys| => m[keys[i]])
  }

  /** A duplicate-free sequence has as many distinct elements as positions. */
  lemma {:induction false} DistinctCount<T>(s: seq<T>)
    requires NoDuplicates(s)
    ensures |set x | x in s| == |s|
  {
    if s != [] {
      DistinctCount(s[1..]);
      assert (set x | x in s) == {s[0]} + (set x | x in s[1..]);
      assert s[0] !in (set x | x in s[1..]);
    }
  }

  /**
   * The body of the control request for `device`'s pending updates, when
   * the engine enumerates the keys in the order `keys`.
   */
  function QueuedUpdatesBody(device: Device, keys: seq<StatusCode>): (r: ControlBody)
    reads device
    requires KeyOrder(keys, device.propertyUpdates)
    ensures |r.controlList| == 1
    ensures r.controlList[0].deviceId == device.deviceId
    ensures r.controlList[0].echonetNode == device.echonetNode
    ensures r.controlList[0].echonetObject == device.echonetObject
    ensures |r.controlList[0].status| == |keys| == |device.propertyUpdates|
    ensures forall i :: 0 <= i < |keys| ==> r.controlList[0].status[i] == device.propertyUpdates[keys[i]]
    ensures forall v :: v in r.controlList[0].status <==> v in device.propertyUpdates.Values
    ensures device.propertyUpdates == map[] ==> r.controlList[0].status == []
  {
    var m := device.propertyUpdates;
    DistinctCount(keys);
    assert (set x | x in keys) == m.Keys;
    var status := ValuesAt(m, keys);
    assert forall v :: v in m.Values ==> v in status by {
      forall v | v in m.Values ensures v in status {
        var k :| k in m && m[k] == v;
        var i :| 0 <= i < |keys| && keys[i] == k;
        assert status[i] == v;
      }
    }
    ControlBody([ControlEntry(device.deviceId, device.echonetNode, device.echonetObject, status)])
  }

  lemma ValuesAtSplit(m: map<StatusCode, PropertyStatus>, a: seq<StatusCode>, b: seq<StatusCode>)
    requires forall k :: k in a + b ==> k in m
    ensures ValuesAt(m, a + b) == ValuesAt(m, a) + ValuesAt(m, b)
  {
  }

  /** Removing position `j` from `b` keeps the values at the other positions. */
  lemma ValuesAtRemove(m: map<StatusCode, PropertyStatus>, b: seq<StatusCode>, j: nat)
    requires j < |b|
    requires forall k :: k in b ==> k in m
    ensures multiset(ValuesAt(m, b))
         == multiset{m[b[j]]} + multiset(ValuesAt(m, b[..j] + b[j + 1..]))
  {
    var front, back := b[..j], b[j + 1..];
    assert b == front + ([b[j]] + back);
    ValuesAtSplit(m, front, [b[j]] + back);
    ValuesAtSplit(m, [b[j]], back);
    ValuesAtSplit(m, front, back);
    assert ValuesAt(m, [b[j]]) == [m[b[j]]];
    calc {
      multiset(ValuesAt(m, b));
      multiset(ValuesAt(m, front) + ([m[b[j]]] + ValuesAt(m, back)));
      multiset(ValuesAt(m, front)) + multiset{m[b[j]]} + multiset(ValuesAt(m, back));
      multiset{m[b[j]]} + multiset(ValuesAt(m, front + back));
    }
  }

  /**
   * When `a` and `b` list the same keys without duplicates, so do `a[1..]`
   * and `b` without the position holding `a[0]`.
   */
  lemma RemoveCommonHead(a: seq<StatusCode>, b: seq<StatusCode>, j: nat)
    requires NoDuplicates(a) && NoDuplicates(b)
    requires forall k :: k in a <==> k in b
    requires a != [] && j < |b| && b[j] == a[0]
    ensures NoDuplicates(a[1..]) && NoDuplicates(b[..j] + b[j + 1..])
    ensures forall x :: x in a[1..] <==> x in b[..j] + b[j + 1..]
  {
    var a', b' := a[1..], b[..j] + b[j + 1..];
    forall p, q | 0 <= p < q < |a'| ensures a'[p] != a'[q] {
      assert a'[p] == a[p + 1] && a'[q] == a[q + 1];
    }
    forall x
      ensures x in a' <==> x in b'
    {
      if x in a' {
        var p :| 1 <= p < |a| && a[p] == x;
        assert x in a;
        var q :| 0 <= q < |b| && b[q] == x;
        assert q != j;
        assert q < j ==> b'[q] == x;
        assert q > j ==> b'[q - 1] == x;
      }
      if x in b' {
        var q :| 0 <= q < |b'| && b'[q] == x;
        assert q < j ==> b[q] == x;
        assert q >= j ==> b[q + 1] == x;
        assert x in b;
        var p :| 0 <= p < |a| && a[p] == x;
        assert p != 0;
        assert a'[p - 1] == x;
      }
    }
  }

  /** Two duplicate-free listings of the same keys carry the same multiset of values. */
  lemma {:induction false} ValuesAtPermutation(m: map<StatusCode, PropertyStatus>,
                                               a: seq<StatusCode>, b: seq<StatusCode>)
    requires NoDuplicates(a) && NoDuplicates(b)
    requires forall k :: k in a <==> k in b
    requires forall k :: k in a ==> k in m
    ensures multiset(ValuesAt(m, a)) == multiset(ValuesAt(m, b))
    decreases |a|
  {
    if a == [] {
      DistinctCount(a);
      DistinctCount(b);
      assert (set x | x in a) == (set x | x in b);
      assert ValuesAt(m, a) == [] == ValuesAt(m, b);
    } else {
      assert a[0] in b;
      var j :| 0 <= j < |b| && b[j] == a[0];
      var a', b' := a[1..], b[..j] + b[j + 1..];
      RemoveCommonHead(a, b, j);
      ValuesAtPermutation(m, a', b');
      ValuesAtRemove(m, b, j);
      ValuesAtRemove(m, a, 0);
      assert a[..0] + a[1..] == a';
    }
  }

  /**
   * The enumeration order changes only the order of the status list: the
   * two bodies agree on everything else and their status lists are
   * permutations of each other.
   */
  lemma BodyOrderIrrelevant(device: Device, keys1: seq<StatusCode>, keys2: seq<StatusCode>)
    requires KeyOrder(keys1, device.propertyUpdates) && KeyOrder(keys2, device.propertyUpdates)
    ensures var e1, e2 := QueuedUpdatesBody(device, keys1).controlList[0],
                          QueuedUpdatesBody(device, keys2).controlList[0];
            && e1.deviceId == e2.deviceId
            && e1.echonetNode == e2.echonetNode
            && e1.echonetObject == e2.echonetObject
            && multiset(e1.status) == multiset(e2.status)
  {
    ValuesAtPermutation(device.propertyUpdates, keys1, keys2);
  }

  /**
   * On a device whose queue invariant holds, the status list names each
   * queued status code exactly once, and only settable declared properties.
   */
  lemma BodyStatusesSettable(device: Device, keys: seq<StatusCode>)
    requires device.Valid()
    requires KeyOrder(keys, device.propertyUpdates)
    ensures var status := QueuedUpdatesBody(device, keys).controlList[0].status;
            && (forall i :: 0 <= i < |status| ==> status[i].statusCode == keys[i])
            && (forall i, j :: 0 <= i < j < |status| ==> status[i].statusCode != status[j].statusCode)
            && (forall i :: 0 <= i < |status| ==> QueueCheck(device.properties, status[i].statusCode).Pass?)
  {
  }

  /** The Device built from a box and its property query. */
  function DeviceInitFor(box: Box, reply: BoxProperties): (init: DeviceInit)
    requires |box.echonetData| > 0
  {
    var data := box.echonetData[0];
    DeviceInit(data.labelData.name, data.deviceId, data.echonetNode, data.echonetObject,
               reply.properties, reply.status, None, None, None)
  }

  /** `d` is a freshly built device for `box`, whose property query returned `reply`. */
  ghost predicate BuiltFrom(d: Device, box: Box, reply: BoxProperties)
    reads d
    requires |box.echonetData| > 0
  {
    var data := box.echonetData[0];
    && d.name == data.labelData.name
    && d.deviceId == data.deviceId
    && d.echonetNode == data.echonetNode
    && d.echonetObject == data.echonetObject
    && d.properties == reply.properties
    && d.status == reply.status
    && d.maker.None? && d.model.None? && d.serialNumber.None?
    && d.propertyUpdates == map[]
    && d.Valid()
  }

  /**
   * One Device per box, in box order; `replies[i]` is what the property
   * query of `boxes[i]` returned.
   */
  method QueryDevices(boxes: seq<Box>, replies: seq<BoxProperties>) returns (devices: seq<Device>)
    requires |replies| == |boxes|
    requires forall i :: 0 <= i < |boxes| ==> |boxes[i].echonetData| > 0
    ensures |devices| == |boxes|
    ensures forall i :: 0 <= i < |boxes| ==> fresh(devices[i]) && BuiltFrom(devices[i], boxes[i], replies[i])
    ensures forall i, j :: 0 <= i < j < |devices| ==> devices[i] != devices[j]
  {
    devices := [];
    for i := 0 to |boxes|
      invariant |devices| == i
      invariant forall j :: 0 <= j < i ==> fresh(devices[j]) && BuiltFrom(devices[j], boxes[j], replies[j])
      invariant forall j, k :: 0 <= j < k < i ==> devices[j] != devices[k]
    {
      var d := new Device(DeviceInitFor(boxes[i], replies[i]));
      devices := devices + [d];
    }
  }
}
