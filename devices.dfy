/**
 * A Cocoro device: its declared properties, its current statuses and the
 * pending-update queue that the setters fill before a submission.
 */
module Devices {
  import opened Wrappers
  import opened Properties

  /** Why queuing a status update was refused (the source throws). */
  datatype QueueError =
    | DoesNotExist(statusCode: StatusCode)   // no declared property has the code
    | NotSettable(statusName: string)        // the first property with the code is not settable

  /** The fields a Device is constructed from. */
  datatype DeviceInit = DeviceInit(
    name: string,
    deviceId: int,
    echonetNode: string,
    echonetObject: string,
    properties: seq<Property>,
    status: seq<PropertyStatus>,
    maker: Option<string>,
    model: Option<string>,
    serialNumber: Option<string>)

  /**
   * Whether a status for `code` may be queued on a device declaring
   * `properties`: only the first declared property with that code decides.
   */
  function QueueCheck(properties: seq<Property>, code: StatusCode): (r: Outcome<QueueError>)
    ensures r == Fail(DoesNotExist(code))
        <==> forall j :: 0 <= j < |properties| ==> properties[j].statusCode != code
    ensures r.Pass?
        <==> exists i :: FirstAt(properties, PropertyCode, code, i) && properties[i].settable
    ensures forall i :: (FirstAt(properties, PropertyCode, code, i) && !properties[i].settable
                         ==> r == Fail(NotSettable(properties[i].statusName)))
  {
    match FirstMatch(properties, PropertyCode, code)
    case None => Fail(DoesNotExist(code))
    case Some(i) =>
      if properties[i].settable then Pass else Fail(NotSettable(properties[i].statusName))
  }

  /** The pending-update map after queuing `ps` on a device declaring `properties`. */
  function AfterQueue(properties: seq<Property>, updates: map<StatusCode, PropertyStatus>,
                      ps: PropertyStatus): (r: map<StatusCode, PropertyStatus>)
    ensures QueueCheck(properties, ps.statusCode).Pass?
        ==> r.Keys == updates.Keys + {ps.statusCode} && r[ps.statusCode] == ps
    ensures QueueCheck(properties, ps.statusCode).Fail? ==> r == updates
    ensures forall k :: k in updates && k != ps.statusCode ==> k in r && r[k] == updates[k]
  {
    if QueueCheck(properties, ps.statusCode).Pass? then updates[ps.statusCode := ps] else updates
  }

  /**
   * What every queued entry satisfies: it is filed under its own status
   * code, and that code belongs to a settable declared property.
   */
  ghost predicate QueueInvariant(properties: seq<Property>, updates: map<StatusCode, PropertyStatus>)
  {
    forall k :: k in updates ==> updates[k].statusCode == k && QueueCheck(properties, k).Pass?
  }

  /** Queuing keeps the invariant of the pending-update map. */
  lemma QueuePreservesInvariant(properties: seq<Property>, updates: map<StatusCode, PropertyStatus>,
                                ps: PropertyStatus)
    requires QueueInvariant(properties, updates)
    ensures QueueInvariant(properties, AfterQueue(properties, updates, ps))
  {
  }

  /** Queuing twice under the same status code keeps only the second status. */
  lemma LastWriteWins(properties: seq<Property>, updates: map<StatusCode, PropertyStatus>,
                      first: PropertyStatus, second: PropertyStatus)
    requires first.statusCode == second.statusCode
    ensures AfterQueue(properties, AfterQueue(properties, updates, first), second)
         == AfterQueue(properties, updates, second)
  {
  }

  /** Queuing under two different status codes gives the same map in either order. */
  lemma DistinctCodesCommute(properties: seq<Property>, updates: map<StatusCode, PropertyStatus>,
                             a: PropertyStatus, b: PropertyStatus)
    requires a.statusCode != b.statusCode
    ensures AfterQueue(properties, AfterQueue(properties, updates, a), b)
         == AfterQueue(properties, AfterQueue(properties, updates, b), a)
  {
  }

  /**
   * A device with one settable SINGLE POWER property and nothing queued:
   * powering on leaves exactly {POWER: SINGLE POWER_ON} in the queue.
   */
  lemma PowerOnScenario(name: string)
    ensures AfterQueue([Property(POWER, name, SINGLE, true, true)], map[], SingleStatus(POWER, POWER_ON))
         == map[POWER := PropertyStatus(POWER, SingleValue(POWER_ON))]
  {
  }

  class Device {
    var name: string
    var deviceId: int
    var echonetNode: string
    var echonetObject: string

    /** Declared capabilities, fixed at construction. */
    const properties: seq<Property>
    /** Current statuses, as last fetched. */
    var status: seq<PropertyStatus>
    /** Pending updates, keyed by status code. */
    var propertyUpdates: map<StatusCode, PropertyStatus>

    var maker: Option<string>
    var model: Option<string>
    var serialNumber: Option<string>

    ghost predicate Valid()
      reads this
    {
      QueueInvariant(properties, propertyUpdates)
    }

    constructor (init: DeviceInit)
      ensures name == init.name && deviceId == init.deviceId
      ensures echonetNode == init.echonetNode && echonetObject == init.echonetObject
      ensures properties == init.properties && status == init.status
      ensures maker == init.maker && model == init.model && serialNumber == init.serialNumber
      ensures propertyUpdates == map[]
      ensures Valid()
    {
      name := init.name;
      deviceId := init.deviceId;
      echonetNode := init.echonetNode;
      echonetObject := init.echonetObject;
      properties := init.properties;
      status := init.status;
      propertyUpdates := map[];
      maker := init.maker;
      model := init.model;
      serialNumber := init.serialNumber;
    }

    /**
     * Queues `ps` for submission when the first declared property with its
     * status code is settable; otherwise fails and queues nothing.
     */
    method QueuePropertyStatusUpdate(ps: PropertyStatus) returns (r: Outcome<QueueError>)
      modifies this`propertyUpdates
      ensures r == QueueCheck(properties, ps.statusCode)
      ensures propertyUpdates == AfterQueue(properties, old(propertyUpdates), ps)
      ensures old(Valid()) ==> Valid()
    {
      ghost var before := propertyUpdates;
      for i := 0 to |properties|
        invariant forall j :: 0 <= j < i ==> properties[j].statusCode != ps.statusCode
        invariant propertyUpdates == before
      {
        var property := properties[i];
        if property.statusCode != ps.statusCode {
          continue;
        }
        assert FirstAt(properties, PropertyCode, ps.statusCode, i);
        if !property.settable {
          return Fail(NotSettable(property.statusName));
        }
        propertyUpdates := propertyUpdates[property.statusCode := ps];
        if QueueInvariant(properties, before) {
          QueuePreservesInvariant(properties, before, ps);
        }
        return Pass;
      }
      return Fail(DoesNotExist(ps.statusCode));
    }

    /** The first declared property with status code `code`, or None. */
    method GetProperty(code: StatusCode) returns (r: Option<Property>)
      ensures r.None? <==> forall j :: 0 <= j < |properties| ==> properties[j].statusCode != code
      ensures forall i :: FirstAt(properties, PropertyCode, code, i) ==> r == Some(properties[i])
    {
      for i := 0 to |properties|
        invariant forall j :: 0 <= j < i ==> properties[j].statusCode != code
      {
        var property := properties[i];
        if property.statusCode == code {
          // The source narrows by valueType here; every tag returns the property itself.
          return Some(property);
        }
      }
      return None;
    }

    /** The first current status with status code `code`, or None. */
    method GetPropertyStatus(code: StatusCode) returns (r: Option<PropertyStatus>)
      ensures r.None? <==> forall j :: 0 <= j < |status| ==> status[j].statusCode != code
      ensures forall i :: FirstAt(status, StatusCodeOf, code, i) ==> r == Some(status[i])
    {
      for i := 0 to |status|
        invariant forall j :: 0 <= j < i ==> status[j].statusCode != code
      {
        var s := status[i];
        if s.statusCode == code {
          return Some(s);
        }
      }
      return None;
    }

    /** The value code of the current WINDSPEED status, which must be present and SINGLE. */
    method GetWindspeed() returns (code: ValueSingle)
      requires FirstMatch(status, StatusCodeOf, WINDSPEED).Some?
      requires status[FirstMatch(status, StatusCodeOf, WINDSPEED).value].value.SingleValue?
      ensures status[FirstMatch(status, StatusCodeOf, WINDSPEED).value].value == SingleValue(code)
    {
      var ws := GetPropertyStatus(WINDSPEED);
      code := ws.value.value.code;
    }

    /** Queues a SINGLE POWER_ON status under POWER. */
    method QueuePowerOn() returns (r: Outcome<QueueError>)
      modifies this`propertyUpdates
      ensures r == QueueCheck(properties, POWER)
      ensures propertyUpdates == AfterQueue(properties, old(propertyUpdates), SingleStatus(POWER, POWER_ON))
      ensures r.Pass? ==> propertyUpdates[POWER] == PropertyStatus(POWER, SingleValue(POWER_ON))
      ensures old(Valid()) ==> Valid()
    {
      r := QueuePropertyStatusUpdate(SingleStatus(POWER, POWER_ON));
    }

    /** Queues a SINGLE POWER_OFF status under POWER. */
    method QueuePowerOff() returns (r: Outcome<QueueError>)
      modifies this`propertyUpdates
      ensures r == QueueCheck(properties, POWER)
      ensures propertyUpdates == AfterQueue(properties, old(propertyUpdates), SingleStatus(POWER, POWER_OFF))
      ensures r.Pass? ==> propertyUpdates[POWER] == PropertyStatus(POWER, SingleValue(POWER_OFF))
      ensures old(Valid()) ==> Valid()
    {
      r := QueuePropertyStatusUpdate(SingleStatus(POWER, POWER_OFF));
    }

    /** Queues a SINGLE status carrying `mode`'s code under OPERATION_MODE. */
    method QueueOperationModeUpdate(mode: OperationMode) returns (r: Outcome<QueueError>)
      modifies this`propertyUpdates
      ensures r == QueueCheck(properties, OPERATION_MODE)
      ensures propertyUpdates
           == AfterQueue(properties, old(propertyUpdates), SingleStatus(OPERATION_MODE, mode.Code()))
      ensures r.Pass? ==> propertyUpdates[OPERATION_MODE] == PropertyStatus(OPERATION_MODE, SingleValue(mode.Code()))
      ensures old(Valid()) ==> Valid()
    {
      r := QueuePropertyStatusUpdate(SingleStatus(OPERATION_MODE, mode.Code()));
    }

    /** Queues a SINGLE status carrying `speed`'s code under WINDSPEED. */
    method QueueWindspeedUpdate(speed: Windspeed) returns (r: Outcome<QueueError>)
      modifies this`propertyUpdates
      ensures r == QueueCheck(properties, WINDSPEED)
      ensures propertyUpdates
           == AfterQueue(properties, old(propertyUpdates), SingleStatus(WINDSPEED, speed.Code()))
      ensures r.Pass? ==> propertyUpdates[WINDSPEED] == PropertyStatus(WINDSPEED, SingleValue(speed.Code()))
      ensures old(Valid()) ==> Valid()
    {
      r := QueuePropertyStatusUpdate(SingleStatus(WINDSPEED, speed.Code()));
    }
  }
}
