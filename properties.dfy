/**
 * The property/status data model of a Cocoro device: declared capabilities
 * (Property), current values (PropertyStatus), the value kinds that tag them,
 * the status and value codes the device setters use, and first-match lookup
 * by status code.
 */
module Properties {
  import opened Wrappers

  /** The key of one property slot (an Echonet Lite property code such as "80"). */
  type StatusCode = string

  /** The code carried by a SINGLE value. */
  type ValueSingle = string

  // Status codes used by the typed setters. OPERATION_MODE and WINDSPEED are
  // the Echonet Lite home air conditioner codes; no proof needs their values
  // beyond their being distinct from POWER.
  const POWER: StatusCode := "80"
  const OPERATION_MODE: StatusCode := "B0"
  const WINDSPEED: StatusCode := "A0"

  // Value codes of the POWER property.
  const POWER_ON: ValueSingle := "30"
  const POWER_OFF: ValueSingle := "31"

  /** How the value of a property is encoded on the wire. */
  datatype ValueType = SINGLE | RANGE | BINARY

  /**
   * A declared capability of a device. Kind-specific metadata (value tables,
   * bounds, layouts) is not modelled.
   */
  datatype Property = Property(
    statusCode: StatusCode,
    statusName: string,
    valueType: ValueType,
    gettable: bool,
    settable: bool)

  /** The wire value of a status, tagged by its kind. */
  datatype StatusValue =
    | SingleValue(code: ValueSingle)
    | RangeValue(code: string)
    | BinaryValue(code: string)

  /** The current (or a queued) value of one property slot. */
  datatype PropertyStatus = PropertyStatus(statusCode: StatusCode, value: StatusValue)
  {
    /** The kind tag of this status, determined by its value. */
    function ValueKind(): ValueType
    {
      match value
      case SingleValue(_) => SINGLE
      case RangeValue(_) => RANGE
      case BinaryValue(_) => BINARY
    }
  }

  /** A SINGLE status for `statusCode` carrying `code`. */
  function SingleStatus(statusCode: StatusCode, code: ValueSingle): PropertyStatus
  {
    PropertyStatus(statusCode, SingleValue(code))
  }

  /** The operation modes accepted by the operation-mode setter. */
  datatype OperationMode =
    | OperationOther | OperationAuto | OperationCool
    | OperationHeat | OperationDehumidify | OperationVentilation
  {
    function Code(): ValueSingle
    {
      match this
      case OperationOther => "40"
      case OperationAuto => "41"
      case OperationCool => "42"
      case OperationHeat => "43"
      case OperationDehumidify => "44"
      case OperationVentilation => "45"
    }
  }

  /** The wind speeds accepted by the windspeed setter. */
  datatype Windspeed =
    | WindspeedLevel1 | WindspeedLevel2 | WindspeedLevel3 | WindspeedLevel4
    | WindspeedLevel5 | WindspeedLevel6 | WindspeedLevel7 | WindspeedLevel8
    | WindspeedLevelAuto
  {
    function Code(): ValueSingle
    {
      match this
      case WindspeedLevel1 => "31"
      case WindspeedLevel2 => "32"
      case WindspeedLevel3 => "33"
      case WindspeedLevel4 => "34"
      case WindspeedLevel5 => "35"
      case WindspeedLevel6 => "36"
      case WindspeedLevel7 => "37"
      case WindspeedLevel8 => "38"
      case WindspeedLevelAuto => "41"
    }
  }

  function PropertyCode(p: Property): StatusCode { p.statusCode }

  function StatusCodeOf(s: PropertyStatus): StatusCode { s.statusCode }

  /** `i` is the index of the first element of `s` whose key is `code`. */
  predicate FirstAt<T>(s: seq<T>, key: T -> StatusCode, code: StatusCode, i: int)
  {
    0 <= i < |s| && key(s[i]) == code && forall j :: 0 <= j < i ==> key(s[j]) != code
  }

  /** The index of the first element of `s` whose key is `code`, if any. */
  function FirstMatch<T>(s: seq<T>, key: T -> StatusCode, code: StatusCode): (r: Option<nat>)
    ensures r.None? <==> forall j :: 0 <= j < |s| ==> key(s[j]) != code
    ensures forall i :: FirstAt(s, key, code, i) <==> r == Some(i)
  {
    if |s| == 0 then None
    else if key(s[0]) == code then Some(0)
    else
      match FirstMatch(s[1..], key, code)
      case None =>
        assert forall j :: 1 <= j < |s| ==> s[j] == s[1..][j - 1];
        None
      case Some(k) =>
        assert forall j :: 1 <= j < |s| ==> s[j] == s[1..][j - 1];
        assert FirstAt(s[1..], key, code, k);
        Some(k + 1)
  }
}
