# Cocoro device update queue

A Dafny model of the device core of the Cocoro cloud client (a TypeScript SDK
for Sharp's home-appliance cloud API). A `Device` holds the properties it
declares (`Property`: status code, name, value kind, readable and settable
flags), its current statuses (`PropertyStatus`: status code and a value tagged
SINGLE, RANGE or BINARY) and a map of pending updates keyed by status code.
Queuing an update checks the first declared property with the same status
code: no such property and a non-settable property are errors, otherwise
the status is written into the map, overwriting any earlier entry for that
code. The typed setters (power on, power off, operation mode, wind speed)
build a SINGLE status and go through the same check. The client turns the
pending map into the body of a control request, and it constructs one
`Device` per box listed on the account.

Files:

- `wrappers.dfy`: `Option` (the source's `null`) and `Outcome` (success or
  the error the source throws).
- `properties.dfy`: the records, the status and value codes the setters use,
  and `FirstMatch`, the first-match lookup by status code.
- `devices.dfy`: the pure specification of queuing (`QueueCheck`,
  `AfterQueue`, `QueueInvariant`) with its lemmas, and the class `Device`.
  The class's methods work on its fields with loops, as the source does, and
  are proved against the specification.
- `cocoro.dfy`: the control-request body built from a device's pending map,
  and `QueryDevices`.

Modelling decisions:

- A thrown `Error` is a `Fail` result carrying a `QueueError`. The error is
  `DoesNotExist(code)` or `NotSettable(statusName)`, the same data the
  source's two messages carry. The pending map is unchanged on failure,
  because the source throws before it writes.
- `set` is a Dafny keyword, so the `Property` field is named `settable`;
  its companion `get` is named `gettable` to match. The source's test `property.set !== true`
  becomes `!settable`: an absent flag counts as false.
- `readonly properties` is a `const` field. `status`, `propertyUpdates` and
  the identity fields are `var` fields. Queuing declares that it modifies
  only `propertyUpdates`.
- `src/properties.ts` is not part of this model. POWER `"80"`, POWER_ON
  `"30"` and POWER_OFF `"31"` are the values in
  `src/devices/purifier/properties.ts`. OPERATION_MODE `"B0"`, WINDSPEED
  `"A0"` and the operation-mode and wind-speed value codes are taken from the
  Echonet Lite home air conditioner class; they are assumed values, and the
  purifier table itself gives OPERATION_MODE as `"F3"`
  (`src/devices/purifier/properties.ts:4`). No proof depends on these values
  beyond the status codes being distinct.
- The setters' parameter types, unions of `ValueSingle` members, become the
  closed datatypes `OperationMode` and `Windspeed`, each with a `Code()`.
- `Object.keys` fixes the order of the request's `status` list. It puts
  integer-like keys first, in ascending order. `QueuedUpdatesBody` therefore
  takes the key order as a parameter, which may be any duplicate-free listing
  of the map's keys. `BodyOrderIrrelevant` proves that the order changes
  only the order of the list.
- In `queryDevices`, the result of each box's property query comes over the
  network. `QueryDevices` takes these results as a sequence aligned with the
  boxes. The source passes no `maker`, `model`, `serialNumber`, `kind` or
  `box`, so JavaScript leaves them `undefined`. The model has `None` for the
  first three.
- `getWindspeed` casts the first WINDSPEED status to a SINGLE status and
  reads its code. When there is no such status, or it is not SINGLE, the
  source fails with a TypeError. The model therefore requires a SINGLE
  WINDSPEED status.
- Value kinds: in the model, a status's kind is the
  constructor of its value. The source's `switch` in `getProperty` and
  `getPropertyStatus` is an unchecked cast that returns the element found for
  every kind, so the model returns the element.
- A queued status may carry a value kind different from that of the
  declared property with its code. `queuePropertyStatusUpdate` does not
  check this, and neither does the model.

## Model

| member | source | states |
|---|---|---|
| `Properties.FirstMatch` | src/device.ts:123-137 | The index of the first element whose status code matches: none exactly when no element matches, and otherwise the unique index that matches with no earlier match |
| `Devices.QueueCheck` | src/device.ts:98-115 | Queuing fails with DoesNotExist exactly when no declared property has the code; it succeeds exactly when the first property with the code is settable; when that first property is not settable it fails with NotSettable and its name, even if a later property with the same code is settable |
| `Devices.AfterQueue` | src/device.ts:108-109 | On success the pending map gains exactly the queued code, mapped to the queued status; on failure it is unchanged; every other entry is kept |
| `Devices.QueuePreservesInvariant` | src/device.ts:98-115 | Every pending entry is filed under its own status code, which belongs to a settable declared property, and queuing keeps this true |
| `Devices.LastWriteWins` | src/device.ts:108 | Queuing two statuses for the same code gives the same map as queuing only the second |
| `Devices.DistinctCodesCommute` | src/device.ts:108 | Queuing statuses for two different codes gives the same map in either order |
| `Devices.PowerOnScenario` | src/device.ts:234-242 | With one settable SINGLE POWER property and nothing queued, powering on leaves exactly POWER mapped to a SINGLE POWER_ON status |
| `Devices.Device.constructor` | src/device.ts:62-89 | A new device has the given identity fields, properties and statuses, and an empty pending map |
| `Devices.Device.QueuePropertyStatusUpdate` | src/device.ts:98-115 | The scan over the declared properties returns the QueueCheck outcome and leaves the pending map as AfterQueue describes; it modifies nothing but the pending map and keeps the queue invariant |
| `Devices.Device.GetProperty` | src/device.ts:123-138 | Returns the first declared property with the code, or None exactly when no declared property has it |
| `Devices.Device.GetPropertyStatus` | src/device.ts:146-161 | Returns the first current status with the code, or None exactly when no status has it |
| `Devices.Device.GetWindspeed` | src/device.ts:206-211 | Returns the value code of the first WINDSPEED status |
| `Devices.Device.QueuePowerOn` | src/device.ts:234-242 | Queues the SINGLE POWER_ON status under POWER, with the QueueCheck outcome for POWER; on success the pending POWER entry is that status |
| `Devices.Device.QueuePowerOff` | src/device.ts:247-255 | Queues the SINGLE POWER_OFF status under POWER, with the QueueCheck outcome for POWER; on success the pending POWER entry is that status |
| `Devices.Device.QueueOperationModeUpdate` | src/device.ts:260-276 | Queues a SINGLE status with the mode's code under OPERATION_MODE, with the QueueCheck outcome for that code; on success the pending entry is that status |
| `Devices.Device.QueueWindspeedUpdate` | src/device.ts:281-300 | Queues a SINGLE status with the speed's code under WINDSPEED, with the QueueCheck outcome for that code; on success the pending entry is that status |
| `Cocoro.QueuedUpdatesBody` | src/cocoro.ts:131-144 | The body has one control entry with the device's id, node and object; its status list has one element per listed key, element i being the pending status under the i-th key, so it holds exactly the pending values, and is empty when nothing is pending; the function only reads the device, so the pending map is not cleared |
| `Cocoro.ValuesAtPermutation` | src/cocoro.ts:131-133 | Two duplicate-free listings of the same keys give status lists that are permutations of each other |
| `Cocoro.BodyOrderIrrelevant` | src/cocoro.ts:131-144 | Bodies built under two key orders have the same identity fields and status lists that are permutations of each other |
| `Cocoro.BodyStatusesSettable` | src/cocoro.ts:131-141 | On a device that keeps the queue invariant, element i of the status list has the i-th listed key as its code, no two elements share a code, and every code belongs to a settable declared property |
| `Cocoro.QueryDevices` | src/cocoro.ts:108-128 | One new, pairwise distinct device per box, in box order, each with the name, id, node and object of the box's first Echonet entry, the box's properties and statuses unchanged, no maker, model or serial number, and an empty pending map |

## Left out

- The HTTP transport, the cookie jar and login (`sendGETRequest`, `sendPOSTRequest`, `login`, `queryBoxes`, the request in `queryBoxProperties`, and the POST and response parsing in `executeQueuedUpdates`): network I/O. Their results are parameters of the model.
- `getState8`, `getTemperature` and `queueTemperatureUpdate`: they depend on `State8` from `src/state.ts`, which is not part of this model. `queueTemperatureUpdate` builds a fresh `State8` and does not decode one from the current status.
- `getRoomTemperature`: it depends on JavaScript `parseInt`, which parses a prefix and can return NaN.
- The Device fields `kind` and `box`: their types (`DeviceType`, `Box` from `src/responseTypes.ts`) are not part of this model, and no core operation reads them.
- Kind-specific property metadata (the value tables, the range bounds, the binary layouts): defined in `src/properties.ts`, which is not part of this model. No core operation reads it.
- The fall-through of the `switch` in `getProperty` and `getPropertyStatus` for a `valueType` outside SINGLE, RANGE and BINARY (the loop then moves on to the next element): the model's `ValueType` is closed, so every element found is returned.
- Aliasing: the source stores the caller's `properties` and `status` arrays by reference. The model stores sequence values. No core operation mutates these arrays.
- `Devices.Device.GetWindspeed`: it does not model the TypeError the source raises when the WINDSPEED status is missing or is not SINGLE. The model requires a SINGLE WINDSPEED status.
- `Cocoro.QueryDevices`: it does not model the TypeError the source raises when a box has no Echonet entry. The model requires every box to have one.
