/** The value types that the components share (core/include/devmgr/core/models.hpp and
    core/include/devmgr/core/snapshot_models.hpp). */
module Models {

  datatype Option<+T> = None | Some(value: T)

  // core/include/devmgr/core/result.hpp: an error is a code; its message is not modelled.
  datatype ErrorCode = Permission | NotFound | Busy | Io | Network | Unsupported | Conflict | InvalidArgs

  datatype Result<+T> = Success(value: T) | Failure(code: ErrorCode)

  datatype BusType = Pci | Usb | Platform | Virtio | OtherBus

  datatype DeviceStatus = Active | Disabled | Transitioning | ErrorStatus | Unknown

  // The fields that some modelled component reads; devices compare by value.
  datatype Device = Device(
    id: string, bus: BusType, name: string, sysfsPath: string,
    vendorId: string, productId: string, serial: string,
    status: DeviceStatus, boundDriver: Option<string>)

  datatype DeviceKey = DeviceKey(
    bus: string, vendorId: string, productId: string, serial: string, position: string)

  datatype DisabledDeviceEntry = DisabledDeviceEntry(
    key: DeviceKey, mechanism: string, lastDriver: string, lastSysfsPath: string,
    disabledAtUtc: int, guardSuspended: bool)

  datatype SnapshotPayload = SnapshotPayload(
    entries: seq<DisabledDeviceEntry>, modprobeFiles: map<string, string>)

  datatype SnapshotTrigger = Manual | Auto

  datatype SnapshotReason = SnapshotReason(verb: string, subject: string)

  // FromFuture is the source's Unsupported: a newer format version.
  datatype SnapshotHealth = Ok | Corrupt | FromFuture

  datatype SnapshotMeta = SnapshotMeta(
    id: string, parent: Option<string>, createdAtUtc: int, trigger: SnapshotTrigger,
    reason: SnapshotReason, health: SnapshotHealth, entryCount: nat, modprobeFileCount: nat)

  datatype HotplugAction = Added | Removed | Changed

  datatype HotplugEvent = HotplugEvent(action: HotplugAction, device: Device)

  // An atomic file write (daemon/src/atomic_file.cpp:34-64): renamed into place, or not, or renamed
  // and then reported as failed because the directory could not be synced.
  datatype Written = Done | NotDone | DoneUnsynced
}
