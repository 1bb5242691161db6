/** Stable keys for devices (core/src/device_key.cpp). */
module DeviceKeys {
  import opened Models

  function KeyBusString(bus: BusType): string {
    match bus
    case Usb => "usb"
    case Pci => "pci"
    case Platform => "platform"
    case Virtio => "virtio"
    case OtherBus => "other"
  }

  // What follows the last '/', or all of it.
  function LastSegment(path: string): string {
    if path == "" then ""
    else if '/' in path[1..] then LastSegment(path[1..])
    else if path[0] == '/' then path[1..]
    else path
  }

  function MakeDeviceKey(device: Device): DeviceKey {
    DeviceKey(KeyBusString(device.bus), device.vendorId, device.productId, device.serial, LastSegment(device.sysfsPath))
  }

  predicate SameSerialTuple(key: DeviceKey, device: Device) {
    KeyBusString(device.bus) == key.bus && device.vendorId == key.vendorId
    && device.productId == key.productId && device.serial == key.serial
  }

  predicate Cloned(key: DeviceKey, device: Device, present: seq<Device>) {
    exists i :: 0 <= i < |present| && present[i].sysfsPath != device.sysfsPath && SameSerialTuple(key, present[i])
  }

  // A serial number that another present device carries too is dropped from the key.
  function MakeKeyAmong(device: Device, present: seq<Device>): DeviceKey {
    var key := MakeDeviceKey(device);
    if key.serial != "" && Cloned(key, device, present) then key.(serial := "") else key
  }

  predicate MatchesDevice(key: DeviceKey, device: Device) {
    if KeyBusString(device.bus) != key.bus then false
    else if key.serial != "" then
      device.vendorId == key.vendorId && device.productId == key.productId && device.serial == key.serial
    else
      LastSegment(device.sysfsPath) == key.position && device.vendorId == key.vendorId
      && device.productId == key.productId
  }

  /** What a key requires of a device: the bus, vendor and product always, and the serial number if
      the key has one, the last segment of the path if not. */
  lemma MatchesIff(key: DeviceKey, device: Device)
    ensures MatchesDevice(key, device) <==>
      && KeyBusString(device.bus) == key.bus
      && device.vendorId == key.vendorId && device.productId == key.productId
      && (key.serial != "" ==> device.serial == key.serial)
      && (key.serial == "" ==> LastSegment(device.sysfsPath) == key.position)
  {
  }

  /** The position is what follows the last slash of the path, or the whole path if it has none. */
  lemma {:induction false} LastSegmentIs(path: string)
    ensures var s := LastSegment(path);
      && '/' !in s && |s| <= |path| && path[|path| - |s|..] == s
      && (s == path || path[|path| - |s| - 1] == '/')
  {
    if path != "" && '/' in path[1..] {
      LastSegmentIs(path[1..]);
    } else if path != "" {
      assert path == [path[0]] + path[1..];
    }
  }

  // Another device at another path has the same bus, vendor, product and serial number.
  ghost predicate HasTwin(device: Device, present: seq<Device>) {
    exists other :: other in present && IsTwin(device, other)
  }

  ghost predicate IsTwin(device: Device, other: Device) {
    && other.sysfsPath != device.sysfsPath && KeyBusString(other.bus) == KeyBusString(device.bus)
    && other.vendorId == device.vendorId && other.productId == device.productId && other.serial == device.serial
  }

  /** A key names the bus, vendor, product and position of its device, and the serial number unless a
      present device at another path carries the same one. */
  lemma KeyIs(device: Device, present: seq<Device>)
    ensures MakeKeyAmong(device, present)
         == DeviceKey(KeyBusString(device.bus), device.vendorId, device.productId,
                      if HasTwin(device, present) then "" else device.serial, LastSegment(device.sysfsPath))
    ensures MakeDeviceKey(device)
         == DeviceKey(KeyBusString(device.bus), device.vendorId, device.productId, device.serial,
                      LastSegment(device.sysfsPath))
  {
    hide LastSegment, KeyBusString;
    var key := MakeDeviceKey(device);
    if Cloned(key, device, present) {
      var i :| 0 <= i < |present| && present[i].sysfsPath != device.sysfsPath && SameSerialTuple(key, present[i]);
      assert present[i] in present && IsTwin(device, present[i]);
    }
    if HasTwin(device, present) {
      var other :| other in present && IsTwin(device, other);
      var i :| 0 <= i < |present| && present[i] == other;
      assert SameSerialTuple(key, present[i]);
    }
  }

  lemma BusNames()
    ensures KeyBusString(Usb) == "usb" && KeyBusString(Pci) == "pci" && KeyBusString(Platform) == "platform"
    ensures KeyBusString(Virtio) == "virtio" && KeyBusString(OtherBus) == "other"
  {
  }

  /** A key matches the device it was made for, and a key that kept its serial number matches no
      other device that was present. */
  lemma KeyIdentifies(device: Device, present: seq<Device>, other: Device)
    requires other in present && other.sysfsPath != device.sysfsPath
    ensures MatchesDevice(MakeKeyAmong(device, present), device)
    ensures MatchesDevice(MakeKeyAmong(device, present), other) ==>
      MakeKeyAmong(device, present).serial == "" && LastSegment(other.sysfsPath) == LastSegment(device.sysfsPath)
  {
    var i :| 0 <= i < |present| && present[i] == other;
    var key := MakeDeviceKey(device);
    if key.serial != "" && SameSerialTuple(key, present[i]) {
      assert Cloned(key, device, present);
    }
  }
}
