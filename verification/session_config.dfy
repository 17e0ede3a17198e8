/** The builder's configuration vocabulary: discovered devices, module kinds, selectors. */
module SessionConfig {

  /**
    `DiscoveredDeviceInfo`: the three descriptive strings, the device's position
    in the SDK's list, and the native device it was read from.
   */
  datatype DeviceInfo = DeviceInfo(
    name: string,
    serial: string,
    provider: string,
    originalIndex: nat,
    device: nat)

  datatype ModuleType = DepthSensor | ColorSensor | UserTracker | SkeletonTracker | HandTracker

  datatype DeviceSelector = ByIndex(index: nat) | BySerialNumber(serial: string) | DefaultSingle

  datatype DeviceConfig = DeviceConfig(selector: DeviceSelector, modules: seq<ModuleType>)

  /** The module types the update loop can wait on. */
  predicate IsWaitable(m: ModuleType) {
    m == HandTracker || m == SkeletonTracker
  }
}
