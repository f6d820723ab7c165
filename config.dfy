/** The configuration record shapes the core is built from (src/config.rs).
    Loading them from a YAML file is not part of this model. */
module Config {

  /** The device kinds a configuration may name. */
  datatype DeviceType = engine | climatecontrol

  /** One configured device: its name and its kind. */
  datatype DeviceConfig = DeviceConfig(name: string, kind: DeviceType)

  /** One configured node: its name and its devices, in declaration order. */
  datatype NodeConfig = NodeConfig(name: string, devices: seq<DeviceConfig>)

  /** The broker a node connects to. */
  datatype Broker = Broker(url: string)
}
