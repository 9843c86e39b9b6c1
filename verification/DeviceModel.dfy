/** A device and its handlers (cmha/src/devices/device.rs, cmha/src/devices/mod.rs). */
module DeviceModel {
  import opened Wrappers
  import opened Topics

  /** The identity of a cancellation token: clones share it. */
  type TokenId = nat

  /** A data handler: the topics it takes commands on, which handler it is, and its own state. */
  datatype Handler = Handler(commandTopics: seq<string>, kind: string, state: string)

  datatype Device = Device(
    identifier: string,
    sourceId: Option<string>,
    metadata: seq<string>,
    entities: seq<EntityDetails>,
    handlers: seq<Handler>,
    token: TokenId)

  type Registry = map<string, Device>

  datatype DeviceError = Cancelled | DeviceProvider(message: string)

  /** `Device::identifier()`. */
  function Identifier(d: Device): string {
    match d.sourceId
    case Some(id) => id
    case None => d.identifier
  }

  function WithCancellationToken(d: Device, token: TokenId): Device {
    d.(token := token)
  }
}
