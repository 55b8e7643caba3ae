/** The Bluetooth adapter as the device session sees it: peripherals,
    their advertisements, services and characteristics as records, and the
    calls the session makes into the adapter as a log of operations. The
    adapter's own behaviour is not modelled; its answers are parameters of
    the operations that wait for them. */
module Gatt {
  import opened JsValue

  newtype byte = x: int | 0 <= x < 256

  /** The adapter's `peripheral.state`. */
  datatype LinkState = Disconnected | Connecting | Connected | Disconnecting

  datatype Advertisement = Advertisement(
    localName: Option<string>,
    serviceUuids: Option<seq<string>>,
    manufacturerData: Option<seq<byte>>)

  datatype Peripheral = Peripheral(id: string, state: LinkState, rssi: int, advertisement: Option<Advertisement>)

  /** The identity of one characteristic object of the adapter. The adapter
      may hand out a new object for the same characteristic, so two records
      with the same uuid can carry different handles. */
  type Handle = nat

  datatype Characteristic = Characteristic(
    uuid: string,
    serviceUuid: string,
    peripheralId: string,
    properties: seq<string>,
    handle: Handle)

  datatype Service = Service(uuid: string, characteristics: seq<Characteristic>)

  /** Where the adapter keeps the current object of a characteristic:
      peripheral id, service uuid, characteristic uuid. */
  datatype CharacteristicPath = CharacteristicPath(peripheralId: string, serviceUuid: string, uuid: string)

  function PathOf(c: Characteristic): CharacteristicPath
  {
    CharacteristicPath(c.peripheralId, c.serviceUuid, c.uuid)
  }

  /** What an adapter callback delivers: a value, or an error with its message. */
  datatype Reply<+T> = Ok(value: T) | Fail(message: string)

  /** A call the session makes into the adapter. */
  datatype AdapterOp =
    | StartScanning(allowDuplicates: bool)
    | StopScanning
    | AddDiscoverListener
    | RemoveDiscoverListener
    | ConnectPeripheral(peripheralId: string)
    | AddDisconnectListener(peripheralId: string)
    | DiscoverAll(peripheralId: string)
    | DisconnectPeripheral(peripheralId: string)
    | DiscoverCharacteristics(serviceUuid: string, ids: seq<Value>)
    | WriteChunk(handle: Handle, data: seq<byte>, withoutResponse: bool)
    | ReadValue(handle: Handle)
    | Subscribe(handle: Handle)
    | Unsubscribe(handle: Handle)
    | SetNotify(handle: Handle, enable: bool)
}
