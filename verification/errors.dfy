/** The client's error enum, `DialError`: its variants and the values they
    carry. Payloads that are foreign error objects (I/O, TOML, HTTP) are
    reduced to the bare variant. */
module Errors {
  import opened Basics

  datatype DialError =
    | ConfigNotFound(path: string)
    | ConfigRead
    | ConfigParse
    | InvalidPhoneNumber(number: string)
    | EmptyDeviceId
    | Http
    | GatewayError(status: u16, body: string)
    | DeviceOffline(deviceId: string)
    | Unauthorized
    | Bluetooth(message: string)
}
