/** The dial server as the daemon and `dialctl` see it: a black box that
    lists dials, reports a dial's status and carries out set requests, each
    of which may fail with an API error. */
module Client {
  import opened Wrappers
  import Dial

  /** The API error (`vu_api::api::Error`).  The first four cases are raised
      while building a request; the others come from the transport, an HTTP
      error status, or a `fail` status in the server's response. */
  datatype ApiError =
    | BuildUrl
    | BuildRequest
    | InvalidBacklight
    | InvalidValue
    | Request
    | ServerHttp(httpStatus: nat, message: string)
    | Server(message: string)

  /** A client handle for one dial (`client::Dial`), named by its `Id`. */
  datatype DialHandle = DialHandle(id: Dial.Id)

  /** One entry of `list_dials`, together with what `status()` on that dial
      returns when it is asked. */
  datatype Listed = Listed(dial: DialHandle, status: Result<Dial.Status, ApiError>)

  /** A request that changes a dial. */
  datatype DeviceCall =
    | SetName(name: string)
    | SetValue(value: Dial.Percent)
    | SetBacklight(backlight: Dial.Backlight)
    | SetDialEasing(periodMs: nat, step: Dial.Percent)
    | SetBacklightEasing(periodMs: nat, step: Dial.Percent)
    | SetImage(fileName: string, force: bool)
}
