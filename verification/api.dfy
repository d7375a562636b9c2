/** The gateway HTTP client: phone-number validation, the base URL, and
    how each reply of the gateway becomes a result or a `DialError`.

    The transport is left out. A request's outcome is given as an
    `Option`: `None` when sending failed, otherwise the status code and
    what the body decodes to (`None` where it does not decode). */
module Api {
  import opened Basics
  import opened Text
  import opened Errors
  import opened Configuration

  // ---------------------------------------------------------------------
  // Wire types

  /** `CallResponse`, the body of a 200 reply to `POST /call`. */
  datatype CallResponse = CallResponse(ok: bool, commandId: Option<string>, deviceId: Option<string>)

  /** `ErrorResponse`, the body of any other reply to `POST /call`. */
  datatype ErrorResponse = ErrorResponse(error: Option<string>, reason: Option<string>, deviceId: Option<string>)

  /** `DeviceInfo` and `DevicesResponse`, the body of `GET /devices`. */
  datatype DeviceInfo = DeviceInfo(deviceId: string, connectedAt: string)
  datatype DevicesResponse = DevicesResponse(count: nat, devices: seq<DeviceInfo>)

  /** `CallResult`, what `call` gives back on success. */
  datatype CallResult = CallResult(deviceId: string, commandId: string)

  /** A reply to `POST /call`: its status and the body decoded either way. */
  datatype CallReply = CallReply(status: u16, asCall: Option<CallResponse>, asError: Option<ErrorResponse>)

  /** A reply to `GET /devices`: its status, the decoded body and its text. */
  datatype DevicesReply = DevicesReply(status: u16, asDevices: Option<DevicesResponse>, text: Option<string>)

  /** A reply to `GET /health`: its status and the body as JSON of type `J`. */
  datatype HealthReply<J> = HealthReply(status: u16, json: Option<J>)

  // ---------------------------------------------------------------------
  // validate_phone

  /** The number with one leading '+' removed, if it has one. */
  function DigitsPart(number: string): (r: string)
    ensures number == r || number == "+" + r
  {
    if number != [] && number[0] == '+' then number[1..] else number
  }

  /** `validate_phone`: an optional '+', then 7 to 15 ASCII digits. */
  function ValidatePhone(number: string): (r: Result<(), DialError>)
    ensures r.Err? ==> r.error == InvalidPhoneNumber(number)
    ensures r.Ok? <==> exists d :: AllAsciiDigits(d) && 7 <= |d| <= 15 && (number == d || number == "+" + d)
  {
    var d := DigitsPart(number);
    if !AllAsciiDigits(d) || !(7 <= |d| && |d| <= 15) then Err(InvalidPhoneNumber(number))
    else Ok(())
  }

  /** The same rule, position by position: every character but the first
      is a digit, and the first is a digit or a '+' that is then followed
      by 7 to 15 digits. */
  lemma {:induction false} ValidatePhoneByPosition(number: string)
    ensures ValidatePhone(number).Ok? <==>
      (|number| > 0
       && (forall i :: 1 <= i < |number| ==> IsAsciiDigit(number[i]))
       && (if number[0] == '+' then 8 <= |number| <= 16
           else IsAsciiDigit(number[0]) && 7 <= |number| <= 15))
  {
    var d := DigitsPart(number);
    if number != [] && number[0] == '+' {
      assert forall i :: 1 <= i < |number| ==> number[i] == d[i - 1];
    }
  }

  /** Only one leading '+' is removed: a second one is never accepted. */
  lemma {:induction false} DoublePlusRejected(rest: string)
    ensures ValidatePhone("++" + rest).Err?
  {
    var n := "++" + rest;
    ValidatePhoneByPosition(n);
    assert !IsAsciiDigit(n[1]);
  }

  /** A '+' anywhere but first is rejected. */
  lemma {:induction false} InteriorPlusRejected(number: string, i: nat)
    requires 0 < i < |number| && number[i] == '+'
    ensures ValidatePhone(number).Err?
  {
    ValidatePhoneByPosition(number);
    assert !IsAsciiDigit(number[i]);
  }

  /** Neither the empty string nor a lone '+' is a number. */
  lemma EmptyAndPlusRejected()
    ensures ValidatePhone("").Err? && ValidatePhone("+").Err?
  {
    assert DigitsPart("+") == [];
  }

  // ---------------------------------------------------------------------
  // The client and its URLs

  /** `GatewayClient` without its HTTP machinery. */
  datatype GatewayClient = GatewayClient(baseUrl: string, token: string)

  /** `GatewayClient::new`: the configured URL without trailing '/'s. */
  function NewClient(config: Config): (r: GatewayClient)
    ensures r.token == config.token
    ensures StartsWith(config.serverUrl, r.baseUrl)
    ensures forall i :: |r.baseUrl| <= i < |config.serverUrl| ==> config.serverUrl[i] == '/'
    ensures r.baseUrl == [] || r.baseUrl[|r.baseUrl| - 1] != '/'
  {
    GatewayClient(TrimEndMatches(config.serverUrl, '/'), config.token)
  }

  /** The base URL is the one prefix of the configured URL that leaves
      only '/'s behind and does not itself end in '/'. */
  lemma {:induction false} BaseUrlUnique(url: string, base: string)
    requires StartsWith(url, base)
    requires forall i :: |base| <= i < |url| ==> url[i] == '/'
    requires base == [] || base[|base| - 1] != '/'
    ensures NewClient(Config(url, "")).baseUrl == base
    decreases |url|
  {
    var n := |url|;
    if n > 0 && url[n - 1] == '/' {
      assert |base| < n;
      assert url[..n - 1][..|base|] == base;
      BaseUrlUnique(url[..n - 1], base);
    } else {
      assert base == url;
    }
  }

  /** Trailing slashes in the configuration make no difference, and a base
      URL is its own normal form. */
  lemma {:induction false} BaseUrlIgnoresTrailingSlashes(url: string, slashes: string, token: string)
    requires forall i :: 0 <= i < |slashes| ==> slashes[i] == '/'
    ensures NewClient(Config(url + slashes, token)).baseUrl == NewClient(Config(url, token)).baseUrl
    ensures var b := NewClient(Config(url, token)).baseUrl;
      NewClient(Config(b, token)).baseUrl == b
  {
    var b := NewClient(Config(url, token)).baseUrl;
    assert StartsWith(url + slashes, b) by {
      assert (url + slashes)[..|b|] == url[..|b|];
    }
    BaseUrlUnique(url + slashes, b);
    BaseUrlUnique(b, b);
  }

  function CallUrl(client: GatewayClient): string {
    client.baseUrl + "/call"
  }

  function DevicesUrl(client: GatewayClient): string {
    client.baseUrl + "/devices"
  }

  function HealthUrl(client: GatewayClient): string {
    client.baseUrl + "/health"
  }

  /** Whatever number of '/'s ends the configured URL, each endpoint is
      reached through exactly one. */
  lemma {:induction false} EndpointUrls(url: string, slashes: string, token: string)
    requires url == [] || url[|url| - 1] != '/'
    requires forall i :: 0 <= i < |slashes| ==> slashes[i] == '/'
    ensures var c := NewClient(Config(url + slashes, token));
      CallUrl(c) == url + "/call" && DevicesUrl(c) == url + "/devices" && HealthUrl(c) == url + "/health"
  {
    BaseUrlIgnoresTrailingSlashes(url, slashes, token);
    BaseUrlUnique(url, url);
  }

  // ---------------------------------------------------------------------
  // Replies

  /** The message of a non-200 reply to `POST /call`: its `reason`, else
      its `error`, else "Unknown error"; a body that does not decode
      counts as `error: "Unknown error"`. */
  function ErrorMessage(body: Option<ErrorResponse>): (r: string)
    ensures body.Some? && body.value.reason.Some? ==> r == body.value.reason.value
    ensures body.Some? && body.value.reason.None? && body.value.error.Some? ==> r == body.value.error.value
    ensures body.None? || (body.value.reason.None? && body.value.error.None?) ==> r == "Unknown error"
  {
    var decoded := body.GetOr(ErrorResponse(Some("Unknown error"), None, None));
    decoded.reason.Or(decoded.error).GetOr("Unknown error")
  }

  /** `GatewayClient::call` after the request: the reply mapped to a result. */
  function CallOutcome(deviceId: string, reply: Option<CallReply>): (r: Result<CallResult, DialError>)
    ensures r.Ok? <==> reply.Some? && reply.value.status == 200 && reply.value.asCall.Some?
    ensures r == Err(Http) <==> reply.None? || (reply.value.status == 200 && reply.value.asCall.None?)
    ensures r == Err(Unauthorized) <==> reply.Some? && reply.value.status == 401
    ensures r.Err? && r.error.DeviceOffline? <==> reply.Some? && reply.value.status == 404
    ensures r.Err? && r.error.GatewayError? <==> reply.Some? && reply.value.status !in {200, 401, 404}
  {
    match reply
    case None => Err(Http)
    case Some(CallReply(status, asCall, asError)) =>
      if status == 200 then
        match asCall
        case None => Err(Http)
        case Some(body) => Ok(CallResult(body.deviceId.GetOr(deviceId), body.commandId.GetOr("")))
      else if status == 401 then Err(Unauthorized)
      else if status == 404 then Err(DeviceOffline(deviceId))
      else Err(GatewayError(status, ErrorMessage(asError)))
  }

  /** What a successful call reports: the device the gateway names, or
      else the one asked for, and the command id or else "". The `ok`
      field of the body plays no part. */
  lemma {:induction false} CallSuccessFields(deviceId: string, body: CallResponse)
    ensures var r := CallOutcome(deviceId, Some(CallReply(200, Some(body), None)));
      r.Ok?
      && r.value.deviceId == (if body.deviceId.Some? then body.deviceId.value else deviceId)
      && r.value.commandId == (if body.commandId.Some? then body.commandId.value else "")
      && r == CallOutcome(deviceId, Some(CallReply(200, Some(body.(ok := !body.ok)), None)))
  {
  }

  /** The errors carry the device asked for, or the status and message. */
  lemma {:induction false} CallErrorPayloads(deviceId: string, reply: CallReply)
    ensures reply.status == 404 ==> CallOutcome(deviceId, Some(reply)) == Err(DeviceOffline(deviceId))
    ensures reply.status !in {200, 401, 404} ==>
      CallOutcome(deviceId, Some(reply)) == Err(GatewayError(reply.status, ErrorMessage(reply.asError)))
  {
  }

  /** `GatewayClient::devices` after the request. */
  function DevicesOutcome(reply: Option<DevicesReply>): (r: Result<DevicesResponse, DialError>)
    ensures r.Ok? <==> reply.Some? && reply.value.status == 200 && reply.value.asDevices.Some?
    ensures r.Ok? ==> r.value == reply.value.asDevices.value
    ensures r == Err(Http) <==> reply.None? || (reply.value.status == 200 && reply.value.asDevices.None?)
    ensures r == Err(Unauthorized) <==> reply.Some? && reply.value.status == 401
    ensures r.Err? && r.error.GatewayError? <==> reply.Some? && reply.value.status !in {200, 401}
    ensures r.Err? && r.error.GatewayError? ==>
      r.error.status == reply.value.status && r.error.body == reply.value.text.GetOr("")
  {
    match reply
    case None => Err(Http)
    case Some(DevicesReply(status, asDevices, text)) =>
      if status == 200 then
        match asDevices
        case None => Err(Http)
        case Some(body) => Ok(body)
      else if status == 401 then Err(Unauthorized)
      else Err(GatewayError(status, text.GetOr("")))
  }

  /** Unlike `call`, `devices` has no case for 404: it is a gateway error
      carrying the body text. */
  lemma {:induction false} DevicesNotFoundIsGatewayError(text: string)
    ensures DevicesOutcome(Some(DevicesReply(404, None, Some(text)))) == Err(GatewayError(404, text))
    ensures CallOutcome("", Some(CallReply(404, None, None))) == Err(DeviceOffline(""))
  {
  }

  /** `GatewayClient::health` after the request: the body as JSON. */
  function HealthOutcome<J>(reply: Option<HealthReply<J>>): (r: Result<J, DialError>)
    ensures r.Ok? <==> reply.Some? && reply.value.json.Some?
    ensures r.Ok? ==> r.value == reply.value.json.value
    ensures r.Err? ==> r.error == Http
  {
    match reply
    case None => Err(Http)
    case Some(HealthReply(_, json)) =>
      match json
      case None => Err(Http)
      case Some(v) => Ok(v)
  }

  /** `health` does not look at the status: any reply with a JSON body is
      healthy. */
  lemma {:induction false} HealthIgnoresStatus<J>(s1: u16, s2: u16, json: Option<J>)
    ensures HealthOutcome(Some(HealthReply(s1, json))) == HealthOutcome(Some(HealthReply(s2, json)))
  {
  }
}
