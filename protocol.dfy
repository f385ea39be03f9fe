/**
 * Values exchanged by the KiLL device's local HTTP API: what a request carries once
 * the server has read it, what the handlers send back, the effects they have on the
 * collaborators (persistent memory, factory reset), and a snapshot of the device
 * state that the handlers read and change.
 */
module Protocol {
  import opened Wrappers

  // ---------------------------------------------------------------- requests

  /** The credentials the setup route hands to persistent memory. */
  datatype Record = Record(ssid: string, password: string, appId: string)

  /**
   * A deserialised JSON body, seen through the fields the handlers read.
   * A string field is `None` when it is absent or not a string.
   * `value` is what `document["value"].as<String>().toInt()` produced (0 for text
   * that is not a number); `authentic` is the verdict of `Utils::verifyRequest`.
   */
  datatype Document = Document(
    ssid: Option<string>,
    password: Option<string>,
    appId: Option<string>,
    command: Option<string>,
    value: int,
    authentic: bool)

  /** The `plain` argument of a request: missing, present but not JSON, or a JSON document. */
  datatype Body = NoBody | Unparsable | Json(doc: Document)

  datatype Method = Get | Post | OtherMethod(name: string)

  datatype Request = Request(verb: Method, path: string, body: Body)

  // --------------------------------------------------------------- responses

  datatype Error =
    | NoData
    | InvalidData
    | AlreadySetup
    | MissingData
    | MissingAuthentication
    | OutOfRange(temperature: int)

  /** The status reply, as a record rather than as JSON text. */
  datatype StatusReport = StatusReport(
    targetTemperature: int,
    currentTemperature: int,
    isOn: bool,
    localIP: string,
    minimumTemperature: int)

  /** The body of a response: plain text, `{"status": "OK"}`, `{"error": ...}` or a status report. */
  datatype Reply = Text(text: string) | Ok | Failure(error: Error) | Report(status: StatusReport)

  /** Something a handler does that is visible outside the device's own state. */
  datatype Effect =
    | Send(code: int, reply: Reply)   // server.send
    | WriteMemory(record: Record)     // Memory::write
    | ResetToFactory                  // KiLL::resetToFactorySettings

  function ContentType(reply: Reply): string {
    if reply.Text? then "text/plain" else "application/json"
  }

  /** Decimal rendering as Arduino's `String(int)` gives it. */
  function Decimal(n: int): string {
    if n < 0 then "-" + Digits(-n) else Digits(n)
  }

  function Digits(n: nat): string
    decreases n
  {
    var last := ['0' + (n % 10) as char];
    if n < 10 then last else Digits(n / 10) + last
  }

  /** The text of the `error` member of an error reply. */
  function ErrorText(e: Error): string {
    match e
    case NoData => "No Data"
    case InvalidData => "Invalid Data"
    case AlreadySetup => "KiLL already setup."
    case MissingData => "Missing Data"
    case MissingAuthentication => "Missing authentication"
    case OutOfRange(t) => "Temperature " + Decimal(t) + " out of range"
  }

  /** The number of responses among a sequence of effects. */
  function ResponseCount(effects: seq<Effect>): nat
    decreases |effects|
  {
    if effects == [] then 0
    else (if effects[0].Send? then 1 else 0) + ResponseCount(effects[1..])
  }

  /** The records written to persistent memory, in order. */
  function Writes(effects: seq<Effect>): seq<Record>
    decreases |effects|
  {
    if effects == [] then []
    else (if effects[0].WriteMemory? then [effects[0].record] else []) + Writes(effects[1..])
  }

  lemma {:induction false} ResponseCountAppend(a: seq<Effect>, b: seq<Effect>)
    ensures ResponseCount(a + b) == ResponseCount(a) + ResponseCount(b)
    decreases |a|
  {
    if a == [] {
      assert a + b == b;
    } else {
      assert (a + b)[0] == a[0] && (a + b)[1..] == a[1..] + b;
      ResponseCountAppend(a[1..], b);
    }
  }

  lemma {:induction false} WritesAppend(a: seq<Effect>, b: seq<Effect>)
    ensures Writes(a + b) == Writes(a) + Writes(b)
    decreases |a|
  {
    if a == [] {
      assert a + b == b;
    } else {
      assert (a + b)[0] == a[0] && (a + b)[1..] == a[1..] + b;
      WritesAppend(a[1..], b);
    }
  }

  /** Responses and writes of a two-effect sequence, one effect at a time. */
  lemma EffectsOfPair(a: Effect, b: Effect)
    ensures ResponseCount([a, b]) == ResponseCount([a]) + ResponseCount([b])
    ensures Writes([a, b]) == Writes([a]) + Writes([b])
  {
    ResponseCountAppend([a], [b]);
    WritesAppend([a], [b]);
    assert [a] + [b] == [a, b];
  }

  // ------------------------------------------------------------ device state

  /** The boiler collaborator's state as the handlers see it. */
  datatype Boiler = Boiler(isOn: bool, target: int, current: int, minimum: int)

  /** Whether the station interface is joined to a network, and the two addresses. */
  datatype Wifi = Wifi(connected: bool, softApIp: string, stationIp: string)

  /**
   * Everything the handlers read or change. `espId` and `maxTemperature` are fixed
   * for the device (`KiLL::espId()`, `KiLL::MAXIMUM_TEMPERATURE`); `record` is what
   * `Memory` holds (`Memory::verifyContent()` is `record.Some?`); `displayTarget` is
   * the target temperature the display shows.
   */
  datatype Device = Device(
    espId: string,
    maxTemperature: int,
    record: Option<Record>,
    boiler: Boiler,
    displayTarget: int,
    factoryReset: bool,
    wifi: Wifi)

  /** The device after a step, and the effects of the step in the order they happened. */
  datatype Step = Step(device: Device, effects: seq<Effect>)

  /** The boiler invariant: the target lies within [minimum, maximum], both inclusive. */
  predicate TargetInRange(d: Device) {
    d.boiler.minimum <= d.boiler.target <= d.maxTemperature
  }
}
