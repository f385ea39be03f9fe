/**
 * The `LocalNetwork` request handlers as imperative methods on the device state.
 * The collaborators' state is kept in plain fields: the record `Memory` holds, the
 * boiler's values, the display's target, the factory-reset flag and the network's
 * addresses. `trace` records what leaves the device (responses, memory writes, the
 * factory reset) in order. Every handler is proved against its function in module
 * Handlers, whose contracts carry the properties.
 */
module Server {
  import opened Wrappers
  import opened Protocol
  import Handlers

  class LocalNetwork {
    const espId: string
    const maxTemperature: int
    var memory: Option<Record>
    var isOn: bool
    var target: int
    var current: int
    var minimum: int
    var displayTarget: int
    var factoryReset: bool
    var wifi: Wifi
    var trace: seq<Effect>

    /** The state the handler functions speak about. */
    function State(): Device
      reads this
    {
      Device(espId, maxTemperature, memory, Boiler(isOn, target, current, minimum), displayTarget, factoryReset, wifi)
    }

    constructor (espId: string, maxTemperature: int, memory: Option<Record>, boiler: Boiler, displayTarget: int, wifi: Wifi)
      ensures State() == Device(espId, maxTemperature, memory, boiler, displayTarget, false, wifi)
      ensures trace == []
    {
      this.espId := espId;
      this.maxTemperature := maxTemperature;
      this.memory := memory;
      this.isOn, this.target, this.current, this.minimum := boiler.isOn, boiler.target, boiler.current, boiler.minimum;
      this.displayTarget := displayTarget;
      this.factoryReset := false;
      this.wifi := wifi;
      this.trace := [];
    }

    // ------------------------------------------------------------ collaborators

    /** `server.send`. */
    method Respond(code: int, reply: Reply)
      modifies this`trace
      ensures trace == old(trace) + [Send(code, reply)]
    {
      trace := trace + [Send(code, reply)];
    }

    /** `Memory::write`: afterwards `Memory::verifyContent()` holds. */
    method WriteMemory(ssid: string, password: string, appId: string)
      modifies this`memory, this`trace
      ensures memory == Some(Record(ssid, password, appId))
      ensures trace == old(trace) + [Effect.WriteMemory(Record(ssid, password, appId))]
    {
      memory := Some(Record(ssid, password, appId));
      trace := trace + [Effect.WriteMemory(Record(ssid, password, appId))];
    }

    /** `KiLL::resetToFactorySettings`. */
    method ResetToFactorySettings()
      modifies this`factoryReset, this`trace
      ensures factoryReset
      ensures trace == old(trace) + [ResetToFactory]
    {
      factoryReset := true;
      trace := trace + [ResetToFactory];
    }

    // ------------------------------------------------------------------ routes

    /** `checkRequestData`: on failure the 400 response has been sent and nothing else changed. */
    method CheckRequestData(body: Body) returns (ok: bool, doc: Document)
      modifies this`trace
      ensures ok == Handlers.CheckRequestData(body).Accepted?
      ensures ok ==> doc == Handlers.CheckRequestData(body).doc && trace == old(trace)
      ensures !ok ==> trace == old(trace) + [Handlers.CheckRequestData(body).response]
    {
      doc := Document(None, None, None, None, 0, false);
      if body.NoBody? {
        Respond(400, Failure(NoData));
        return false, doc;
      }
      if body.Unparsable? {
        Respond(400, Failure(InvalidData));
        return false, doc;
      }
      doc := body.doc;
      ok := true;
    }

    method HandleRoot()
      modifies this`trace
      ensures trace == old(trace) + [Send(200, Text("KiLL"))]
    {
      Respond(200, Text("KiLL"));
    }

    method HandleLocal()
      modifies this`trace
      ensures trace == old(trace) + [Send(200, Text(espId))]
    {
      Respond(200, Text(espId));
    }

    method HandleNotFound()
      modifies this`trace
      ensures trace == old(trace) + [Send(404, Text("Not found"))]
    {
      Respond(404, Text("Not found"));
    }

    method HandleSetup(body: Body)
      modifies this
      ensures State() == Handlers.Setup(old(State()), body).device
      ensures trace == old(trace) + Handlers.Setup(old(State()), body).effects
    {
      if memory.Some? {
        Respond(400, Failure(AlreadySetup));
        return;
      }
      var ok, doc := CheckRequestData(body);
      if !ok {
        return;
      }
      var ssid := doc.ssid.GetOr("");
      var password := doc.password.GetOr("");
      var appId := doc.appId.GetOr("");
      if |ssid| == 0 || |password| == 0 || |appId| == 0 {
        Respond(400, Failure(MissingData));
        return;
      }
      Respond(200, Ok);
      WriteMemory(ssid, password, appId);
    }

    method HandleResetFactory(body: Body)
      modifies this
      ensures State() == Handlers.ResetFactory(old(State()), body).device
      ensures trace == old(trace) + Handlers.ResetFactory(old(State()), body).effects
    {
      var ok, doc := CheckRequestData(body);
      if !ok {
        return;
      }
      if doc.authentic {
        Respond(200, Ok);
        ResetToFactorySettings();
      } else {
        Respond(400, Failure(MissingAuthentication));
      }
    }

    method HandleCommand(body: Body)
      modifies this
      ensures State() == Handlers.Command(old(State()), body).device
      ensures trace == old(trace) + Handlers.Command(old(State()), body).effects
    {
      var ok, doc := CheckRequestData(body);
      if !ok {
        return;
      }
      if !doc.authentic {
        Respond(400, Failure(MissingAuthentication));
        return;
      }
      var command := doc.command.GetOr("");
      if command == "turn_on" {
        isOn := true;
      } else if command == "turn_off" {
        isOn := false;
      } else if command == "set_temperature" {
        var temperature := doc.value;
        if temperature < minimum || temperature > maxTemperature {
          Respond(400, Failure(OutOfRange(temperature)));
          return;
        }
        target := temperature;
        displayTarget := temperature;
      }
      Respond(200, Ok);
    }

    method HandleStatus(body: Body)
      modifies this
      ensures State() == old(State())
      ensures trace == old(trace) + Handlers.Status(old(State()), body).effects
    {
      var ok, doc := CheckRequestData(body);
      if !ok {
        return;
      }
      if !doc.authentic {
        Respond(400, Failure(MissingAuthentication));
        return;
      }
      var localIP := if wifi.connected then wifi.stationIp else wifi.softApIp;
      Respond(200, Report(StatusReport(target, current, isOn, localIP, minimum)));
    }

    /** The server handing one request to the handler its method and path are bound to. */
    method Serve(req: Request)
      modifies this
      ensures State() == Handlers.Handle(old(State()), req).device
      ensures trace == old(trace) + Handlers.Handle(old(State()), req).effects
    {
      match Handlers.RouteOf(req.verb, req.path)
      case RootRoute => HandleRoot();
      case LocalRoute => HandleLocal();
      case SetupRoute => HandleSetup(req.body);
      case ResetFactoryRoute => HandleResetFactory(req.body);
      case CommandRoute => HandleCommand(req.body);
      case StatusRoute => HandleStatus(req.body);
      case NotFoundRoute => HandleNotFound();
    }
  }
}
