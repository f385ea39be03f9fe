/**
 * The request handlers of `LocalNetwork` as functions from the device state and a
 * request body to the new state and the effects, in order. Each function's contract
 * states the rules the handler keeps: one response per request, the setup gate,
 * authentication before any change, and the inclusive temperature bounds.
 * The imperative handlers of module Server are proved against these functions.
 */
module Handlers {
  import opened Wrappers
  import opened Protocol

  // ------------------------------------------------------- body and authentication

  /** Outcome of `checkRequestData`: the document, or the response already decided. */
  datatype Checked = Accepted(doc: Document) | Rejected(response: Effect)

  /** A request may go on only when its body is present and parses as JSON. */
  function CheckRequestData(body: Body): (r: Checked)
    ensures r.Accepted? <==> body.Json?
    ensures r.Accepted? ==> r.doc == body.doc
    ensures r.Rejected? ==> r.response.Send? && r.response.code == 400
    ensures body.NoBody? ==> r == Rejected(Send(400, Failure(NoData)))
    ensures body.Unparsable? ==> r == Rejected(Send(400, Failure(InvalidData)))
  {
    match body
    case NoBody => Rejected(Send(400, Failure(NoData)))
    case Unparsable => Rejected(Send(400, Failure(InvalidData)))
    case Json(doc) => Accepted(doc)
  }

  /** The body parses and `Utils::verifyRequest` accepts it. */
  predicate Authenticated(body: Body) {
    body.Json? && body.doc.authentic
  }

  /**
   * Reference for the rejection every authenticated route gives: the body check's
   * error when the body does not parse, otherwise "Missing authentication".
   */
  function GateError(body: Body): Error
    requires !Authenticated(body)
  {
    if body.NoBody? then NoData
    else if body.Unparsable? then InvalidData
    else MissingAuthentication
  }

  // ------------------------------------------------------------------------- setup

  /** The credentials read from a document, each field defaulting to "". */
  function Credentials(doc: Document): Record {
    Record(doc.ssid.GetOr(""), doc.password.GetOr(""), doc.appId.GetOr(""))
  }

  predicate Complete(r: Record) {
    |r.ssid| != 0 && |r.password| != 0 && |r.appId| != 0
  }

  /**
   * `handleSetup`. The memory check comes first, so a provisioned device refuses
   * whatever the body is; a fresh device stores the credentials only when all three
   * are non-empty, and acknowledges before it writes.
   */
  function Setup(d: Device, body: Body): (s: Step)
    ensures ResponseCount(s.effects) == 1
    ensures d.record.Some? ==> s == Step(d, [Send(400, Failure(AlreadySetup))])
    ensures d.record.None? && !body.Json? ==> s == Step(d, [Send(400, Failure(GateError(body)))])
    ensures s.device.record != d.record <==> d.record.None? && body.Json? && Complete(Credentials(body.doc))
    ensures s.device.record != d.record ==>
      var rec := Credentials(body.doc);
      s == Step(d.(record := Some(rec)), [Send(200, Ok), WriteMemory(rec)]) && Writes(s.effects) == [rec]
    ensures s.device.record == d.record ==>
      s.device == d && Writes(s.effects) == [] && |s.effects| == 1 && s.effects[0].code == 400
    ensures d.record.None? && body.Json? && !Complete(Credentials(body.doc)) ==>
      s == Step(d, [Send(400, Failure(MissingData))])
  {
    if d.record.Some? then Step(d, [Send(400, Failure(AlreadySetup))])
    else
      match CheckRequestData(body)
      case Rejected(response) => Step(d, [response])
      case Accepted(doc) =>
        var rec := Credentials(doc);
        if !Complete(rec) then Step(d, [Send(400, Failure(MissingData))])
        else
          EffectsOfPair(Send(200, Ok), WriteMemory(rec));
          Step(d.(record := Some(rec)), [Send(200, Ok), WriteMemory(rec)])
  }

  // ----------------------------------------------------------------- factory reset

  /** `handleResetFactory`: an authenticated request is acknowledged, then the reset runs. */
  function ResetFactory(d: Device, body: Body): (s: Step)
    ensures ResponseCount(s.effects) == 1 && Writes(s.effects) == []
    ensures s.device.factoryReset != d.factoryReset ==> Authenticated(body)
    ensures Authenticated(body) ==> s == Step(d.(factoryReset := true), [Send(200, Ok), ResetToFactory])
    ensures !Authenticated(body) ==> s == Step(d, [Send(400, Failure(GateError(body)))])
  {
    match CheckRequestData(body)
    case Rejected(response) => Step(d, [response])
    case Accepted(doc) =>
      if doc.authentic then
        EffectsOfPair(Send(200, Ok), ResetToFactory);
        Step(d.(factoryReset := true), [Send(200, Ok), ResetToFactory])
      else Step(d, [Send(400, Failure(MissingAuthentication))])
  }

  // ----------------------------------------------------------------------- command

  /** The `command` member, "" when absent. */
  function CommandName(doc: Document): string {
    doc.command.GetOr("")
  }

  predicate InBounds(d: Device, t: int) {
    d.boiler.minimum <= t <= d.maxTemperature
  }

  /**
   * `handleCommand`. Only the boiler's on/off state and target and the display can
   * change; a changed target always lies in [minimum, maximum] and the display shows
   * it; an out-of-range value echoes the parsed integer; any other command is a no-op
   * answered with 200.
   */
  function Command(d: Device, body: Body): (s: Step)
    ensures ResponseCount(s.effects) == 1 && Writes(s.effects) == []
    ensures !Authenticated(body) ==> s == Step(d, [Send(400, Failure(GateError(body)))])
    ensures s.device == d.(boiler := s.device.boiler, displayTarget := s.device.displayTarget)
    ensures s.device.boiler.current == d.boiler.current && s.device.boiler.minimum == d.boiler.minimum
    ensures s.device.boiler.target != d.boiler.target ==> InBounds(d, s.device.boiler.target)
    ensures s.device.displayTarget != d.displayTarget ==> s.device.displayTarget == s.device.boiler.target
    ensures TargetInRange(d) ==> TargetInRange(s.device)
    ensures Authenticated(body) && CommandName(body.doc) == "turn_on" ==>
      s == Step(d.(boiler := d.boiler.(isOn := true)), [Send(200, Ok)])
    ensures Authenticated(body) && CommandName(body.doc) == "turn_off" ==>
      s == Step(d.(boiler := d.boiler.(isOn := false)), [Send(200, Ok)])
    ensures Authenticated(body) && CommandName(body.doc) == "set_temperature" ==>
      var t := body.doc.value;
      (s.effects == [Send(200, Ok)] <==> InBounds(d, t)) &&
      (InBounds(d, t) ==> s.device == d.(boiler := d.boiler.(target := t), displayTarget := t)) &&
      (!InBounds(d, t) ==> s == Step(d, [Send(400, Failure(OutOfRange(t)))]))
    ensures Authenticated(body) && CommandName(body.doc) !in ["turn_on", "turn_off", "set_temperature"] ==>
      s == Step(d, [Send(200, Ok)])
  {
    match CheckRequestData(body)
    case Rejected(response) => Step(d, [response])
    case Accepted(doc) =>
      if !doc.authentic then Step(d, [Send(400, Failure(MissingAuthentication))])
      else
        var command := CommandName(doc);
        if command == "turn_on" then Step(d.(boiler := d.boiler.(isOn := true)), [Send(200, Ok)])
        else if command == "turn_off" then Step(d.(boiler := d.boiler.(isOn := false)), [Send(200, Ok)])
        else if command == "set_temperature" then
          var t := doc.value;
          if t < d.boiler.minimum || t > d.maxTemperature then
            Step(d, [Send(400, Failure(OutOfRange(t)))])
          else
            Step(d.(boiler := d.boiler.(target := t), displayTarget := t), [Send(200, Ok)])
        else Step(d, [Send(200, Ok)])
  }

  // ------------------------------------------------------------------------ status

  /** The address reported as `localIP`: the soft-AP address unless the station is connected. */
  function LocalIP(w: Wifi): string {
    if !w.connected then w.softApIp else w.stationIp
  }

  /**
   * `handleStatus`: changes nothing; an authenticated request gets the boiler's
   * values as they are and the current local address.
   */
  function Status(d: Device, body: Body): (s: Step)
    ensures s.device == d
    ensures ResponseCount(s.effects) == 1 && Writes(s.effects) == []
    ensures !Authenticated(body) ==> s.effects == [Send(400, Failure(GateError(body)))]
    ensures Authenticated(body) ==>
      |s.effects| == 1 && s.effects[0].Send? && s.effects[0].code == 200 && s.effects[0].reply.Report? &&
      var r := s.effects[0].reply.status;
      r.targetTemperature == d.boiler.target && r.currentTemperature == d.boiler.current &&
      r.isOn == d.boiler.isOn && r.minimumTemperature == d.boiler.minimum &&
      (d.wifi.connected ==> r.localIP == d.wifi.stationIp) &&
      (!d.wifi.connected ==> r.localIP == d.wifi.softApIp)
    ensures TargetInRange(d) && Authenticated(body) ==>
      s.effects[0].reply.status.minimumTemperature <= s.effects[0].reply.status.targetTemperature
  {
    match CheckRequestData(body)
    case Rejected(response) => Step(d, [response])
    case Accepted(doc) =>
      if !doc.authentic then Step(d, [Send(400, Failure(MissingAuthentication))])
      else
        var b := d.boiler;
        Step(d, [Send(200, Report(StatusReport(b.target, b.current, b.isOn, LocalIP(d.wifi), b.minimum)))])
  }

  // ------------------------------------------------------------------------ routes

  datatype Route = RootRoute | LocalRoute | SetupRoute | ResetFactoryRoute | CommandRoute | StatusRoute | NotFoundRoute

  /** The bindings `setupServer` registers: each path answers one method only. */
  const Bindings: map<(Method, string), Route> := map[
    (Get, "/") := RootRoute,
    (Get, "/local") := LocalRoute,
    (Post, "/setup") := SetupRoute,
    (Post, "/kill_reset_factory") := ResetFactoryRoute,
    (Post, "/command") := CommandRoute,
    (Post, "/status") := StatusRoute]

  /** The server's lookup: a bound (verb, path) goes to its handler, anything else to not-found. */
  function RouteOf(verb: Method, path: string): (r: Route)
    ensures (verb, path) in Bindings ==> r == Bindings[(verb, path)]
    ensures (verb, path) !in Bindings ==> r == NotFoundRoute
  {
    if verb == Get && path == "/" then RootRoute
    else if verb == Get && path == "/local" then LocalRoute
    else if verb == Post && path == "/setup" then SetupRoute
    else if verb == Post && path == "/kill_reset_factory" then ResetFactoryRoute
    else if verb == Post && path == "/command" then CommandRoute
    else if verb == Post && path == "/status" then StatusRoute
    else NotFoundRoute
  }

  /**
   * One request, dispatched to its handler. Every request gets one response; the
   * fixed configuration, the network and the boiler's sensor and minimum never
   * change; the target stays in range; the record is written at most once, from
   * empty; and an unauthenticated request can change nothing but the record.
   */
  function Handle(d: Device, req: Request): (s: Step)
    ensures ResponseCount(s.effects) == 1
    ensures s.device.espId == d.espId && s.device.maxTemperature == d.maxTemperature && s.device.wifi == d.wifi
    ensures s.device.boiler.current == d.boiler.current && s.device.boiler.minimum == d.boiler.minimum
    ensures TargetInRange(d) ==> TargetInRange(s.device)
    ensures d.record.Some? ==> s.device.record == d.record && Writes(s.effects) == []
    ensures d.record.None? ==> Writes(s.effects) == (if s.device.record.Some? then [s.device.record.value] else [])
    ensures !Authenticated(req.body) ==> s.device == d.(record := s.device.record)
  {
    match RouteOf(req.verb, req.path)
    case RootRoute => Step(d, [Send(200, Text("KiLL"))])
    case LocalRoute => Step(d, [Send(200, Text(d.espId))])
    case SetupRoute => Setup(d, req.body)
    case ResetFactoryRoute => ResetFactory(d, req.body)
    case CommandRoute => Command(d, req.body)
    case StatusRoute => Status(d, req.body)
    case NotFoundRoute => Step(d, [Send(404, Text("Not found"))])
  }

  // -------------------------------------------------------------- runs of requests

  /** The server handling a sequence of requests one after another. */
  function Run(d: Device, reqs: seq<Request>): Step
    decreases |reqs|
  {
    if reqs == [] then Step(d, [])
    else
      var first := Handle(d, reqs[0]);
      var rest := Run(first.device, reqs[1..]);
      Step(rest.device, first.effects + rest.effects)
  }

  lemma {:induction false} RunRespondsOncePerRequest(d: Device, reqs: seq<Request>)
    ensures ResponseCount(Run(d, reqs).effects) == |reqs|
    decreases |reqs|
  {
    if reqs != [] {
      var first := Handle(d, reqs[0]);
      RunRespondsOncePerRequest(first.device, reqs[1..]);
      ResponseCountAppend(first.effects, Run(first.device, reqs[1..]).effects);
    }
  }

  lemma {:induction false} RunKeepsTargetInRange(d: Device, reqs: seq<Request>)
    requires TargetInRange(d)
    ensures TargetInRange(Run(d, reqs).device)
    decreases |reqs|
  {
    if reqs != [] {
      RunKeepsTargetInRange(Handle(d, reqs[0]).device, reqs[1..]);
    }
  }

  /**
   * Persistent memory is written at most once in any run: never once the device is
   * provisioned, and from a fresh device exactly the record it ends up holding.
   */
  lemma {:induction false} RunWritesAtMostOnce(d: Device, reqs: seq<Request>)
    ensures |Writes(Run(d, reqs).effects)| <= 1
    ensures d.record.Some? ==> Run(d, reqs).device.record == d.record && Writes(Run(d, reqs).effects) == []
    ensures d.record.None? ==>
      var e := Run(d, reqs).device.record;
      Writes(Run(d, reqs).effects) == (if e.Some? then [e.value] else [])
    decreases |reqs|
  {
    if reqs != [] {
      var first := Handle(d, reqs[0]);
      var rest := Run(first.device, reqs[1..]);
      RunWritesAtMostOnce(first.device, reqs[1..]);
      WritesAppend(first.effects, rest.effects);
    }
  }

  /** Without an authenticated request, nothing but the setup record can change. */
  lemma {:induction false} RunWithoutAuthentication(d: Device, reqs: seq<Request>)
    requires forall i :: 0 <= i < |reqs| ==> !Authenticated(reqs[i].body)
    ensures Run(d, reqs).device == d.(record := Run(d, reqs).device.record)
    decreases |reqs|
  {
    if reqs != [] {
      assert !Authenticated(reqs[0].body);
      var first := Handle(d, reqs[0]);
      forall i | 0 <= i < |reqs[1..]| ensures !Authenticated(reqs[1..][i].body) {
        assert reqs[1..][i] == reqs[i + 1];
      }
      RunWithoutAuthentication(first.device, reqs[1..]);
    }
  }

  /** After a setup that stored a record, every further setup is refused, whatever its body. */
  lemma SecondSetupRejected(d: Device, first: Body, second: Body)
    requires Setup(d, first).device.record != d.record
    ensures Setup(Setup(d, first).device, second).effects == [Send(400, Failure(AlreadySetup))]
    ensures Setup(Setup(d, first).device, second).device == Setup(d, first).device
  {
  }

  /** A target set in range is what a following status request reports. */
  lemma SetThenStatusReportsTarget(d: Device, setBody: Body, statusBody: Body)
    requires Authenticated(setBody) && CommandName(setBody.doc) == "set_temperature" && InBounds(d, setBody.doc.value)
    requires Authenticated(statusBody)
    ensures Command(d, setBody).effects == [Send(200, Ok)]
    ensures Status(Command(d, setBody).device, statusBody).effects[0].reply.status.targetTemperature == setBody.doc.value
  {
  }
}
