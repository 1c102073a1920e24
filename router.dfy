/**
 * The MCP handlers of the Buttplug server: the device list resource, the
 * three per-device resources addressed by `/device/:id...` templates, and
 * the `device_vibrate` tool.
 *
 * The module-global manager is passed in explicitly as an `Option`: `None`
 * is the nil pointer. A handler's observable behaviour is a `Reply`: the
 * calls it makes into the device layer, in order, and its result. The device
 * layer itself is a `Manager` value whose controllers carry the answers
 * their device gives.
 */
module Router {
  import opened Wrappers
  import opened Decimal
  import opened Pattern

  const DeviceListUri: string := "/devices"
  const JsonMimeType: string := "application/json"
  const SuccessText: string := "{ \"success\": true }"

  /** Literal text before the `id` placeholder of every device template. */
  const DevicePrefix: string := "/device/"
  const IdName: string := "id"

  // ---------------------------------------------------------------------
  // The device layer

  /** What the device JSON shows of a device. */
  datatype Device = Device(index: Int64, name: string)

  /**
   * A device's controller, with the answers its device gives: a level or
   * an error text for each query, and the error text of a vibrate command
   * if it fails.
   */
  datatype Controller = Controller(
    device: Device,
    rssi: Result<real, string>,
    battery: Result<real, string>,
    vibrateError: Option<string>)

  /** The device manager: the device list and the controller for each index it knows. */
  datatype Manager = Manager(devices: seq<Device>, controllers: map<Int64, Controller>)

  /** A call into the device layer, as seen from the handlers. */
  datatype Effect =
    | ListDevices
    | LookupDevice(index: Int64)
    | ReadRssi(index: Int64)
    | ReadBattery(index: Int64)
    | SendVibrate(index: Int64, speeds: map<Int64, real>)

  // ---------------------------------------------------------------------
  // Errors

  datatype Error =
    | ManagerNotInitialized
    | IdNotInPath
    | IdNotInteger
    | DeviceNotFound(index: Int64)
    | ExtractFailed(cause: Error)
    | RssiFailed(reason: string)
    | BatteryFailed(reason: string)
    | IdNotSet
    | StrengthNotSet
    | VibrateFailed(index: Int64, reason: string)
      /** A nil pointer dereference: the Go runtime panics. */
    | NilDereference

  /** The text of each error, as the handlers format it. */
  function Message(e: Error): string {
    match e
    case ManagerNotInitialized => "Buttplug manager not initialized"
    case IdNotInPath => "Device ID not found in path"
    case IdNotInteger => "Device ID could not be converted to integer"
    case DeviceNotFound(n) => "Device " + FormatInt(n) + " not found"
    case ExtractFailed(cause) => "failed to extract controller: " + Message(cause)
    case RssiFailed(reason) => "failed to query rssi: " + reason
    case BatteryFailed(reason) => "failed to query battery: " + reason
    case IdNotSet => "id must be set"
    case StrengthNotSet => "strength must be set"
    case VibrateFailed(n, reason) => "Vibrate on device " + FormatInt(n) + " failed: " + reason
    case NilDereference => "runtime error: invalid memory address or nil pointer dereference"
  }

  /** The calls a handler made, in order, and what it returned. */
  datatype Reply<T> = Reply(effects: seq<Effect>, result: Result<T, Error>)

  // ---------------------------------------------------------------------
  // Resources

  datatype Body =
    | DeviceListJson(devices: seq<Device>)
    | DeviceJson(device: Device)
    | RssiJson(level: real)
    | BatteryJson(level: real)

  datatype Contents = Contents(uri: string, mimeType: string, body: Body)

  /** A resource read: the requested URI and the path component of it. */
  datatype ReadRequest = ReadRequest(uri: string, path: string)

  datatype Route = InfoRoute | RssiRoute | BatteryRoute

  function Suffix(route: Route): string {
    match route
    case InfoRoute => ""
    case RssiRoute => "/rssi"
    case BatteryRoute => "/battery"
  }

  /** The pattern each per-device handler passes to the controller lookup. */
  function Template(route: Route): string {
    match route
    case InfoRoute => "/device/:id"
    case RssiRoute => "/device/:id/rssi"
    case BatteryRoute => "/device/:id/battery"
  }

  /** Literal text of a template that the matcher takes as it is. */
  predicate PlainText(s: string) {
    ':' !in s && forall i :: 0 <= i < |s| ==> !IsRegexMeta(s[i])
  }

  /** Text made of letters, digits and `/` only is plain. */
  lemma PathCharsPlain(s: string)
    requires forall i :: 0 <= i < |s| ==> IsAlnum(s[i]) || s[i] == '/'
    ensures PlainText(s)
  {
    forall i | 0 <= i < |s| ensures s[i] != ':' && !IsRegexMeta(s[i]) {
    }
  }

  lemma PrefixPlain()
    ensures PlainText(DevicePrefix)
  {
    PathCharsPlain(DevicePrefix);
  }

  lemma SuffixPlain(route: Route)
    ensures PlainText(Suffix(route))
    ensures Suffix(route) == [] || Suffix(route)[0] == '/'
  {
    PathCharsPlain(Suffix(route));
  }

  lemma RouteShape(route: Route)
    ensures PlainText(DevicePrefix) && PlainText(Suffix(route))
    ensures IsName(IdName)
    ensures Suffix(route) == [] || Suffix(route)[0] == '/'
    ensures Template(route) == DevicePrefix + [':'] + IdName + Suffix(route)
  {
    PrefixPlain();
    SuffixPlain(route);
    assert IdName == ['i', 'd'];
  }

  /** Every route template is one the matcher handles, with `id` as its only placeholder. */
  lemma TemplateSupported(route: Route)
    ensures Supported(Template(route))
    ensures Names(Tokenize(Template(route))) == [IdName]
  {
    RouteShape(route);
    OnePlaceholder(DevicePrefix, IdName, Suffix(route));
  }

  /** The device ID in a path, as `controllerFromPattern` reads it before the lookup. */
  function PathDeviceId(template: string, path: string): Result<Int64, Error>
    requires Supported(template)
  {
    match Extract(template, path)
    case None => Failure(IdNotInPath)
    case Some(params) =>
      if IdName !in params then Failure(IdNotInPath)
      else
        match Atoi(params[IdName])
        case Failure(_) => Failure(IdNotInteger)
        case Success(n) => Success(n)
  }

  /** A controller found by index. */
  datatype Handle = Handle(index: Int64, controller: Controller)

  /**
   * `controllerFromPattern`: read the ID from the path, then dereference
   * the manager and look the device up.
   */
  function ControllerFromPattern(mgr: Option<Manager>, template: string, path: string): (r: Reply<Handle>)
    requires Supported(template)
    ensures r.effects == [] ||
      (mgr.Some? && PathDeviceId(template, path).Success? &&
       r.effects == [LookupDevice(PathDeviceId(template, path).value)])
    ensures r.result.Success? ==>
      mgr.Some? && PathDeviceId(template, path) == Success(r.result.value.index) &&
      r.result.value.index in mgr.value.controllers &&
      r.result.value.controller == mgr.value.controllers[r.result.value.index]
    ensures PathDeviceId(template, path).Failure? ==>
      r == Reply([], Failure(PathDeviceId(template, path).error))
    ensures PathDeviceId(template, path).Success? && mgr.None? ==>
      r == Reply([], Failure(NilDereference))
    ensures PathDeviceId(template, path).Success? && mgr.Some? ==>
      var n := PathDeviceId(template, path).value;
      r == if n in mgr.value.controllers
        then Reply([LookupDevice(n)], Success(Handle(n, mgr.value.controllers[n])))
        else Reply([LookupDevice(n)], Failure(DeviceNotFound(n)))
  {
    match PathDeviceId(template, path)
    case Failure(e) => Reply([], Failure(e))
    case Success(n) =>
      if mgr.None? then Reply([], Failure(NilDereference))
      else if n in mgr.value.controllers then Reply([LookupDevice(n)], Success(Handle(n, mgr.value.controllers[n])))
      else Reply([LookupDevice(n)], Failure(DeviceNotFound(n)))
  }

  /** The wrapping the resource handlers put around a lookup error; a panic passes through. */
  function Wrap(e: Error): Error {
    if e == NilDereference then e else ExtractFailed(e)
  }

  /** `getDeviceListHandler`. */
  function DeviceListHandler(mgr: Option<Manager>): (r: Reply<seq<Contents>>)
    ensures r.result.Failure? <==> mgr.None?
    ensures r.result.Failure? ==> r.effects == [] && r.result.error == ManagerNotInitialized
    ensures r.result.Success? ==>
      r.effects == [ListDevices] &&
      r.result.value == [Contents(DeviceListUri, JsonMimeType, DeviceListJson(mgr.value.devices))]
  {
    match mgr
    case None => Reply([], Failure(ManagerNotInitialized))
    case Some(m) => Reply([ListDevices], Success([Contents(DeviceListUri, JsonMimeType, DeviceListJson(m.devices))]))
  }

  /** `getDeviceInfoHandler`. */
  function DeviceInfoHandler(mgr: Option<Manager>, req: ReadRequest): Reply<seq<Contents>> {
    TemplateSupported(InfoRoute);
    var c := ControllerFromPattern(mgr, Template(InfoRoute), req.path);
    match c.result
    case Failure(e) => Reply(c.effects, Failure(Wrap(e)))
    case Success(h) => Reply(c.effects, Success([Contents(req.uri, JsonMimeType, DeviceJson(h.controller.device))]))
  }

  /** `getDeviceRssiHandler`. */
  function DeviceRssiHandler(mgr: Option<Manager>, req: ReadRequest): Reply<seq<Contents>> {
    TemplateSupported(RssiRoute);
    var c := ControllerFromPattern(mgr, Template(RssiRoute), req.path);
    match c.result
    case Failure(e) => Reply(c.effects, Failure(Wrap(e)))
    case Success(h) =>
      var effects := c.effects + [ReadRssi(h.index)];
      match h.controller.rssi
      case Failure(reason) => Reply(effects, Failure(RssiFailed(reason)))
      case Success(level) => Reply(effects, Success([Contents(req.uri, JsonMimeType, RssiJson(level))]))
  }

  /** `getDeviceBatteryHandler`. */
  function DeviceBatteryHandler(mgr: Option<Manager>, req: ReadRequest): Reply<seq<Contents>> {
    TemplateSupported(BatteryRoute);
    var c := ControllerFromPattern(mgr, Template(BatteryRoute), req.path);
    match c.result
    case Failure(e) => Reply(c.effects, Failure(Wrap(e)))
    case Success(h) =>
      var effects := c.effects + [ReadBattery(h.index)];
      match h.controller.battery
      case Failure(reason) => Reply(effects, Failure(BatteryFailed(reason)))
      case Success(level) => Reply(effects, Success([Contents(req.uri, JsonMimeType, BatteryJson(level))]))
  }

  // ---------------------------------------------------------------------
  // The path of a device resource, stated on strings alone

  /** `path` is the prefix, one non-empty segment without `/`, and the route's suffix. */
  predicate IsDevicePath(route: Route, path: string) {
    var p, s := DevicePrefix, Suffix(route);
    && |p| + |s| < |path|
    && path[..|p|] == p
    && path[|path| - |s|..] == s
    && ValidCapture(path[|p|..|path| - |s|])
  }

  /** The segment of a device path that holds the ID. */
  function IdSegment(route: Route, path: string): string
    requires IsDevicePath(route, path)
  {
    path[|DevicePrefix|..|path| - |Suffix(route)|]
  }

  /** Reading the ID of a device path, defined without regular expressions. */
  function ResolveId(route: Route, path: string): Result<Int64, Error> {
    if !IsDevicePath(route, path) then Failure(IdNotInPath)
    else
      match Atoi(IdSegment(route, path))
      case Failure(_) => Failure(IdNotInteger)
      case Success(n) => Success(n)
  }

  lemma DevicePathSplit(route: Route, path: string)
    requires IsDevicePath(route, path)
    ensures path == DevicePrefix + IdSegment(route, path) + Suffix(route)
  {
    var p, s := DevicePrefix, Suffix(route);
    assert path == path[..|p|] + path[|p|..|path| - |s|] + path[|path| - |s|..];
  }

  /** Every path a route template matches is a device path, and its ID segment is the capture. */
  lemma ExtractDevicePath(route: Route, path: string)
    ensures Supported(Template(route))
    ensures Extract(Template(route), path).Some? ==>
      IsDevicePath(route, path) && Extract(Template(route), path) == Some(map[IdName := IdSegment(route, path)])
  {
    RouteShape(route);
    var p, s := DevicePrefix, Suffix(route);
    ExtractOnePlaceholderSound(p, IdName, s, path);
    if Extract(Template(route), path).Some? {
      var x := path[|p|..|path| - |s|];
      assert path == p + x + s;
      assert path[..|p|] == p;
      assert path[|path| - |s|..] == s;
    }
  }

  /**
   * The regular-expression reading of the ID agrees with the plain string
   * reading: a path has an ID exactly when it is a device path of the route,
   * and the ID is the integer its middle segment spells.
   */
  lemma PathDeviceIdMatchesReference(route: Route, path: string)
    ensures Supported(Template(route))
    ensures PathDeviceId(Template(route), path) == ResolveId(route, path)
  {
    RouteShape(route);
    if IsDevicePath(route, path) {
      DevicePathSplit(route, path);
      ExtractOnePlaceholderComplete(DevicePrefix, IdName, Suffix(route), IdSegment(route, path));
    } else {
      ExtractDevicePath(route, path);
    }
  }

  /** The segment `%d` writes for an index is a valid capture. */
  lemma FormatIntCapture(n: int)
    ensures ValidCapture(FormatInt(n))
  {
    FormatIntChars(n);
    var s := FormatInt(n);
    forall i | 0 <= i < |s| ensures s[i] != '/' {
    }
  }

  /** The path a client builds from a device index reads back as that index. */
  lemma PathOfIndex(route: Route, n: Int64)
    ensures Supported(Template(route))
    ensures PathDeviceId(Template(route), DevicePrefix + FormatInt(n) + Suffix(route)) == Success(n)
  {
    var path := DevicePrefix + FormatInt(n) + Suffix(route);
    FormatIntCapture(n);
    RouteShape(route);
    ExtractOnePlaceholderComplete(DevicePrefix, IdName, Suffix(route), FormatInt(n));
    AtoiFormatInt(n);
  }

  /**
   * Resolving such a path looks the index up once and yields its
   * controller, or reports the index as not found.
   */
  lemma ResolveIndex(mgr: Manager, route: Route, n: Int64)
    ensures Supported(Template(route))
    ensures ControllerFromPattern(Some(mgr), Template(route), DevicePrefix + FormatInt(n) + Suffix(route)) ==
      if n in mgr.controllers then Reply([LookupDevice(n)], Success(Handle(n, mgr.controllers[n])))
      else Reply([LookupDevice(n)], Failure(DeviceNotFound(n)))
  {
    PathOfIndex(route, n);
  }

  lemma InfoPathTail(path: string)
    ensures IsDevicePath(InfoRoute, path) ==> forall i :: |DevicePrefix| <= i < |path| ==> path[i] != '/'
  {
    if IsDevicePath(InfoRoute, path) {
      var p := |DevicePrefix|;
      forall i | p <= i < |path| ensures path[i] != '/' {
        assert path[i] == path[p..|path|][i - p];
      }
    }
  }

  lemma SuffixPathSlash(route: Route, path: string)
    requires route != InfoRoute
    ensures IsDevicePath(route, path) ==>
      |DevicePrefix| <= |path| - |Suffix(route)| && path[|path| - |Suffix(route)|] == '/' &&
      path[|path| - 1] == Suffix(route)[|Suffix(route)| - 1]
  {
    SuffixPlain(route);
  }

  /** The three device templates never accept the same path. */
  lemma RoutesDisjoint(r1: Route, r2: Route, path: string)
    requires r1 != r2
    ensures !(IsDevicePath(r1, path) && IsDevicePath(r2, path))
  {
    InfoPathTail(path);
    if r1 != InfoRoute {
      SuffixPathSlash(r1, path);
    }
    if r2 != InfoRoute {
      SuffixPathSlash(r2, path);
    }
  }

  // ---------------------------------------------------------------------
  // Reading device resources end to end

  /** The per-device resource handler the server runs for a route. */
  function ReadDeviceResource(route: Route, mgr: Option<Manager>, req: ReadRequest): Reply<seq<Contents>> {
    match route
    case InfoRoute => DeviceInfoHandler(mgr, req)
    case RssiRoute => DeviceRssiHandler(mgr, req)
    case BatteryRoute => DeviceBatteryHandler(mgr, req)
  }

  /**
   * A path without a readable ID fails before the device layer is touched,
   * whether or not a manager is set, and the error says why.
   */
  lemma BadPathTouchesNoDevice(route: Route, mgr: Option<Manager>, req: ReadRequest)
    requires ResolveId(route, req.path).Failure?
    ensures ReadDeviceResource(route, mgr, req) == Reply([], Failure(ExtractFailed(ResolveId(route, req.path).error)))
  {
    PathDeviceIdMatchesReference(route, req.path);
    var e := ResolveId(route, req.path).error;
    assert e != NilDereference;
    assert ControllerFromPattern(mgr, Template(route), req.path) == Reply([], Failure(e));
  }

  /** With no manager, a path that does carry an ID panics on the dereference, before any lookup. */
  lemma NilManagerPanics(route: Route, req: ReadRequest)
    requires ResolveId(route, req.path).Success?
    ensures ReadDeviceResource(route, None, req) == Reply([], Failure(NilDereference))
  {
    PathDeviceIdMatchesReference(route, req.path);
  }

  /** The info resource of an index: one lookup, then the device or "not found". */
  lemma InfoOfIndex(mgr: Manager, n: Int64, uri: string)
    ensures DeviceInfoHandler(Some(mgr), ReadRequest(uri, DevicePrefix + FormatInt(n))) ==
      if n !in mgr.controllers then Reply([LookupDevice(n)], Failure(ExtractFailed(DeviceNotFound(n))))
      else Reply([LookupDevice(n)], Success([Contents(uri, JsonMimeType, DeviceJson(mgr.controllers[n].device))]))
  {
    ResolveIndex(mgr, InfoRoute, n);
    assert DevicePrefix + FormatInt(n) + Suffix(InfoRoute) == DevicePrefix + FormatInt(n);
  }

  /** The RSSI resource of an index: one lookup, then one RSSI query of that device. */
  lemma RssiOfIndex(mgr: Manager, n: Int64, uri: string)
    ensures DeviceRssiHandler(Some(mgr), ReadRequest(uri, DevicePrefix + FormatInt(n) + "/rssi")) ==
      if n !in mgr.controllers then Reply([LookupDevice(n)], Failure(ExtractFailed(DeviceNotFound(n))))
      else
        match mgr.controllers[n].rssi
        case Failure(reason) => Reply([LookupDevice(n), ReadRssi(n)], Failure(RssiFailed(reason)))
        case Success(level) => Reply([LookupDevice(n), ReadRssi(n)], Success([Contents(uri, JsonMimeType, RssiJson(level))]))
  {
    var path := DevicePrefix + FormatInt(n) + "/rssi";
    assert path == DevicePrefix + FormatInt(n) + Suffix(RssiRoute);
    ResolveIndex(mgr, RssiRoute, n);
    TemplateSupported(RssiRoute);
    var c := ControllerFromPattern(Some(mgr), Template(RssiRoute), path);
    assert DeviceRssiHandler(Some(mgr), ReadRequest(uri, path)) ==
      match c.result
      case Failure(e) => Reply(c.effects, Failure(Wrap(e)))
      case Success(h) =>
        var effects := c.effects + [ReadRssi(h.index)];
        match h.controller.rssi
        case Failure(reason) => Reply(effects, Failure(RssiFailed(reason)))
        case Success(level) => Reply(effects, Success([Contents(uri, JsonMimeType, RssiJson(level))]));
  }

  /** The battery resource of an index: one lookup, then one battery query of that device. */
  lemma BatteryOfIndex(mgr: Manager, n: Int64, uri: string)
    ensures DeviceBatteryHandler(Some(mgr), ReadRequest(uri, DevicePrefix + FormatInt(n) + "/battery")) ==
      if n !in mgr.controllers then Reply([LookupDevice(n)], Failure(ExtractFailed(DeviceNotFound(n))))
      else
        match mgr.controllers[n].battery
        case Failure(reason) => Reply([LookupDevice(n), ReadBattery(n)], Failure(BatteryFailed(reason)))
        case Success(level) => Reply([LookupDevice(n), ReadBattery(n)], Success([Contents(uri, JsonMimeType, BatteryJson(level))]))
  {
    var path := DevicePrefix + FormatInt(n) + "/battery";
    assert path == DevicePrefix + FormatInt(n) + Suffix(BatteryRoute);
    ResolveIndex(mgr, BatteryRoute, n);
    TemplateSupported(BatteryRoute);
    var c := ControllerFromPattern(Some(mgr), Template(BatteryRoute), path);
    assert DeviceBatteryHandler(Some(mgr), ReadRequest(uri, path)) ==
      match c.result
      case Failure(e) => Reply(c.effects, Failure(Wrap(e)))
      case Success(h) =>
        var effects := c.effects + [ReadBattery(h.index)];
        match h.controller.battery
        case Failure(reason) => Reply(effects, Failure(BatteryFailed(reason)))
        case Success(level) => Reply(effects, Success([Contents(uri, JsonMimeType, BatteryJson(level))]));
  }

  /** The "not found" text names the index in a form that reads back as that index. */
  lemma NotFoundMessageCarriesIndex(n: Int64)
    ensures |Message(DeviceNotFound(n))| == |"Device "| + |FormatInt(n)| + |" not found"|
    ensures Atoi(Message(DeviceNotFound(n))[|"Device "|..|Message(DeviceNotFound(n))| - |" not found"|]) == Success(n)
  {
    var m := Message(DeviceNotFound(n));
    assert m[|"Device "|..|m| - |" not found"|] == FormatInt(n);
    AtoiFormatInt(n);
  }

  // ---------------------------------------------------------------------
  // The vibrate tool

  /** A tool argument, by the dynamic type decoding gave it. */
  datatype Value =
    | Int(i: Int64)
    | Float(f: real)
    | Text(s: string)
    | Bool(b: bool)
    | Null
    | Compound

  type Arguments = map<string, Value>

  datatype VibrateArgs = VibrateArgs(deviceId: Int64, strength: real, motor: Int64)

  predicate HasInt(args: Arguments, key: string) {
    key in args && args[key].Int?
  }

  predicate HasFloat(args: Arguments, key: string) {
    key in args && args[key].Float?
  }

  /**
   * The argument checks of `vibrateDeviceHandler`: `id` must hold an `int`
   * and `strength` a `float64`; `motor` is used when it holds an `int` and
   * is 0 otherwise.
   */
  function DecodeVibrateArgs(args: Arguments): (r: Result<VibrateArgs, Error>)
    ensures r.Failure? ==> r.error == IdNotSet || r.error == StrengthNotSet
    ensures r == Failure(IdNotSet) <==> !HasInt(args, "id")
    ensures r == Failure(StrengthNotSet) <==> HasInt(args, "id") && !HasFloat(args, "strength")
    ensures r.Success? ==>
      args["id"] == Int(r.value.deviceId) && args["strength"] == Float(r.value.strength) &&
      (if HasInt(args, "motor") then args["motor"] == Int(r.value.motor) else r.value.motor == 0)
  {
    if !HasInt(args, "id") then Failure(IdNotSet)
    else if !HasFloat(args, "strength") then Failure(StrengthNotSet)
    else
      var motor := if HasInt(args, "motor") then args["motor"].i else 0;
      Success(VibrateArgs(args["id"].i, args["strength"].f, motor))
  }

  /** The arguments of a call that names all three parameters. */
  function EncodeVibrateArgs(v: VibrateArgs): Arguments {
    map["id" := Int(v.deviceId), "strength" := Float(v.strength), "motor" := Int(v.motor)]
  }

  lemma DecodeEncode(v: VibrateArgs)
    ensures DecodeVibrateArgs(EncodeVibrateArgs(v)) == Success(v)
  {
  }

  /** Leaving `motor` out, or giving it anything but an integer, selects motor 0. */
  lemma MotorDefaultsToZero(args: Arguments)
    requires HasInt(args, "id") && HasFloat(args, "strength") && !HasInt(args, "motor")
    ensures DecodeVibrateArgs(args) == Success(VibrateArgs(args["id"].i, args["strength"].f, 0))
  {
  }

  /** Arguments other than the three are ignored. */
  lemma DecodeIgnoresOtherKeys(args: Arguments, key: string, x: Value)
    requires key != "id" && key != "strength" && key != "motor"
    ensures DecodeVibrateArgs(args[key := x]) == DecodeVibrateArgs(args)
  {
  }

  /** What `vibrateDeviceHandler` does once its arguments are decoded. */
  function VibrateDecoded(mgr: Option<Manager>, d: Result<VibrateArgs, Error>): Reply<string> {
    match d
    case Failure(e) => Reply([], Failure(e))
    case Success(v) =>
      if mgr.None? then Reply([], Failure(NilDereference))
      else if v.deviceId !in mgr.value.controllers then
        Reply([LookupDevice(v.deviceId)], Failure(DeviceNotFound(v.deviceId)))
      else
        var effects := [LookupDevice(v.deviceId), SendVibrate(v.deviceId, map[v.motor := v.strength])];
        match mgr.value.controllers[v.deviceId].vibrateError
        case Some(reason) => Reply(effects, Failure(VibrateFailed(v.deviceId, reason)))
        case None => Reply(effects, Success(SuccessText))
  }

  /** `vibrateDeviceHandler`. */
  function VibrateDeviceHandler(mgr: Option<Manager>, args: Arguments): Reply<string> {
    VibrateDecoded(mgr, DecodeVibrateArgs(args))
  }

  predicate SendsVibrate(effects: seq<Effect>) {
    exists i :: 0 <= i < |effects| && effects[i].SendVibrate?
  }

  /**
   * A vibrate command reaches a device only when the arguments decode, the
   * manager is set and the device exists; it then goes to that device alone,
   * after the one lookup, and sets exactly the chosen motor to the given
   * strength. Decoding failures touch nothing.
   */
  lemma VibrateReachesDevice(mgr: Option<Manager>, args: Arguments)
    ensures var r := VibrateDeviceHandler(mgr, args);
      var d := DecodeVibrateArgs(args);
      && (d.Failure? ==> r == Reply([], Failure(d.error)))
      && (d.Success? && mgr.None? ==> r == Reply([], Failure(NilDereference)))
      && (SendsVibrate(r.effects) <==> d.Success? && mgr.Some? && d.value.deviceId in mgr.value.controllers)
      && (SendsVibrate(r.effects) ==>
            r.effects == [LookupDevice(d.value.deviceId), SendVibrate(d.value.deviceId, map[d.value.motor := d.value.strength])])
  {
    var r := VibrateDeviceHandler(mgr, args);
    var d := DecodeVibrateArgs(args);
    if d.Success? && mgr.Some? && d.value.deviceId in mgr.value.controllers {
      assert r.effects[1].SendVibrate?;
    }
  }

  /** The tool reports success exactly when the command was sent and the device accepted it. */
  lemma VibrateSucceeds(mgr: Option<Manager>, args: Arguments)
    ensures var r := VibrateDeviceHandler(mgr, args);
      var d := DecodeVibrateArgs(args);
      r.result.Success? <==>
        d.Success? && mgr.Some? && d.value.deviceId in mgr.value.controllers &&
        mgr.value.controllers[d.value.deviceId].vibrateError.None?
    ensures VibrateDeviceHandler(mgr, args).result.Success? ==> VibrateDeviceHandler(mgr, args).result.value == SuccessText
  {
  }

  /**
   * The two device-side failures of the tool: an unknown device gives
   * "Device %d not found", not wrapped, after the one lookup; a device that
   * refuses the command gives "Vibrate on device %d failed" with its reason,
   * after the lookup and the command.
   */
  lemma VibrateDeviceFailures(mgr: Manager, args: Arguments)
    requires DecodeVibrateArgs(args).Success?
    ensures var r := VibrateDeviceHandler(Some(mgr), args);
      var v := DecodeVibrateArgs(args).value;
      && (v.deviceId !in mgr.controllers ==>
            r == Reply([LookupDevice(v.deviceId)], Failure(DeviceNotFound(v.deviceId))))
      && (v.deviceId in mgr.controllers && mgr.controllers[v.deviceId].vibrateError.Some? ==>
            r == Reply([LookupDevice(v.deviceId), SendVibrate(v.deviceId, map[v.motor := v.strength])],
                       Failure(VibrateFailed(v.deviceId, mgr.controllers[v.deviceId].vibrateError.value))))
    ensures DecodeVibrateArgs(args).value.deviceId !in mgr.controllers ==>
      Message(VibrateDeviceHandler(Some(mgr), args).result.error) ==
        "Device " + FormatInt(DecodeVibrateArgs(args).value.deviceId) + " not found"
  {
  }

  /**
   * The strength is passed on unchecked: a command with any real strength,
   * inside [0, 1] or not, is sent to an existing device as given.
   */
  lemma VibrateAnyStrength(mgr: Manager, v: VibrateArgs)
    requires v.deviceId in mgr.controllers
    ensures VibrateDeviceHandler(Some(mgr), EncodeVibrateArgs(v)).effects ==
      [LookupDevice(v.deviceId), SendVibrate(v.deviceId, map[v.motor := v.strength])]
  {
    DecodeEncode(v);
  }

  // ---------------------------------------------------------------------
  // Arguments as they arrive from JSON

  /**
   * The arguments of a JSON tool call naming all three parameters. The tool
   * declares them as JSON numbers, and Go's JSON decoder gives every number
   * in an untyped map as a `float64`.
   */
  function JsonVibrateArgs(v: VibrateArgs): Arguments {
    map["id" := Float(v.deviceId as real), "strength" := Float(v.strength), "motor" := Float(v.motor as real)]
  }

  /** As written, every JSON call is refused before any device call, as if `id` were missing. */
  lemma JsonCallRejected(mgr: Option<Manager>, v: VibrateArgs)
    ensures DecodeVibrateArgs(JsonVibrateArgs(v)) == Failure(IdNotSet)
    ensures VibrateDeviceHandler(mgr, JsonVibrateArgs(v)) == Reply([], Failure(IdNotSet))
  {
  }

  /** An integer argument given either as an `int` or as a whole `float64` within range. */
  function IntArgument(args: Arguments, key: string): (r: Option<Int64>)
    ensures HasInt(args, key) ==> r == Some(args[key].i)
    ensures r.Some? ==> key in args && (args[key] == Int(r.value) || args[key] == Float(r.value as real))
    ensures (key in args && args[key].Float? && args[key].f.Floor as real == args[key].f &&
             MinInt <= args[key].f.Floor <= MaxInt) ==> r == Some(args[key].f.Floor)
  {
    if key !in args then None
    else
      match args[key]
      case Int(i) => Some(i)
      case Float(f) => if f.Floor as real == f && MinInt <= f.Floor <= MaxInt then Some(f.Floor) else None
      case _ => None
  }

  /** The argument checks with whole numbers accepted for `id` and `motor`. */
  function DecodeJsonVibrateArgs(args: Arguments): Result<VibrateArgs, Error> {
    match IntArgument(args, "id")
    case None => Failure(IdNotSet)
    case Some(id) =>
      if !HasFloat(args, "strength") then Failure(StrengthNotSet)
      else
        var motor := match IntArgument(args, "motor") case Some(m) => m case None => 0;
        Success(VibrateArgs(id, args["strength"].f, motor))
  }

  /** The vibrate tool with the corrected argument checks. */
  function VibrateJsonHandler(mgr: Option<Manager>, args: Arguments): Reply<string> {
    VibrateDecoded(mgr, DecodeJsonVibrateArgs(args))
  }

  /** The corrected checks read back every JSON call exactly. */
  lemma JsonDecodeRoundTrip(v: VibrateArgs)
    ensures DecodeJsonVibrateArgs(JsonVibrateArgs(v)) == Success(v)
  {
    assert (v.deviceId as real).Floor == v.deviceId;
    assert (v.motor as real).Floor == v.motor;
  }

  /** The corrected checks accept every call the written ones accept, with the same device and strength. */
  lemma JsonDecodeExtends(args: Arguments)
    requires DecodeVibrateArgs(args).Success?
    ensures DecodeJsonVibrateArgs(args).Success?
    ensures DecodeJsonVibrateArgs(args).value.deviceId == DecodeVibrateArgs(args).value.deviceId
    ensures DecodeJsonVibrateArgs(args).value.strength == DecodeVibrateArgs(args).value.strength
  {
  }

  /** With the corrected checks, a JSON call to an existing device sends the command it describes. */
  lemma JsonCallReachesDevice(mgr: Manager, v: VibrateArgs)
    requires v.deviceId in mgr.controllers
    ensures VibrateJsonHandler(Some(mgr), JsonVibrateArgs(v)).effects ==
      [LookupDevice(v.deviceId), SendVibrate(v.deviceId, map[v.motor := v.strength])]
    ensures VibrateJsonHandler(Some(mgr), JsonVibrateArgs(v)).result.Success? <==> mgr.controllers[v.deviceId].vibrateError.None?
  {
    JsonDecodeRoundTrip(v);
  }
}
