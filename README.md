# buttplug-mcp routing core in Dafny

This project models the request handling of the buttplug-mcp server, an MCP
server that exposes Buttplug sex-toy devices to language-model clients
(`internal/mcp/mcp.go`). The model has four parts:

- **`Pattern`** (`pattern.dfy`) models `extractPattern`. It scans a path
  template for `:name` placeholders and turns each one into a `([^/]+)`
  capture of an anchored regular expression. It matches a path against that
  expression and fills a map from each name to its capture.
  - Tokenisation is modelled as a function, and proved to invert `Render` in
    both directions.
  - The anchored match is a greedy segment matcher, `Captures`. It is proved
    sound and complete against the reference `Fill`, which puts captures into
    a template.
  - The map-filling loop is an imperative method, proved against the function
    `ParamsOf`. When names repeat, the last one wins.
- **`Decimal`** (`decimal.dfy`) models `strconv.Atoi` on a 64-bit platform,
  including its syntax and range errors. Go's `Atoi` reads the digits left to
  right and reports the first problem it meets. A run of digits that
  overflows a `uint64` is therefore a range error even when a bad character
  follows it. The module also models the `%d` rendering of device indices,
  and proves the two are inverses.
- **`Schema`** (`schema.dfy`) models the two argument patterns that the
  `device_vibrate` tool advertises, `regex10` and `regexInt`. It proves which
  numerals they accept.
- **`Router`** (`router.dfy`) models:
  - `controllerFromPattern`;
  - the device-list, device-info, RSSI and battery resource handlers;
  - `vibrateDeviceHandler`.

  The module-global manager is passed in as an `Option`, where `None` is the
  nil pointer. Dereferencing a nil manager is the error `NilDereference`,
  standing for the Go runtime panic. Each handler returns a `Reply`, which
  holds the calls it made into the device layer, in order, and its result.
  This is how the contracts can say that nothing reaches a device before the
  arguments or the path have been validated. The device layer is a `Manager`
  value. Each of its controllers carries the answers its device gives to
  RSSI, battery and vibrate requests.

## Model

| member | source | states |
|---|---|---|
| Pattern.NameLengthMaximal | internal/mcp/mcp.go:291 | a placeholder name is the longest run of `[a-zA-Z0-9]` after the `:`: all of it is alphanumeric and the next character is not |
| Pattern.TokenizeInverse | internal/mcp/mcp.go:291-292 | scanning a template for placeholders loses nothing: rendering the tokens gives the template back, and the tokens are in the form the scan produces |
| Pattern.TokenizeRender | internal/mcp/mcp.go:291-292 | every token sequence the scan can produce is the scan of its own rendering |
| Pattern.SegmentLength | internal/mcp/mcp.go:294 | what one `[^/]+` takes: the longest prefix without `/`, ended by a `/` or by the end of the path |
| Pattern.Captures | internal/mcp/mcp.go:294-295 | the anchored match: when it succeeds there is one capture per placeholder, each non-empty and without `/`, and filling them into the template gives exactly the path |
| Pattern.CapturesComplete | internal/mcp/mcp.go:294-295 | every path that is the template filled with non-empty, slash-free captures is matched, and the match gives back exactly those captures |
| Pattern.ParamsOf | internal/mcp/mcp.go:301-304 | the map has exactly the placeholder names as keys, and each value is one of the captures |
| Pattern.ParamsOfLastWins | internal/mcp/mcp.go:302-304 | the value under a name is the capture of the last placeholder with that name |
| Pattern.ExtractPattern | internal/mcp/mcp.go:290-307 | the loop that fills the map returns no map when the path does not match, and otherwise the map `ParamsOf` describes |
| Pattern.ExtractIffInstance | internal/mcp/mcp.go:294-299 | a map is returned exactly when the path is an instance of the whole template, so a shorter or longer path never matches |
| Pattern.ExtractComplete | internal/mcp/mcp.go:294-304 | filling a template with valid captures and extracting gives back the map of those captures |
| Pattern.ExtractSound | internal/mcp/mcp.go:294-304 | an extracted map has exactly the template's names as keys, with non-empty, slash-free values; when the names are distinct, substituting the map into the template rebuilds the path |
| Pattern.ExtractLiteralTemplate | internal/mcp/mcp.go:294-299 | a template without placeholders matches only itself, and then gives the empty map |
| Pattern.ExtractKeepsSegmentCount | internal/mcp/mcp.go:294-299 | a matched path has as many `/` as the template |
| Pattern.OnePlaceholder | internal/mcp/mcp.go:291-294 | literal text, one placeholder ending its segment, then literal text: this form is supported, and `Names` is that one name |
| Pattern.ExtractOnePlaceholderComplete | internal/mcp/mcp.go:290-307 | such a template matches prefix + capture + suffix for every valid capture, and binds the name to that capture |
| Pattern.ExtractOnePlaceholderSound | internal/mcp/mcp.go:290-307 | every path such a template matches is prefix + capture + suffix, and the map binds the name to that capture |
| Decimal.FormatNat | internal/mcp/mcp.go:237 | `%d` of a natural number gives non-empty digits without leading zeros, whose value is the number |
| Decimal.FormatIntChars | internal/mcp/mcp.go:237 | `%d` writes only digits, with an optional leading `-` |
| Decimal.AtoiDigits | internal/mcp/mcp.go:274-277 | an optional sign and a non-empty run of digits read as the signed value of the digits when it fits in a 64-bit `int`, and as a range error otherwise |
| Decimal.AtoiStops | internal/mcp/mcp.go:274-277 | when the characters after the sign stop being digits, the result is a range error if the digits before the stop already exceed the largest `uint64`, and a syntax error otherwise |
| Decimal.AtoiOverflowBeforeSyntax | internal/mcp/mcp.go:274-277 | `%d` of n followed by `x` is a syntax error when n fits in a `uint64`, and a range error when it does not, because the overflow is met first |
| Decimal.AtoiFormatInt | internal/mcp/mcp.go:274-277 | `Atoi` reads `%d` of n back as n when n fits in a 64-bit `int`, and reports a range error otherwise |
| Decimal.FormatIntAtoi | internal/mcp/mcp.go:274-277 | on the strings `%d` can write, a successful `Atoi` is inverted by `%d` |
| Schema.FractionBounds | internal/mcp/mcp.go:23 | the fraction digits of a numeral have a value in [0, 1), which is zero exactly when all the digits are zeros |
| Schema.Regex10Exact | internal/mcp/mcp.go:23 | `regex10` accepts exactly the numerals with one integer digit and an optional fraction whose value lies in [0, 1] |
| Schema.RegexIntFormatInt | internal/mcp/mcp.go:24 | `regexInt` accepts `%d` of an integer exactly when the integer is not negative |
| Schema.RegexIntAtoi | internal/mcp/mcp.go:24 | on a string `regexInt` accepts, `Atoi` gives a syntax error exactly when the string is empty; otherwise it reads the value of the digits, or gives a range error when the value exceeds the largest `int` |
| Router.TemplateSupported | internal/mcp/mcp.go:143-190 | the three patterns the device handlers pass are supported templates with `id` as their only placeholder |
| Router.ControllerFromPattern | internal/mcp/mcp.go:260-285 | the full outcome for every path. If the ID cannot be read, the reading's error is returned with no device call. If it can be read and the manager is nil, the result is the nil dereference. Otherwise there is exactly one lookup of that ID: a device the manager knows gives its controller, and an unknown one gives "Device %d not found" with that ID. The ID reading is tied to the regex-free `ResolveId` by `PathDeviceIdMatchesReference` |
| Router.PathDeviceIdMatchesReference | internal/mcp/mcp.go:268-277 | the ID is read through the regular expression exactly as the plain string reading does it: "not found in path" unless the path is the prefix, one slash-free segment and the suffix, "not an integer" unless `Atoi` accepts that segment, and otherwise the integer it spells |
| Router.PathOfIndex | internal/mcp/mcp.go:268-277 | a path built from `%d` of an index reads back as that index, for every route |
| Router.ResolveIndex | internal/mcp/mcp.go:268-284 | resolving such a path makes one lookup of that index and gives its controller, or "Device n not found" |
| Router.RoutesDisjoint | internal/mcp/mcp.go:143-190 | no path is a device path of two different routes |
| Router.BadPathTouchesNoDevice | internal/mcp/mcp.go:268-277 | a path without a readable ID fails with the wrapped reason, whether or not a manager is set, and makes no device call |
| Router.NilManagerPanics | internal/mcp/mcp.go:279 | with a nil manager, a path that does carry an ID panics on the dereference, before any lookup |
| Router.DeviceListHandler | internal/mcp/mcp.go:121-140 | the list fails with "Buttplug manager not initialized", and makes no device call, exactly when the manager is nil; otherwise it lists the devices once and returns them as JSON under `/devices` |
| Router.InfoOfIndex | internal/mcp/mcp.go:142-160 | the info resource of an index makes one lookup, then returns that device's JSON under the request URI, or the wrapped "not found" error |
| Router.RssiOfIndex | internal/mcp/mcp.go:162-187 | the RSSI resource of an index makes one lookup, then makes one RSSI query of that device and returns its level or its wrapped error |
| Router.BatteryOfIndex | internal/mcp/mcp.go:189-214 | the battery resource of an index makes one lookup, then makes one battery query of that device and returns its level or its wrapped error |
| Router.NotFoundMessageCarriesIndex | internal/mcp/mcp.go:280-282 | the "Device %d not found" text holds the index in a form `Atoi` reads back as that index |
| Router.DecodeVibrateArgs | internal/mcp/mcp.go:223-231 | "id must be set" exactly when `id` is not an `int`; "strength must be set" exactly when `id` is one but `strength` is not a `float64`; otherwise the values are those of the arguments, with `motor` 0 unless it is an `int` |
| Router.DecodeEncode | internal/mcp/mcp.go:223-231 | a call naming all three arguments with the expected types decodes to exactly those values |
| Router.MotorDefaultsToZero | internal/mcp/mcp.go:229-231 | a missing or non-integer `motor` selects motor 0 |
| Router.DecodeIgnoresOtherKeys | internal/mcp/mcp.go:221-231 | arguments other than `id`, `strength` and `motor` do not change the outcome |
| Router.VibrateReachesDevice | internal/mcp/mcp.go:223-247 | an argument error makes no device call; a nil manager panics before the lookup; a command is sent exactly when the arguments decode, the manager is set and the device exists, and then the calls are one lookup and one command to that device, setting only the chosen motor to the given strength |
| Router.VibrateDeviceFailures | internal/mcp/mcp.go:233-250 | with decoded arguments, an unknown device gives the unwrapped "Device %d not found" after exactly one lookup, and a device that refuses the command gives "Vibrate on device %d failed" with its reason, after the lookup and the command |
| Router.VibrateSucceeds | internal/mcp/mcp.go:245-252 | the tool returns its success text exactly when the command was sent and the device accepted it |
| Router.VibrateAnyStrength | internal/mcp/mcp.go:226-247 | the strength is not range-checked: any real strength, inside [0, 1] or not, is sent to an existing device as given |
| Router.JsonCallRejected | internal/mcp/mcp.go:223-225 | as written, every call whose numbers arrive as `float64` is refused with "id must be set", and makes no device call |
| Router.IntArgument | internal/mcp/mcp.go:223 | corrected integer argument: an `int` is taken as it is, and a whole `float64` within the 64-bit range is taken as its integer value; any value it returns is the argument itself |
| Router.JsonDecodeRoundTrip | internal/mcp/mcp.go:223-231 | with the corrected checks, a JSON call decodes to exactly the values it carries |
| Router.JsonDecodeExtends | internal/mcp/mcp.go:223-231 | the corrected checks accept every call the written checks accept, with the same device and strength |
| Router.JsonCallReachesDevice | internal/mcp/mcp.go:223-252 | with the corrected checks, a JSON call to an existing device sends the command it describes, and succeeds exactly when the device accepts it |

## Left out

- `url.Parse` (mcp.go:262-265) is not modelled. A `ReadRequest` holds the URI and the path already parsed from it, so its "error parsing uri" branch is not modelled.
- `json.Marshal` (mcp.go:128-131, 148-151, 173-178, 200-205) is not modelled. The bodies are the abstract `Body` values. Marshal's failure branches are not modelled, and neither is the failure on a NaN level.
- `RunRouter`, `registerTools`, the MCP server and its transports (mcp.go:41-109) are not modelled. `Router.ReadDeviceResource` stands in for the server's dispatch to the three device handlers.
- `internal/bp/manager.go` and `cmd/buttplug-mcp/main.go` are not part of this model. The `Manager` value stands in for the device manager and the connection.
- A `bp.Manager` that is set but not yet running has a nil device manager inside. That case is not modelled: `Some` means a working device manager.
- `buttplug.DeviceIndex(deviceID)` is modelled as the identity on the 64-bit `int`.
- Go's `int` is taken to be 64 bits wide. 32-bit platforms are not modelled.
- `float64` values (strength, RSSI and battery levels) are modelled as `real`. Rounding, NaN and infinities are not modelled.
- Strings are sequences of characters. The regular expressions in the source work on UTF-8 bytes, and a multi-byte rune is one character here.
- Pattern.Extract: defined only for `Supported` templates. Templates with regular-expression operators in their literal text, or with a placeholder not followed by `/` or the end, are not modelled. All the templates the source passes are supported (`Router.TemplateSupported`).
- Pattern.ExtractPattern: requires a `Supported` template, for the same reason.
- Router.ControllerFromPattern: takes the path, not the request URI, because `url.Parse` is not modelled.
- Router.VibrateReachesDevice: each controller's answer to a vibrate command is one fixed value. It does not depend on the motor or the strength.
- Cancellation through the `context.Context` arguments, logging and concurrent access to the global manager are not modelled.

## Findings

| source | as written | input that shows it | evidently intended | confidence | as-written member | corrected member |
|---|---|---|---|---|---|---|
| internal/mcp/mcp.go:223 | `id` (and `motor`, line 229) is read with a type assertion to Go `int`. The tool declares these arguments as JSON numbers (mcp.go:92, 102), and Go's JSON decoder gives every number in an untyped map as `float64`. | a `device_vibrate` call with arguments `{"id": 0, "strength": 0.5}` | accept a whole-number `id` or `motor` and vibrate device 0 at strength 0.5 | medium: depends on how the MCP library decodes arguments; not executed | Router.JsonCallRejected | Router.JsonDecodeRoundTrip |
