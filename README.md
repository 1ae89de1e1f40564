# CommonPackageSwiftUI core, modelled in Dafny

CommonPackageSwiftUI is a Swift package that iOS apps share. It provides a
Combine-based networking layer and a set of helpers around it.

The networking layer works in three steps:

- An endpoint (`APICall`) is turned into a `URLRequest`: the path is appended
  to the base URL, the HTTP method is set, headers are merged and the body is
  encoded.
- The request is sent.
- The decoded `Response<T>` envelope is classified. Code `200` is a success;
  any other code, or no code at all, is an `APIError`.

Around this layer the package offers:

- `SessionTask`, a list of in-flight URL session tasks.
- A cURL rendering of a request, used for debug logging.
- `ActivityIndicator`, a counter of demand requests minus terminations of the
  publishers it tracks.
- `ErrorTracker`, which turns a failing stream into a quiet one and reports
  the error.
- `CancelBag`, a set of cancellables.
- A generic `Stack` and `Queue`.
- Lenient JSON scalar decoders: `IntCodable`, `BoolCodable` and `ParserValue`.
- String validators and formatters.
- Byte, number and colour extensions.
- Build-configuration lookups in `Info.plist`.
- `Inspection`, a one-shot-callback registry for view tests.

The model has one Dafny module per Swift file:

| Swift file | Dafny module (file) |
|---|---|
| (Foundation types) | `Types` (types.dfy), `Urls` (url.dfy) |
| Utilities/APIError.swift | `ApiErrors` (api_error.dfy) |
| Utilities/Response.swift | `Responses` (response.dfy) |
| Utilities/APICall.swift | `ApiCall` (api_call.dfy) |
| APIServices/APIService.swift | `ApiService` (api_service.dfy) |
| Helpers/ActivityIndicator.swift | `Activity` (activity_indicator.dfy) |
| Helpers/ErrorTracker.swift | `Errors` (error_tracker.dfy) |
| Utilities/CancelBag.swift | `Cancellation` (cancel_bag.dfy) |
| Helpers/Generics.swift | `Generics` (generics.dfy) |
| Helpers/ParserHelpers.swift | `Parsing` (parser_helpers.dfy) |
| Extensions/StringExtension.swift | `Strings` (string_extension.dfy) |
| Extensions/BaseExtensions.swift | `BaseExtensions` (base_extensions.dfy) |
| Configurations/Configuration.swift | `Configuration` (configuration.dfy) |
| Utilities/Helpers.swift | `Helpers` (helpers.dfy) |

The Swift classes whose methods mutate fields become Dafny classes with
`modifies` clauses: `SessionTask`, `ActivityIndicator`, `ErrorTracker`,
`CancelBag` and `Inspection`. The structs `Stack` and `Queue`, whose methods
are `mutating`, are modelled as Dafny classes too. Each mutating method
states its new state in terms of the old one. For `ActivityIndicator`,
`CancelBag`, `Stack`, `Queue` and `Inspection`, that step is also a pure
function, and lemmas reason about it over whole traces of operations.
`ActivityIndicator.OnTrace` and `Cancellation.Replay` run such a trace on
an object. Everything else is modelled as datatypes and functions.

Combine streams are modelled as finite traces of events. The following
become parameters:

- the JSON encoder and decoder;
- `NSKeyedArchiver`;
- `String(data:encoding: .utf8)`;
- the order in which a dictionary yields its entries.

In these places the model follows the code as written:

- A response is a success when its code is 200. Whether it carries `data`
  is not checked.
- The activity counter has no floor and can go negative.
- `DataTask.body` returns no body for uploads and downloads. There is no
  query-string or multipart encoding.
- `trackActivity` counts one increment per demand, not per subscription.
- `urlRequest(baseURL:encoder:headers:)` is declared `throws`. `call` uses
  it without `try`, so `ApiService.Call` models the call as fallible: an
  encoder failure ends the call with an error.

All paths below are relative to the repository root.

## Model

| member | source | states |
|---|---|---|
| ApiErrors.Make | Sources/CommonPackageSwiftUI/Utilities/APIError.swift:12-15 | the error carries exactly the code and message it was given; both default to absent |
| ApiErrors.DefaultError | Sources/CommonPackageSwiftUI/Utilities/APIError.swift:17-19 | the default error has neither a code nor a message |
| ApiErrors.InitDefaultsIsDefaultError | Sources/CommonPackageSwiftUI/Utilities/APIError.swift:12-19 | the initializer with every argument defaulted gives the default error |
| ApiErrors.ErrorIsItsTwoFields | Sources/CommonPackageSwiftUI/Utilities/APIError.swift:8-10 | two errors are equal exactly when their code and message are equal |
| Responses.StatusCodeFromRaw | Sources/CommonPackageSwiftUI/Utilities/Response.swift:10-15 | a status code built from a raw value has that raw value |
| Responses.StatusCodeRawValues | Sources/CommonPackageSwiftUI/Utilities/Response.swift:10-15 | the raw values are 200, 400, 3005 and 3006, one per case; raw value and case convert both ways, and any other number gives no case |
| Responses.Pagination.CanLoadMore | Sources/CommonPackageSwiftUI/Utilities/Response.swift:23-25 | more can be loaded exactly when the current page (missing counts as 0) is below the total (missing counts as 0); with neither present, nothing more loads |
| Responses.Pagination.NextPage | Sources/CommonPackageSwiftUI/Utilities/Response.swift:27-32 | there is a next page exactly when the current page is known, and it is the current page plus one |
| Responses.Response.Error | Sources/CommonPackageSwiftUI/Utilities/Response.swift:42-44 | an envelope always yields an error, carrying the envelope's own code and message |
| ApiCall.MethodNamesUpperCaseAndInjective | Sources/CommonPackageSwiftUI/Utilities/APICall.swift:83-98 | every method name is non-empty upper-case ASCII, and distinct methods have distinct names |
| ApiCall.DataTask.Body | Sources/CommonPackageSwiftUI/Utilities/APICall.swift:36-45 | an encodable fails exactly when its encoder fails, and otherwise gives the encoded bytes; parameters give the archived bytes; an upload or a download gives no body |
| ApiCall.UrlRequest | Sources/CommonPackageSwiftUI/Utilities/APICall.swift:49-65 | fails exactly when the body encoding fails. Otherwise the request satisfies `Built`: the URL is the base URL with the path appended; the method is the endpoint's name; the body is the encoded body; the header fields are the defaults with the endpoint's own headers merged in, where the endpoint wins on a shared key and every other default is kept |
| ApiCall.BuiltIsDeterministic | Sources/CommonPackageSwiftUI/Utilities/APICall.swift:49-65 | the built request is fully determined by the endpoint, base URL, codecs and default headers: the order in which the header dictionary is merged does not matter |
| ApiCall.SuccessCodesAreTwoHundreds | Sources/CommonPackageSwiftUI/Utilities/APICall.swift:80 | the success range holds exactly the codes 200 to 299 |
| ApiService.Classify | Sources/CommonPackageSwiftUI/APIServices/APIService.swift:87-96 | no code gives the default error; a code other than 200 gives an error built from the envelope's code and message; code 200 passes the envelope through unchanged |
| ApiService.ErrorFallbackIsDead | Sources/CommonPackageSwiftUI/APIServices/APIService.swift:92 | the `?? defaultError()` fallback is never taken, because an envelope always yields an error |
| ApiService.ClassifySucceedsExactlyOnSuccessCode | Sources/CommonPackageSwiftUI/APIServices/APIService.swift:87-96 | classification succeeds if and only if the code is 200; the envelope's data plays no part; a failure keeps the envelope's code, and its message when a code is present |
| ApiService.RequestJSON | Sources/CommonPackageSwiftUI/APIServices/APIService.swift:78-99 | an upstream failure is passed on unchanged; otherwise the result is the classification of the decoded envelope |
| ApiService.Call | Sources/CommonPackageSwiftUI/APIServices/APIService.swift:65-73 | no request is built exactly when the endpoint's body fails to encode, and the call then fails with that encoding error; otherwise the request is the one `urlRequest` builds (`Built`: URL, method, merged headers and encoded body), and the call's result is the classified response to that request |
| ApiService.FirstIndexOf | Sources/CommonPackageSwiftUI/APIServices/APIService.swift:123 | finds nothing exactly when no task has the identifier; otherwise gives the lowest index of a task with that identifier |
| ApiService.RemoveAtFirstIndexIsRemoveFirst | Sources/CommonPackageSwiftUI/APIServices/APIService.swift:122-127 | removing at the found index is the same as removing the first matching task; with no match nothing changes, and otherwise exactly one task goes |
| ApiService.SessionTask.constructor | Sources/CommonPackageSwiftUI/APIServices/APIService.swift:114-116 | a new session list is empty |
| ApiService.SessionTask.Add | Sources/CommonPackageSwiftUI/APIServices/APIService.swift:118-120 | the task is appended, even if one with the same identifier is already present |
| ApiService.SessionTask.Remove | Sources/CommonPackageSwiftUI/APIServices/APIService.swift:122-127 | with no task of that identifier the list is unchanged; otherwise only the first such task is removed and the order of the rest is kept |
| ApiService.HeaderSegments | Sources/CommonPackageSwiftUI/APIServices/APIService.swift:142-144 | one segment per key, in iteration order, each in the form 'key: value' |
| ApiService.DataPart | Sources/CommonPackageSwiftUI/APIServices/APIService.swift:147-149 | a `--data` segment appears exactly when there is a body that decodes as non-empty UTF-8 |
| ApiService.OneHeaderSegmentPerField | Sources/CommonPackageSwiftUI/APIServices/APIService.swift:141-145 | whatever the iteration order, the rendering holds exactly as many header segments as there are header fields, and each field appears once with its value |
| ApiService.CURL | Sources/CommonPackageSwiftUI/APIServices/APIService.swift:131-154 | the rendering is "curl ", then the method, the URL, every header segment in iteration order and the data segment |
| ApiService.CURLStartsWithMethod | Sources/CommonPackageSwiftUI/APIServices/APIService.swift:134 | the rendering starts with "curl " and the method flag (`--request ` when pretty, `-X ` otherwise), followed by the method name |
| ApiService.CURLMethodDefaultsToGet | Sources/CommonPackageSwiftUI/APIServices/APIService.swift:134 | a request with no method renders as GET |
| Activity.Delta | Sources/CommonPackageSwiftUI/Helpers/ActivityIndicator.swift:24-34 | a demand adds one; a completion or a cancellation takes one away |
| Activity.ActivityIndicator.constructor | Sources/CommonPackageSwiftUI/Helpers/ActivityIndicator.swift:12-15 | a new indicator counts zero and is not loading |
| Activity.ActivityIndicator.Increment | Sources/CommonPackageSwiftUI/Helpers/ActivityIndicator.swift:36-41 | the count goes up by one |
| Activity.ActivityIndicator.Decrement | Sources/CommonPackageSwiftUI/Helpers/ActivityIndicator.swift:43-48 | the count goes down by one, with no lower bound |
| Activity.ActivityIndicator.OnEvent | Sources/CommonPackageSwiftUI/Helpers/ActivityIndicator.swift:17-34 | the count moves by the event's delta, and the indicator is loading exactly when the new count is positive |
| Activity.ActivityIndicator.OnTrace | Sources/CommonPackageSwiftUI/Helpers/ActivityIndicator.swift:24-48 | running the hooks over a trace moves the count by the trace's net change, which on a well-formed trace is the number of operations still in flight; `loading` then reports whether the new count is positive |
| Activity.NetDeltaIsInFlight | Sources/CommonPackageSwiftUI/Helpers/ActivityIndicator.swift:24-48 | when every operation demands once and terminates at most once after its demand, the net change of the counter is the number of operations still in flight |
| Activity.AllTerminatedRestoresCount | Sources/CommonPackageSwiftUI/Helpers/ActivityIndicator.swift:24-48 | once every tracked operation has terminated, the trace's net change is zero, so the counter is back where it started |
| Activity.RepeatedDemandIsCountedTwice | Sources/CommonPackageSwiftUI/Helpers/ActivityIndicator.swift:28-29 | two demands followed by one completion on the same subscription leave the counter one higher |
| Errors.FirstTerminal | Sources/CommonPackageSwiftUI/Helpers/ErrorTracker.swift:27-33 | the position of the first completion or failure, or -1 when there is none; everything before it is a value |
| Errors.QuietValues | Sources/CommonPackageSwiftUI/Helpers/ErrorTracker.swift:27-33 | a trace of values passes through one for one |
| Errors.CatchIntoTrackerMeaning | Sources/CommonPackageSwiftUI/Helpers/ErrorTracker.swift:27-33 | the quiet stream carries the values up to the first terminal event. A failure is reported to the tracker and becomes a quiet completion; a completion passes through with nothing tracked; nothing follows the first terminal event |
| Errors.CatchTracksAtMostOnce | Sources/CommonPackageSwiftUI/Helpers/ErrorTracker.swift:27-33 | at most one error is tracked, and the quiet stream never fails |
| Errors.ErrorTracker.constructor | Sources/CommonPackageSwiftUI/Helpers/ErrorTracker.swift:14-15 | a new tracker has reported nothing |
| Errors.ErrorTracker.Track | Sources/CommonPackageSwiftUI/Helpers/ErrorTracker.swift:21-23 | the error is appended to what the subject has sent |
| Errors.ErrorTracker.TrackError | Sources/CommonPackageSwiftUI/Helpers/ErrorTracker.swift:27-33 | a source trace yields its quiet counterpart, and the tracker has sent exactly the trace's tracked error on top of what it had sent before |
| Cancellation.CancelBag.constructor | Sources/CommonPackageSwiftUI/Utilities/CancelBag.swift:11-13 | a new bag is empty |
| Cancellation.CancelBag.Cancel | Sources/CommonPackageSwiftUI/Utilities/CancelBag.swift:15-17 | every stored cancellable is released and the bag is left empty |
| Cancellation.Store | Sources/CommonPackageSwiftUI/Utilities/CancelBag.swift:22-24 | the cancellable is added to the bag's set, and storing it twice keeps one copy |
| Cancellation.HeldIsStoredSinceLastCancel | Sources/CommonPackageSwiftUI/Utilities/CancelBag.swift:10-24 | after any sequence of stores and cancels, the bag holds exactly the cancellables stored since the last cancel |
| Cancellation.Replay | Sources/CommonPackageSwiftUI/Utilities/CancelBag.swift:10-24 | running a sequence of stores and cancels on a new bag leaves it holding exactly the handles stored since the last cancel |
| Cancellation.CancelThenStore | Sources/CommonPackageSwiftUI/Utilities/CancelBag.swift:15-24 | a cancellable stored after the last cancel is held |
| Generics.Stack.constructor | Sources/CommonPackageSwiftUI/Helpers/Generics.swift:10-11 | a new stack is empty |
| Generics.Stack.Push | Sources/CommonPackageSwiftUI/Helpers/Generics.swift:13-15 | the element goes on top and the rest of the stack is unchanged |
| Generics.Stack.Pop | Sources/CommonPackageSwiftUI/Helpers/Generics.swift:17-19 | gives the top element and removes it, or gives nil and leaves an empty stack unchanged |
| Generics.StackIsLifo | Sources/CommonPackageSwiftUI/Helpers/Generics.swift:10-20 | pushing a sequence and then popping as many times gives the elements back in reverse and restores the stack |
| Generics.PopEmptyStack | Sources/CommonPackageSwiftUI/Helpers/Generics.swift:17-19 | popping an empty stack any number of times gives nil every time |
| Generics.Queue.constructor | Sources/CommonPackageSwiftUI/Helpers/Generics.swift:25-26 | a new queue is empty |
| Generics.Queue.Enqueue | Sources/CommonPackageSwiftUI/Helpers/Generics.swift:28-30 | the element joins at the back |
| Generics.Queue.Dequeue | Sources/CommonPackageSwiftUI/Helpers/Generics.swift:32-38 | gives the front element and removes it, or gives nil for an empty queue |
| Generics.DrainQueue | Sources/CommonPackageSwiftUI/Helpers/Generics.swift:22-38 | dequeuing a queue as many times as it is long gives its elements in order and empties it |
| Generics.QueueIsFifo | Sources/CommonPackageSwiftUI/Helpers/Generics.swift:22-38 | elements enqueued behind a queue's contents come out after them, in the order they went in |
| Parsing.AsBoolIsCaseSensitive | Sources/CommonPackageSwiftUI/Helpers/ParserHelpers.swift:105-107 | only "1" and "true" are true; "TRUE", "True", "yes", "0" and "" are false |
| Parsing.AsInt | Sources/CommonPackageSwiftUI/Helpers/ParserHelpers.swift:109-111 | a parsed string is non-empty and starts with a sign or a digit |
| Parsing.NatDigits | Sources/CommonPackageSwiftUI/Helpers/ParserHelpers.swift:109-111 | the decimal rendering of a natural number is a non-empty digit string whose value is that number |
| Parsing.AsIntDescribeRoundTrip | Sources/CommonPackageSwiftUI/Helpers/ParserHelpers.swift:109-111 | every 64-bit integer parses back from its decimal description |
| Parsing.AsIntSound | Sources/CommonPackageSwiftUI/Helpers/ParserHelpers.swift:109-111 | whatever `asInt` accepts is one or more decimal digits, optionally after one sign, and its value is the digits' value with that sign |
| Parsing.AsIntAccepts | Sources/CommonPackageSwiftUI/Helpers/ParserHelpers.swift:109-111 | every digit string whose value fits in an `Int` is accepted, bare, after "+" or after "-", leading zeros included; a value too large gives nil |
| Parsing.AsIntRejects | Sources/CommonPackageSwiftUI/Helpers/ParserHelpers.swift:109-111 | an empty string, a bare sign, a leading character that is not a sign or a digit, and surrounding spaces all give nil |
| Parsing.IntCodableFrom | Sources/CommonPackageSwiftUI/Helpers/ParserHelpers.swift:60-70 | a JSON string is read with `asInt`; anything else is read as a 64-bit integer; null, booleans, fractions, arrays and objects give nil |
| Parsing.BoolCodableFrom | Sources/CommonPackageSwiftUI/Helpers/ParserHelpers.swift:83-95 | never nil. A boolean is itself; a string is read with `asBool`; an integer is true when positive; anything else is false |
| Parsing.FallbacksDiffer | Sources/CommonPackageSwiftUI/Helpers/ParserHelpers.swift:60-95 | where `IntCodable` gives nil, `BoolCodable` gives false; zero and negative numbers decode as false |
| Parsing.StrategyRoundTrip | Sources/CommonPackageSwiftUI/Helpers/ParserHelpers.swift:47-53 | decoding what was encoded gives the value back; a missing raw value re-encodes as a present raw value holding nil |
| Parsing.ParserValueFrom | Sources/CommonPackageSwiftUI/Helpers/ParserHelpers.swift:23-26 | the decoded wrapper stores the raw codable and exposes that codable's value |
| Parsing.EncodeIgnoresWrappedValue | Sources/CommonPackageSwiftUI/Helpers/ParserHelpers.swift:28-30 | encoding writes the raw codable, so reassigning the wrapped value does not change what is encoded |
| Parsing.DecodeField | Sources/CommonPackageSwiftUI/Helpers/ParserHelpers.swift:34-36 | a missing key or a null value gives nil rather than an error; otherwise the field is decoded from the key's value |
| Parsing.AutoIntField | Sources/CommonPackageSwiftUI/Helpers/ParserHelpers.swift:23-77 | an `AutoInt` field is absent exactly for a missing key or null; otherwise it exposes the value `IntCodable` decodes from the key's JSON value (`asInt` of a string), and encodes that raw codable back |
| Parsing.AutoIntFromString | Sources/CommonPackageSwiftUI/Helpers/ParserHelpers.swift:60-77 | an integer field holding the string "42" exposes 42 |
| Strings.TrimLeadingMeaning | Sources/CommonPackageSwiftUI/Extensions/StringExtension.swift:11-13 | trimming the front removes the longest prefix of characters in the set, and what is left is empty or starts outside the set |
| Strings.TrimTrailingMeaning | Sources/CommonPackageSwiftUI/Extensions/StringExtension.swift:11-13 | trimming the back removes the longest suffix of characters in the set, and what is left is empty or ends outside the set |
| Strings.TrimmingIsCore | Sources/CommonPackageSwiftUI/Extensions/StringExtension.swift:59-61 | trimming both ends gives the core of the string, from its first character outside the set to its last |
| Strings.TrimmingEmpty | Sources/CommonPackageSwiftUI/Extensions/StringExtension.swift:11-13 | trimming gives the empty string exactly when every character is in the set |
| Strings.IsBlankMeaning | Sources/CommonPackageSwiftUI/Extensions/StringExtension.swift:11-13 | a string is blank exactly when it consists only of whitespace; the empty string is blank |
| Strings.IsValidPasswordMeaning | Sources/CommonPackageSwiftUI/Extensions/StringExtension.swift:59-61 | a password is valid exactly when its core, without surrounding whitespace and newlines, is at least the minimum length; a positive minimum rejects an all-whitespace string |
| Strings.DigitsOnly | Sources/CommonPackageSwiftUI/Extensions/StringExtension.swift:53-55 | the result is made only of ASCII digits and is no longer than the input |
| Strings.DigitsOnlyAppend | Sources/CommonPackageSwiftUI/Extensions/StringExtension.swift:53-55 | removing non-digits works piecewise: the result for a concatenation is the concatenation of the results, a digit is kept and any other character dropped; so the result is exactly the digits of the input, in order |
| Strings.DigitsOnlyIsIdentity | Sources/CommonPackageSwiftUI/Extensions/StringExtension.swift:53-55 | removing non-digits leaves a string unchanged if and only if it is all ASCII digits |
| Strings.HasSpecialCharactersAppend | Sources/CommonPackageSwiftUI/Extensions/StringExtension.swift:63-76 | a string has a special character exactly when one of its parts does; a single character is special exactly when it is not an ASCII letter or digit; the empty string has none |
| Strings.IsValidPhoneMeaning | Sources/CommonPackageSwiftUI/Extensions/StringExtension.swift:44-57 | a phone number is valid if and only if it is 9 or 10 ASCII digits |
| Strings.InsertAt | Sources/CommonPackageSwiftUI/Extensions/StringExtension.swift:36-37 | the character lands at the offset; what stood before stays before it, and what stood after follows it |
| Strings.PhoneFormat | Sources/CommonPackageSwiftUI/Extensions/StringExtension.swift:33-42 | a string shorter than 7 is returned unchanged. Otherwise spaces go after the 3rd and the 6th original character, and the characters keep their order |
| Strings.DuplicateWhiteSpace | Sources/CommonPackageSwiftUI/Extensions/StringExtension.swift:78-84 | the closed range gives spacing + 1 spaces, and nothing else |
| BaseExtensions.MimeTypeTable | Sources/CommonPackageSwiftUI/Extensions/BaseExtensions.swift:171-187 | the first byte decides: FF jpeg, 89 png, 47 gif, 49 or 4D tiff. "undefine" comes back exactly for empty data or any other first byte |
| BaseExtensions.MimeTypeDependsOnFirstByte | Sources/CommonPackageSwiftUI/Extensions/BaseExtensions.swift:171-187 | two non-empty byte strings with the same first byte get the same MIME type |
| BaseExtensions.ToBool | Sources/CommonPackageSwiftUI/Extensions/BaseExtensions.swift:77-83 | an integer is true exactly when it is not zero |
| BaseExtensions.ReplaceCharIsPointwise | Sources/CommonPackageSwiftUI/Extensions/BaseExtensions.swift:17-19 | replacing one character with another keeps the length and changes exactly the matching positions |
| BaseExtensions.AppIdMeaning | Sources/CommonPackageSwiftUI/Extensions/BaseExtensions.swift:37-41 | no bundle identifier gives "none"; otherwise every '-' becomes '.' and nothing else changes; the result never contains '-' |
| BaseExtensions.HexRun | Sources/CommonPackageSwiftUI/Extensions/BaseExtensions.swift:119-120 | the scanned run is the longest prefix of the input made only of hex digits |
| BaseExtensions.HexPrefixLength | Sources/CommonPackageSwiftUI/Extensions/BaseExtensions.swift:119-120 | the scanner skips two characters exactly when the input starts with "0x" or "0X" followed by a hex digit, and none otherwise |
| BaseExtensions.ScanHexInt64 | Sources/CommonPackageSwiftUI/Extensions/BaseExtensions.swift:119-120 | the scanned value never exceeds `UInt64.max`; nothing scanned gives 0; below the maximum it is the value of the scanned digits, and a larger value saturates |
| BaseExtensions.ScannedDigits | Sources/CommonPackageSwiftUI/Extensions/BaseExtensions.swift:119-120 | the digits the scanner reads are the longest run of hex digits right after the optional prefix; a prefix is skipped only when a digit follows it, and a digit at the start is always read |
| BaseExtensions.HexValueBound | Sources/CommonPackageSwiftUI/Extensions/BaseExtensions.swift:119-120 | a string of n hex digits has a value below 16 to the power n |
| BaseExtensions.ScanHexBound | Sources/CommonPackageSwiftUI/Extensions/BaseExtensions.swift:119-120 | the scanned value of a string of length n is below 16 to the power n |
| BaseExtensions.ScanAllHex | Sources/CommonPackageSwiftUI/Extensions/BaseExtensions.swift:119-120 | up to eight hex digits scan to exactly their value |
| BaseExtensions.TrimmingKeepsHexCore | Sources/CommonPackageSwiftUI/Extensions/BaseExtensions.swift:118 | trimming non-alphanumerics from a run of hex digits with non-alphanumerics on both sides leaves exactly the digits |
| BaseExtensions.ColorChannelsInRange | Sources/CommonPackageSwiftUI/Extensions/BaseExtensions.swift:117-131 | for a trimmed length of 3, 6 or 8, every channel is in 0..255 |
| BaseExtensions.ColorChannelsRgb12 | Sources/CommonPackageSwiftUI/Extensions/BaseExtensions.swift:117-131 | three hex digits, with any non-alphanumerics such as "#" around them, give an opaque colour whose channels are those digits times 17 |
| BaseExtensions.ColorChannelsRgb24 | Sources/CommonPackageSwiftUI/Extensions/BaseExtensions.swift:117-131 | six hex digits, with any non-alphanumerics around them, give an opaque colour whose channels are the three two-digit bytes |
| BaseExtensions.ColorChannelsArgb32 | Sources/CommonPackageSwiftUI/Extensions/BaseExtensions.swift:117-131 | eight hex digits, with any non-alphanumerics around them, give alpha, red, green and blue as the four two-digit bytes, in that order |
| BaseExtensions.ColorChannelsHashRgb12 | Sources/CommonPackageSwiftUI/Extensions/BaseExtensions.swift:117-131 | "#RGB" gives alpha 255 and each digit times 17 |
| BaseExtensions.ColorChannelsHashRgb24 | Sources/CommonPackageSwiftUI/Extensions/BaseExtensions.swift:117-131 | "#RRGGBB" gives alpha 255 and the three bytes |
| BaseExtensions.ColorChannelsHashArgb32 | Sources/CommonPackageSwiftUI/Extensions/BaseExtensions.swift:117-131 | "#AARRGGBB" gives the four bytes as alpha, red, green and blue |
| Configuration.EnvironmentFromValueTable | Sources/CommonPackageSwiftUI/Configurations/Configuration.swift:22-31 | each of the five names maps to its environment, and every other string, including "debug_dev", maps to debugDev |
| Configuration.IsDebugUnlessRelease | Sources/CommonPackageSwiftUI/Configurations/Configuration.swift:18-31 | an environment read from a string is a debug one exactly when the string is not one of the three release names |
| Configuration.IsDebugCases | Sources/CommonPackageSwiftUI/Configurations/Configuration.swift:18-20 | the three debug cases are debug and the three release cases are not |
| Configuration.ValueFor | Sources/CommonPackageSwiftUI/Configurations/Configuration.swift:46-52 | succeeds exactly when the key holds a string, and gives that string; otherwise the error is `invalidValue`, never `missingKey` |
| Configuration.BuildConfiguration.Environment | Sources/CommonPackageSwiftUI/Configurations/Configuration.swift:54-60 | without an ENVIRONMENT entry the environment is debugDev; with one, it is read from its value |
| Configuration.BuildConfiguration.BaseAPIURL | Sources/CommonPackageSwiftUI/Configurations/Configuration.swift:62-86 | a URL comes back exactly when the API key is present; its host part is the scheme followed by "://" and the key's value, and its path is the first `path` option, if any |
| Configuration.BuildConfiguration.FileAPIURL | Sources/CommonPackageSwiftUI/Configurations/Configuration.swift:88-100 | a URL comes back exactly when FILE_API_URL is present, and it is always "http://" plus the value, whatever the environment |
| Configuration.Scheme | Sources/CommonPackageSwiftUI/Configurations/Configuration.swift:63-68 | the scheme is "https" exactly when some option is `hasSSL`, and "http" exactly when none is |
| Configuration.FirstPath | Sources/CommonPackageSwiftUI/Configurations/Configuration.swift:69-74 | there is no path exactly when no option is a `path`; otherwise it is the earliest `path` option's value |
| Configuration.OnlyFirstPathCounts | Sources/CommonPackageSwiftUI/Configurations/Configuration.swift:69-74 | `path` options after the first are ignored |
| Helpers.IsSuccessMeaning | Sources/CommonPackageSwiftUI/Utilities/Helpers.swift:19-26 | `isSuccess` is true exactly for the success case |
| Helpers.VisitStep | Sources/CommonPackageSwiftUI/Utilities/Helpers.swift:38-42 | a callback is invoked exactly when one is registered for the line, and it is that callback. Afterwards the line has no callback, and every other line keeps its own |
| Helpers.VisitTwiceInvokesOnce | Sources/CommonPackageSwiftUI/Utilities/Helpers.swift:38-42 | a second visit of the same line invokes nothing and changes nothing |
| Helpers.EachCallbackRunsAtMostOnce | Sources/CommonPackageSwiftUI/Utilities/Helpers.swift:30-42 | over any sequence of visits, only registered lines are invoked and no line is invoked twice |
| Helpers.Inspection.constructor | Sources/CommonPackageSwiftUI/Utilities/Helpers.swift:34-36 | the registry starts with the given callbacks |
| Helpers.Inspection.Visit | Sources/CommonPackageSwiftUI/Utilities/Helpers.swift:38-42 | the visit invokes the line's callback, if there is one, and removes it from the registry |

## Left out

- Networking is not modelled: the `URLSession` with its data-task publisher,
  the TLS challenge delegate (APIService.swift:49-61), threads and the main
  thread assertion, `receive(on:)`, and the `@Published`/`PassthroughSubject`
  timing when there are several subscribers. A response is a parameter of
  `ApiService.Call`.
- `extractUnderlyingError`, called at APIService.swift:84, is defined in none
  of the modelled files and is not part of this model. The model assumes it
  passes the upstream error on unchanged.
- The JSON encoder and decoder, `NSKeyedArchiver`, and the UTF-8 decoding of
  a body are function parameters. `customJSONEncodable`, `toData` and `json`
  are not modelled.
- URLs are a root string plus path components. `URL(string:)` is taken to
  succeed: there is no percent-encoding, validity check or normalisation.
  The force-unwrapped empty URL after `assertionFailure` becomes `None` in
  `BaseAPIURL` and `FileAPIURL`. `conformingTo: .url` has no effect.
- ApiCall.Built: header names are compared as exact strings. Foundation
  stores the fields assigned at APICall.swift:58 case-insensitively. So
  defaults `{"Content-Type": "a"}` merged with endpoint headers
  `{"content-type": "b"}` give one field in the source, and one `-H`
  segment in `cURL`. The model keeps both keys and renders two segments.
- Generics.Stack / Generics.Queue: Swift value semantics (copy on
  assignment) are not modelled. A Dafny class reference aliases, whereas
  after `var b = a; b.push(x)` the Swift struct `a` is unchanged.
- Dictionary iteration order is unspecified.
  - The cURL header loop takes the order as a parameter.
  - The header merge in `ApiCall.UrlRequest` picks keys in any order; the
    result does not depend on this order.
- Logging is left out: `LogManager`, `logData`, the debug-level cURL print
  in `call`, and `logError`.
- `UserDefaults`, `NotificationCenter`, `ScreenSize`, the views and the
  interactors are outside the core.
- `isValidEmailAddress` is left out. It uses an `NSPredicate` regular
  expression, whose regex engine is not modelled.
- `toPrice` is left out because it relies on `NumberFormatter` and locale
  formatting.
- The floating-point division by 255 in `Color(hex:)` is left out. The model
  stops at the integer channels 0..255.
- `isRunningTests` is left out because it reads the process environment.
- Characters are Unicode scalars; grapheme clusters are not modelled.
  - `CharacterSet.whitespaces` and `.whitespacesAndNewlines` are modelled as
    the Unicode space separators plus tab, plus the newline characters.
  - `CharacterSet.alphanumerics` in `Color(hex:)` is modelled as ASCII
    letters and digits.
- Strings.HasSpecialCharacters: modelled as "some character is not an ASCII
  letter or digit" over the whole string. The source searches only the range
  `NSMakeRange(0, self.count)`: `count` is the number of grapheme clusters,
  while the range is measured in UTF-16 units. For a string with fewer
  clusters than UTF-16 units, the tail is not searched. Example:
  `"abc\u{0301}"` has count 3 but 4 UTF-16 units, so the source never sees
  U+0301 and returns false, where `HasSpecialCharacters` is true.
- Activity.ActivityIndicator.Increment: Swift's trap when `Int` overflows is
  not modelled, because the counter is an unbounded integer. The same holds
  for `Decrement` and for `Responses.Pagination.NextPage`.
- BaseExtensions.ScanHexInt64: the value is clamped to `UInt64.max`, as
  `Scanner` does on overflow. The exact-value colour lemmas cover up to 8
  digits, which is every length the colour switch uses.
- Configuration.ValueFor: `Info.plist` is a map of string values. A key
  holding a value that is not a string is treated as absent, which the
  source also reports as `invalidValue`.
- Strings.DuplicateWhiteSpace: requires a non-negative spacing. The source's
  `0...spacing` range traps on a negative spacing.
