# common: logger, configuration, errors and HTTP server in Dafny

This project models the core of the `common` C++ library. The library has four parts:

- **Errors.** `common::error::Error` is an exception that carries the throwing function, line, file and text. `CurlError` is the libcurl variant of it.
- **Logger.** The logger reads its XML configuration with `config::ReadFile` and converts severities to and from their names. It registers the global attributes and formats each record as a row of bracketed fields. It builds a rotating file sink and an optional stdout sink. `Logger::Init`, `InitFromFile` and `DeInit` manage its once-only state.
- **HTTP server.** The server keeps a handler table with an insert-or-replace rule. `Dispatch` and the session's `Dispatcher` answer a request with the handler registered for its exact target and method, or else with a fixed 404. The `Start`/`Stop` lifecycle and the blocking per-connection loop `DoSession` are modelled too. So are the asynchronous `Session` chain `DoRead` → `HandleRead` → `Dispatcher` → `HandleWrite`, and the `MakeResponse*` builders.
- **Demo file server.** This is the static-file demo from the test directory: `mime_type`, `path_cat`, `handle_request` and its blocking `do_session` loop.

Files, one module each:

| file | module | what it models |
|---|---|---|
| `wrappers.dfy` | `Wrappers` | `Option` and `Result` with `:-` |
| `text.dfy` | `Text` | ASCII case mapping, last-occurrence search, and decimal printing and parsing of unsigned integers |
| `common_error.dfy` | `CommonError` | `Error`, its `what()` text, and the three `CurlError` constructors |
| `log_severity.dfy` | `LogSeverity` | severities, `SeverityToText`/`SeverityFromText`, and the sink filter |
| `log_config.dfy` | `LogConfig` | `Configuration` with its defaults, and `ReadFile` over an XML document given as a map from dotted paths to text |
| `log_format.dfy` | `LogFormat` | the record formatter `Format` and its parts |
| `log_init.dfy` | `LogInit` | `InitAttributes`, the sinks, `InitLog`, and the `Logger` state |
| `http_message.dfy` | `HttpMessage` | requests, responses, `need_eof()`, and the read and write outcomes of a connection |
| `response_builder.dfy` | `ResponseBuilder` | `MakeResponse` and the four status helpers |
| `handler_table.dfy` | `HandlerTable` | the handler multimap, `AddRequestHandler`'s rule, and `Dispatch` |
| `http_server.dfy` | `HttpServer` | the server flags, `Start`, `Stop`, and the `DoSession` loop |
| `demo_server.dfy` | `DemoServer` | `mime_type`, `path_cat`, `handle_request` and `do_session` of the demo |
| `async_session.dfy` | `AsyncSession` | `Session` and its completion handlers |

Some parts of the environment are parameters rather than modelled code:

- **Handlers.** Request handlers are opaque ids. The function `invoke` says what each one answers.
- **File system.** The file system is a function from paths to open outcomes: no file, another error, or an open file of a given size.
- **Severity order.** Severities are compared through a rank function. This stands for their numeric values.
- **Connection events.** Each pass of a connection loop is a `Round`: the value of the exit flag, how the read ended, and whether the write failed. Threads become sequential steps.

## Model

| member | source | states |
|---|---|---|
| CommonError.MakeError | src/error/error.cpp:19-33 | each getter returns the value the error was constructed with |
| CommonError.What | src/error/error.cpp:16-20 | `what()`: the format "%1% in line %2%, function %3%, file %4%\n" filled with the text, the decimal line, the function and the file; the message starts with the text, ends with a newline, and is 28 characters longer than its four fields |
| CommonError.WhatLayout | src/error/error.cpp:16-20 | every field sits at its position in `what()`: the text, " in line ", the decimal line, ", function ", the function, ", file ", the file, and the final "\n" |
| CommonError.WhatCarriesTextAndLine | src/error/error.cpp:16-20 | `what()` starts with the text, then " in line " and the decimal line |
| CommonError.WhatDistinguishesLines | src/error/error.cpp:17-20 | errors thrown on different lines have different `what()` texts |
| CommonError.LinesDistinguishWhat | src/error/error.cpp:17-20 | two errors equal in everything but their line have different `what()` texts |
| CommonError.CurlTextError | inc/curl/curl_error.h:29-40 | the text is "Curl error: " followed by the given text; the location is kept |
| CommonError.CurlCodeError | inc/curl/curl_error.h:42-45 | the text is "Curl error: " followed by the curl message for the code |
| CommonError.CurlSetOptError | inc/curl/curl_error.h:28-35 | the text names the value, the option number in decimal, and the curl message |
| CommonError.CurlCodeErrorIsTextError | inc/curl/curl_error.h:37-45 | the code constructor equals the text constructor applied to the code's message |
| CommonError.CurlTextErrorRecoversText | inc/curl/curl_error.h:37-40 | the original text can be recovered from the error text by dropping the prefix |
| Text.ToUpper | src/logger/config.cpp:56-58 | `boost::to_upper`: same length, each ASCII lower-case letter raised, every other character kept |
| Text.ToLower | src/logger/config.cpp:97-99 | `boost::to_lower`, also the folding inside the demo's `iequals`: same length, each ASCII upper-case letter lowered, every other character kept |
| Text.ToLowerOfNoUpper | src/logger/config.cpp:97-99 | lower-casing leaves a string without upper-case ASCII letters unchanged |
| Text.NatToString | src/error/error.cpp:17-20 | how `boost::format` prints an unsigned line number: a non-empty string of decimal digits without a leading zero |
| Text.ParseNat | src/logger/config.cpp:77-78 | the digits an unsigned stream read accepts: a value exactly for a non-empty string of decimal digits |
| Text.ParseNatToString | src/logger/config.cpp:77-78 | decimal parsing inverts decimal printing for every natural number |
| Text.NatToStringInjective | src/error/error.cpp:20 | different numbers print differently |
| Text.IntToString | src/logger/logger.cpp:202 | how the `int` line attribute is printed: a '-' first exactly for a negative value, followed by the decimal magnitude |
| Text.LastIndexOf | test/test_httpserver_demo.cpp:40-44 | `rfind`: None iff the character is absent; otherwise the position holds it and nothing after it does |
| LogSeverity.ToText | src/logger/utility.cpp:20-41 | every severity has one of the seven upper-case names |
| LogSeverity.FromText | src/logger/utility.cpp:43-75 | succeeds exactly on the seven names; any other text fails with "Unknown name severity '<name>'" |
| LogSeverity.FromTextToText | src/logger/utility.cpp:20-75 | parsing a severity's name gives the severity back |
| LogSeverity.ToTextFromText | src/logger/utility.cpp:20-75 | printing a parsed severity gives the name back |
| LogSeverity.ToTextInjective | src/logger/utility.cpp:20-41 | different severities have different names |
| LogSeverity.LowerCaseNamesRejected | src/logger/utility.cpp:43-75 | the comparison is case-sensitive: "info", "fatal", "trace" and "debug" are rejected |
| LogSeverity.Filter | src/logger/logger.cpp:211-219 | a record without a severity never passes |
| LogSeverity.FilterPassesLevel | src/logger/logger.cpp:211-219 | a record at the sink's level passes |
| LogSeverity.FilterMonotone | src/logger/logger.cpp:211-219 | raising the sink's level never blocks a record that passed |
| LogSeverity.FilterThreshold | src/logger/logger.cpp:211-219 | if a record passes, every record of the same or lower rank passes too |
| LogConfig.Default | inc/cmntype/logger/config.h:27-68 | the defaults: stdout on, the file name "geocoder_%Y-%m-%d_%H-%M-%S.%N.log", time rotation every 3600 s with size 10, UTC, empty level, the current directory, all six attributes on |
| LogConfig.FindAttribute | inc/cmntype/logger/config.h:29 | a lookup in the attribute map: None iff the name is absent, else the stored flag |
| LogConfig.NodeValue | src/logger/config.cpp:51-58 | a node is read iff it is present |
| LogConfig.ParseBool | src/logger/config.cpp:53 | the stream translator's `bool`: true exactly for "true" or a digit string of value 1, false exactly for "false" or a digit string of value 0 |
| LogConfig.ParseBoolSpellings | src/logger/config.cpp:53 | "01" and "001" read as true and "00" as false; "2", "10", "True" and "" are no `bool` |
| LogConfig.OptionalBool | src/logger/config.cpp:53 | `get("stdout", false)`: the element's value when present and readable as a `bool`, the default otherwise |
| LogConfig.PathFromText | src/logger/config.cpp:54 | how `get<fs::path>` reads the workdir: blank text is no path; an unquoted result is a non-empty word without white space |
| LogConfig.PlainPathReadVerbatim | src/logger/config.cpp:54 | a path without white space and without a leading '"' is read as written |
| LogConfig.ReadQuotedEscaped | src/logger/config.cpp:54 | the quoted reader undoes '&' escaping and stops at the closing '"' |
| LogConfig.PathQuotedRoundTrip | src/logger/config.cpp:54 | any path written quoted and escaped, as `operator<<` writes it, is read back unchanged |
| LogConfig.UnquotedSpaceRejected | src/logger/config.cpp:54 | an unquoted text with white space between two words is no path |
| LogConfig.EmptyPathRejected | src/logger/config.cpp:54 | an empty `<workdir/>` is no path |
| LogConfig.BlankInPathRejected | src/logger/config.cpp:54 | `/var/my logs` unquoted is no path |
| LogConfig.QuotedPathUnquoted | src/logger/config.cpp:54 | `"/var/my logs"` in quotes reads as `/var/my logs` |
| LogConfig.SurroundingSpaceDropped | src/logger/config.cpp:54 | white space around the path is dropped |
| LogConfig.RequiredPath | src/logger/config.cpp:54 | `get<fs::path>`: a missing element is a no-such-node error, text that does not read as a path a bad-data error, otherwise the path read |
| LogConfig.ParseUnsigned | src/logger/config.cpp:77-78 | a number is read iff the text is decimal digits and the value fits the width |
| LogConfig.RequiredText | src/logger/config.cpp:54-60 | a required node yields its text, or the no-such-node error naming it |
| LogConfig.RequiredUnsigned | src/logger/config.cpp:77-78 | a required number is read iff present, decimal and within range |
| LogConfig.ParseTimeType | src/logger/config.cpp:60-73 | "utc" and "local" map to the two time types; anything else is the invalid-time error naming the value |
| LogConfig.ReadRotation | src/logger/config.cpp:75-93 | without a rotation node the rotation is unchanged; with one, it succeeds iff period, size and type are well formed, and sets all three |
| LogConfig.OverrideAttributes | src/logger/config.cpp:95-105 | the attribute names are kept; a flag changes only where `attributes.<lower-case name>` is a boolean |
| LogConfig.Rethrow | src/logger/config.cpp:114-121 | runtime errors pass through unchanged; any other exception becomes "Is not read file '<file>' (<what>)" |
| LogConfig.RethrowIdempotent | src/logger/config.cpp:114-121 | rethrowing twice is rethrowing once, and the reader's own errors are never rewrapped |
| LogConfig.ReadFile | src/logger/config.cpp:37-121 | fails on a missing file or section; succeeds iff the document is well formed; the result holds the upper-cased level, the workdir as read as a path, and the stdout, filename, time, rotation and attribute values the document gives |
| LogConfig.ToUpperHasNoLower | src/logger/config.cpp:57-58 | the level read from a file has no lower-case ASCII letter |
| LogFormat.Print | src/logger/logger.cpp:87-91 | the value enclosed in one pair of brackets |
| LogFormat.FormatAttribute | src/logger/logger.cpp:93-109 | non-empty iff the attribute is switched on and the record has it; then it is the bracketed value |
| LogFormat.LastComponent | src/logger/logger.cpp:111-128 | the part of the path after its last '/' |
| LogFormat.FormatFileName | src/logger/logger.cpp:111-128 | printed iff "File" is a configured attribute, whatever its flag, and the record has a file; then it is the bracketed last component |
| LogFormat.Format | src/logger/logger.cpp:182-209 | the output ends with ": " and the message |
| LogFormat.Fields | src/logger/logger.cpp:182-209 | one to seven fields, and the severity name is always one of them |
| LogFormat.FormatIsBracketedFields | src/logger/logger.cpp:182-209 | the output is the shown fields, each bracketed, in order, then ": " and the message |
| LogFormat.BracketedAppend | src/logger/logger.cpp:187-206 | formatting two runs of fields is formatting their concatenation |
| LogFormat.SwitchedOffAttributeNotPrinted | src/logger/logger.cpp:93-109 | an attribute switched off is never printed |
| LogFormat.FileNameIgnoresSwitch | src/logger/logger.cpp:111-128 | the file name field ignores the value of its switch |
| LogFormat.AllSwitchesOff | src/logger/logger.cpp:182-209 | with every switch off, the output is the severity, the file name and the message |
| LogFormat.SetAttribute | src/logger/config.cpp:95-105 | changes only the flag of the named attribute |
| LogFormat.Emit | src/logger/logger.cpp:182-219 | a sink writes a record iff it has a severity that passes the filter; then it writes the formatted record |
| LogInit.InitAttributes | src/logger/logger.cpp:131-179 | succeeds iff every enabled name is known; a failure names the first enabled unknown name; it registers exactly the enabled process-id, thread-id and clock attributes, with the clock chosen by the time type |
| LogInit.ReadConfigurationAttributesKnown | src/logger/logger.cpp:131-179 | a configuration with the reader's attribute names always registers successfully |
| LogInit.RotationPolicyOf | src/logger/logger.cpp:232-246 | time rotation uses the period; size rotation uses size × 1 MiB, wrapped to 64 bits |
| LogInit.SizeLimitExact | src/logger/logger.cpp:240 | below 2^44 MiB the byte limit is exact and gives the size back |
| LogInit.SizeLimitWraps | src/logger/logger.cpp:240 | a size of 2^44 MiB wraps to a zero-byte limit |
| LogInit.PathJoin | src/logger/logger.cpp:224-225 | `workdir /= filename`: the directory is kept and the file name appended, with one '/' between them exactly when the directory is non-empty without a trailing '/' and the file name is non-empty without a leading '/' |
| LogInit.AbsoluteFileNameAppended | src/logger/logger.cpp:224-225 | an absolute file name is appended, not put in place of the directory: "/var/log" and "/x.log" give "/var/log/x.log" |
| LogInit.PathJoinKeepsFileName | src/logger/logger.cpp:224-225 | a file name without '/' survives the join as the last component |
| LogInit.CreateFileSink | src/logger/logger.cpp:222-256 | succeeds iff the level is a severity name; the sink writes to `workdir` joined with `filename` as `/=` joins them, with the rotation policy, at that level |
| LogInit.CreateStdoutSink | src/logger/logger.cpp:258-270 | succeeds iff the level is a severity name; a stdout sink at that level without rotation |
| LogInit.InitLog | src/logger/logger.cpp:275-296 | succeeds iff the attributes are known and the level is a name; the file sink comes last, after a stdout sink when stdout is on; every sink is at the configured level |
| LogInit.InitFromFile | src/logger/logger.cpp:306-314 | once initialised it does nothing; a failure leaves the state unchanged; a success records the sinks |
| LogInit.Init | src/logger/logger.cpp:299-304 | the default configuration never changes the initialised flag |
| LogInit.DeInit | src/logger/logger.cpp:316-327 | the state is uninitialised with no sinks |
| LogInit.InitFromFileOnce | src/logger/logger.cpp:306-314 | after a successful initialisation, any further `InitFromFile` is ignored |
| LogInit.DeInitReenables | src/logger/logger.cpp:306-327 | after `DeInit` the logger can be initialised again |
| LogInit.DefaultInitFails | src/logger/logger.cpp:299-304 | `Init` always fails, because the default level "" is no severity name |
| LogInit.ReadFileSetsUpIffLevelIsName | src/logger/config.cpp:56-58 | a configuration read from a file sets up the logger iff its upper-cased level is a severity name |
| ResponseBuilder.MakeResponse | src/http/http_response.cpp:21-36 | fails iff the status forbids a body and data is given; otherwise it sets the status, version, headers and keep-alive, and a Content-Length equal to the data length unless the status forbids a body |
| ResponseBuilder.MakeResponseTotal | src/http/http_response.cpp:21-36 | every status that allows a body yields a response |
| ResponseBuilder.MakeResponseClosesIffNotKeepAlive | src/http/http_response.cpp:21-36 | a built response closes the connection iff the request did not ask for keep-alive |
| ResponseBuilder.Build | src/http/http_response.cpp:38-68 | helper: the `MakeResponse` call the four status helpers share, for a status that allows a body, is the successful response |
| ResponseBuilder.NotFound | src/http/http_response.cpp:38-44 | the 404 response for the given data |
| ResponseBuilder.BadRequest | src/http/http_response.cpp:46-52 | the 400 response for the given data |
| ResponseBuilder.NotAllowed | src/http/http_response.cpp:54-60 | the 405 response for the given data |
| ResponseBuilder.ServerError | src/http/http_response.cpp:62-68 | the 500 response for the given data |
| ResponseBuilder.HelpersDifferOnlyInStatus | src/http/http_response.cpp:38-68 | the four helpers agree in everything but the status |
| HandlerTable.FindLast | src/http/http_server.cpp:186-200 | the last entry for the URI and method, or None iff there is none |
| HandlerTable.Lookup | src/http/http_server.cpp:186-200 | None iff nothing is registered for the URI and method; otherwise a registered handler |
| HandlerTable.Add | src/http/http_server.cpp:250-280 | replaces the handler in place if the URI and method are registered, else appends one entry; other entries are untouched; the new handler answers |
| HandlerTable.AddFrame | src/http/http_server.cpp:250-280 | registration changes no answer for any other URI or method |
| HandlerTable.AddKeepsUnique | src/http/http_server.cpp:258-276 | the table never holds two entries for one URI and method |
| HandlerTable.LookupIsAsMap | src/http/http_server.cpp:186-200 | lookup agrees with reading the table as a map, later entries overriding |
| HandlerTable.AddIsMapUpdate | src/http/http_server.cpp:250-280 | registration is a map update of the table read as a map |
| HandlerTable.Build | src/http/http_server.cpp:250-280 | a table built by registrations has no duplicates |
| HandlerTable.BuildAnswersLastRegistration | src/http/http_server.cpp:250-280 | a built table answers with the last registration for each URI and method |
| HandlerTable.NotFoundResponse | src/http/http_server.cpp:208-213 | the fixed 404: "application/json", "UTF-8", "not found", with the request's keep-alive |
| HandlerTable.Dispatch | src/http/http_server.cpp:176-216 | the registered handler answers; without one the answer is the fixed 404 |
| HandlerTable.DispatchAfterAdd | src/http/http_server.cpp:176-281 | after registration, the new handler answers its URI and method |
| HandlerTable.EmptyHandlerRouteIsNotFound | src/http/http_server.cpp:201-213 | an empty `std::function` registered over an existing route replaces its handler in place, and the route then answers the fixed 404, because `Dispatch` tests `if (handler)` |
| HandlerTable.WrongMethodIsNotFound | src/http/http_server.cpp:186-213 | a URI known only under other methods gets 404, never 405 |
| HttpServer.Start | src/http/http_server.cpp:83-127 | clears the exit flag and starts the acceptor thread; the acceptor opens iff the bind succeeds; `stopped_`, the pool and the handlers are untouched |
| HttpServer.Stop | src/http/http_server.cpp:218-243 | does nothing once stopped; otherwise sets exit, closes the acceptor, joins the thread, stops the pool and sets `stopped_` |
| HttpServer.AddRequestHandler | src/http/http_server.cpp:250-280 | only the handler table changes |
| HttpServer.StopIdempotent | src/http/http_server.cpp:218-243 | stopping twice is stopping once |
| HttpServer.PoolStopsWithServerInvariant | src/http/http_server.cpp:83-243 | every operation keeps a stopped server's pool stopped |
| HttpServer.RestartIsNeverStopped | src/http/http_server.cpp:83-92 | a server restarted after `Stop` is still marked stopped, has no running pool, and ignores a further `Stop` |
| HttpServer.ServerSession | src/http/http_server.cpp:130-174 | responses are written one per request read, in order; the exit flag or end of stream shuts down; a read error drops; write failures and close flags do not end the loop |
| HttpServer.ServerSessionIgnoresWrites | src/http/http_server.cpp:162-168 | write failures make no difference to the loop |
| HttpServer.ServerSessionIgnoresClose | src/http/http_server.cpp:136-169 | after a response that asks to close, the next request is still answered |
| DemoServer.Extension | test/test_httpserver_demo.cpp:40-47 | the suffix from the last '.', or empty iff the path has none |
| DemoServer.LookupMime | test/test_httpserver_demo.cpp:49-70 | the `iequals` tests in table order: the first entry whose extension matches ignoring case gives its type; with no match the result is "application/text", and any other result comes from a matching entry |
| DemoServer.MimeType | test/test_httpserver_demo.cpp:37-71 | `mime_type`: `LookupMime` over the table applied to the path's `Extension`; the first entry matching the extension ignoring case gives the type, and a path matching none gets "application/text" |
| DemoServer.LookupMimeIgnoresCase | test/test_httpserver_demo.cpp:49-70 | extensions that differ only in case get the same type |
| DemoServer.MimeTypeIgnoresCase | test/test_httpserver_demo.cpp:37-71 | paths whose extensions differ only in case get the same type |
| DemoServer.HtmlInEitherCase | test/test_httpserver_demo.cpp:37-71 | every file name ending in ".HTML" or ".html" gets "text/html" |
| DemoServer.HtmlListed | test/test_httpserver_demo.cpp:49-50 | the second entry of the table is ".html" with type "text/html", and both spellings match it ignoring case |
| DemoServer.ExtensionOfSuffix | test/test_httpserver_demo.cpp:40-47 | a path ending in a '.'-led suffix with no other '.' has that suffix as its extension |
| DemoServer.NoDotIsDefault | test/test_httpserver_demo.cpp:40-44 | a path without '.' gets "application/text" |
| DemoServer.MimeTableLowerCase | test/test_httpserver_demo.cpp:49-70 | every extension in the table is written without upper-case letters |
| DemoServer.MimeTableDistinct | test/test_httpserver_demo.cpp:49-70 | no extension appears twice in the table |
| DemoServer.MimeTypeOfListedExtension | test/test_httpserver_demo.cpp:37-71 | a path whose extension is listed, in any letter case, gets exactly that entry's type |
| DemoServer.RootPrefix | test/test_httpserver_demo.cpp:93-97 | one trailing '/' is dropped from the root |
| DemoServer.PathCat | test/test_httpserver_demo.cpp:75-104 | an empty base gives the path; otherwise the root without its trailing '/' followed by the path |
| DemoServer.RequestedPath | test/test_httpserver_demo.cpp:160-178 | a file is looked up iff the method is GET or HEAD and the target is legal |
| DemoServer.RequestedPathUnderRoot | test/test_httpserver_demo.cpp:167-178 | the looked-up path is the root plus the target, and "index.html" is added exactly when the target ends in '/'; it has no "..", so it cannot climb out of the root |
| DemoServer.SlashPartAfterRoot | test/test_httpserver_demo.cpp:167-178 | a root followed by a legal target and its suffix keeps the root as prefix, then '/', then exactly the target and suffix, free of ".." |
| DemoServer.NoDotDotAfterSlash | test/test_httpserver_demo.cpp:167-178 | adding "index.html" after '/' to a target without ".." adds no ".." |
| DemoServer.TextResponse | test/test_httpserver_demo.cpp:117-158 | a text/html response with the request's version and keep-alive, the Server field, and the text's length |
| DemoServer.HandleRequest | test/test_httpserver_demo.cpp:109-224 | unknown methods and illegal targets get 400; a missing file 404; another open error 500; HEAD gets the headers with the size; GET gets the file body with its MIME type |
| DemoServer.HandleRequestClosesIffNotKeepAlive | test/test_httpserver_demo.cpp:109-224 | every demo response closes the connection iff the request did not ask for keep-alive |
| DemoServer.DemoSession | test/test_httpserver_demo.cpp:269-317 | one response per request read, in order; the loop stops after a response that asks to close or a failed write; end of stream shuts down and other errors drop |
| DemoServer.DemoStopsAfterClose | test/test_httpserver_demo.cpp:269-317 | after a request without keep-alive, one response is sent and the connection is shut down |
| AsyncSession.NewSession | src/http/session.cpp:62-69 | the session copies the handler table it is given |
| AsyncSession.DoRead | src/http/session.cpp:76-83 | `req_` is reset and a read is pending |
| AsyncSession.DoClose | src/http/session.cpp:124-128 | only the phase changes, to shut down |
| AsyncSession.Dispatcher | src/http/session.cpp:23-60 | the table's answer becomes `res_` and is written, with `need_eof()` as the close flag |
| AsyncSession.HandleRead | src/http/session.cpp:85-102 | end of stream closes, another error abandons, and a request is dispatched once |
| AsyncSession.HandleWrite | src/http/session.cpp:104-122 | a failed write abandons; the close flag closes; otherwise `res_` is released and the next read starts |
| AsyncSession.Drive | src/http/session.cpp:71-128 | a driven session ends reading, shut down or abandoned, with its table unchanged |
| AsyncSession.DriveIsDemoLoop | src/http/session.cpp:23-128 | the asynchronous session sends the same responses and ends the same way as the demo's blocking loop, with the table answering |
| AsyncSession.SessionHonoursCloseServerLoopDoesNot | src/http/session.cpp:104-122 | after a response that asks to close, the session stops after one response and the server loop sends two |
| AsyncSession.SnapshotIgnoresLaterRegistrations | src/http/session.cpp:62-69 | a session keeps answering with the table it copied, even after the server registers a new handler |

## Left out

- Threads, `std::atomic`, the shared mutex and the thread pool are not modelled. Each operation is one sequential step, and the pool is a flag that says whether it still runs.
- The acceptor loop `Run` is not modelled as a loop. Sockets and the 30 s wait between accepts are left out too. `Start` records only whether the bind succeeded. The bind error is caught and logged inside `Run`, so `Start` never reports a failure.
- Beast parsing and serialisation are not modelled, nor are chunked bodies or the socket timeouts. A request is the record the parser produces, and a read or write reports only how it ended.
- The Boost.Log core, `add_common_attributes` and the global attribute registry are left out. Registrations made before an `InitAttributes` error stay in the registry; the model returns only the failure.
- The "unknown time type" and "unknown type rotation" throws in `CreateFileSink` and `InitAttributes` cannot be reached, because both enumerations have two values. The unreachable "Unknown severity" throw of `SeverityToText` is left out for the same reason.
- XML parsing and `fs::exists` are not modelled. `ReadFile` takes whether the file exists and the parsed document as a map from dotted paths to node text.
- LogConfig.ParseBool and LogConfig.ParseUnsigned do not model the stream translator's skipping of white space or its acceptance of a '+' or '-' sign. ParseBool reads "true", "false" and digit strings of value 0 or 1; ParseUnsigned reads digit strings.
- LogConfig.PathFromText follows Boost.Filesystem's `operator>>` for paths (`boost::io::quoted` with '&' as escape) in the classic locale; that code belongs to Boost and is not part of this model's sources.
- LogFormat.LastComponent and LogInit.PathJoin do not model root names or a trailing '/'. PathJoin follows the `/=` of Boost.Filesystem version 3, the library's default.
- The `Stopwatch` utility and the libcurl wrapper `LibCurl` are outside this model.
- The MSVC branch of the demo's `path_cat` is not modelled, only the POSIX one.
- The throw-site function, file and line that `THROW_COMMON_ERROR` captures are parameters. Where the model raises an error itself, it keeps only the text.
- An empty `std::function` registered as a handler is never called: `Dispatch` and the session's `Dispatcher` test `if (handler)` and send the fixed 404 instead. The model expresses such a handler as an id whose `invoke` answers `NotFoundResponse`; HandlerTable.EmptyHandlerRouteIsNotFound shows that registering one turns its route into a 404.
- Severities have no numeric values. Filtering compares them through a rank function given as a parameter.
- The text of `BOOST_BEAST_VERSION_STRING` is the abstract value `BeastVersion`.
- LogInit.Init does not state the configuration it builds beyond the initialised flag. LogInit.DefaultInitFails proves that this configuration always fails.
- AsyncSession.RunSession has no row: it only performs the first `DoRead`.
