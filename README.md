# CHAOS client service: command correlation and client builds

This project models, in Dafny, the controller side of CHAOS's remote command
channel, `services/client/client_service.go`, and proves properties of the model.

- **Command dispatch and correlation.** `SendCommand` decodes an agent's
  base64 address and publishes a `payload.Data` record under it in the shared
  payload store. It then polls the store every two seconds until the delivery
  path has written the agent's reply into that record. `HandleResponse`
  post-processes the reply by command type: a `"screenshot"` reply is written
  to a PNG file and replaced by the file's path. The reply is then shaped into
  an error, the `NoContent` marker or the reply text. A deferred `Remove`
  drops the record on every return.
  Module `Payload` holds the record (`Data`) and the store (`Service`) as
  classes that are updated in place. Module `Dispatcher` holds the dispatcher
  as methods. `SendOutcome` is a pure function that specifies the dispatcher's
  outcome, and the lemmas about the dispatch are stated on it.
- **Client builds.** `BuildClient` checks the server address, normalises the
  requested file name, issues a token, resolves the output file name and runs
  one `go build` through the shell. Module `Builder` holds these steps.
  `FilenameFor` and `BuildCommand` specify the file name and the command text.
  A ghost trace of the steps taken states the order of the checks.
- **Go library behaviour the shaping depends on.** Module `Strings` holds
  `strings.TrimSpace` with Go's `unicode.IsSpace` set. Module `Errors` holds
  `fmt.Errorf` called with a format string and no arguments (`FormatNoArgs`)
  and the error values the service returns.

The collaborators whose code is not in this file are parameters of the model:
`utils.DecodeBase64`, `image.WritePNG`, `utils.NormalizeString`,
`isValidIPAddress`/`isValidURL` (`net.ParseIP`, `url.ParseRequestURI`),
`AuthService.GetAuthConfig`, `jwt.NewToken`, `uuid.New` and the build process.
The delivery path is the sequence `arrivals`, with one entry per two-second
pause. Each entry is `Quiet`, or a `Reply` that `Payload.Service.Deliver`
writes into the stored record. The delivery code is not in this file, so a
`Reply` also says what the delivery path leaves in the record's `Request`
field, which may differ from the command that was sent.

## Where the code departs from its design

The model follows the code in each of these places.

- Line 61 discards the error from `HandleResponse`. When a screenshot cannot be
  written, `payloadData` stays nil and line 66 dereferences it. The write error
  does not abort the call with an error: the call panics
  (`Dispatcher.ScreenshotWriteFailurePanics`). The deferred `Remove` still runs.
- Line 68 passes the reply to `fmt.Errorf` as a format string. The reply
  becomes the error text only when it holds no `%` (`Errors.Errorf`).
  Otherwise fmt rewrites its directives: `"100% done"` becomes
  `"100%!d(MISSING)one"` (`Errors.PercentTextIsRewritten`).
- Line 59 re-stamps `Request` through the pointer returned by the store. The
  re-stamp therefore writes into the shared record, after whatever the delivery
  path left there. `HandleResponse` reads it right after, so post-processing is
  always keyed on the caller's own command. The loop invariant of
  `Dispatcher.SendCommand` depends on that write.
- Line 68 also treats a final `"%."` as a directive whose verb is `.`: fmt
  reads a `.` as the start of a precision only when another character
  follows it. `"50%."` becomes `"50%!.(MISSING)"` (`Errors.TrailingDotIsVerb`).
- An unknown OS target is passed to the build as `GOOS=unknown`. No check
  rejects it before the process runs.

## Model

| member | source | states |
|---|---|---|
| Payload.Data.constructor | services/client/client_service.go:49-51 | a published record carries the caller's request, no response and neither flag |
| Payload.Service.Set | services/client/client_service.go:49 | publishing replaces the record for that address and leaves every other address alone |
| Payload.Service.Get | services/client/client_service.go:58 | a lookup yields the record stored for the address, or nil exactly when none is stored |
| Payload.Service.Remove | services/client/client_service.go:52 | removal drops that address's record and keeps every other record |
| Payload.Service.Deliver | services/client/client_service.go:57-60 | the delivery path writes the reply, its error flag and some Request value into the stored record, raises HasResponse and touches no other record |
| Dispatcher.PostProcessed | services/client/client_service.go:77-88 | any request other than "screenshot" keeps the reply as it is; "screenshot" gives the written file's path or the write error; only a screenshot whose write fails gives an error |
| Dispatcher.HandleResponse | services/client/client_service.go:76-89 | any request other than "screenshot" returns the record untouched; "screenshot" either replaces Response with the written file's path or returns nil with the write error and leaves the record as it was |
| Dispatcher.FirstReply | services/client/client_service.go:56-64 | the loop's exit point: the first pause in which a reply arrived, with every pause before it quiet |
| Dispatcher.SendCommand | services/client/client_service.go:43-74 | the call ends as SendOutcome says; a decode failure returns before the store is touched; once Set has run, every return leaves no record for the address and all other records as they were; while no reply has come the caller's record stays published with the caller's request; post-processing is keyed on the caller's request whatever Request the delivery path wrote, because line 59 re-stamps it; the number of reads is one past the first reply |
| Dispatcher.Shape | services/client/client_service.go:66-73 | never a panic or a blocked call; an error exactly when the reply is flagged, with the formatted reply as its text, verbatim when it holds no '%'; an unflagged reply gives NoContent exactly when it is blank, and otherwise comes back unchanged and not blank |
| Dispatcher.NeverBlankText | services/client/client_service.go:70-73 | a successful call never returns blank or empty text |
| Dispatcher.StillPollingIffNoReply | services/client/client_service.go:56-64 | once the address decodes, the call stays blocked exactly when no reply has arrived |
| Dispatcher.LaterArrivalsIgnored | services/client/client_service.go:56-64 | the loop exits on the first read that sees HasResponse; anything delivered afterwards does not change the outcome |
| Dispatcher.QuietPauseIgnored | services/client/client_service.go:56-64 | extra pauses before the reply do not change the outcome |
| Dispatcher.RemoteErrorVerbatim | services/client/client_service.go:67-69 | a reply flagged as an error, with no '%' and a request other than "screenshot", is returned as an error whose text is the reply |
| Dispatcher.BlankReplyIsNoContent | services/client/client_service.go:70-72 | a blank unflagged reply is returned as NoContent |
| Dispatcher.ScreenshotWriteFailurePanics | services/client/client_service.go:61-66 | for "screenshot", a failed PNG write ends in a nil dereference; the error is not returned |
| Dispatcher.PermissionDeniedExample | services/client/client_service.go:67-68 | the reply "permission denied" with the error flag becomes exactly that error text |
| Strings.TrimSpaceEmptyIffBlank | services/client/client_service.go:70 | `len(strings.TrimSpace(s)) == 0` holds exactly when s is all white space |
| Errors.Errorf | services/client/client_service.go:68 | fmt.Errorf(reply) is a plain error whose text is the formatted reply, and the reply itself when it holds no '%' |
| Errors.TrailingDotIsVerb | services/client/client_service.go:68 | a '.' that ends the format string is the verb, not a precision: "%." gives "%!.(MISSING)" and "50%." gives "50%!.(MISSING)" |
| Errors.FormatNoArgsPlainPrefix | services/client/client_service.go:68 | text before the first '%' is copied unchanged into the error text |
| Errors.FormatNoArgs | services/client/client_service.go:68 | a format string without '%' is reproduced verbatim, and the text is empty exactly when the format string is |
| Errors.PercentTextIsRewritten | services/client/client_service.go:68 | a reply holding a directive is not reproduced: "100% done" gives "100%!d(MISSING)one" |
| Builder.HandleOSType | services/client/client_service.go:140-149 | Windows gives "windows", Linux gives "linux", and every other target, and only those, gives "unknown" |
| Builder.RunHidden | services/client/client_service.go:151-156 | the flag is "-H=windowsgui" when hidden and empty exactly when not hidden |
| Builder.FilenameFor | services/client/client_service.go:158-167 | a blank name is replaced by the generated identifier before any suffix; a Windows name always ends in ".exe"; any other target keeps a non-blank name unchanged; the name is non-empty when the identifier is |
| Builder.BuildFilename | services/client/client_service.go:158-167 | the method computes exactly FilenameFor |
| Builder.BuildCommand | services/client/client_service.go:106-109 | the build command begins with the GOOS setting and ends by writing ../temp/<filename> from main.go |
| Builder.CommandNamesTarget | services/client/client_service.go:106-109 | different OS targets never give the same command, whatever the other settings |
| Builder.CommandNamesOutput | services/client/client_service.go:106-109 | with the other settings the same, different file names never give the same command |
| Builder.GenerateNewToken | services/client/client_service.go:132-138 | a failure to read the auth configuration is returned unchanged; otherwise the result is the token signed with the configured secret; a token is issued only when the configuration was read |
| Builder.BuildClient | services/client/client_service.go:91-119 | an address that is neither an IP nor a request URI fails with ErrInvalidServerAddress before any other step; a normalisation or token error is returned before the process runs; the process runs only after all three checks pass, in client/, with the composed command; a process failure wraps its error with ":" and the captured output; success returns the resolved file name |

## Left out

- Timing of the poll loop (`time.Sleep`): each loop iteration consumes one entry of `arrivals`.
- Dispatcher.SendCommand: the real loop has no bound. When `arrivals` runs out without a reply, the model ends in `StillPolling`, which stands for a call that has not returned yet.
- Concurrency: the store is used by one dispatcher call at a time for an address. A second call for the same address, which the code leaves undefined, is not modelled.
- Payload.Service.Get: the nil record that a missing entry would give at line 59 never arises, because in the model only the call itself removes its entry.
- The panic raised at line 66 ends in `Panicked`. Its recovery further up the stack is not part of this model.
- `utils.DecodeBase64`, `image.WritePNG`, `utils.NormalizeString`, `net.ParseIP`, `url.ParseRequestURI`, `AuthService.GetAuthConfig`, `jwt.NewToken` and `uuid.New` are parameters, because their code is not part of this model. The base64 round trip is therefore not stated.
- `exec.Command`, `cmd.Dir` and `CombinedOutput` are one function parameter from the directory and the command to the output and the process error.
- `utils.ByteToString` and `utils.StringToByte`: byte slices and strings are both modelled as `seq<char>`, and the conversions as the identity.
- `internal.NoContent` is the `NoContent` constructor. A reply whose text equals that marker's string cannot be told apart from it in Go, but can in the model.
- The text of `ErrInvalidServerAddress` is defined outside this file. It is a sentinel constructor here.
- Builder.OSType: the values of `system.OSType` other than Windows and Linux are collapsed into `Other`, because the file treats them all alike.
- Errors.FormatNoArgs: `*` widths and precisions and `[n]` argument indexes are treated as verbs, whereas fmt reports them as `%!(BADWIDTH)`, `%!(BADPREC)` or a bad index.
- `NewClientService` only wires fields. The service's fields are passed to the dispatcher and the builder as arguments instead.
