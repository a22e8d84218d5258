/**
 * Command dispatch and response correlation (clientService.SendCommand and
 * HandleResponse): publish a command for an agent, wait for the agent's reply
 * to land in the shared record, post-process it by command type, and shape it
 * into a result, an error or the "no content" marker.
 */
module Dispatcher {
  import opened Wrappers
  import opened Strings
  import opened Errors
  import Payload

  datatype SendCommandInput = SendCommandInput(macAddress: string, request: string)

  /**
   * What the delivery path did during one two-second pause of the poll loop.
   * A Reply also carries the Request field the delivery path left in the
   * record, which need not be the command that was sent.
   */
  datatype Arrival = Quiet | Reply(request: string, response: string, hasError: bool)

  /** SendCommandOutput.Response: the reply text, or the internal.NoContent marker. */
  datatype Response = NoContent | Text(text: string)

  /** How a call to SendCommand ends, after a given series of pauses. */
  datatype Outcome =
    | Output(response: Response)   // (SendCommandOutput{Response: ...}, nil)
    | Failed(err: Error)           // (SendCommandOutput{}, err)
    | Panicked                     // nil pointer dereference at line 66
    | StillPolling                 // no reply yet: the call has not returned

  /** The collaborators whose code is not part of this model. */
  datatype Env = Env(
    decodeBase64: string -> Result<string, Error>,  // utils.DecodeBase64
    writePNG: string -> Result<string, Error>)      // image.WritePNG: the path of the written file

  const Screenshot := "screenshot"

  /** The record HandleResponse makes of a reply: the reply itself, or for a screenshot the written file's path. */
  function PostProcessed(request: string, response: string, writePNG: string -> Result<string, Error>): (r: Result<string, Error>)
    ensures request != Screenshot ==> r == Success(response)
    ensures request == Screenshot ==> r == writePNG(response)
    ensures r.Failure? ==> request == Screenshot && writePNG(response).Failure?
  {
    if request == Screenshot then writePNG(response) else Success(response)
  }

  /** HandleResponse: dispatch on the record's request; only "screenshot" rewrites the response. */
  method HandleResponse(payload: Payload.Data, writePNG: string -> Result<string, Error>)
    returns (r: Payload.Data?, err: Option<Error>)
    modifies payload
    ensures payload.request == old(payload.request) && payload.hasResponse == old(payload.hasResponse)
    ensures payload.hasError == old(payload.hasError)
    ensures old(payload.request) != Screenshot ==> r == payload && err == None && unchanged(payload)
    ensures old(payload.request) == Screenshot ==>
      match writePNG(old(payload.response))
      case Success(file) => r == payload && err == None && payload.response == file
      case Failure(e) => r == null && err == Some(e) && unchanged(payload)
    ensures r == null <==> PostProcessed(old(payload.request), old(payload.response), writePNG).Failure?
    ensures r != null ==> payload.response == PostProcessed(old(payload.request), old(payload.response), writePNG).value
  {
    if payload.request == Screenshot {
      var file := writePNG(payload.response);
      if file.Failure? {
        return null, Some(file.error);
      }
      payload.response := file.value;
    }
    return payload, None;
  }

  /**
   * Lines 66-73: a flagged reply becomes an error whose text is the formatted
   * reply (the reply itself when it holds no '%'); an unflagged reply gives
   * NoContent exactly when it is blank, and otherwise comes back unchanged.
   */
  function Shape(response: string, hasError: bool): (r: Outcome)
    ensures r.Output? || r.Failed?
    ensures r.Failed? <==> hasError
    ensures hasError ==> r.err == Plain(FormatNoArgs(response))
    ensures hasError && NoPercent(response) ==> r.err == Plain(response)
    ensures !hasError ==> (r.response == NoContent <==> IsBlank(response))
    ensures r.Output? && r.response.Text? ==> r.response.text == response && !IsBlank(response)
  {
    TrimSpaceEmptyIffBlank(response);
    if hasError then Failed(Errorf(response))
    else if |TrimSpace(response)| == 0 then Output(NoContent)
    else Output(Text(response))
  }

  /** The index of the first pause during which a reply arrived (|arrivals| if none did). */
  function FirstReply(arrivals: seq<Arrival>): (k: nat)
    ensures k <= |arrivals|
    ensures k < |arrivals| ==> arrivals[k].Reply?
    ensures forall j :: 0 <= j < k ==> arrivals[j] == Quiet
  {
    if arrivals == [] || arrivals[0].Reply? then 0 else 1 + FirstReply(arrivals[1..])
  }

  /** The outcome of SendCommand when the delivery path behaves as arrivals says. */
  function SendOutcome(input: SendCommandInput, env: Env, arrivals: seq<Arrival>): Outcome
  {
    match env.decodeBase64(input.macAddress)
    case Failure(e) => Failed(Wrapped("error decoding base64: ", e, ""))
    case Success(_) =>
      var k := FirstReply(arrivals);
      if k == |arrivals| then StillPolling else Answered(input.request, env, arrivals[k])
  }

  /** The outcome once the poll loop has read reply: post-processing, then shaping. */
  function Answered(request: string, env: Env, reply: Arrival): Outcome
    requires reply.Reply?
  {
    match PostProcessed(request, reply.response, env.writePNG)
    case Failure(_) => Panicked
    case Success(text) => Shape(text, reply.hasError)
  }

  /**
   * SendCommand. The loop stands for `for !done` with one entry of arrivals per
   * pause; when arrivals runs out without a reply the call is still blocked
   * and its record is still published. The deferred Remove of line 52 runs on
   * every return, the panic of line 66 included.
   */
  method SendCommand(store: Payload.Service, input: SendCommandInput, env: Env, arrivals: seq<Arrival>)
    returns (out: Outcome, ghost polls: nat)
    modifies store
    ensures out == SendOutcome(input, env, arrivals)
    ensures env.decodeBase64(input.macAddress).Failure? ==> store.entries == old(store.entries) && polls == 0
    ensures env.decodeBase64(input.macAddress).Success? ==>
      var addr := env.decodeBase64(input.macAddress).value;
      && (out != StillPolling ==> store.entries == old(store.entries) - {addr} && polls == FirstReply(arrivals) + 1)
      && (out == StillPolling ==>
            && polls == |arrivals|
            && addr in store.entries && fresh(store.entries[addr])
            && store.entries[addr].request == input.request && !store.entries[addr].hasResponse
            && store.entries - {addr} == old(store.entries) - {addr})
  {
    var decoded := env.decodeBase64(input.macAddress);
    if decoded.Failure? {
      return Failed(Wrapped("error decoding base64: ", decoded.error, "")), 0;
    }
    var addr := decoded.value;
    var record := new Payload.Data(input.request);
    store.Set(addr, record);
    ghost var published := store.entries;
    ghost var k := FirstReply(arrivals);

    var payloadData: Payload.Data? := null;
    var done := false;
    var i := 0;
    while !done && i < |arrivals|
      invariant 0 <= i <= |arrivals|
      invariant store.entries == published && published[addr] == record
      invariant record.request == input.request
      invariant !done ==> i <= k && !record.hasResponse
      invariant done ==> k < |arrivals| && i == k + 1
      invariant done ==> (payloadData == null <==> Answered(input.request, env, arrivals[k]) == Panicked)
      invariant done && payloadData != null ==>
        Shape(payloadData.response, payloadData.hasError) == Answered(input.request, env, arrivals[k])
      decreases |arrivals| - i
    {
      // time.Sleep: the delivery path may write the reply meanwhile
      if arrivals[i].Reply? {
        store.Deliver(addr, arrivals[i].request, arrivals[i].response, arrivals[i].hasError);
      }
      i := i + 1;
      var res, found := store.Get(addr);
      res.request := input.request;  // line 59: the re-stamp HandleResponse dispatches on
      if res.hasResponse {
        assert i - 1 == k;
        var handled, ignoredErr := HandleResponse(res, env.writePNG);  // line 61 drops the error
        payloadData := handled;
        done := true;
      }
    }
    polls := i;
    if !done {
      assert k == |arrivals|;
      return StillPolling, polls;
    }
    if payloadData == null {
      out := Panicked;
    } else {
      out := Shape(payloadData.response, payloadData.hasError);
    }
    assert out == SendOutcome(input, env, arrivals);
    store.Remove(addr);
    assert published - {addr} == old(store.entries) - {addr};
  }

  /** A successful call never hands back empty or blank text: that case is NoContent. */
  lemma NeverBlankText(input: SendCommandInput, env: Env, arrivals: seq<Arrival>)
    ensures SendOutcome(input, env, arrivals).Output? && SendOutcome(input, env, arrivals).response.Text? ==>
      !IsBlank(SendOutcome(input, env, arrivals).response.text)
  {
    var k := FirstReply(arrivals);
    if env.decodeBase64(input.macAddress).Success? && k < |arrivals| {
      var p := PostProcessed(input.request, arrivals[k].response, env.writePNG);
      if p.Success? {
        assert SendOutcome(input, env, arrivals) == Shape(p.value, arrivals[k].hasError);
      }
    }
  }

  /** Once the address decodes, the call stays blocked exactly when no reply arrives. */
  lemma StillPollingIffNoReply(input: SendCommandInput, env: Env, arrivals: seq<Arrival>)
    requires env.decodeBase64(input.macAddress).Success?
    ensures SendOutcome(input, env, arrivals) == StillPolling <==> forall j :: 0 <= j < |arrivals| ==> arrivals[j] == Quiet
  {
    var k := FirstReply(arrivals);
    if k < |arrivals| {
      assert Answered(input.request, env, arrivals[k]) != StillPolling;
    }
  }

  lemma {:induction false} FirstReplyOfExtension(a: seq<Arrival>, b: seq<Arrival>)
    requires FirstReply(a) < |a|
    ensures FirstReply(a + b) == FirstReply(a)
  {
    if a[0] == Quiet {
      assert (a + b)[1..] == a[1..] + b;
      FirstReplyOfExtension(a[1..], b);
    }
  }

  /** Only the first reply counts: whatever the delivery path writes after it does not change the outcome. */
  lemma LaterArrivalsIgnored(input: SendCommandInput, env: Env, a: seq<Arrival>, b: seq<Arrival>)
    requires FirstReply(a) < |a|
    ensures SendOutcome(input, env, a + b) == SendOutcome(input, env, a)
  {
    var k := FirstReply(a);
    FirstReplyOfExtension(a, b);
    var ab := a + b;
    assert k < |ab| && ab[k] == a[k];
    if env.decodeBase64(input.macAddress).Success? {
      calc {
        SendOutcome(input, env, ab);
        Answered(input.request, env, ab[k]);
        Answered(input.request, env, a[k]);
        SendOutcome(input, env, a);
      }
    }
  }

  lemma FirstReplyAfterQuiet(a: seq<Arrival>)
    ensures FirstReply([Quiet] + a) == FirstReply(a) + 1
  {
    assert ([Quiet] + a)[1..] == a;
  }

  /** How long the agent takes does not matter: an extra quiet pause leaves the outcome as it was. */
  lemma QuietPauseIgnored(input: SendCommandInput, env: Env, a: seq<Arrival>)
    ensures SendOutcome(input, env, [Quiet] + a) == SendOutcome(input, env, a)
  {
    var qa := [Quiet] + a;
    var k := FirstReply(a);
    FirstReplyAfterQuiet(a);
    if env.decodeBase64(input.macAddress).Success? && k < |a| {
      assert qa[k + 1] == a[k];
      calc {
        SendOutcome(input, env, qa);
        Answered(input.request, env, qa[k + 1]);
        Answered(input.request, env, a[k]);
        SendOutcome(input, env, a);
      }
    }
  }

  /** A reply flagged as an error becomes the error's text unchanged, when the text holds no '%'. */
  lemma RemoteErrorVerbatim(input: SendCommandInput, env: Env, arrivals: seq<Arrival>)
    requires env.decodeBase64(input.macAddress).Success? && input.request != Screenshot
    requires FirstReply(arrivals) < |arrivals|
    requires arrivals[FirstReply(arrivals)].hasError && NoPercent(arrivals[FirstReply(arrivals)].response)
    ensures SendOutcome(input, env, arrivals) == Failed(Plain(arrivals[FirstReply(arrivals)].response))
  {
    var k := FirstReply(arrivals);
    assert SendOutcome(input, env, arrivals) == Shape(arrivals[k].response, true);
  }

  /** A blank reply without the error flag comes back as NoContent, never as an empty string. */
  lemma BlankReplyIsNoContent(input: SendCommandInput, env: Env, arrivals: seq<Arrival>)
    requires env.decodeBase64(input.macAddress).Success? && input.request != Screenshot
    requires FirstReply(arrivals) < |arrivals|
    requires !arrivals[FirstReply(arrivals)].hasError && IsBlank(arrivals[FirstReply(arrivals)].response)
    ensures SendOutcome(input, env, arrivals) == Output(NoContent)
  {
    var k := FirstReply(arrivals);
    assert SendOutcome(input, env, arrivals) == Shape(arrivals[k].response, false);
  }

  /** A screenshot whose PNG cannot be written does not surface the write error: line 66 dereferences nil. */
  lemma ScreenshotWriteFailurePanics(input: SendCommandInput, env: Env, arrivals: seq<Arrival>)
    requires env.decodeBase64(input.macAddress).Success? && input.request == Screenshot
    requires FirstReply(arrivals) < |arrivals|
    requires env.writePNG(arrivals[FirstReply(arrivals)].response).Failure?
    ensures SendOutcome(input, env, arrivals) == Panicked
  {
  }

  /** An agent that answers "permission denied" with the error flag, after one quiet pause. */
  lemma PermissionDeniedExample(input: SendCommandInput, env: Env)
    requires env.decodeBase64(input.macAddress).Success? && input.request != Screenshot
    ensures SendOutcome(input, env, [Quiet, Reply("", "permission denied", true)]) == Failed(Plain("permission denied"))
  {
    var a := [Quiet, Reply("", "permission denied", true)];
    assert a[1..] == [Reply("", "permission denied", true)];
    assert FirstReply(a) == 1;
    assert NoPercent("permission denied");
    RemoteErrorVerbatim(input, env, a);
  }
}
