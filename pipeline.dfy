/** The pipeline controller (lambda/pipeline/pipeline_lambda.py): it
    invokes the scraper, the orchestrator and the poster in that order, each
    with the part of its own event that concerns it. The Lambda service is
    an oracle: `send` gives the raw payload a call answers with (or the
    exception the call raises) and `decode` is `json.loads`. */
module Pipeline {
  import opened Base

  /** `FUNCTION_PAYLOADS`: the event keys each stage is given. */
  const FunctionPayloads: map<string, seq<string>> :=
    map["scraper" := ["scrape_limit"],
        "orchestrator" := ["chunk_size"],
        "poster" := ["dry_run", "post_limit", "start_index"]]

  /** `{k: event[k] for k in keys if k in event}` */
  function Project(keys: seq<string>, event: Record): (payload: Record)
    ensures forall k :: k in payload <==> k in keys && k in event
    ensures forall k :: k in payload ==> payload[k] == event[k]
  {
    if keys == [] then map[]
    else
      var rest := Project(keys[1..], event);
      if keys[0] in event then rest[keys[0] := event[keys[0]]] else rest
  }

  /** `build_payload(function_key, event)`: exactly the stage's keys that
      the event has, with the event's values; an unknown stage gets `{}`. */
  function BuildPayload(functionKey: string, event: Record): (payload: Record)
    ensures functionKey !in FunctionPayloads ==> payload == map[]
    ensures functionKey in FunctionPayloads ==>
      (forall k :: k in payload <==> k in FunctionPayloads[functionKey] && k in event) &&
      (forall k :: k in payload ==> payload[k] == event[k])
  {
    Project(if functionKey in FunctionPayloads then FunctionPayloads[functionKey] else [], event)
  }

  /** The three stage payloads share no key, and together they carry every
      pipeline parameter the event sets and nothing else. */
  lemma PayloadsPartition(event: Record)
    ensures var s := BuildPayload("scraper", event);
      var o := BuildPayload("orchestrator", event);
      var p := BuildPayload("poster", event);
      s.Keys !! o.Keys && s.Keys !! p.Keys && o.Keys !! p.Keys &&
      s.Keys + o.Keys + p.Keys ==
        event.Keys * {"scrape_limit", "chunk_size", "dry_run", "post_limit", "start_index"}
  {
    var s := BuildPayload("scraper", event);
    var o := BuildPayload("orchestrator", event);
    var p := BuildPayload("poster", event);
    assert s.Keys == event.Keys * {"scrape_limit"} by {
      assert FunctionPayloads["scraper"] == ["scrape_limit"];
    }
    assert o.Keys == event.Keys * {"chunk_size"} by {
      assert FunctionPayloads["orchestrator"] == ["chunk_size"];
    }
    assert p.Keys == event.Keys * {"dry_run", "post_limit", "start_index"} by {
      assert FunctionPayloads["poster"] == ["dry_run", "post_limit", "start_index"];
    }
  }

  /** One request to the Lambda service. */
  datatype Call = Call(functionName: Option<string>, invocationType: string, payload: Record)

  /** `wait` selects a synchronous or a fire-and-forget invocation. */
  function InvocationType(wait: bool): string {
    if wait then "RequestResponse" else "Event"
  }

  /** `invoke_lambda(name, payload, wait)`: a synchronous call answers with
      its decoded payload; an asynchronous one with `None`, its payload
      unread. */
  function InvokeLambda(name: Option<string>, payload: Record, wait: bool,
                        send: Call -> Result<string>, decode: string -> Result<Json>): (r: Result<Option<Json>>)
    ensures var answer := send(Call(name, InvocationType(wait), payload));
      (answer.Err? ==> r == Err(answer.error)) &&
      (!wait && answer.Ok? ==> r == Ok(None)) &&
      (wait && answer.Ok? ==> (r.Ok? <==> decode(answer.value).Ok?) &&
                              (r.Ok? ==> r.value == Some(decode(answer.value).value)))
  {
    var answer := send(Call(name, InvocationType(wait), payload));
    match answer
    case Err(e) => Err(e)
    case Ok(raw) =>
      if !wait then Ok(None)
      else
        match decode(raw)
        case Err(e) => Err(e)
        case Ok(j) => Ok(Some(j))
  }

  /** The stage names, read from the environment (`None` when unset). */
  datatype StageNames = StageNames(scraper: Option<string>, orchestrator: Option<string>, poster: Option<string>)

  /** The three calls the handler makes when none fails, in order. */
  function Planned(event: Record, names: StageNames): (calls: seq<Call>)
    ensures |calls| == 3
    ensures forall i :: 0 <= i < 3 ==> calls[i].invocationType == "RequestResponse"
  {
    [Call(names.scraper, "RequestResponse", BuildPayload("scraper", event)),
     Call(names.orchestrator, "RequestResponse", BuildPayload("orchestrator", event)),
     Call(names.poster, "RequestResponse", BuildPayload("poster", event))]
  }

  /** What the synchronous invocation behind `c` yields. */
  function Outcome(c: Call, send: Call -> Result<string>, decode: string -> Result<Json>): Result<Option<Json>> {
    InvokeLambda(c.functionName, c.payload, true, send, decode)
  }

  datatype PipelineResponse = Completed(orchestratorSummary: Json) | Failed(error: Exc) {
    function StatusCode(): int {
      if Completed? then 200 else 500
    }
  }

  /** `handler(event, context)`: the response and the calls made. */
  method Handler(event: Record, names: StageNames,
                 send: Call -> Result<string>, decode: string -> Result<Json>)
    returns (resp: PipelineResponse, calls: seq<Call>)
    ensures 1 <= |calls| <= 3 && calls == Planned(event, names)[..|calls|]
    ensures forall i :: 0 <= i < |calls| - 1 ==> Outcome(calls[i], send, decode).Ok?
    ensures resp.Completed? <==> |calls| == 3 && Outcome(calls[2], send, decode).Ok?
    ensures resp.Failed? ==> Outcome(calls[|calls| - 1], send, decode) == Err(resp.error)
    ensures resp.Completed? ==> Outcome(calls[1], send, decode) == Ok(Some(resp.orchestratorSummary))
  {
    var plan := Planned(event, names);
    calls := [plan[0]];
    var scraped := InvokeLambda(names.scraper, BuildPayload("scraper", event), true, send, decode);
    if scraped.Err? {
      return Failed(scraped.error), calls;
    }
    calls := calls + [plan[1]];
    var orchestrated := InvokeLambda(names.orchestrator, BuildPayload("orchestrator", event), true, send, decode);
    if orchestrated.Err? {
      return Failed(orchestrated.error), calls;
    }
    calls := calls + [plan[2]];
    var posted := InvokeLambda(names.poster, BuildPayload("poster", event), true, send, decode);
    if posted.Err? {
      return Failed(posted.error), calls;
    }
    assert calls == plan;
    resp := Completed(orchestrated.value.value);
  }
}
