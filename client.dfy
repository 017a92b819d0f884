/** `src/runpod_client.rs`: the GraphQL client. Every query method sends one
    request through `execute` (the shared retry loop, with a 10 second
    backoff cap), then picks its result out of the response's `data`.

    The query texts and variables are left out: `net` stands for the replies
    to the request a method sends, and a reply's payload is the body text
    together with what serde makes of it. */
module Client {
  import opened Wrappers
  import opened Ints
  import Text
  import opened Retry

  /** The settings `execute` reads; the API key, URL and HTTP timeout only
      configure the transport. */
  datatype ClientConfig = ClientConfig(retryMax: U32, retryBackoffMs: U64)

  const BACKOFF_CAP: Duration := 10 * NANOS_PER_SEC

  /** The client's `next_backoff`: double, saturating, capped at 10 s. */
  function NextBackoff(current: Duration): (r: Duration)
    ensures r <= BACKOFF_CAP
  {
    Retry.NextBackoff(current, BACKOFF_CAP)
  }

  /** For every delay the loop can hold, the next one is exactly the
      smaller of twice the delay and 10 s. */
  lemma NextBackoffIsCappedDouble(current: Duration)
    requires current <= FromMillis(U64_MAX)
    ensures NextBackoff(current) == Min(2 * current, BACKOFF_CAP)
  {
  }

  // ---------------------------------------------------------------------
  // Response and error types
  // ---------------------------------------------------------------------

  /** A GraphQL response: optional data and optional error messages. */
  datatype GraphQLResponse<D> = GraphQLResponse(data: Option<D>, errors: Option<seq<string>>)

  /** A reply body: its text, and the response serde decodes from it or the
      decoder's message. */
  datatype Body<D> = Body(text: string, decoded: Result<GraphQLResponse<D>, string>)

  /** The errors `execute` and the query methods report; the configuration
      errors of `from_env` are left out. */
  datatype RunpodClientError =
    | Http
    | Json(message: string)
    | GraphQL(message: string)
    | Api(status: U16, body: string)
    | EmptyResponse

  const ERROR_SEPARATOR := "; "

  /** The GraphQL-error check of `execute`: a present, non-empty error list
      fails with the messages joined by `"; "`. */
  function CheckGraphQLErrors<D>(resp: GraphQLResponse<D>): (r: Result<GraphQLResponse<D>, RunpodClientError>)
    ensures r.Ok? <==> resp.errors.None? || resp.errors.value == []
    ensures r.Ok? ==> r.value == resp
    ensures r.Err? ==> r.error == GraphQL(Text.Join(resp.errors.value, ERROR_SEPARATOR))
  {
    if resp.errors.Some? && resp.errors.value != [] then
      Err(GraphQL(Text.Join(resp.errors.value, ERROR_SEPARATOR)))
    else Ok(resp)
  }

  /** Every error message appears, unchanged and in order, in the message of
      the `GraphQL` error. */
  lemma GraphQLMessageKeepsEveryError<D>(resp: GraphQLResponse<D>, i: nat)
    requires resp.errors.Some? && i < |resp.errors.value|
    ensures var es := resp.errors.value;
            var msg := CheckGraphQLErrors(resp).error.message;
            var o := Text.PieceOffset(es, ERROR_SEPARATOR, i);
            o + |es[i]| <= |msg| && msg[o..o + |es[i]|] == es[i]
  {
    Text.JoinPieceAt(resp.errors.value, ERROR_SEPARATOR, i);
  }

  lemma GraphQLMessageExample()
    ensures var resp: GraphQLResponse<()> := GraphQLResponse(None, Some(["a", "b"]));
            CheckGraphQLErrors(resp) == Err(GraphQL("a; b"))
  {
    var es := ["a", "b"];
    assert es[1..] == ["b"];
    assert Text.Join(es, ERROR_SEPARATOR) == "a" + ERROR_SEPARATOR + "b" == "a; b";
  }

  /** How the reply that ends the retry loop is reported: a success is
      decoded and checked for GraphQL errors, any other response reports its
      status and body, a transport error is passed on. */
  function ExecuteOutcome<D>(reply: Reply<Body<D>>): (r: Result<GraphQLResponse<D>, RunpodClientError>)
    ensures r.Ok? <==>
              reply.Response? && IsSuccess(reply.status) && reply.payload.decoded.Ok?
              && CheckGraphQLErrors(reply.payload.decoded.value).Ok?
    ensures r.Ok? ==> r.value == reply.payload.decoded.value
    ensures reply.Response? && !IsSuccess(reply.status) ==>
              r == Err(Api(reply.status, reply.payload.text))
    ensures reply.Response? && IsSuccess(reply.status) && reply.payload.decoded.Err? ==>
              r == Err(Json(reply.payload.decoded.error))
    ensures reply.TransportError? ==> r == Err(Http)
  {
    match reply
    case Response(status, body) =>
      if !IsSuccess(status) then Err(Api(status, body.text))
      else (
        match body.decoded
        case Err(message) => Err(Json(message))
        case Ok(resp) => CheckGraphQLErrors(resp))
    case TransportError(_) => Err(Http)
  }

  /** `execute` against the replies `net`: the outcome, and the sleeps taken
      between attempts. */
  method Execute<D>(cfg: ClientConfig, net: nat -> Reply<Body<D>>)
    returns (result: Result<GraphQLResponse<D>, RunpodClientError>, sleeps: seq<Duration>)
    ensures var n := Attempts(cfg.retryMax, net);
            result == ExecuteOutcome(net(n - 1))
            && sleeps == Schedule(FromMillis(cfg.retryBackoffMs), BACKOFF_CAP, n - 1)
  {
    var attempts, last;
    attempts, last, sleeps := RetryLoop(cfg.retryMax, FromMillis(cfg.retryBackoffMs), BACKOFF_CAP, net);
    result := ExecuteOutcome(last);
  }

  /** A successful status whose body carries GraphQL errors is not retried:
      the first such reply ends `execute` with a `GraphQL` error. */
  lemma GraphQLErrorsAreNotRetried<D>(cfg: ClientConfig, net: nat -> Reply<Body<D>>, i: nat)
    requires forall j :: 0 <= j < i ==> ShouldRetry(net(j), j + 1, cfg.retryMax)
    requires net(i).Response? && IsSuccess(net(i).status)
    requires net(i).payload.decoded.Ok?
    requires var es := net(i).payload.decoded.value.errors; es.Some? && es.value != []
    ensures Attempts(cfg.retryMax, net) == i + 1
    ensures ExecuteOutcome(net(i)) == Err(GraphQL(Text.Join(net(i).payload.decoded.value.errors.value, ERROR_SEPARATOR)))
  {
    AttemptsIsFirstStop(cfg.retryMax, net, i);
  }

  // ---------------------------------------------------------------------
  // Data of the query methods
  // ---------------------------------------------------------------------

  datatype MachineInfo = MachineInfo(podHostId: Option<string>)

  datatype PodDeployResult = PodDeployResult(
    id: string, name: Option<string>, desiredStatus: Option<string>,
    imageName: Option<string>, machineId: Option<string>, machine: Option<MachineInfo>)

  datatype PodSummary = PodSummary(
    id: string, name: Option<string>, desiredStatus: Option<string>,
    imageName: Option<string>, machineId: Option<string>)

  datatype PortMapping = PortMapping(
    ip: Option<string>, isIpPublic: Option<bool>, privatePort: Option<U16>,
    publicPort: Option<U16>, portType: Option<string>)

  /** Runtime details; the GPU utilisation figures are floats and left out. */
  datatype RuntimeInfo = RuntimeInfo(uptimeInSeconds: Option<U64>, ports: Option<seq<PortMapping>>)

  datatype PodDetails = PodDetails(
    id: string, name: Option<string>, desiredStatus: Option<string>,
    imageName: Option<string>, machineId: Option<string>, machine: Option<MachineInfo>,
    runtime: Option<RuntimeInfo>)

  datatype GpuType = GpuType(
    id: string, displayName: Option<string>, memoryInGb: Option<U32>,
    secureCloud: Option<bool>, communityCloud: Option<bool>)

  datatype DeployOnDemandData = DeployOnDemandData(podFindAndDeployOnDemand: Option<PodDeployResult>)
  datatype DeploySpotData = DeploySpotData(podRentInterruptable: Option<PodDeployResult>)
  datatype PodResumeData = PodResumeData(podResume: Option<PodSummary>)
  datatype PodStopData = PodStopData(podStop: Option<PodSummary>)
  datatype PodTerminateData = PodTerminateData(podTerminate: Option<string>)
  datatype PodQueryData = PodQueryData(pod: Option<PodDetails>)
  datatype MyselfInfo = MyselfInfo(pods: seq<PodSummary>)
  datatype MyselfData = MyselfData(myself: Option<MyselfInfo>)
  datatype GpuTypesData = GpuTypesData(gpuTypes: seq<GpuType>)

  /** `data.and_then(field).ok_or(EmptyResponse)`, as the mutations use it. */
  function RequireField<D, X>(resp: GraphQLResponse<D>, field: D -> Option<X>): (r: Result<X, RunpodClientError>)
    ensures r.Ok? <==> resp.data.Some? && field(resp.data.value).Some?
    ensures r.Ok? ==> r.value == field(resp.data.value).value
    ensures r.Err? ==> r.error == EmptyResponse
  {
    if resp.data.Some? && field(resp.data.value).Some? then Ok(field(resp.data.value).value)
    else Err(EmptyResponse)
  }

  /** `get_pod`'s result: `data.and_then(|d| d.pod)`. */
  function PodOf(resp: GraphQLResponse<PodQueryData>): (r: Option<PodDetails>)
    ensures r.Some? <==> resp.data.Some? && resp.data.value.pod.Some?
    ensures r.Some? ==> r == resp.data.value.pod
  {
    if resp.data.Some? then resp.data.value.pod else None
  }

  /** `list_pods`'s result: the pods of `myself`, or none when `data` or
      `myself` is absent. */
  function PodsOf(resp: GraphQLResponse<MyselfData>): (r: seq<PodSummary>)
    ensures resp.data.None? || resp.data.value.myself.None? ==> r == []
    ensures resp.data.Some? && resp.data.value.myself.Some? ==> r == resp.data.value.myself.value.pods
  {
    if resp.data.Some? && resp.data.value.myself.Some? then resp.data.value.myself.value.pods else []
  }

  /** `list_gpu_types`'s result: the GPU types, or none when `data` is
      absent. */
  function GpuTypesOf(resp: GraphQLResponse<GpuTypesData>): (r: seq<GpuType>)
    ensures resp.data.None? ==> r == []
    ensures resp.data.Some? ==> r == resp.data.value.gpuTypes
  {
    if resp.data.Some? then resp.data.value.gpuTypes else []
  }

  /** The result of a query method: the error of `execute`, or what the
      method picks out of the response. */
  function AndThen<D, X>(r: Result<GraphQLResponse<D>, RunpodClientError>,
                         pick: GraphQLResponse<D> -> Result<X, RunpodClientError>): (x: Result<X, RunpodClientError>)
    ensures r.Err? ==> x == Err(r.error)
    ensures r.Ok? ==> x == pick(r.value)
  {
    match r
    case Err(e) => Err(e)
    case Ok(resp) => pick(resp)
  }

  // ---------------------------------------------------------------------
  // Query methods
  // ---------------------------------------------------------------------

  /** `deploy_on_demand`: the deployed pod, or `EmptyResponse`. */
  method DeployOnDemand(cfg: ClientConfig, net: nat -> Reply<Body<DeployOnDemandData>>)
    returns (result: Result<PodDeployResult, RunpodClientError>)
    ensures var e := ExecuteOutcome(net(Attempts(cfg.retryMax, net) - 1));
            && (e.Err? ==> result == Err(e.error))
            && (result.Ok? <==> e.Ok? && e.value.data.Some? && e.value.data.value.podFindAndDeployOnDemand.Some?)
            && (result.Ok? ==> Some(result.value) == e.value.data.value.podFindAndDeployOnDemand)
            && (e.Ok? && result.Err? ==> result.error == EmptyResponse)
  {
    var e, _ := Execute(cfg, net);
    result := AndThen(e, resp => RequireField(resp, (d: DeployOnDemandData) => d.podFindAndDeployOnDemand));
  }

  /** `deploy_spot`: the rented pod, or `EmptyResponse`. */
  method DeploySpot(cfg: ClientConfig, net: nat -> Reply<Body<DeploySpotData>>)
    returns (result: Result<PodDeployResult, RunpodClientError>)
    ensures var e := ExecuteOutcome(net(Attempts(cfg.retryMax, net) - 1));
            && (e.Err? ==> result == Err(e.error))
            && (result.Ok? <==> e.Ok? && e.value.data.Some? && e.value.data.value.podRentInterruptable.Some?)
            && (result.Ok? ==> Some(result.value) == e.value.data.value.podRentInterruptable)
            && (e.Ok? && result.Err? ==> result.error == EmptyResponse)
  {
    var e, _ := Execute(cfg, net);
    result := AndThen(e, resp => RequireField(resp, (d: DeploySpotData) => d.podRentInterruptable));
  }

  /** `resume_pod`: the resumed pod, or `EmptyResponse`. */
  method ResumePod(cfg: ClientConfig, net: nat -> Reply<Body<PodResumeData>>)
    returns (result: Result<PodSummary, RunpodClientError>)
    ensures var e := ExecuteOutcome(net(Attempts(cfg.retryMax, net) - 1));
            && (e.Err? ==> result == Err(e.error))
            && (result.Ok? <==> e.Ok? && e.value.data.Some? && e.value.data.value.podResume.Some?)
            && (result.Ok? ==> Some(result.value) == e.value.data.value.podResume)
            && (e.Ok? && result.Err? ==> result.error == EmptyResponse)
  {
    var e, _ := Execute(cfg, net);
    result := AndThen(e, resp => RequireField(resp, (d: PodResumeData) => d.podResume));
  }

  /** `stop_pod`: the stopped pod, or `EmptyResponse`. */
  method StopPod(cfg: ClientConfig, net: nat -> Reply<Body<PodStopData>>)
    returns (result: Result<PodSummary, RunpodClientError>)
    ensures var e := ExecuteOutcome(net(Attempts(cfg.retryMax, net) - 1));
            && (e.Err? ==> result == Err(e.error))
            && (result.Ok? <==> e.Ok? && e.value.data.Some? && e.value.data.value.podStop.Some?)
            && (result.Ok? ==> Some(result.value) == e.value.data.value.podStop)
            && (e.Ok? && result.Err? ==> result.error == EmptyResponse)
  {
    var e, _ := Execute(cfg, net);
    result := AndThen(e, resp => RequireField(resp, (d: PodStopData) => d.podStop));
  }

  /** `terminate_pod`: success whenever `execute` succeeds, whatever the
      data holds. */
  method TerminatePod(cfg: ClientConfig, net: nat -> Reply<Body<PodTerminateData>>)
    returns (result: Result<(), RunpodClientError>)
    ensures var e := ExecuteOutcome(net(Attempts(cfg.retryMax, net) - 1));
            (result.Ok? <==> e.Ok?) && (e.Err? ==> result == Err(e.error))
  {
    var e, _ := Execute(cfg, net);
    result := AndThen(e, _ => Ok(()));
  }

  /** `get_pod`: the pod, or `None` when `data` or `pod` is absent. */
  method GetPod(cfg: ClientConfig, net: nat -> Reply<Body<PodQueryData>>)
    returns (result: Result<Option<PodDetails>, RunpodClientError>)
    ensures var e := ExecuteOutcome(net(Attempts(cfg.retryMax, net) - 1));
            && (e.Err? ==> result == Err(e.error))
            && (e.Ok? ==> result.Ok? && (result.value.Some? <==> e.value.data.Some? && e.value.data.value.pod.Some?))
            && (result.Ok? && result.value.Some? ==> result.value == e.value.data.value.pod)
  {
    var e, _ := Execute(cfg, net);
    result := AndThen(e, resp => Ok(PodOf(resp)));
  }

  /** `list_pods`: the pods, or none when `data` or `myself` is absent. */
  method ListPods(cfg: ClientConfig, net: nat -> Reply<Body<MyselfData>>)
    returns (result: Result<seq<PodSummary>, RunpodClientError>)
    ensures var e := ExecuteOutcome(net(Attempts(cfg.retryMax, net) - 1));
            && (e.Err? ==> result == Err(e.error))
            && (e.Ok? && e.value.data.Some? && e.value.data.value.myself.Some? ==>
                  result == Ok(e.value.data.value.myself.value.pods))
            && (e.Ok? && (e.value.data.None? || e.value.data.value.myself.None?) ==> result == Ok([]))
  {
    var e, _ := Execute(cfg, net);
    result := AndThen(e, resp => Ok(PodsOf(resp)));
  }

  /** `list_gpu_types`: the GPU types, or none when `data` is absent. */
  method ListGpuTypes(cfg: ClientConfig, net: nat -> Reply<Body<GpuTypesData>>)
    returns (result: Result<seq<GpuType>, RunpodClientError>)
    ensures var e := ExecuteOutcome(net(Attempts(cfg.retryMax, net) - 1));
            && (e.Err? ==> result == Err(e.error))
            && (e.Ok? && e.value.data.Some? ==> result == Ok(e.value.data.value.gpuTypes))
            && (e.Ok? && e.value.data.None? ==> result == Ok([]))
  {
    var e, _ := Execute(cfg, net);
    result := AndThen(e, resp => Ok(GpuTypesOf(resp)));
  }

  /** A mutation whose response has no data, or no result field, fails with
      `EmptyResponse` even though `execute` succeeded. */
  lemma MissingMutationResultIsEmptyResponse(resp: GraphQLResponse<PodStopData>)
    requires resp.data.None? || resp.data.value.podStop.None?
    ensures AndThen(Ok(resp), r => RequireField(r, (d: PodStopData) => d.podStop)) == Err(EmptyResponse)
  {
  }
}
