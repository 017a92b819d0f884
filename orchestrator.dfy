/** `src/runpod_orchestrator.rs`: make sure one named pod is running and
    reachable. `ensure_ready_pod` lists the pods, picks the first with the
    configured name, decides to reuse, recreate or create, and then polls
    the pod until it is running with a public IP and every required port
    mapped.

    Each REST call is replaced by its reply, given as a parameter; the
    readiness loop's clock is the sequence of elapsed times it reads, which
    ends with the first reading past the deadline. */
module Orchestrator {
  import opened Wrappers
  import opened Ints
  import Text
  import Retry

  // ---------------------------------------------------------------------
  // Configuration
  // ---------------------------------------------------------------------

  datatype ReconcileMode = Reuse | Recreate

  /** The reconcile mode from the value of `RUNPOD_RECONCILE_MODE`: `Recreate`
      when it lower-cases to `recreate`, `Reuse` otherwise or when unset. */
  function ParseReconcileMode(value: Option<string>): (m: ReconcileMode)
    ensures m == Recreate <==> value.Some? && Text.EqualsIgnoreCase(value.value, "recreate")
  {
    match value
    case None => Reuse
    case Some(v) =>
      LowerIsRecreate(v);
      if Text.ToLower(v) == "recreate" then Recreate else Reuse
  }

  /** Lower-casing gives `recreate` exactly for the spellings of `recreate`
      that differ only in case. */
  lemma LowerIsRecreate(v: string)
    ensures Text.ToLower(v) == "recreate" <==> Text.EqualsIgnoreCase(v, "recreate")
  {
    var r := "recreate";
    assert forall i :: 0 <= i < |r| ==> Text.LowerAscii(r[i]) == r[i];
    if Text.EqualsIgnoreCase(v, r) {
      assert forall i :: 0 <= i < |v| ==> Text.ToLower(v)[i] == r[i];
    }
  }

  lemma ReconcileModeExamples()
    ensures ParseReconcileMode(Some("ReCreate")) == Recreate
    ensures ParseReconcileMode(Some("recreate ")) == Reuse
    ensures ParseReconcileMode(Some("reuse")) == Reuse
    ensures ParseReconcileMode(None) == Reuse
  {
  }

  /** `split_csv_env`'s string logic: split at commas, trim each piece, drop
      the empty ones. */
  function SplitCsv(raw: string): (r: seq<string>)
    ensures forall i :: 0 <= i < |r| ==> IsCsvItem(r[i])
    ensures KeepsNonEmptyImages(Text.Split(raw, ','), Text.Trim, r, KeptIndices(Text.Split(raw, ',')))
  {
    var pieces := Text.Split(raw, ',');
    TrimmedNonEmptyNoComma(pieces);
    TrimmedNonEmptyKeepsOrder(pieces);
    TrimmedNonEmpty(pieces)
  }

  /** What a value of a comma-separated setting can be: non-empty, without
      a comma, and without surrounding whitespace. */
  predicate IsCsvItem(s: string) {
    s != [] && ',' !in s && Text.Trimmed(s)
  }

  /** The trimmed pieces that are not empty, in order. */
  function TrimmedNonEmpty(pieces: seq<string>): (r: seq<string>)
    ensures |r| <= |pieces|
    ensures forall i :: 0 <= i < |r| ==> r[i] != [] && Text.Trimmed(r[i])
  {
    if pieces == [] then []
    else
      var t := Text.Trim(pieces[0]);
      if t == [] then TrimmedNonEmpty(pieces[1..]) else [t] + TrimmedNonEmpty(pieces[1..])
  }

  /** `s` with one added to every element. */
  function Shift(s: seq<nat>): (r: seq<nat>)
    ensures |r| == |s|
    ensures forall k :: 0 <= k < |s| ==> r[k] == s[k] + 1
  {
    if s == [] then [] else [s[0] + 1] + Shift(s[1..])
  }

  /** The positions of the pieces whose trim is not empty, in order. */
  function KeptIndices(pieces: seq<string>): seq<nat> {
    if pieces == [] then []
    else (if Text.Trim(pieces[0]) == [] then [] else [0]) + Shift(KeptIndices(pieces[1..]))
  }

  /** The values are exactly the non-empty trims of the pieces, in input
      order: value `k` is the trim of piece `idx[k]`, the positions strictly
      increase, and every piece whose trim is not empty has its position
      among them. */
  lemma {:induction false} TrimmedNonEmptyKeepsOrder(pieces: seq<string>)
    ensures KeepsNonEmptyImages(pieces, Text.Trim, TrimmedNonEmpty(pieces), KeptIndices(pieces))
  {
    if pieces != [] {
      TrimmedNonEmptyKeepsOrder(pieces[1..]);
      KeepsOrderStep(pieces, TrimmedNonEmpty(pieces[1..]), KeptIndices(pieces[1..]));
    }
  }

  /** One piece in front of pieces whose non-empty trims are known. */
  lemma KeepsOrderStep(pieces: seq<string>, rt: seq<string>, it: seq<nat>)
    requires pieces != []
    requires KeepsNonEmptyImages(pieces[1..], Text.Trim, rt, it)
    ensures var t := Text.Trim(pieces[0]);
            KeepsNonEmptyImages(pieces, Text.Trim, if t == [] then rt else [t] + rt,
              (if t == [] then [] else [0]) + Shift(it))
  {
    if Text.Trim(pieces[0]) == [] {
      assert [] + Shift(it) == Shift(it);
      SkipPiece(pieces, Text.Trim, rt, it);
    } else {
      KeepPiece(pieces, Text.Trim, rt, it);
    }
  }

  /** `r` is exactly the non-empty images of `pieces` under `f`, in input
      order, and `idx` the positions they come from: value `k` is the image
      of piece `idx[k]`, the positions strictly increase, and every piece
      with a non-empty image has its position among them. */
  predicate KeepsNonEmptyImages(pieces: seq<string>, f: string -> string, r: seq<string>, idx: seq<nat>) {
    && |idx| == |r|
    && (forall k :: 0 <= k < |idx| ==> idx[k] < |pieces| && r[k] == f(pieces[idx[k]]))
    && (forall k, l :: 0 <= k < l < |idx| ==> idx[k] < idx[l])
    && (forall j :: 0 <= j < |pieces| && f(pieces[j]) != [] ==> j in idx)
  }

  /** A first piece with an empty image is dropped. */
  lemma SkipPiece(pieces: seq<string>, f: string -> string, rt: seq<string>, it: seq<nat>)
    requires pieces != [] && f(pieces[0]) == []
    requires KeepsNonEmptyImages(pieces[1..], f, rt, it)
    ensures KeepsNonEmptyImages(pieces, f, rt, Shift(it))
  {
    ShiftIncreasing(it);
    ShiftedImages(pieces, f, rt, it, rt, Shift(it));
    ShiftedCoverage(pieces, f, it, Shift(it));
  }

  /** A first piece with a non-empty image is kept, in front. */
  lemma KeepPiece(pieces: seq<string>, f: string -> string, rt: seq<string>, it: seq<nat>)
    requires pieces != [] && f(pieces[0]) != []
    requires KeepsNonEmptyImages(pieces[1..], f, rt, it)
    ensures KeepsNonEmptyImages(pieces, f, [f(pieces[0])] + rt, [0] + Shift(it))
  {
    var sh := Shift(it);
    ShiftIncreasing(it);
    ZeroFirstIncreasing(sh);
    ShiftedImages(pieces, f, rt, it, [f(pieces[0])] + rt, [0] + sh);
    ShiftedCoverage(pieces, f, it, [0] + sh);
  }

  /** Positions of the later pieces, shifted by one, still name their
      images; with the first piece kept, position 0 names its image. */
  lemma ShiftedImages(pieces: seq<string>, f: string -> string, rt: seq<string>, it: seq<nat>,
                      r: seq<string>, idx: seq<nat>)
    requires pieces != []
    requires KeepsNonEmptyImages(pieces[1..], f, rt, it)
    requires (r == rt && idx == Shift(it))
          || (r == [f(pieces[0])] + rt && idx == [0] + Shift(it))
    ensures |idx| == |r|
    ensures forall k :: 0 <= k < |idx| ==> idx[k] < |pieces| && r[k] == f(pieces[idx[k]])
  {
    var tail := pieces[1..];
    var sh := Shift(it);
    var d := |idx| - |sh|;
    assert d == 0 || d == 1;
    forall k | 0 <= k < |idx|
      ensures idx[k] < |pieces| && r[k] == f(pieces[idx[k]])
    {
      if k >= d {
        assert idx[k] == sh[k - d] == it[k - d] + 1 && r[k] == rt[k - d];
        assert tail[it[k - d]] == pieces[it[k - d] + 1];
      }
    }
  }

  /** Every later piece with a non-empty image has its shifted position
      among `idx`; so does the first piece when it is kept. */
  lemma ShiftedCoverage(pieces: seq<string>, f: string -> string, it: seq<nat>, idx: seq<nat>)
    requires pieces != []
    requires forall j :: 0 <= j < |pieces[1..]| && f(pieces[1..][j]) != [] ==> j in it
    requires (f(pieces[0]) == [] && idx == Shift(it)) || idx == [0] + Shift(it)
    ensures forall j :: 0 <= j < |pieces| && f(pieces[j]) != [] ==> j in idx
  {
    var tail := pieces[1..];
    var sh := Shift(it);
    var d := |idx| - |sh|;
    forall j | 0 <= j < |pieces| && f(pieces[j]) != []
      ensures j in idx
    {
      if j == 0 {
        assert idx[0] == 0;
      } else {
        assert tail[j - 1] == pieces[j];
        var k :| 0 <= k < |it| && it[k] == j - 1;
        assert sh[k] == j;
        assert idx[k + d] == sh[k];
      }
    }
  }

  /** Shifting keeps positions strictly increasing and makes them positive. */
  lemma ShiftIncreasing(it: seq<nat>)
    requires forall k, l :: 0 <= k < l < |it| ==> it[k] < it[l]
    ensures var sh := Shift(it);
            (forall k, l :: 0 <= k < l < |sh| ==> sh[k] < sh[l])
            && (forall k :: 0 <= k < |sh| ==> sh[k] >= 1)
  {
  }

  /** Position 0 in front of positive, strictly increasing positions keeps
      them strictly increasing. */
  lemma ZeroFirstIncreasing(sh: seq<nat>)
    requires forall k, l :: 0 <= k < l < |sh| ==> sh[k] < sh[l]
    requires forall k :: 0 <= k < |sh| ==> sh[k] >= 1
    ensures forall k, l :: 0 <= k < l < |[0] + sh| ==> ([0] + sh)[k] < ([0] + sh)[l]
  {
    var idx := [0] + sh;
    forall k, l | 0 <= k < l < |idx|
      ensures idx[k] < idx[l]
    {
      assert idx[l] == sh[l - 1];
      if k > 0 {
        assert idx[k] == sh[k - 1];
      }
    }
  }

  /** Comma-free pieces give comma-free values. */
  lemma {:induction false} TrimmedNonEmptyNoComma(pieces: seq<string>)
    requires forall i :: 0 <= i < |pieces| ==> ',' !in pieces[i]
    ensures forall i :: 0 <= i < |TrimmedNonEmpty(pieces)| ==> IsCsvItem(TrimmedNonEmpty(pieces)[i])
  {
    if pieces != [] {
      TrimNoComma(pieces[0]);
      TrimmedNonEmptyNoComma(pieces[1..]);
    }
  }

  /** Trimming only removes characters. */
  lemma {:induction false} TrimNoComma(s: string)
    requires ',' !in s
    ensures ',' !in Text.Trim(s)
  {
    var t := Text.TrimStart(s);
    assert t == s[|s| - |t|..];
    assert forall c :: c in t ==> c in s;
    var r := Text.TrimEnd(t);
    assert r == t[..|r|];
    assert forall c :: c in r ==> c in t;
  }

  /** A non-empty piece that trimming leaves alone. */
  predicate KeptByTrim(s: string) {
    s != [] && Text.Trim(s) == s
  }

  /** Pieces that trimming leaves alone are kept as they are. */
  lemma {:induction false} TrimmedPiecesKept(xs: seq<string>)
    requires forall i :: 0 <= i < |xs| ==> KeptByTrim(xs[i])
    ensures TrimmedNonEmpty(xs) == xs
  {
    if xs != [] {
      var x, rest := xs[0], xs[1..];
      assert KeptByTrim(x);
      forall i | 0 <= i < |rest|
        ensures KeptByTrim(rest[i])
      {
        assert rest[i] == xs[i + 1];
      }
      TrimmedPiecesKept(rest);
      TrimmedNonEmptyCons(x, rest);
      assert [x] + rest == xs;
    }
  }

  /** The setting written as comma-free pieces joined by commas. */
  lemma SplitCsvOfPieces(raw: string, xs: seq<string>)
    requires |xs| >= 1 && Text.Join(xs, [',']) == raw
    requires forall i :: 0 <= i < |xs| ==> ',' !in xs[i]
    ensures SplitCsv(raw) == TrimmedNonEmpty(xs)
  {
    Text.SplitJoin(xs, ',');
  }

  /** One step of `TrimmedNonEmpty`, for a piece in front. */
  lemma TrimmedNonEmptyCons(x: string, rest: seq<string>)
    ensures TrimmedNonEmpty([x] + rest) ==
      if Text.Trim(x) == [] then TrimmedNonEmpty(rest) else [Text.Trim(x)] + TrimmedNonEmpty(rest)
  {
    assert ([x] + rest)[1..] == rest;
  }

  /** Blanks after a comma are dropped: `a, b` gives `a` and `b`. */
  lemma SplitCsvBlankAfterComma(a: string, b: string)
    requires IsCsvItem(a) && IsCsvItem(b)
    ensures SplitCsv(a + ", " + b) == [a, b]
  {
    JoinTwo(a, b);
    SplitCsvOfPieces(a + ", " + b, [a, [' '] + b]);
    TrimmedBlankPiece(a, b);
  }

  /** The trims of `a` and of a blank followed by `b`. */
  lemma TrimmedBlankPiece(a: string, b: string)
    requires IsCsvItem(a) && IsCsvItem(b)
    ensures TrimmedNonEmpty([a, [' '] + b]) == [a, b]
  {
    Text.TrimOfTrimmed(a);
    TrimLeadingBlank(b);
    TrimmedPair(a, [' '] + b);
  }

  /** Two pieces whose trims are both non-empty are both kept, trimmed. */
  lemma TrimmedPair(x: string, y: string)
    requires Text.Trim(x) != [] && Text.Trim(y) != []
    ensures TrimmedNonEmpty([x, y]) == [Text.Trim(x), Text.Trim(y)]
  {
    assert [x, y][1..] == [y] && [y][1..] == [];
  }

  /** A value, a comma, a blank and a value: two pieces joined by a comma. */
  lemma JoinTwo(a: string, b: string)
    ensures Text.Join([a, [' '] + b], [',']) == a + ", " + b
  {
    assert [a, [' '] + b][1..] == [[' '] + b];
  }

  /** `str::trim` drops one blank in front of a trimmed value. */
  lemma TrimLeadingBlank(b: string)
    requires b != [] && Text.Trimmed(b)
    ensures Text.Trim([' '] + b) == b
  {
    var b' := [' '] + b;
    assert b'[1..] == b;
    assert Text.TrimStart(b') == b;
    Text.TrimOfTrimmed(b);
  }

  /** An empty value between two commas is dropped: `a,,b` gives `a` and `b`. */
  lemma SplitCsvEmptyBetweenCommas(a: string, b: string)
    requires IsCsvItem(a) && IsCsvItem(b)
    ensures SplitCsv(a + ",," + b) == [a, b]
  {
    JoinThree(a, [], b);
    assert a + ",," + b == a + [','] + [] + [','] + b;
    SplitCsvOfPieces(a + ",," + b, [a, [], b]);
    TrimmedEmptyPiece(a, b);
  }

  /** The trims of `a`, of an empty piece and of `b`. */
  lemma TrimmedEmptyPiece(a: string, b: string)
    requires IsCsvItem(a) && IsCsvItem(b)
    ensures TrimmedNonEmpty([a, [], b]) == [a, b]
  {
    Text.TrimOfTrimmed(a);
    Text.TrimOfTrimmed(b);
    TrimOfEmpty();
    TrimmedDropMiddle(a, [], b);
  }

  /** The trim of the empty string is empty. */
  lemma TrimOfEmpty()
    ensures Text.Trim([]) == []
  {
    assert |Text.Trim([])| == 0;
  }

  /** Of three pieces, a middle one with an empty trim is dropped. */
  lemma TrimmedDropMiddle(x: string, e: string, y: string)
    requires Text.Trim(x) != [] && Text.Trim(e) == [] && Text.Trim(y) != []
    ensures TrimmedNonEmpty([x, e, y]) == [Text.Trim(x), Text.Trim(y)]
  {
    DropFront(e, y);
    TrimmedNonEmptyCons(x, [e, y]);
    ConsPair(x, e, y);
    ConsOne(Text.Trim(x), Text.Trim(y));
  }

  /** A single element in front of a display of two. */
  lemma ConsPair<T>(x: T, e: T, y: T)
    ensures [x] + [e, y] == [x, e, y]
  {
  }

  /** A single element in front of a single element. */
  lemma ConsOne<T>(x: T, y: T)
    ensures [x] + [y] == [x, y]
  {
  }

  /** Of two pieces, a first one with an empty trim is dropped. */
  lemma DropFront(e: string, y: string)
    requires Text.Trim(e) == [] && Text.Trim(y) != []
    ensures TrimmedNonEmpty([e, y]) == [Text.Trim(y)]
  {
    TrimmedNonEmptyCons(y, []);
    AppendNil([y]);
    AppendNil([Text.Trim(y)]);
    TrimmedNonEmptyCons(e, [y]);
    ConsOne(e, y);
  }

  /** Appending nothing. */
  lemma AppendNil<T>(s: seq<T>)
    ensures s + [] == s
  {
  }

  /** Three pieces joined by commas. */
  lemma JoinThree(a: string, e: string, b: string)
    ensures Text.Join([a, e, b], [',']) == a + [','] + e + [','] + b
  {
    var xs := [a, e, b];
    assert xs[1..] == [e, b] && xs[1..][1..] == [b];
    assert Text.Join([e, b], [',']) == e + [','] + b;
  }

  /** Joining non-empty, trimmed, comma-free values with commas and
      splitting the result gives the values back. */
  lemma SplitCsvOfJoin(xs: seq<string>)
    requires |xs| >= 1
    requires forall i :: 0 <= i < |xs| ==> IsCsvItem(xs[i])
    ensures SplitCsv(Text.Join(xs, ",")) == xs
  {
    Text.SplitJoin(xs, ',');
    forall i | 0 <= i < |xs|
      ensures KeptByTrim(xs[i])
    {
      Text.TrimOfTrimmed(xs[i]);
    }
    TrimmedPiecesKept(xs);
  }

  /** The default of `RUNPOD_PORTS` gives the SSH and Jupyter ports. */
  lemma DefaultPorts()
    ensures SplitCsv("22/tcp,8888/http") == ["22/tcp", "8888/http"]
  {
    var xs := ["22/tcp", "8888/http"];
    assert xs[1..] == ["8888/http"];
    assert Text.Join(xs, ",") == "22/tcp,8888/http";
    SplitCsvOfJoin(xs);
  }

  /** The settings the decision logic reads. */
  datatype OrchestratorConfig = OrchestratorConfig(
    podName: string,
    imageName: string,
    requiredPorts: seq<string>,
    readyTimeoutMs: U64,
    reconcileMode: ReconcileMode)

  // ---------------------------------------------------------------------
  // Pods, errors and REST replies
  // ---------------------------------------------------------------------

  datatype PodInfo = PodInfo(
    id: string, name: Option<string>, desiredStatus: Option<string>,
    imageName: Option<string>, machineId: Option<string>)

  /** A pod's details; `portMappings` lists the JSON object's entries
      (container port text, public port) in the order the map yields them. */
  datatype PodDetails = PodDetails(
    id: string, name: Option<string>, desiredStatus: Option<string>,
    imageName: Option<string>, publicIp: Option<string>,
    portMappings: Option<seq<(string, U16)>>, ports: Option<seq<string>>)

  datatype PodLease = PodLease(
    id: string, name: string, publicIp: string,
    portMappings: map<U16, U16>, desiredStatus: string)

  /** The errors of the orchestrator; the configuration errors of
      `from_env` are left out. */
  datatype OrchestratorError =
    | Http
    | Json(message: string)
    | Api(status: U16, body: string)
    | Provision(message: string)
    | PodNotFound(id: string)
    | Timeout

  /** The reply to one REST request: a status, the body text and what serde
      makes of it; or a transport error. */
  datatype RestReply<T> = RestResponse(status: U16, text: string, decoded: Result<T, string>) | RestTransportError

  /** `list_pods`: a success is decoded, any other status is an API error. */
  function ListPodsOutcome(reply: RestReply<seq<PodInfo>>): (r: Result<seq<PodInfo>, OrchestratorError>)
    ensures r.Ok? <==> reply.RestResponse? && Retry.IsSuccess(reply.status) && reply.decoded.Ok?
    ensures r.Ok? ==> r.value == reply.decoded.value
    ensures reply.RestResponse? && !Retry.IsSuccess(reply.status) ==> r == Err(Api(reply.status, reply.text))
    ensures reply.RestResponse? && Retry.IsSuccess(reply.status) && reply.decoded.Err? ==>
              r == Err(Json(reply.decoded.error))
    ensures reply.RestTransportError? ==> r == Err(Http)
  {
    match reply
    case RestTransportError => Err(Http)
    case RestResponse(status, text, decoded) =>
      if !Retry.IsSuccess(status) then Err(Api(status, text))
      else if decoded.Err? then Err(Json(decoded.error))
      else Ok(decoded.value)
  }

  /** `start_pod`: only the status matters. */
  function StartOutcome(reply: RestReply<()>): (r: Result<(), OrchestratorError>)
    ensures r.Ok? <==> reply.RestResponse? && Retry.IsSuccess(reply.status)
    ensures reply.RestResponse? && !Retry.IsSuccess(reply.status) ==> r == Err(Api(reply.status, reply.text))
    ensures reply.RestTransportError? ==> r == Err(Http)
  {
    match reply
    case RestTransportError => Err(Http)
    case RestResponse(status, text, _) => if Retry.IsSuccess(status) then Ok(()) else Err(Api(status, text))
  }

  /** `get_pod`: 404 means the pod does not exist, any other failure is an
      error, a success is decoded. */
  function GetPodOutcome(reply: RestReply<PodDetails>): (r: Result<Option<PodDetails>, OrchestratorError>)
    ensures r == Ok(None) <==> reply.RestResponse? && reply.status == 404
    ensures r.Ok? && r.value.Some? <==>
              reply.RestResponse? && Retry.IsSuccess(reply.status) && reply.decoded.Ok?
    ensures r.Ok? && r.value.Some? ==> r.value.value == reply.decoded.value
    ensures reply.RestResponse? && reply.status != 404 && !Retry.IsSuccess(reply.status) ==>
              r == Err(Api(reply.status, reply.text))
    ensures reply.RestResponse? && Retry.IsSuccess(reply.status) && reply.decoded.Err? ==>
              r == Err(Json(reply.decoded.error))
    ensures reply.RestTransportError? ==> r == Err(Http)
  {
    match reply
    case RestTransportError => Err(Http)
    case RestResponse(status, text, decoded) =>
      if status == 404 then Ok(None)
      else if !Retry.IsSuccess(status) then Err(Api(status, text))
      else if decoded.Err? then Err(Json(decoded.error))
      else Ok(Some(decoded.value))
  }

  // ---------------------------------------------------------------------
  // Choosing a pod
  // ---------------------------------------------------------------------

  /** `is_compatible`: the same image, and not terminated. */
  predicate IsCompatible(cfg: OrchestratorConfig, pod: PodInfo) {
    pod.imageName == Some(cfg.imageName) && pod.desiredStatus != Some("TERMINATED")
  }

  /** The index of the first pod named `name`, or `|pods|` when none is. */
  function FirstNamed(pods: seq<PodInfo>, name: string): (k: nat)
    ensures k <= |pods|
    ensures k < |pods| ==> pods[k].name == Some(name)
    ensures forall j :: 0 <= j < k ==> pods[j].name != Some(name)
  {
    if pods == [] then 0
    else if pods[0].name == Some(name) then 0
    else 1 + FirstNamed(pods[1..], name)
  }

  /** `find_pod_by_name`: the first pod in list order with that name. */
  function FindPodByName(pods: seq<PodInfo>, name: string): (r: Option<PodInfo>)
    ensures r.None? <==> forall j :: 0 <= j < |pods| ==> pods[j].name != Some(name)
    ensures r.Some? ==>
              var k := FirstNamed(pods, name);
              k < |pods| && r.value == pods[k] && r.value.name == Some(name)
              && forall j :: 0 <= j < k ==> pods[j].name != Some(name)
  {
    var k := FirstNamed(pods, name);
    if k < |pods| then Some(pods[k]) else None
  }

  /** The three arms of the `match` in `ensure_ready_pod`. */
  datatype Branch =
    | ReuseExisting(id: string, start: bool)
    | RecreateAfterTerminate(oldId: string)
    | CreateNew

  function ChooseBranch(cfg: OrchestratorConfig, existing: Option<PodInfo>): (b: Branch)
    ensures b.ReuseExisting? <==>
              existing.Some? && IsCompatible(cfg, existing.value) && cfg.reconcileMode == Reuse
    ensures b.ReuseExisting? ==>
              b.id == existing.value.id && (b.start <==> existing.value.desiredStatus == Some("EXITED"))
    ensures b.RecreateAfterTerminate? <==> existing.Some? && cfg.reconcileMode == Recreate
    ensures b.RecreateAfterTerminate? ==> b.oldId == existing.value.id
    ensures b.CreateNew? <==>
              existing.None? || (!IsCompatible(cfg, existing.value) && cfg.reconcileMode == Reuse)
  {
    match existing
    case Some(pod) =>
      if IsCompatible(cfg, pod) && cfg.reconcileMode == Reuse then
        ReuseExisting(pod.id, pod.desiredStatus == Some("EXITED"))
      else if cfg.reconcileMode.Recreate? then RecreateAfterTerminate(pod.id)
      else CreateNew
    case None => CreateNew
  }

  // ---------------------------------------------------------------------
  // Readiness
  // ---------------------------------------------------------------------

  /** The entries whose key text parses as a `u16`, later entries replacing
      earlier ones with the same port. */
  function PortMapOf(entries: seq<(string, U16)>): (m: map<U16, U16>)
    ensures forall p :: p in m <==> exists i :: 0 <= i < |entries| && Text.ParseU16(entries[i].0) == Some(p)
  {
    if entries == [] then map[]
    else
      var init := entries[..|entries| - 1];
      var last := entries[|entries| - 1];
      var m := PortMapOf(init);
      assert forall i :: 0 <= i < |init| ==> init[i] == entries[i];
      match Text.ParseU16(last.0)
      case Some(p) => m[p := last.1]
      case None => m
  }

  /** Each public port in the map is that of the last entry for its
      container port. */
  lemma {:induction false} PortMapValue(entries: seq<(string, U16)>, i: nat)
    requires i < |entries| && Text.ParseU16(entries[i].0).Some?
    requires forall j :: i < j < |entries| ==> Text.ParseU16(entries[j].0) != Text.ParseU16(entries[i].0)
    ensures PortMapOf(entries)[Text.ParseU16(entries[i].0).value] == entries[i].1
  {
    var init := entries[..|entries| - 1];
    if i < |entries| - 1 {
      assert init[i] == entries[i];
      assert forall j :: i < j < |init| ==> init[j] == entries[j];
      PortMapValue(init, i);
    }
  }

  /** The port-map loop of `wait_for_ready`. */
  method BuildPortMap(mappings: Option<seq<(string, U16)>>) returns (m: map<U16, U16>)
    ensures mappings.None? ==> m == map[]
    ensures mappings.Some? ==> m == PortMapOf(mappings.value)
  {
    m := map[];
    if mappings.Some? {
      var entries := mappings.value;
      for i := 0 to |entries|
        invariant m == PortMapOf(entries[..i])
      {
        assert entries[..i + 1][..i] == entries[..i];
        var p := Text.ParseU16(entries[i].0);
        if p.Some? {
          m := m[p.value := entries[i].1];
        }
      }
      assert entries[..|entries|] == entries;
    }
  }

  /** The container port of a required port spec such as `8888/http`: the
      text before the first `/`, parsed as a `u16`. */
  function RequiredPort(spec: string): Option<U16> {
    Text.ParseU16(Text.Split(spec, '/')[0])
  }

  predicate HasRequiredPorts(required: seq<string>, m: map<U16, U16>) {
    forall i :: 0 <= i < |required| ==> RequiredPort(required[i]).Some? && RequiredPort(required[i]).value in m
  }

  /** A spec whose port does not parse is never satisfied, whatever the
      map holds. */
  lemma UnparsableSpecNeverReady(required: seq<string>, m: map<U16, U16>, i: nat)
    requires i < |required| && RequiredPort(required[i]).None?
    ensures !HasRequiredPorts(required, m)
  {
  }

  /** The text before the first `/` of `port + "/" + protocol`. */
  lemma SpecPort(port: string, protocol: string)
    requires '/' !in port
    ensures Text.Split(port + "/" + protocol, '/')[0] == port
  {
    var s := port + "/" + protocol;
    assert s == port + ['/'] + protocol;
    Text.FirstIndexOfJoin(port, protocol, '/');
    Text.SplitHead(s, '/');
    assert s[..|port|] == port;
  }

  /** A port written as plain digits parses to their value. */
  lemma PlainPort(port: string, v: nat)
    requires port != [] && port[0] != '+' && Text.AllDigits(port)
    requires Text.DigitsValue(port) == v <= U16_MAX
    ensures Text.ParseU16(port) == Some(v)
  {
  }

  lemma SshPortSpec()
    ensures RequiredPort("22/tcp") == Some(22)
  {
    assert "22/tcp" == "22" + "/" + "tcp";
    SpecPort("22", "tcp");
    assert Text.DigitsValue("22") == 22 by {
      assert "22"[..1] == "2";
    }
    PlainPort("22", 22);
  }

  lemma JupyterPortSpec()
    ensures RequiredPort("8888/http") == Some(8888)
  {
    assert "8888/http" == "8888" + "/" + "http";
    SpecPort("8888", "http");
    assert Text.DigitsValue("8888") == 8888 by {
      assert "8888"[..3] == "888";
      assert "888"[..2] == "88";
      assert "88"[..1] == "8";
    }
    PlainPort("8888", 8888);
  }

  /** A service name in place of the port number never parses. */
  lemma NamedPortSpec()
    ensures RequiredPort("ssh/tcp") == None
  {
    assert "ssh/tcp" == "ssh" + "/" + "tcp";
    SpecPort("ssh", "tcp");
    assert !Text.IsDigit("ssh"[0]);
  }

  function PortMappingsOf(pod: PodDetails): map<U16, U16> {
    if pod.portMappings.Some? then PortMapOf(pod.portMappings.value) else map[]
  }

  /** The readiness test of one poll: the lease to return, if the pod is
      running, has a non-empty public IP and maps every required port. */
  function ReadyLease(pod: PodDetails, required: seq<string>): (r: Option<PodLease>)
    ensures r.Some? <==>
              pod.desiredStatus == Some("RUNNING")
              && pod.publicIp.Some? && pod.publicIp.value != []
              && HasRequiredPorts(required, PortMappingsOf(pod))
    ensures r.Some? ==>
              r.value == PodLease(pod.id, pod.name.GetOr(""), pod.publicIp.value,
                                  PortMappingsOf(pod), "RUNNING")
  {
    if pod.desiredStatus != Some("RUNNING") then None
    else if pod.publicIp.None? || pod.publicIp.value == [] then None
    else
      var m := PortMappingsOf(pod);
      if !HasRequiredPorts(required, m) then None
      else Some(PodLease(pod.id, pod.name.GetOr(""), pod.publicIp.value, m, pod.desiredStatus.GetOr("")))
  }

  /** The outcome of `wait_for_ready` from check number `i` on, where
      `clock[i]` is the elapsed time read by that check and `polls(i)` is
      the reply to its `get_pod`. */
  function WaitFrom(podId: string, timeout: nat, required: seq<string>,
                    clock: seq<nat>, polls: nat -> RestReply<PodDetails>, i: nat): Result<PodLease, OrchestratorError>
    requires i < |clock| && clock[|clock| - 1] > timeout
    decreases |clock| - i
  {
    if clock[i] > timeout then Err(Timeout)
    else
      match GetPodOutcome(polls(i))
      case Err(e) => Err(e)
      case Ok(None) => Err(PodNotFound(podId))
      case Ok(Some(pod)) =>
        match ReadyLease(pod, required)
        case Some(lease) => Ok(lease)
        case None => WaitFrom(podId, timeout, required, clock, polls, i + 1)
  }

  /** Every lease `wait_for_ready` returns is ready: running, with a public
      IP and every required port mapped, and it comes from a poll made
      before the deadline. */
  lemma {:induction false} WaitReturnsReadyLease(podId: string, timeout: nat, required: seq<string>,
                                                 clock: seq<nat>, polls: nat -> RestReply<PodDetails>, i: nat)
    requires i < |clock| && clock[|clock| - 1] > timeout
    requires WaitFrom(podId, timeout, required, clock, polls, i).Ok?
    ensures var lease := WaitFrom(podId, timeout, required, clock, polls, i).value;
            lease.desiredStatus == "RUNNING" && lease.publicIp != []
            && HasRequiredPorts(required, lease.portMappings)
    ensures exists k :: (i <= k < |clock| && clock[k] <= timeout
              && GetPodOutcome(polls(k)).Ok? && GetPodOutcome(polls(k)).value.Some?
              && Some(WaitFrom(podId, timeout, required, clock, polls, i).value)
                 == ReadyLease(GetPodOutcome(polls(k)).value.value, required))
    decreases |clock| - i
  {
    var pod := GetPodOutcome(polls(i)).value.value;
    if ReadyLease(pod, required).None? {
      WaitReturnsReadyLease(podId, timeout, required, clock, polls, i + 1);
    }
  }

  /** A poll that finds no pod ends the wait at once with `PodNotFound`. */
  lemma MissingPodIsNotRetried(podId: string, timeout: nat, required: seq<string>,
                               clock: seq<nat>, polls: nat -> RestReply<PodDetails>, i: nat)
    requires i < |clock| && clock[|clock| - 1] > timeout
    requires clock[i] <= timeout && GetPodOutcome(polls(i)) == Ok(None)
    ensures WaitFrom(podId, timeout, required, clock, polls, i) == Err(PodNotFound(podId))
  {
  }

  /** The deadline is checked before each poll: once a reading is past it,
      no further poll is looked at. */
  lemma TimeoutCheckedFirst(podId: string, timeout: nat, required: seq<string>,
                            clock: seq<nat>, polls: nat -> RestReply<PodDetails>,
                            polls': nat -> RestReply<PodDetails>, i: nat)
    requires i < |clock| && clock[|clock| - 1] > timeout && clock[i] > timeout
    ensures WaitFrom(podId, timeout, required, clock, polls, i) == Err(Timeout)
    ensures WaitFrom(podId, timeout, required, clock, polls', i) == Err(Timeout)
  {
  }

  /** `wait_for_ready`. */
  method WaitForReady(podId: string, cfg: OrchestratorConfig, clock: seq<nat>, polls: nat -> RestReply<PodDetails>)
    returns (result: Result<PodLease, OrchestratorError>)
    requires |clock| > 0 && clock[|clock| - 1] > Retry.FromMillis(cfg.readyTimeoutMs)
    ensures result == WaitFrom(podId, Retry.FromMillis(cfg.readyTimeoutMs), cfg.requiredPorts, clock, polls, 0)
  {
    var timeout := Retry.FromMillis(cfg.readyTimeoutMs);
    var i := 0;
    while true
      invariant i < |clock|
      invariant WaitFrom(podId, timeout, cfg.requiredPorts, clock, polls, i)
                == WaitFrom(podId, timeout, cfg.requiredPorts, clock, polls, 0)
      decreases |clock| - i
    {
      if clock[i] > timeout {
        return Err(Timeout);
      }
      var found := GetPodOutcome(polls(i));
      if found.Err? {
        return Err(found.error);
      }
      if found.value.Some? {
        var pod := found.value.value;
        if pod.desiredStatus != Some("RUNNING") {
          i := i + 1;
          continue;
        }
        if pod.publicIp.None? || pod.publicIp.value == [] {
          i := i + 1;
          continue;
        }
        var m := BuildPortMap(pod.portMappings);
        if !HasRequiredPorts(cfg.requiredPorts, m) {
          i := i + 1;
          continue;
        }
        return Ok(PodLease(pod.id, pod.name.GetOr(""), pod.publicIp.value, m, pod.desiredStatus.GetOr("")));
      }
      return Err(PodNotFound(podId));
    }
  }

  // ---------------------------------------------------------------------
  // ensure_ready_pod
  // ---------------------------------------------------------------------

  /** The calls `ensure_ready_pod` makes after listing the pods. */
  datatype Call = StartPod(id: string) | TerminatePod(id: string) | CreatePod | WaitForReadyPod(id: string)

  /** What happens before the wait: the calls made, and the id of the pod
      to wait for or the error that stops `ensure_ready_pod`. The reply to
      the termination of a recreated pod is ignored, so it does not appear. */
  function Prepare(cfg: OrchestratorConfig, pods: seq<PodInfo>, startReply: RestReply<()>,
                   created: Result<string, string>): (p: (seq<Call>, Result<string, OrchestratorError>))
  {
    match ChooseBranch(cfg, FindPodByName(pods, cfg.podName))
    case ReuseExisting(id, start) =>
      if !start then ([], Ok(id))
      else if StartOutcome(startReply).Err? then ([StartPod(id)], Err(StartOutcome(startReply).error))
      else ([StartPod(id)], Ok(id))
    case RecreateAfterTerminate(oldId) =>
      ([TerminatePod(oldId), CreatePod], if created.Err? then Err(Provision(created.error)) else Ok(created.value))
    case CreateNew =>
      ([CreatePod], if created.Err? then Err(Provision(created.error)) else Ok(created.value))
  }

  /** Only Recreate mode terminates a pod, and only the one found by name;
      a reused pod keeps its id and is started only when it had exited. */
  lemma PrepareBranches(cfg: OrchestratorConfig, pods: seq<PodInfo>, startReply: RestReply<()>,
                        created: Result<string, string>)
    ensures var (calls, target) := Prepare(cfg, pods, startReply, created);
            var existing := FindPodByName(pods, cfg.podName);
            ((exists i :: 0 <= i < |calls| && calls[i].TerminatePod?) <==>
               cfg.reconcileMode == Recreate && existing.Some?)
            && (cfg.reconcileMode == Recreate && existing.Some? ==>
                  calls == [TerminatePod(existing.value.id), CreatePod])
            && (existing.Some? && IsCompatible(cfg, existing.value) && cfg.reconcileMode == Reuse ==>
                  (target.Ok? ==> target.value == existing.value.id)
                  && (CreatePod !in calls)
                  && (StartPod(existing.value.id) in calls <==> existing.value.desiredStatus == Some("EXITED")))
            && (cfg.reconcileMode == Reuse && (existing.None? || !IsCompatible(cfg, existing.value)) ==>
                  calls == [CreatePod])
  {
    var (calls, target) := Prepare(cfg, pods, startReply, created);
    if cfg.reconcileMode == Recreate && FindPodByName(pods, cfg.podName).Some? {
      assert calls[0].TerminatePod?;
    }
  }

  /** `ensure_ready_pod`, with the replies of its REST calls, the pod the
      provisioner creates (or its error message), and the clock and replies
      of the readiness loop. */
  method EnsureReadyPod(cfg: OrchestratorConfig, listed: RestReply<seq<PodInfo>>, startReply: RestReply<()>,
                        created: Result<string, string>, clock: seq<nat>, polls: nat -> RestReply<PodDetails>)
    returns (result: Result<PodLease, OrchestratorError>, calls: seq<Call>)
    requires |clock| > 0 && clock[|clock| - 1] > Retry.FromMillis(cfg.readyTimeoutMs)
    ensures ListPodsOutcome(listed).Err? ==> result == Err(ListPodsOutcome(listed).error) && calls == []
    ensures ListPodsOutcome(listed).Ok? ==>
              var (before, target) := Prepare(cfg, ListPodsOutcome(listed).value, startReply, created);
              (target.Err? ==> result == Err(target.error) && calls == before)
              && (target.Ok? ==>
                    calls == before + [WaitForReadyPod(target.value)]
                    && result == WaitFrom(target.value, Retry.FromMillis(cfg.readyTimeoutMs), cfg.requiredPorts,
                                          clock, polls, 0))
  {
    var pods := ListPodsOutcome(listed);
    if pods.Err? {
      return Err(pods.error), [];
    }
    var existing := FindPodByName(pods.value, cfg.podName);
    var podId: string;
    calls := [];
    match ChooseBranch(cfg, existing) {
      case ReuseExisting(id, start) =>
        if start {
          calls := calls + [StartPod(id)];
          var started := StartOutcome(startReply);
          if started.Err? {
            return Err(started.error), calls;
          }
        }
        podId := id;
      case RecreateAfterTerminate(oldId) =>
        // The outcome of the termination is ignored.
        calls := calls + [TerminatePod(oldId), CreatePod];
        if created.Err? {
          return Err(Provision(created.error)), calls;
        }
        podId := created.value;
      case CreateNew =>
        calls := calls + [CreatePod];
        if created.Err? {
          return Err(Provision(created.error)), calls;
        }
        podId := created.value;
    }
    calls := calls + [WaitForReadyPod(podId)];
    result := WaitForReady(podId, cfg, clock, polls);
  }

  // ---------------------------------------------------------------------
  // PodLease helpers
  // ---------------------------------------------------------------------

  /** `ssh_endpoint`: the IP and the public port of container port 22. */
  function SshEndpoint(lease: PodLease): (r: Option<(string, U16)>)
    ensures r.Some? <==> 22 in lease.portMappings
    ensures r.Some? ==> r.value == (lease.publicIp, lease.portMappings[22])
  {
    if 22 in lease.portMappings then Some((lease.publicIp, lease.portMappings[22])) else None
  }

  /** `http_endpoint`: `http://<ip>:<public port>` for a mapped container
      port. */
  function HttpEndpoint(lease: PodLease, containerPort: U16): (r: Option<string>)
    ensures r.Some? <==> containerPort in lease.portMappings
  {
    if containerPort in lease.portMappings then
      Some("http://" + lease.publicIp + ":" + Text.NatToString(lease.portMappings[containerPort]))
    else None
  }

  /** The URL of `http_endpoint` is `http://<ip>:` followed by the public
      port in canonical decimal: digits only, no leading zero, of the port's
      value, so that the text parses back to the port. */
  lemma HttpEndpointPort(lease: PodLease, containerPort: U16)
    requires containerPort in lease.portMappings
    ensures var u := HttpEndpoint(lease, containerPort).value;
            var prefix := "http://" + lease.publicIp + ":";
            |prefix| < |u| && u[..|prefix|] == prefix
            && var digits := u[|prefix|..];
               && digits != [] && Text.AllDigits(digits)
               && (|digits| > 1 ==> digits[0] != '0')
               && Text.DigitsValue(digits) == lease.portMappings[containerPort]
               && Text.ParseU16(digits) == Some(lease.portMappings[containerPort])
  {
    var prefix := "http://" + lease.publicIp + ":";
    var s := Text.NatToString(lease.portMappings[containerPort]);
    assert HttpEndpoint(lease, containerPort).value == prefix + s;
    assert (prefix + s)[|prefix|..] == s;
    assert (prefix + s)[..|prefix|] == prefix;
    Text.ParseU16OfNatToString(lease.portMappings[containerPort]);
  }

  /** `jupyter_endpoint`: the HTTP endpoint of port 8888. */
  function JupyterEndpoint(lease: PodLease): (r: Option<string>)
    ensures r.Some? <==> 8888 in lease.portMappings
    ensures r == HttpEndpoint(lease, 8888)
  {
    HttpEndpoint(lease, 8888)
  }

  /** `tcp_endpoint`: the IP and public port of a mapped container port. */
  function TcpEndpoint(lease: PodLease, containerPort: U16): (r: Option<(string, U16)>)
    ensures r.Some? <==> containerPort in lease.portMappings
    ensures r.Some? ==> r.value == (lease.publicIp, lease.portMappings[containerPort])
  {
    if containerPort in lease.portMappings then Some((lease.publicIp, lease.portMappings[containerPort])) else None
  }

  /** A lease from `wait_for_ready` under the default port list has both an
      SSH and a Jupyter endpoint. */
  lemma DefaultLeaseHasEndpoints(pod: PodDetails)
    requires ReadyLease(pod, ["22/tcp", "8888/http"]).Some?
    ensures SshEndpoint(ReadyLease(pod, ["22/tcp", "8888/http"]).value).Some?
    ensures JupyterEndpoint(ReadyLease(pod, ["22/tcp", "8888/http"]).value).Some?
  {
    SshPortSpec();
    JupyterPortSpec();
    var required := ["22/tcp", "8888/http"];
    assert RequiredPort(required[0]) == Some(22);
    assert RequiredPort(required[1]) == Some(8888);
  }
}
