/** The request handling of app/api/endpoints.py without HTTP, timing and
    image decoding: how a follow-up is folded into the previous diagnosis, how a
    diagnosis record becomes the response, and in which order `diagnose` and
    `_handle_followup` consult the caches, the vision model and the session
    store. The vision model, the material normaliser and the image processor
    are inputs. */
module Endpoints {
  import opened Common
  import opened Records
  import opened LruStore
  import opened Caching
  import opened Sessions

  // ---------------------------------------------------------------------------
  // `_merge_followup_response`

  /** Additional steps numbered `start`, `start + 1`, ... in their order; every
      other key of a step is kept. */
  function Renumber(steps: seq<RepairStep>, start: int): (r: seq<RepairStep>)
    ensures |r| == |steps|
  {
    seq(|steps|, i requires 0 <= i < |steps| => steps[i].(step := Some(start + i)))
  }

  /** What `_merge_followup_response` returns: a copy of `previous` whose
      materials, repair steps and warnings are extended by the follow-up's
      additions, the additional steps numbered after the existing ones. */
  function Merge(previous: DiagnosisRecord, followup: Followup): DiagnosisRecord {
    var m := match followup.additionalMaterials
      case Some(extra) => previous.(materials := Some(previous.materials.GetOr([]) + extra))
      case None => previous;
    var s := match followup.additionalSteps
      case Some(extra) =>
        var existing := m.repairSteps.GetOr([]);
        m.(repairSteps := Some(existing + Renumber(extra, |existing| + 1)))
      case None => m;
    match followup.additionalWarnings
    case Some(extra) => s.(warnings := Some(s.warnings.GetOr([]) + extra))
    case None => s
  }

  /** `_merge_followup_response`. The renumbering loop writes into the
      follow-up's own step records, so the follow-up as it is afterwards is
      returned too. */
  method MergeFollowupResponse(previous: DiagnosisRecord, followup: Followup)
    returns (merged: DiagnosisRecord, followupAfter: Followup)
    ensures merged == Merge(previous, followup)
    ensures followupAfter == match followup.additionalSteps
      case Some(extra) => followup.(additionalSteps := Some(Renumber(extra, |previous.repairSteps.GetOr([])| + 1)))
      case None => followup
  {
    merged := previous;
    followupAfter := followup;
    if followup.additionalMaterials.Some? {
      var existing := merged.materials.GetOr([]);
      merged := merged.(materials := Some(existing + followup.additionalMaterials.value));
    }
    if followup.additionalSteps.Some? {
      var existing := merged.repairSteps.GetOr([]);
      var start := |existing| + 1;
      var steps := followup.additionalSteps.value;
      for i := 0 to |steps|
        invariant |steps| == |followup.additionalSteps.value|
        invariant forall j :: 0 <= j < i ==> steps[j] == followup.additionalSteps.value[j].(step := Some(start + j))
        invariant forall j :: i <= j < |steps| ==> steps[j] == followup.additionalSteps.value[j]
      {
        steps := steps[i := steps[i].(step := Some(start + i))];
      }
      assert steps == Renumber(followup.additionalSteps.value, start);
      followupAfter := followupAfter.(additionalSteps := Some(steps));
      merged := merged.(repairSteps := Some(existing + steps));
    }
    if followup.additionalWarnings.Some? {
      var existing := merged.warnings.GetOr([]);
      merged := merged.(warnings := Some(existing + followup.additionalWarnings.value));
    }
  }

  /** Steps numbered 1, 2, ... in order. */
  predicate NumberedFromOne(steps: seq<RepairStep>) {
    forall i :: 0 <= i < |steps| ==> steps[i].step == Some(i + 1)
  }

  /** Previous steps numbered 1..k and m additional steps give steps numbered
      1..k+m: the previous steps first, unchanged, then the additions with
      their other keys kept. */
  lemma MergeNumbersSteps(previous: DiagnosisRecord, followup: Followup)
    requires NumberedFromOne(previous.repairSteps.GetOr([]))
    requires followup.additionalSteps.Some?
    ensures var old_ := previous.repairSteps.GetOr([]);
            var extra := followup.additionalSteps.value;
            var r := Merge(previous, followup).repairSteps;
      && r.Some? && |r.value| == |old_| + |extra|
      && NumberedFromOne(r.value)
      && r.value[..|old_|] == old_
      && forall i :: 0 <= i < |extra| ==>
           r.value[|old_| + i].(step := extra[i].step) == extra[i]
  {
    var old_ := previous.repairSteps.GetOr([]);
    var extra := followup.additionalSteps.value;
    var r := Merge(previous, followup).repairSteps.value;
    assert r == old_ + Renumber(extra, |old_| + 1);
    forall i | 0 <= i < |r|
      ensures r[i].step == Some(i + 1)
    {
      if i >= |old_| {
        assert r[i] == Renumber(extra, |old_| + 1)[i - |old_|];
      }
    }
  }

  /** The merge only ever appends: the previous materials, steps and warnings
      (an absent list counts as empty) are a prefix of the merged ones, followed
      by exactly the additions, each additional step renumbered to continue
      the existing steps; a list the follow-up does not extend is left as it
      was. */
  lemma MergeAppends(previous: DiagnosisRecord, followup: Followup)
    ensures var r := Merge(previous, followup);
      && (followup.additionalMaterials.Some? ==>
            r.materials == Some(previous.materials.GetOr([]) + followup.additionalMaterials.value))
      && (followup.additionalMaterials.None? ==> r.materials == previous.materials)
      && (followup.additionalSteps.Some? ==>
            var prev := previous.repairSteps.GetOr([]);
            var extra := followup.additionalSteps.value;
            && r.repairSteps.Some? && |r.repairSteps.value| == |prev| + |extra|
            && r.repairSteps.value[..|prev|] == prev
            && forall i :: 0 <= i < |extra| ==> r.repairSteps.value[|prev| + i] == extra[i].(step := Some(|prev| + 1 + i)))
      && (followup.additionalSteps.None? ==> r.repairSteps == previous.repairSteps)
      && (followup.additionalWarnings.Some? ==>
            r.warnings == Some(previous.warnings.GetOr([]) + followup.additionalWarnings.value))
      && (followup.additionalWarnings.None? ==> r.warnings == previous.warnings)
  {
  }

  /** Every key but materials, repair steps and warnings is copied from the
      previous diagnosis; in particular the diagnosis text, the failure mode and
      the status survive, and the follow-up's answer is never written into the
      record. */
  lemma MergeCopiesTheRest(previous: DiagnosisRecord, followup: Followup, answer: Option<string>)
    ensures var r := Merge(previous, followup);
      r.(materials := previous.materials, repairSteps := previous.repairSteps, warnings := previous.warnings) == previous
    ensures Merge(previous, followup) == Merge(previous, followup.(answer := answer))
  {
  }

  /** A follow-up without additions leaves the diagnosis as it was. */
  lemma MergeNothingIsIdentity(previous: DiagnosisRecord, answer: Option<string>)
    ensures Merge(previous, Followup(answer, None, None, None)) == previous
  {
  }

  // ---------------------------------------------------------------------------
  // `_format_diagnosis_response`

  const RetakeHint := "Please retake the photo with better lighting and focus."

  /** `status == 'unclear'`. */
  predicate IsUnclear(d: DiagnosisRecord) {
    d.status == Some("unclear")
  }

  /** One response material: name defaults to "", category to "other", the
      search query to the name. */
  function MaterialOutOf(m: Material): MaterialOut {
    MaterialOut(m.name.GetOr(""), m.category.GetOr("other"), m.searchQuery.GetOr(m.name.GetOr("")))
  }

  /** One response step: number defaults to 0, title and instruction to "". */
  function StepOutOf(s: RepairStep): StepOut {
    StepOut(s.step.GetOr(0), s.title.GetOr(""), s.instruction.GetOr(""), s.safetyTip)
  }

  function MaterialsOut(ms: seq<Material>): (r: seq<MaterialOut>)
    ensures |r| == |ms|
  {
    seq(|ms|, i requires 0 <= i < |ms| => MaterialOutOf(ms[i]))
  }

  function StepsOut(ss: seq<RepairStep>): (r: seq<StepOut>)
    ensures |r| == |ss|
  {
    seq(|ss|, i requires 0 <= i < |ss| => StepOutOf(ss[i]))
  }

  /** `_format_diagnosis_response` without the timing block. */
  function FormatDiagnosisResponse(d: DiagnosisRecord, sessionId: Option<string>): DiagnosisResponse {
    if IsUnclear(d) then
      DiagnosisResponse(
        d.reason.GetOr("Image unclear"), 0.1, None, None, None, None, None,
        [], [], [], d.suggestions.GetOr([RetakeHint]), [], sessionId)
    else
      DiagnosisResponse(
        d.failureMode.OrElse(d.diagnosis).GetOr("Unknown issue"),
        d.confidence.GetOr(0.5),
        d.issueType, d.professionalHelpRecommended, d.professionalHelpReason,
        d.estimatedTime, d.difficulty,
        MaterialsOut(d.materials.GetOr([])),
        d.toolsRequired.OrElse(d.tools).GetOr([]),
        StepsOut(d.repairSteps.GetOr([])),
        d.safetyWarnings.OrElse(d.warnings).GetOr([]),
        d.followupQuestions.GetOr([]),
        sessionId)
  }

  /** An unclear image yields the low-confidence answer with nothing to do:
      no materials, tools, steps or follow-up questions, and at least one line
      of advice unless the record itself carries an empty suggestion list. */
  lemma FormatUnclear(d: DiagnosisRecord, sessionId: Option<string>)
    requires IsUnclear(d)
    ensures var r := FormatDiagnosisResponse(d, sessionId);
      && r.confidence == 0.1 && r.materials == [] && r.toolsRequired == []
      && r.repairSteps == [] && r.followupQuestions == []
      && r.sessionId == sessionId
      && (d.reason.None? ==> r.diagnosis == "Image unclear")
      && (d.suggestions.None? ==> r.warnings == [RetakeHint])
  {
  }

  /** Otherwise every material and every step of the record appears in the
      response, in order, one for one; what the record states about a material
      or a step is kept, and the diagnosis text falls back from the failure mode
      to the diagnosis to "Unknown issue". */
  lemma FormatKeepsLists(d: DiagnosisRecord, sessionId: Option<string>)
    requires !IsUnclear(d)
    ensures var r := FormatDiagnosisResponse(d, sessionId);
            var ms := d.materials.GetOr([]);
            var ss := d.repairSteps.GetOr([]);
      && |r.materials| == |ms| && |r.repairSteps| == |ss|
      && (forall i :: 0 <= i < |ms| && ms[i].name.Some? ==> r.materials[i].name == ms[i].name.value)
      && (forall i :: 0 <= i < |ms| && ms[i].searchQuery.None? ==> r.materials[i].searchQuery == r.materials[i].name)
      && (forall i :: 0 <= i < |ss| && ss[i].step.Some? ==> r.repairSteps[i].step == ss[i].step.value)
      && (d.failureMode.Some? ==> r.diagnosis == d.failureMode.value)
      && (d.failureMode.None? && d.diagnosis.Some? ==> r.diagnosis == d.diagnosis.value)
      && (d.failureMode.None? && d.diagnosis.None? ==> r.diagnosis == "Unknown issue")
      && r.sessionId == sessionId
  {
  }

  /** Formatting the merged diagnosis: the diagnosis text and confidence are
      those of the previous response, its materials are the previous
      response's materials followed by the additions, and with previous steps
      numbered 1..k the response's steps are numbered 1..k+m. */
  lemma FormatAfterMerge(previous: DiagnosisRecord, followup: Followup, sessionId: Option<string>)
    requires !IsUnclear(previous)
    requires NumberedFromOne(previous.repairSteps.GetOr([]))
    ensures var before := FormatDiagnosisResponse(previous, sessionId);
            var after := FormatDiagnosisResponse(Merge(previous, followup), sessionId);
      && after.diagnosis == before.diagnosis && after.confidence == before.confidence
      && after.materials == before.materials + MaterialsOut(followup.additionalMaterials.GetOr([]))
      && |after.repairSteps| == |before.repairSteps| + |followup.additionalSteps.GetOr([])|
      && forall i :: 0 <= i < |after.repairSteps| ==> after.repairSteps[i].step == i + 1
  {
    var merged := Merge(previous, followup);
    MergeCopiesTheRest(previous, followup, None);
    var ms := previous.materials.GetOr([]);
    var extra := followup.additionalMaterials.GetOr([]);
    assert merged.materials.GetOr([]) == ms + extra;
    assert MaterialsOut(ms + extra) == MaterialsOut(ms) + MaterialsOut(extra);
    var ss := merged.repairSteps.GetOr([]);
    if followup.additionalSteps.Some? {
      MergeNumbersSteps(previous, followup);
    } else {
      assert ss == previous.repairSteps.GetOr([]);
    }
    assert forall i :: 0 <= i < |ss| ==> ss[i].step == Some(i + 1);
  }

  /** The merge extends `warnings`, but the response takes `safety_warnings`
      whenever the record has them: then the follow-up's additional warnings do
      not reach the response. */
  lemma SafetyWarningsShadowAdditions(previous: DiagnosisRecord, followup: Followup, sessionId: Option<string>)
    requires !IsUnclear(previous) && previous.safetyWarnings.Some?
    ensures FormatDiagnosisResponse(Merge(previous, followup), sessionId).warnings == previous.safetyWarnings.value
  {
  }

  /** The response model accepts a confidence between 0 and 1 only; any other
      value makes building the response raise. */
  predicate WellFormed(r: DiagnosisResponse) {
    0.0 <= r.confidence <= 1.0
  }

  // ---------------------------------------------------------------------------
  // Errors

  /** An exception raised while a request is handled: an `HTTPException` with
      its status and detail, or any other exception with its message. */
  datatype Fault = HttpFault(status: nat, detail: string) | Raised(message: string)

  /** The error the client receives. */
  datatype HttpError = HttpError(status: nat, detail: string)

  const SessionGone := "Session not found or expired. Please start a new diagnosis."
  const InvalidResponse := "validation error for DiagnosisResponse"

  function VisionFault(message: string): Fault {
    HttpFault(500, "Vision service error: " + message)
  }

  /** `str(e)` of the exception: "<status>: <detail>" for an `HTTPException`. */
  function Describe(f: Fault): string {
    match f
    case HttpFault(status, detail) => DecimalString(status) + ": " + detail
    case Raised(message) => message
  }

  /** The outer `except Exception` of `diagnose` as written: every exception,
      an `HTTPException` included, becomes a 500 "Internal error". */
  function OuterHandlerAsWritten(f: Fault): HttpError {
    HttpError(500, "Internal error: " + Describe(f))
  }

  /** The outer handler as evidently intended: an `HTTPException` raised
      inside passes through with its own status and detail; any other exception
      is a 500 "Internal error". */
  function OuterHandler(f: Fault): HttpError {
    match f
    case HttpFault(status, detail) => HttpError(status, detail)
    case Raised(message) => HttpError(500, "Internal error: " + message)
  }

  /** As written, the 404 of a follow-up to an unknown or expired session
      reaches the client as a 500; the intended handler keeps the 404. */
  lemma SessionGoneBecomes500()
    ensures OuterHandlerAsWritten(HttpFault(404, SessionGone)).status == 500
    ensures OuterHandler(HttpFault(404, SessionGone)) == HttpError(404, SessionGone)
  {
  }

  /** The two handlers differ only on `HTTPException`s: they agree on every
      other exception, and the intended one keeps every status. */
  lemma OuterHandlersAgreeOnOtherExceptions(f: Fault)
    ensures f.Raised? ==> OuterHandler(f) == OuterHandlerAsWritten(f)
    ensures f.HttpFault? ==> OuterHandler(f).status == f.status && OuterHandler(f).detail == f.detail
    ensures OuterHandlerAsWritten(f).status == 500
  {
  }

  /** Build the response, or fail as the response model's validation does. */
  function Respond(d: DiagnosisRecord, sessionId: Option<string>): Result<DiagnosisResponse, Fault> {
    var r := FormatDiagnosisResponse(d, sessionId);
    if WellFormed(r) then Ok(r) else Err(Raised(InvalidResponse))
  }

  /** The outcome the client sees of an inner outcome. */
  function Handled(r: Result<DiagnosisResponse, Fault>): Result<DiagnosisResponse, HttpError> {
    match r
    case Ok(v) => Ok(v)
    case Err(f) => Err(OuterHandler(f))
  }

  // ---------------------------------------------------------------------------
  // `_handle_followup`

  /** `if 'additional_materials' in followup_response`: normalise them. */
  function NormalizeFollowup(f: Followup, normalize: seq<Material> -> seq<Material>): Followup {
    match f.additionalMaterials
    case Some(ms) => f.(additionalMaterials := Some(normalize(ms)))
    case None => f
  }

  /** `if 'materials' in diagnosis`: normalise them. */
  function NormalizeDiagnosis(d: DiagnosisRecord, normalize: seq<Material> -> seq<Material>): DiagnosisRecord {
    match d.materials
    case Some(ms) => d.(materials := Some(normalize(ms)))
    case None => d
  }

  /** A follow-up can be answered when `get_context` finds a session with a
      non-empty context, that is, a live session with at least one diagnosis. */
  predicate HasContext(v: map<string, SessionState>, sid: string, now: int, ttlSeconds: int) {
    Found(v, sid, now, ttlSeconds) && v[sid].history != []
  }

  /** What `_handle_followup` returns: 404 without context, 500 when the model
      fails, otherwise the merged diagnosis formatted. */
  function FollowupOutcome(v: map<string, SessionState>, sid: string, answer: Result<Followup, string>,
                           normalize: seq<Material> -> seq<Material>, now: int, ttlSeconds: int): Result<DiagnosisResponse, Fault>
  {
    if !HasContext(v, sid, now, ttlSeconds) then Err(HttpFault(404, SessionGone))
    else match answer
      case Err(m) => Err(VisionFault(m))
      case Ok(f) => Respond(Merge(LatestOf(v[sid].history).value, NormalizeFollowup(f, normalize)), Some(sid))
  }

  /** The session store after `_handle_followup`: the session accessed, and,
      when the model answered, the merged diagnosis recorded under the image
      hash "followup". */
  function FollowupStore(v: map<string, SessionState>, sid: string, answer: Result<Followup, string>,
                         normalize: seq<Material> -> seq<Material>, now: int, ttlSeconds: int, maxHistory: nat): map<string, SessionState>
  {
    var touched := AfterAccess(v, sid, now, ttlSeconds);
    if !HasContext(v, sid, now, ttlSeconds) || answer.Err? then touched
    else
      var merged := Merge(LatestOf(v[sid].history).value, NormalizeFollowup(answer.value, normalize));
      Recorded(touched, sid, HistoryEntry("followup", merged, now), maxHistory)
  }

  /** A follow-up to a session without context fails with 404 and leaves the
      store as the lookup left it; one with context records the merged
      diagnosis as the session's latest, so the next follow-up builds on it. */
  lemma FollowupRecordsMerge(v: map<string, SessionState>, sid: string, answer: Result<Followup, string>,
                             normalize: seq<Material> -> seq<Material>, now: int, ttlSeconds: int, maxHistory: nat)
    requires maxHistory > 0 && ttlSeconds >= 0
    ensures !HasContext(v, sid, now, ttlSeconds) ==>
      && FollowupOutcome(v, sid, answer, normalize, now, ttlSeconds) == Err(HttpFault(404, SessionGone))
      && FollowupStore(v, sid, answer, normalize, now, ttlSeconds, maxHistory) == AfterAccess(v, sid, now, ttlSeconds)
    ensures HasContext(v, sid, now, ttlSeconds) && answer.Ok? ==>
      var w := FollowupStore(v, sid, answer, normalize, now, ttlSeconds, maxHistory);
      var merged := Merge(LatestOf(v[sid].history).value, NormalizeFollowup(answer.value, normalize));
      && HasContext(w, sid, now, ttlSeconds)
      && LatestOf(w[sid].history) == Some(merged)
      && w.Keys == v.Keys
  {
    if HasContext(v, sid, now, ttlSeconds) && answer.Ok? {
      var touched := AfterAccess(v, sid, now, ttlSeconds);
      var merged := Merge(LatestOf(v[sid].history).value, NormalizeFollowup(answer.value, normalize));
      RecordedIsLatest(touched, sid, HistoryEntry("followup", merged, now), maxHistory, sid);
    }
  }

  /** The lookups of `_handle_followup`: `get_context`, and when it is not
      empty `get_latest_diagnosis`. The second lookup runs at the same time as
      the first, which has just refreshed the session, so it finds the session
      again and its latest diagnosis exists. */
  method PreviousDiagnosis(store: SessionManager, sid: string, now: int) returns (previous: Option<DiagnosisRecord>)
    requires store.Valid()
    modifies store, store.Repr
    ensures store.Valid()
    ensures previous == if HasContext(old(store.view), sid, now, store.ttlMinutes * 60)
                        then LatestOf(old(store.view)[sid].history) else None
    ensures previous.Some? <==> HasContext(old(store.view), sid, now, store.ttlMinutes * 60)
    ensures store.view == AfterAccess(old(store.view), sid, now, store.ttlMinutes * 60)
    ensures store.Repr == old(store.Repr)
  {
    ghost var v0 := store.view;
    var context := store.GetContext(sid, now);
    if context == "" {
      return None;
    }
    AccessTwice(v0, sid, now, store.ttlMinutes * 60);
    previous := store.GetLatestDiagnosis(sid, now);
  }

  /** `_handle_followup`: the context first (404 without one), then the latest
      diagnosis, then the model, then the merge, the session update and the
      response. `calledModel` says whether the model was asked. */
  method HandleFollowup(store: SessionManager, sid: string, answer: Result<Followup, string>,
                        normalize: seq<Material> -> seq<Material>, now: int)
    returns (out: Result<DiagnosisResponse, Fault>, calledModel: bool)
    requires store.Valid()
    modifies store, store.Repr
    ensures store.Valid()
    ensures calledModel <==> HasContext(old(store.view), sid, now, store.ttlMinutes * 60)
    ensures out == FollowupOutcome(old(store.view), sid, answer, normalize, now, store.ttlMinutes * 60)
    ensures store.view == FollowupStore(old(store.view), sid, answer, normalize, now, store.ttlMinutes * 60, store.maxHistory)
  {
    var previous := PreviousDiagnosis(store, sid, now);
    if previous.None? {
      return Err(HttpFault(404, SessionGone)), false;
    }
    calledModel := true;
    if answer.Err? {
      return Err(VisionFault(answer.error)), true;
    }
    var followup := NormalizeFollowup(answer.value, normalize);
    var merged, _ := MergeFollowupResponse(previous.value, followup);
    store.UpdateSession(sid, "followup", merged, now);
    out := Respond(merged, Some(sid));
  }

  // ---------------------------------------------------------------------------
  // `diagnose`

  /** What `ImageProcessor.process_upload` did with the upload: accepted it
      with its SHA-256 digest and perceptual hash, rejected it with an
      `ImageQualityError`, or raised some other exception. */
  datatype ImageOutcome = Accepted(sha: string, phash: string) | Unclear(reason: string) | Crashed(message: string)

  /** `timing['cache_source']`: where the answer came from. */
  datatype Source = Rejected | FromFollowup | Exact | Perceptual | Miss

  /** The answer to an image the processor rejected. */
  function RejectedResponse(reason: string): DiagnosisResponse {
    DiagnosisResponse("Image unclear", 0.1, None, None, None, None, None,
                      [], [], [], [reason, RetakeHint], [], None)
  }

  /** Python truthiness of an optional text form field. */
  predicate Given(s: Option<string>) {
    s.Some? && s.value != ""
  }

  /** Python truthiness of a cache lookup: a record other than `{}`. */
  predicate Usable(r: Option<DiagnosisRecord>) {
    r.Some? && r.value != EmptyRecord
  }

  // ---------------------------------------------------------------------------
  // The lookup path of `diagnose`, on values

  /** What the lookup path of `diagnose` reads and writes: the slots of both
      stores, the three counters and the sessions. */
  datatype World = World(
    exact: seq<Slot<DiagnosisRecord>>,
    perceptual: seq<Slot<DiagnosisRecord>>,
    exactHits: nat,
    perceptualHits: nat,
    misses: nat,
    sessions: map<string, SessionState>)

  /** The bound and default lifetime of each store, and the history bound. */
  datatype Settings = Settings(exactMax: nat, exactTtl: int, perceptualMax: nat, perceptualTtl: int, maxHistory: nat)

  /** A request on the lookup path: the image's digest and perceptual hash,
      the session id as given, the question (absent is ""), the id a new
      session would get, and the time. */
  datatype Request = Request(sha: string, phash: string, sessionId: Option<string>, question: string,
                             freshId: string, now: int)

  /** The response or the exception, where the answer came from, and the new state. */
  datatype Outcome = Outcome(out: Result<DiagnosisResponse, Fault>, source: Source, world: World)

  /** Both stores hold one entry per key and respect their bounds. */
  predicate StoresValid(w: World, s: Settings) {
    && DistinctKeys(w.exact) && |w.exact| <= s.exactMax
    && DistinctKeys(w.perceptual) && |w.perceptual| <= s.perceptualMax
  }

  /** `diagnose_image(processed_bytes)` as evidently intended: the model's
      diagnosis, or its `VisionServiceError` as a 500 "Vision service error". */
  function DiagnoseImage(vision: Result<DiagnosisRecord, string>): Result<DiagnosisRecord, Fault> {
    match vision
    case Ok(d) => Ok(d)
    case Err(m) => Err(VisionFault(m))
  }

  /** The text of the `TypeError` below, in the form Python 3.10 and later
      give it (earlier versions leave out the class name). */
  const ModelKeywordError := "VisionService.diagnose_image() got an unexpected keyword argument 'model'"

  /** The call as written, `diagnose_image(processed_bytes, model=model)`:
      `VisionService.diagnose_image` (app/services/vision_service.py:25) takes
      no `model` parameter, so the call raises `TypeError` before the model is
      asked, whatever it would have answered. `TypeError` is not a
      `VisionServiceError`, so it passes the inner handler. */
  function DiagnoseImageAsWritten(vision: Result<DiagnosisRecord, string>): Result<DiagnosisRecord, Fault> {
    Err(Raised(ModelKeywordError))
  }

  /** The id of the session a fresh diagnosis goes to: the given one, or a
      new one. */
  function SessionFor(r: Request): string {
    if Given(r.sessionId) then r.sessionId.value else r.freshId
  }

  /** Steps 5 and 6: a new session is created when none was given; the
      diagnosis is written to the exact store, to the perceptual store only
      without a question, and to the session's history. */
  function Recording(w: World, s: Settings, r: Request, d: DiagnosisRecord): World {
    var base := if Given(r.sessionId) then w.sessions else w.sessions[r.freshId := SessionState(r.now, [], "")];
    w.(exact := SetSlots(w.exact, MakeExactKey(r.sha, r.question), CacheEntry(d, r.now, s.exactTtl, 0), s.exactMax),
       perceptual := if r.question == "" then
                       SetSlots(w.perceptual, r.phash, CacheEntry(d, r.now, s.perceptualTtl, 0), s.perceptualMax)
                     else w.perceptual,
       sessions := Recorded(base, SessionFor(r), HistoryEntry(r.sha, d, r.now), s.maxHistory))
  }

  /** Steps 3 (its miss half) to 7, given the outcome of the vision call: the
      miss is counted; an exception changes nothing more; a diagnosis is
      normalised, recorded and formatted with the session id. */
  function MissStep(w0: World, s: Settings, r: Request, call: Result<DiagnosisRecord, Fault>,
                    normalize: seq<Material> -> seq<Material>): Outcome
  {
    var w := w0.(misses := w0.misses + 1);
    match call
    case Err(f) => Outcome(Err(f), Miss, w)
    case Ok(raw) =>
      var d := NormalizeDiagnosis(raw, normalize);
      Outcome(Respond(d, Some(SessionFor(r))), Miss, Recording(w, s, r, d))
  }

  /** The state after `get_perceptual`: the store as `get` leaves it, and the
      perceptual hit counted when it found something. */
  function PerceptualLooked(w: World, r: Request): World {
    var p := GetValue(w.perceptual, r.phash, r.now);
    w.(perceptual := GetSlots(w.perceptual, r.phash, r.now),
       perceptualHits := w.perceptualHits + (if p.Some? then 1 else 0))
  }

  /** The state after `get_exact`, likewise. */
  function ExactLooked(w: World, r: Request): World {
    var key := MakeExactKey(r.sha, r.question);
    var e := GetValue(w.exact, key, r.now);
    w.(exact := GetSlots(w.exact, key, r.now),
       exactHits := w.exactHits + (if e.Some? then 1 else 0))
  }

  /** Step 3 on, after the exact store missed: the perceptual lookup; a usable
      record is the answer; otherwise `MissStep` follows. */
  function AfterExactMiss(w: World, s: Settings, r: Request, call: Result<DiagnosisRecord, Fault>,
                          normalize: seq<Material> -> seq<Material>): Outcome
  {
    var p := GetValue(w.perceptual, r.phash, r.now);
    if Usable(p) then Outcome(Respond(p.value, r.sessionId), Perceptual, PerceptualLooked(w, r))
    else MissStep(PerceptualLooked(w, r), s, r, call, normalize)
  }

  /** Step 2 on: the exact lookup under the digest and the question; a usable
      record is the answer; otherwise `AfterExactMiss` follows. */
  function LookupPath(w: World, s: Settings, r: Request, call: Result<DiagnosisRecord, Fault>,
                      normalize: seq<Material> -> seq<Material>): Outcome
  {
    var e := GetValue(w.exact, MakeExactKey(r.sha, r.question), r.now);
    if Usable(e) then Outcome(Respond(e.value, r.sessionId), Exact, ExactLooked(w, r))
    else AfterExactMiss(ExactLooked(w, r), s, r, call, normalize)
  }

  /** The lookup order: the exact store answers when it holds a usable record;
      the perceptual store is consulted, and counted, only after an exact miss;
      a miss is recorded and the model asked only when both miss. A cached `{}`
      is counted as a hit but not used. An answer from a store leaves the
      sessions as they were and is the cached record formatted. */
  lemma LookupPrecedence(w: World, s: Settings, r: Request, call: Result<DiagnosisRecord, Fault>,
                         normalize: seq<Material> -> seq<Material>)
    ensures var e := GetValue(w.exact, MakeExactKey(r.sha, r.question), r.now);
            var p := GetValue(w.perceptual, r.phash, r.now);
            var o := LookupPath(w, s, r, call, normalize);
      && (o.source == Exact <==> Usable(e))
      && (o.source == Perceptual <==> !Usable(e) && Usable(p))
      && (o.source == Miss <==> !Usable(e) && !Usable(p))
      && o.world.exactHits == w.exactHits + (if e.Some? then 1 else 0)
      && o.world.perceptualHits == w.perceptualHits + (if !Usable(e) && p.Some? then 1 else 0)
      && o.world.misses == w.misses + (if o.source == Miss then 1 else 0)
      && (o.source == Exact ==> o.out == Respond(e.value, r.sessionId) && o.world.perceptual == w.perceptual)
      && (o.source == Perceptual ==> o.out == Respond(p.value, r.sessionId))
      && (o.source != Miss ==> o.world.sessions == w.sessions)
  {
  }

  /** `get` keeps a valid store valid. */
  lemma GetKeepsStoreValid(slots: seq<Slot<DiagnosisRecord>>, k: string, now: int, n: nat)
    requires DistinctKeys(slots) && |slots| <= n
    ensures DistinctKeys(GetSlots(slots, k, now)) && |GetSlots(slots, k, now)| <= n
  {
    match Lookup(slots, k)
    case None =>
    case Some(e) => GetSlotsValid(slots, k, now, e);
  }

  /** A full miss whose model call succeeds records the normalised diagnosis:
      the exact store then yields it for the same digest and question, the
      perceptual store yields it when there was no question and is otherwise
      only as the lookup left it, the diagnosis is the latest of the given
      session or of the new one, and both stores stay valid. */
  lemma MissRecordsDiagnosis(w: World, s: Settings, r: Request, raw: DiagnosisRecord,
                             normalize: seq<Material> -> seq<Material>)
    requires StoresValid(w, s)
    requires s.exactMax > 0 && s.perceptualMax > 0 && s.exactTtl >= 0 && s.perceptualTtl >= 0 && s.maxHistory > 0
    requires !Usable(GetValue(w.exact, MakeExactKey(r.sha, r.question), r.now))
    requires !Usable(GetValue(w.perceptual, r.phash, r.now))
    ensures var o := LookupPath(w, s, r, Ok(raw), normalize);
            var d := NormalizeDiagnosis(raw, normalize);
            var id := SessionFor(r);
      && o.source == Miss && o.out == Respond(d, Some(id))
      && GetValue(o.world.exact, MakeExactKey(r.sha, r.question), r.now) == Some(d)
      && (r.question == "" ==> GetValue(o.world.perceptual, r.phash, r.now) == Some(d))
      && (r.question != "" ==> o.world.perceptual == GetSlots(w.perceptual, r.phash, r.now))
      && id in o.world.sessions && LatestOf(o.world.sessions[id].history) == Some(d)
      && StoresValid(o.world, s)
  {
    var key := MakeExactKey(r.sha, r.question);
    var d := NormalizeDiagnosis(raw, normalize);
    var id := SessionFor(r);
    var base := if Given(r.sessionId) then w.sessions else w.sessions[r.freshId := SessionState(r.now, [], "")];
    var ex := GetSlots(w.exact, key, r.now);
    var pe := GetSlots(w.perceptual, r.phash, r.now);
    GetKeepsStoreValid(w.exact, key, r.now, s.exactMax);
    GetKeepsStoreValid(w.perceptual, r.phash, r.now, s.perceptualMax);
    var ee := CacheEntry(d, r.now, s.exactTtl, 0);
    var pp := CacheEntry(d, r.now, s.perceptualTtl, 0);
    SetSlotsValid(ex, key, ee, s.exactMax);
    SetThenGet(ex, key, ee, s.exactMax, r.now);
    SetSlotsValid(pe, r.phash, pp, s.perceptualMax);
    SetThenGet(pe, r.phash, pp, s.perceptualMax, r.now);
    RecordedIsLatest(base, id, HistoryEntry(r.sha, d, r.now), s.maxHistory, id);
    var o := LookupPath(w, s, r, Ok(raw), normalize);
    assert o.world.exact == SetSlots(ex, key, ee, s.exactMax);
    assert o.world.perceptual == if r.question == "" then SetSlots(pe, r.phash, pp, s.perceptualMax) else pe;
    assert o.world.sessions == Recorded(base, id, HistoryEntry(r.sha, d, r.now), s.maxHistory);
  }

  /** The point of the caches: once a full miss has recorded a diagnosis other
      than `{}`, the same request at the same time is answered from the exact
      store, with no further miss and no model call. */
  lemma SecondRequestHits(w: World, s: Settings, r: Request, raw: DiagnosisRecord, call: Result<DiagnosisRecord, Fault>,
                          normalize: seq<Material> -> seq<Material>)
    requires StoresValid(w, s)
    requires s.exactMax > 0 && s.perceptualMax > 0 && s.exactTtl >= 0 && s.perceptualTtl >= 0 && s.maxHistory > 0
    requires !Usable(GetValue(w.exact, MakeExactKey(r.sha, r.question), r.now))
    requires !Usable(GetValue(w.perceptual, r.phash, r.now))
    requires NormalizeDiagnosis(raw, normalize) != EmptyRecord
    ensures var o := LookupPath(w, s, r, Ok(raw), normalize);
            var o2 := LookupPath(o.world, s, r, call, normalize);
      && o2.source == Exact
      && o2.out == Respond(NormalizeDiagnosis(raw, normalize), r.sessionId)
      && o2.world.misses == o.world.misses && o2.world.sessions == o.world.sessions
  {
    MissRecordsDiagnosis(w, s, r, raw, normalize);
    var o := LookupPath(w, s, r, Ok(raw), normalize);
    LookupPrecedence(o.world, s, r, call, normalize);
  }

  /** As written, a full miss never reaches the model: the call raises
      `TypeError`, which the outer handler, as written or corrected, turns into
      500 "Internal error"; apart from the two lookups only the miss counter
      has changed, so nothing is cached and no session is created or updated. */
  lemma FullMissFailsAsWritten(w: World, s: Settings, r: Request, vision: Result<DiagnosisRecord, string>,
                               normalize: seq<Material> -> seq<Material>)
    requires !Usable(GetValue(w.exact, MakeExactKey(r.sha, r.question), r.now))
    requires !Usable(GetValue(w.perceptual, r.phash, r.now))
    ensures var o := LookupPath(w, s, r, DiagnoseImageAsWritten(vision), normalize);
      && o.source == Miss
      && o.out == Err(Raised(ModelKeywordError))
      && OuterHandlerAsWritten(o.out.error) == HttpError(500, "Internal error: " + ModelKeywordError)
      && Handled(o.out) == Err(HttpError(500, "Internal error: " + ModelKeywordError))
      && o.world.exact == GetSlots(w.exact, MakeExactKey(r.sha, r.question), r.now)
      && o.world.perceptual == GetSlots(w.perceptual, r.phash, r.now)
      && o.world.misses == w.misses + 1
      && o.world.sessions == w.sessions
  {
  }

  /** Hence, as written, stores that start empty stay empty: every request on
      the lookup path fails with 500 and leaves the sessions as they were, so
      no request is ever answered from a store and a follow-up can only find a
      session that was there before. */
  lemma CachesNeverFillAsWritten(w: World, s: Settings, r: Request, vision: Result<DiagnosisRecord, string>,
                                 normalize: seq<Material> -> seq<Material>)
    requires w.exact == [] && w.perceptual == []
    ensures var o := LookupPath(w, s, r, DiagnoseImageAsWritten(vision), normalize);
      && o.source == Miss
      && Handled(o.out) == Err(HttpError(500, "Internal error: " + ModelKeywordError))
      && o.world.exact == [] && o.world.perceptual == []
      && o.world.sessions == w.sessions
  {
    FullMissFailsAsWritten(w, s, r, vision, normalize);
  }

  /** `AfterExactMiss` when the perceptual store has nothing usable. */
  lemma AfterBothMissed(w: World, s: Settings, r: Request, call: Result<DiagnosisRecord, Fault>,
                        normalize: seq<Material> -> seq<Material>)
    requires !Usable(GetValue(w.perceptual, r.phash, r.now))
    ensures AfterExactMiss(w, s, r, call, normalize) == MissStep(PerceptualLooked(w, r), s, r, call, normalize)
  {
  }

  /** `LookupPath` when the exact store has nothing usable. */
  lemma LookupAfterExactMissed(w: World, s: Settings, r: Request, call: Result<DiagnosisRecord, Fault>,
                               normalize: seq<Material> -> seq<Material>)
    requires !Usable(GetValue(w.exact, MakeExactKey(r.sha, r.question), r.now))
    ensures LookupPath(w, s, r, call, normalize) == AfterExactMiss(ExactLooked(w, r), s, r, call, normalize)
  {
  }

  // ---------------------------------------------------------------------------
  // `diagnose` on the objects

  /** The state of both stores, the counters and the sessions, as values. */
  ghost function Snapshot(cache: CacheManager, store: SessionManager): World
    reads cache, cache.exact, cache.perceptual, store
  {
    World(cache.exact.slots, cache.perceptual.slots, cache.exactHits, cache.perceptualHits, cache.misses, store.view)
  }

  function SettingsOf(cache: CacheManager, store: SessionManager): Settings {
    Settings(cache.exact.maxSize, cache.exact.defaultTtl, cache.perceptual.maxSize, cache.perceptual.defaultTtl,
             store.maxHistory)
  }

  /** Steps 5 and 6 of `diagnose`: create a session when none was given,
      write both caches and the session's history. */
  method RecordDiagnosis(cache: CacheManager, store: SessionManager, sha: string, phash: string,
                         sessionId: Option<string>, question: string, d: DiagnosisRecord, freshId: string, now: int)
    returns (id: string)
    requires cache.Valid() && store.Valid()
    modifies cache.exact, cache.perceptual, store, store.Repr
    ensures cache.Valid() && store.Valid()
    ensures var r := Request(sha, phash, sessionId, question, freshId, now);
      id == SessionFor(r) && Snapshot(cache, store) == Recording(old(Snapshot(cache, store)), SettingsOf(cache, store), r, d)
  {
    if Given(sessionId) {
      id := sessionId.value;
    } else {
      id := store.CreateSession(freshId, now);
    }
    cache.Set(sha, phash, d, question, now);
    store.UpdateSession(id, sha, d, now);
  }

  /** Steps 3 (from `record_miss`) to 7 of `diagnose` after both caches
      missed, with the vision call as evidently intended: count the miss, ask
      the model, normalise, record, format. */
  method DiagnoseMiss(cache: CacheManager, store: SessionManager, sha: string, phash: string,
                      sessionId: Option<string>, question: string, vision: Result<DiagnosisRecord, string>,
                      normalize: seq<Material> -> seq<Material>, freshId: string, now: int)
    returns (out: Result<DiagnosisResponse, Fault>)
    requires cache.Valid() && store.Valid()
    modifies cache, cache.exact, cache.perceptual, store, store.Repr
    ensures cache.Valid() && store.Valid()
    ensures Outcome(out, Miss, Snapshot(cache, store))
         == MissStep(old(Snapshot(cache, store)), SettingsOf(cache, store),
                     Request(sha, phash, sessionId, question, freshId, now), DiagnoseImage(vision), normalize)
  {
    cache.RecordMiss();
    if vision.Err? {
      return Err(VisionFault(vision.error));
    }
    var d := NormalizeDiagnosis(vision.value, normalize);
    var id := RecordDiagnosis(cache, store, sha, phash, sessionId, question, d, freshId, now);
    out := Respond(d, Some(id));
  }

  /** Steps 3 to 7 of `diagnose`, once the exact store has missed: the
      perceptual store, then the miss step. `calledModel`
      says whether the vision call was made. */
  method DiagnoseAfterExactMiss(cache: CacheManager, store: SessionManager, sha: string, phash: string,
                                sessionId: Option<string>, question: string,
                                vision: Result<DiagnosisRecord, string>,
                                normalize: seq<Material> -> seq<Material>, freshId: string, now: int)
    returns (out: Result<DiagnosisResponse, Fault>, source: Source, calledModel: bool)
    requires cache.Valid() && store.Valid()
    modifies cache, cache.exact, cache.perceptual, store, store.Repr
    ensures cache.Valid() && store.Valid()
    ensures Outcome(out, source, Snapshot(cache, store))
         == AfterExactMiss(old(Snapshot(cache, store)), SettingsOf(cache, store),
                           Request(sha, phash, sessionId, question, freshId, now), DiagnoseImage(vision), normalize)
    ensures calledModel <==> source == Miss
  {
    ghost var w0 := Snapshot(cache, store);
    ghost var r := Request(sha, phash, sessionId, question, freshId, now);
    var cached := cache.GetPerceptual(phash, now);
    assert Snapshot(cache, store) == PerceptualLooked(w0, r);
    if Usable(cached) {
      return Respond(cached.value, sessionId), Perceptual, false;
    }
    calledModel := true;
    source := Miss;
    out := DiagnoseMiss(cache, store, sha, phash, sessionId, question, vision, normalize, freshId, now);
    AfterBothMissed(w0, SettingsOf(cache, store), r, DiagnoseImage(vision), normalize);
  }

  /** Steps 2 to 7 of `diagnose`, the path taken when it is not a follow-up:
      the exact store, then `DiagnoseAfterExactMiss`. */
  method DiagnoseByLookup(cache: CacheManager, store: SessionManager, sha: string, phash: string,
                          sessionId: Option<string>, question: string,
                          vision: Result<DiagnosisRecord, string>,
                          normalize: seq<Material> -> seq<Material>, freshId: string, now: int)
    returns (out: Result<DiagnosisResponse, Fault>, source: Source, calledModel: bool)
    requires cache.Valid() && store.Valid()
    modifies cache, cache.exact, cache.perceptual, store, store.Repr
    ensures cache.Valid() && store.Valid()
    ensures Outcome(out, source, Snapshot(cache, store))
         == LookupPath(old(Snapshot(cache, store)), SettingsOf(cache, store),
                       Request(sha, phash, sessionId, question, freshId, now), DiagnoseImage(vision), normalize)
    ensures calledModel <==> source == Miss
  {
    ghost var w0 := Snapshot(cache, store);
    ghost var r := Request(sha, phash, sessionId, question, freshId, now);
    var cached := cache.GetExact(sha, question, now);
    assert Snapshot(cache, store) == ExactLooked(w0, r);
    if Usable(cached) {
      return Respond(cached.value, sessionId), Exact, false;
    }
    out, source, calledModel := DiagnoseAfterExactMiss(cache, store, sha, phash, sessionId, question,
                                                       vision, normalize, freshId, now);
    LookupAfterExactMissed(w0, SettingsOf(cache, store), r, DiagnoseImage(vision), normalize);
  }

  /** `diagnose` after the image was processed: the follow-up path when both a
      question and a session id are given (the caches are neither read, written
      nor counted); otherwise the lookup path, with an absent question taken
      as "". */
  method DiagnoseAccepted(cache: CacheManager, store: SessionManager, sha: string, phash: string,
                          sessionId: Option<string>, question: Option<string>,
                          vision: Result<DiagnosisRecord, string>, answer: Result<Followup, string>,
                          normalize: seq<Material> -> seq<Material>, freshId: string, now: int)
    returns (out: Result<DiagnosisResponse, Fault>, source: Source, calledModel: bool)
    requires cache.Valid() && store.Valid()
    modifies cache, cache.exact, cache.perceptual, store, store.Repr
    ensures cache.Valid() && store.Valid()
    ensures Given(question) && Given(sessionId) ==>
      && source == FromFollowup
      && (calledModel <==> HasContext(old(store.view), sessionId.value, now, store.ttlMinutes * 60))
      && out == FollowupOutcome(old(store.view), sessionId.value, answer, normalize, now, store.ttlMinutes * 60)
      && Snapshot(cache, store) == old(Snapshot(cache, store)).(sessions := FollowupStore(old(store.view), sessionId.value,
                                     answer, normalize, now, store.ttlMinutes * 60, store.maxHistory))
    ensures !(Given(question) && Given(sessionId)) ==>
      && Outcome(out, source, Snapshot(cache, store))
         == LookupPath(old(Snapshot(cache, store)), SettingsOf(cache, store),
                       Request(sha, phash, sessionId, question.GetOr(""), freshId, now), DiagnoseImage(vision), normalize)
      && (calledModel <==> source == Miss)
  {
    if Given(question) && Given(sessionId) {
      out, calledModel := HandleFollowup(store, sessionId.value, answer, normalize, now);
      source := FromFollowup;
      return;
    }
    out, source, calledModel := DiagnoseByLookup(cache, store, sha, phash, sessionId, question.GetOr(""),
                                                 vision, normalize, freshId, now);
  }

  /** `diagnose`: a rejected image gets the "Image unclear" answer and touches
      nothing; an exception from image processing is an internal error;
      otherwise the request proceeds as `DiagnoseAccepted` says, and whatever
      it raises reaches the client through the outer handler. */
  method Diagnose(cache: CacheManager, store: SessionManager, image: ImageOutcome,
                  sessionId: Option<string>, question: Option<string>,
                  vision: Result<DiagnosisRecord, string>, answer: Result<Followup, string>,
                  normalize: seq<Material> -> seq<Material>, freshId: string, now: int)
    returns (out: Result<DiagnosisResponse, HttpError>, source: Source, calledModel: bool)
    requires cache.Valid() && store.Valid()
    modifies cache, cache.exact, cache.perceptual, store, store.Repr
    ensures cache.Valid() && store.Valid()
    ensures !image.Accepted? ==> !calledModel && source == Rejected && Snapshot(cache, store) == old(Snapshot(cache, store))
    ensures image.Unclear? ==> out == Ok(RejectedResponse(image.reason))
    ensures image.Crashed? ==> out == Err(HttpError(500, "Internal error: " + image.message))
    ensures image.Accepted? && Given(question) && Given(sessionId) ==>
      && source == FromFollowup
      && (calledModel <==> HasContext(old(store.view), sessionId.value, now, store.ttlMinutes * 60))
      && out == Handled(FollowupOutcome(old(store.view), sessionId.value, answer, normalize, now, store.ttlMinutes * 60))
      && Snapshot(cache, store) == old(Snapshot(cache, store)).(sessions := FollowupStore(old(store.view), sessionId.value,
                                     answer, normalize, now, store.ttlMinutes * 60, store.maxHistory))
    ensures image.Accepted? && !(Given(question) && Given(sessionId)) ==>
      var o := LookupPath(old(Snapshot(cache, store)), SettingsOf(cache, store),
                          Request(image.sha, image.phash, sessionId, question.GetOr(""), freshId, now),
                          DiagnoseImage(vision), normalize);
      && out == Handled(o.out) && source == o.source && Snapshot(cache, store) == o.world
      && (calledModel <==> source == Miss)
  {
    match image {
      case Unclear(reason) =>
        return Ok(RejectedResponse(reason)), Rejected, false;
      case Crashed(message) =>
        return Err(OuterHandler(Raised(message))), Rejected, false;
      case Accepted(sha, phash) =>
        var inner;
        inner, source, calledModel := DiagnoseAccepted(cache, store, sha, phash, sessionId, question,
                                                       vision, answer, normalize, freshId, now);
        out := Handled(inner);
    }
  }
}
