/**
 * The publish endpoint (src/app/api/tiktok/publish/route.ts). A multipart
 * form is validated, the caption is cut to the description limit, the
 * schedule is clamped to at least ten minutes ahead, and three calls go out
 * in order (init, upload, submit); the first failure decides the response.
 *
 * Everything outside the handler is a parameter: the clock readings, the
 * date parser's verdict, and what each outbound call returned (a status and
 * a parsed body) or that it threw. The result is the response together with
 * the trace of calls the handler made.
 */
module PublishRoute {
  import opened Wrappers
  import opened Text

  const TitleLength := 42
  const DefaultTitle := "Automated TikTok Drop"
  const DescriptionLength := 2200
  /** Ten minutes, in milliseconds. */
  const MinLeadMs := 10 * 60 * 1000
  const DefaultContentType := "video/webm"

  // ---------------------------------------------------------------------
  // Helpers of the handler
  // ---------------------------------------------------------------------

  /** `s.slice(0, n)`. */
  function Prefix(s: string, n: nat): (r: string)
    ensures |r| <= n && r <= s
    ensures |s| <= n ==> r == s
    ensures |s| > n ==> |r| == n
  {
    if |s| <= n then s else s[..n]
  }

  /** `captionToTitle`: the first 42 characters, or the fallback title for an empty caption. */
  function CaptionToTitle(caption: string): (r: string)
    ensures 1 <= |r| <= TitleLength
    ensures caption != [] ==> r == Prefix(caption, TitleLength)
    ensures |caption| > TitleLength ==> |r| == TitleLength && r == caption[..TitleLength]
    ensures caption != [] ==> r <= caption && (|caption| <= TitleLength ==> r == caption)
    ensures caption == [] ==> r == DefaultTitle
  {
    var head := Prefix(caption, TitleLength);
    if head == [] then DefaultTitle else head
  }

  /**
   * `parseSchedule`: no schedule for an empty string or one the date parser
   * rejects (`parsedMs` is `None` when `getTime()` is NaN); otherwise the
   * later of the parsed time and now plus ten minutes, in whole seconds
   * rounded down.
   */
  function ParseSchedule(scheduleTime: string, parsedMs: Option<int>, nowMs: int): (r: Option<int>)
    ensures r.Some? <==> scheduleTime != [] && parsedMs.Some?
    ensures r.Some? ==> nowMs + MinLeadMs < (r.value + 1) * 1000 && parsedMs.value < (r.value + 1) * 1000
    ensures r.Some? ==> r.value * 1000 <= parsedMs.value || r.value * 1000 <= nowMs + MinLeadMs
    ensures r.Some? ==> (nowMs + MinLeadMs) / 1000 <= r.value
  {
    if scheduleTime == [] then None
    else match parsedMs
      case None => None
      case Some(t) =>
        var minLead := nowMs + MinLeadMs;
        var scheduled := if t < minLead then minLead else t;
        DivMonotone(minLead, scheduled);
        Some(scheduled / 1000)
  }

  /** A later requested time never yields an earlier schedule. */
  lemma ScheduleMonotone(scheduleTime: string, a: int, b: int, nowMs: int)
    requires scheduleTime != [] && a <= b
    ensures ParseSchedule(scheduleTime, Some(a), nowMs).value <= ParseSchedule(scheduleTime, Some(b), nowMs).value
  {
    var lead := nowMs + MinLeadMs;
    var x := if a < lead then lead else a;
    var y := if b < lead then lead else b;
    DivMonotone(x, y);
  }

  /** Floor division by 1000 keeps order. */
  lemma DivMonotone(x: int, y: int)
    requires x <= y
    ensures x / 1000 <= y / 1000
  {
  }

  /** A time at least ten minutes ahead is kept, to the second; an earlier one is moved to now plus ten minutes. */
  lemma ScheduleHonoured(scheduleTime: string, t: int, nowMs: int)
    requires scheduleTime != []
    ensures t >= nowMs + MinLeadMs ==> ParseSchedule(scheduleTime, Some(t), nowMs) == Some(t / 1000)
    ensures t < nowMs + MinLeadMs ==> ParseSchedule(scheduleTime, Some(t), nowMs) == Some((nowMs + MinLeadMs) / 1000)
  {
  }

  /** The generated upload name's extension: "mp4" wins over "webm", and anything else is "mp4". */
  function Extension(contentType: string): (r: string)
    ensures r == "webm" <==> !Contains(contentType, "mp4") && Contains(contentType, "webm")
    ensures r == "mp4" || r == "webm"
  {
    if Contains(contentType, "mp4") then "mp4"
    else if Contains(contentType, "webm") then "webm"
    else "mp4"
  }

  /** The explicit file name if one was sent, else `agentic-<now>.<extension>`. */
  function UploadFileName(explicit: Option<string>, contentType: string, nowMs: nat): (r: string)
    ensures explicit.Some? ==> r == explicit.value
    ensures explicit.None? ==> r == "agentic-" + Decimal(nowMs) + "." + Extension(contentType)
  {
    explicit.GetOr("agentic-" + Decimal(nowMs) + "." + Extension(contentType))
  }

  /** Without a type on the uploaded file, it is sent as WebM and the generated name ends in ".webm". */
  lemma UntypedFileIsWebm(data: seq<bv8>, nowMs: nat)
    ensures ContentType(VideoFile("", data)) == DefaultContentType
    ensures UploadFileName(None, ContentType(VideoFile("", data)), nowMs) == "agentic-" + Decimal(nowMs) + ".webm"
  {
    assert OccursAt(DefaultContentType, "webm", 6);
    AbsentWithoutChar(DefaultContentType, "mp4", 2);
  }

  // ---------------------------------------------------------------------
  // The request, the outside world and the response
  // ---------------------------------------------------------------------

  datatype VideoFile = VideoFile(mime: string, data: seq<bv8>)

  /** A form entry: missing, a string, or an uploaded file. */
  datatype FormValue = Absent | Text(text: string) | Upload(file: VideoFile)

  datatype PublishForm = PublishForm(
    accessToken: FormValue, caption: FormValue, scheduleTime: FormValue,
    tiktokUserId: FormValue, video: FormValue, fileName: FormValue)

  /** `incomingFile.type || "video/webm"`. */
  function ContentType(file: VideoFile): (r: string)
    ensures r != []
    ensures file.mime != [] ==> r == file.mime
    ensures file.mime == [] ==> r == DefaultContentType
  {
    if file.mime == [] then DefaultContentType else file.mime
  }

  /** The fields the provider's JSON replies may carry (`message`, `data.upload_url`, `data.publish_id`, `data.status`). */
  datatype ApiJson = ApiJson(message: Option<string>, uploadUrl: Option<string>, publishId: Option<string>, status: Option<string>)

  /** What an outbound call came back with: a status and a parsed body, or a thrown error with its message if it was an `Error`. */
  datatype Reply<T> = Replied(status: int, body: T) | Threw(message: Option<string>)

  /** `Response.ok`. */
  predicate Ok(status: int) {
    200 <= status <= 299
  }

  /** The readings and replies one run of the handler meets, in the order it meets them. */
  datatype World = World(
    parsedSchedule: Option<int>, scheduleNowMs: int, nameNowMs: nat,
    init: Reply<ApiJson>, upload: Reply<string>, submit: Reply<ApiJson>)

  /** The outbound calls, with the fields the handler fills in. */
  datatype Call =
    | InitCall(authorization: string, openId: string, publishId: string, title: string, description: string, scheduleTime: Option<int>)
    | UploadCall(url: string, contentType: string, disposition: string, data: seq<bv8>)
    | SubmitCall(authorization: string, openId: string, publishId: string)

  datatype Details = NoDetails | JsonDetails(json: ApiJson) | TextDetails(text: string)

  datatype Body = Failure(error: string, details: Details) | Published(publishId: string, state: string)

  datatype Response = Response(status: int, body: Body)

  datatype Outcome = Outcome(response: Response, calls: seq<Call>)

  function Bearer(token: string): string {
    "Bearer " + token
  }

  function Disposition(fileName: string): string {
    "attachment; filename=\"" + fileName + "\""
  }

  /** The four fields the handler cannot do without. */
  predicate HasRequiredFields(f: PublishForm) {
    f.accessToken.Text? && f.caption.Text? && f.tiktokUserId.Text? && f.video.Upload?
  }

  /** The upload info is missing when either field is absent or empty. */
  predicate MissingUploadInfo(j: ApiJson) {
    j.uploadUrl.None? || j.uploadUrl.value == [] || j.publishId.None? || j.publishId.value == []
  }

  /** What the handler settles before its first call. */
  datatype Prepared = Prepared(
    token: string, description: string, userId: string, file: VideoFile,
    contentType: string, fileName: string, scheduleEpoch: Option<int>)

  function Prepare(f: PublishForm, w: World): (p: Prepared)
    requires HasRequiredFields(f)
    ensures p.description == Prefix(f.caption.text, DescriptionLength)
    ensures p.contentType == ContentType(f.video.file)
    ensures f.fileName.Text? ==> p.fileName == f.fileName.text
    ensures !f.fileName.Text? ==> p.fileName == UploadFileName(None, p.contentType, w.nameNowMs)
    ensures f.scheduleTime.Text? ==> p.scheduleEpoch == ParseSchedule(f.scheduleTime.text, w.parsedSchedule, w.scheduleNowMs)
    ensures p.scheduleEpoch.Some? ==> f.scheduleTime.Text? && f.scheduleTime.text != [] && w.parsedSchedule.Some?
  {
    var explicit := if f.fileName.Text? then Some(f.fileName.text) else None;
    var contentType := ContentType(f.video.file);
    var epoch := if f.scheduleTime.Text? then ParseSchedule(f.scheduleTime.text, w.parsedSchedule, w.scheduleNowMs) else None;
    Prepared(f.accessToken.text, Prefix(f.caption.text, DescriptionLength), f.tiktokUserId.text, f.video.file,
             contentType, UploadFileName(explicit, contentType, w.nameNowMs), epoch)
  }

  /** The response for anything thrown inside the try block. */
  function ServerError(message: Option<string>): (r: Response)
    ensures r.status == 500 && r.body.Failure? && r.body.details == NoDetails
  {
    Response(500, Failure(message.GetOr("Unexpected server error"), NoDetails))
  }

  /**
   * The init request: the bearer token, the user, the upload name as publish
   * id, the cut caption as description with its first 42 characters (or the
   * fallback) as title, and the schedule.
   */
  function InitOf(p: Prepared): (c: Call)
    ensures c.InitCall? && c.authorization == Bearer(p.token) && c.openId == p.userId && c.publishId == p.fileName
    ensures c.description == p.description && c.scheduleTime == p.scheduleEpoch
    ensures 1 <= |c.title| <= TitleLength && (p.description != [] ==> c.title <= p.description)
  {
    InitCall(Bearer(p.token), p.userId, p.fileName, CaptionToTitle(p.description), p.description, p.scheduleEpoch)
  }

  /** The try block: init, then upload, then submit, stopping at the first failure. */
  function Run(p: Prepared, w: World): (o: Outcome)
    ensures 1 <= |o.calls| <= 3 && o.calls[0] == InitOf(p)
  {
    var init := InitOf(p);
    match w.init
    case Threw(m) => Outcome(ServerError(m), [init])
    case Replied(status, j) =>
      if !Ok(status) then
        Outcome(Response(status, Failure(j.message.GetOr("TikTok init failed"), JsonDetails(j))), [init])
      else if MissingUploadInfo(j) then
        Outcome(Response(502, Failure("TikTok response missing upload info", JsonDetails(j))), [init])
      else
        var upload := UploadCall(j.uploadUrl.value, p.contentType, Disposition(p.fileName), p.file.data);
        match w.upload
        case Threw(m) => Outcome(ServerError(m), [init, upload])
        case Replied(uploadStatus, text) =>
          if !Ok(uploadStatus) then
            Outcome(Response(uploadStatus, Failure("TikTok upload failed", TextDetails(text))), [init, upload])
          else
            var submit := SubmitCall(Bearer(p.token), p.userId, j.publishId.value);
            match w.submit
            case Threw(m) => Outcome(ServerError(m), [init, upload, submit])
            case Replied(submitStatus, s) =>
              if !Ok(submitStatus) then
                Outcome(Response(submitStatus, Failure(s.message.GetOr("TikTok submit failed"), JsonDetails(s))), [init, upload, submit])
              else
                Outcome(Response(200, Published(s.publishId.GetOr(j.publishId.value), s.status.GetOr("submitted"))), [init, upload, submit])
  }

  /** Every step succeeded: the independent description of a publish that went through. */
  predicate Succeeds(f: PublishForm, w: World) {
    && HasRequiredFields(f)
    && w.init.Replied? && Ok(w.init.status) && !MissingUploadInfo(w.init.body)
    && w.upload.Replied? && Ok(w.upload.status)
    && w.submit.Replied? && Ok(w.submit.status)
  }

  /** `POST`: a 400 without any call when a required field is missing, else the try block. */
  function Post(f: PublishForm, w: World): (o: Outcome)
    ensures !HasRequiredFields(f) <==> o.calls == []
    ensures !HasRequiredFields(f) ==> o.response == Response(400, Failure("Missing required fields", NoDetails))
    ensures o.response.body.Published? <==> Succeeds(f, w)
    ensures o.response.body.Published? ==> o.response.status == 200 && |o.calls| == 3
  {
    if !HasRequiredFields(f) then Outcome(Response(400, Failure("Missing required fields", NoDetails)), [])
    else Run(Prepare(f, w), w)
  }

  // ---------------------------------------------------------------------
  // Properties of the handler
  // ---------------------------------------------------------------------

  /** The response's status is a success status exactly when the publish went through. */
  lemma StatusTellsSuccess(f: PublishForm, w: World)
    ensures Ok(Post(f, w).response.status) <==> Succeeds(f, w)
  {
  }

  /** The calls go out in the order init, upload, submit. */
  lemma CallsInOrder(f: PublishForm, w: World)
    ensures var c := Post(f, w).calls;
      && |c| <= 3
      && (|c| >= 1 ==> c[0].InitCall?)
      && (|c| >= 2 ==> c[1].UploadCall?)
      && (|c| == 3 ==> c[2].SubmitCall?)
  {
  }

  /** The init call carries the cut caption as description, its first 42 characters as title, and the upload name as publish id. */
  lemma InitCallFields(f: PublishForm, w: World)
    requires HasRequiredFields(f)
    ensures var c := Post(f, w).calls[0];
      && c.authorization == Bearer(f.accessToken.text)
      && c.openId == f.tiktokUserId.text
      && c.description == Prefix(f.caption.text, DescriptionLength) && |c.description| <= DescriptionLength
      && c.title == CaptionToTitle(c.description) && 1 <= |c.title| <= TitleLength
      && c.publishId == Prepare(f, w).fileName
  {
  }

  /**
   * The upload goes to the URL the init reply gave, with the file's bytes
   * and content type and the same name the init call used; the submit names
   * the publish id the init reply gave.
   */
  lemma LaterCallsFollowInit(f: PublishForm, w: World)
    requires |Post(f, w).calls| >= 2
    ensures var c := Post(f, w).calls;
      && w.init.Replied? && w.init.body.uploadUrl.Some? && w.init.body.publishId.Some?
      && c[1] == UploadCall(w.init.body.uploadUrl.value, ContentType(f.video.file), Disposition(c[0].publishId), f.video.file.data)
      && (|c| == 3 ==> c[2] == SubmitCall(c[0].authorization, c[0].openId, w.init.body.publishId.value))
  {
  }

  /** A publish that went through reports the submit reply's id, falling back to the init reply's, and "submitted" by default. */
  lemma PublishedFields(f: PublishForm, w: World)
    requires Succeeds(f, w)
    ensures Post(f, w).response.body == Published(
      w.submit.body.publishId.GetOr(w.init.body.publishId.value), w.submit.body.status.GetOr("submitted"))
  {
  }

  /** A failed init ends the handler: one call, the init's status and message, and later replies play no part. */
  lemma InitFailureStops(f: PublishForm, w: World, upload: Reply<string>, submit: Reply<ApiJson>)
    requires HasRequiredFields(f) && w.init.Replied? && !Ok(w.init.status)
    ensures Post(f, w) == Post(f, w.(upload := upload, submit := submit))
    ensures |Post(f, w).calls| == 1
    ensures Post(f, w).response == Response(w.init.status, Failure(w.init.body.message.GetOr("TikTok init failed"), JsonDetails(w.init.body)))
  {
  }

  /** An init reply without upload info is a 502 after one call. */
  lemma MissingInfoIs502(f: PublishForm, w: World)
    requires HasRequiredFields(f) && w.init.Replied? && Ok(w.init.status) && MissingUploadInfo(w.init.body)
    ensures Post(f, w).response.status == 502 && |Post(f, w).calls| == 1
  {
  }

  /** A failed upload is reported with its own status and body, and the submit is never sent. */
  lemma UploadFailureStops(f: PublishForm, w: World, submit: Reply<ApiJson>)
    requires HasRequiredFields(f) && w.init.Replied? && Ok(w.init.status) && !MissingUploadInfo(w.init.body)
    requires w.upload.Replied? && !Ok(w.upload.status)
    ensures Post(f, w) == Post(f, w.(submit := submit))
    ensures |Post(f, w).calls| == 2
    ensures Post(f, w).response == Response(w.upload.status, Failure("TikTok upload failed", TextDetails(w.upload.body)))
  {
  }

  /** A failed submit is reported with its own status and message (or a generic one) after all three calls. */
  lemma SubmitFailureStops(f: PublishForm, w: World)
    requires HasRequiredFields(f) && w.init.Replied? && Ok(w.init.status) && !MissingUploadInfo(w.init.body)
    requires w.upload.Replied? && Ok(w.upload.status)
    requires w.submit.Replied? && !Ok(w.submit.status)
    ensures |Post(f, w).calls| == 3
    ensures Post(f, w).response == Response(w.submit.status, Failure(w.submit.body.message.GetOr("TikTok submit failed"), JsonDetails(w.submit.body)))
  {
  }

  /** Whatever throws inside the try block becomes a 500 carrying the error's message, or a generic one. */
  lemma ThrownIs500(f: PublishForm, w: World)
    requires HasRequiredFields(f)
    requires w.init.Threw? || (w.init.Replied? && Ok(w.init.status) && !MissingUploadInfo(w.init.body)
      && (w.upload.Threw? || (w.upload.Replied? && Ok(w.upload.status) && w.submit.Threw?)))
    ensures Post(f, w).response.status == 500
    ensures var m := if w.init.Threw? then w.init.message else if w.upload.Threw? then w.upload.message else w.submit.message;
      Post(f, w).response.body.error == m.GetOr("Unexpected server error")
  {
  }
}
