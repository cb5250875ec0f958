/**
 * The publishing form (src/components/TikTokPublisherForm.tsx): the caption
 * with the video's hashtags appended when they are not already mentioned,
 * the request the form sends to the publish endpoint, and the publish state
 * that moves from idle to uploading and on to success or error.
 */
module PublisherForm {
  import opened Wrappers
  import opened Text
  import opened VideoComposer
  import PublishRoute

  /** The four publish states. */
  datatype PublishState = Idle | Uploading | Success(reference: string) | Error(message: string)

  // ---------------------------------------------------------------------
  // The formatted caption
  // ---------------------------------------------------------------------

  /** `tag.replace("#", "")`: the tag without its first '#', one character shorter; a tag without '#' is kept. */
  function StripHash(tag: string): (r: string)
    ensures !Contains(tag, "#") ==> r == tag
    ensures Contains(tag, "#") ==> |r| == |tag| - 1
  {
    ReplaceFirst(tag, "#", "")
  }

  /** A tag written with a leading '#' loses exactly that character. */
  lemma StripLeadingHash(tag: string)
    requires tag != [] && tag[0] == '#'
    ensures StripHash(tag) == tag[1..]
  {
    ReplaceAt([], "#", tag[1..], "");
    assert [] + "#" + tag[1..] == tag;
    assert [] + "" + tag[1..] == tag[1..];
  }

  /** The caption already mentions the tag: the tag's text without '#' occurs in it, ignoring case. */
  predicate Mentioned(caption: string, tag: string)
    ensures Mentioned(caption, tag) <==> exists p :: OccursAt(Lower(caption), Lower(StripHash(tag)), p)
  {
    Contains(Lower(caption), Lower(StripHash(tag)))
  }

  /** A tag written with '#' is mentioned by any caption in which it occurs, whatever the case. */
  lemma OccurringTagMentioned(caption: string, tag: string, p: nat)
    requires tag != [] && tag[0] == '#' && OccursAt(caption, tag, p)
    ensures Mentioned(caption, tag)
  {
    StripLeadingHash(tag);
    OccursTail(caption, tag, p);
    LowerOccurs(caption, tag[1..], p + 1);
  }

  /** The tags the caption does not mention yet, in their original order. */
  function Unmentioned(caption: string, tags: seq<string>): (r: seq<string>)
    ensures |r| <= |tags|
  {
    if tags == [] then []
    else if Mentioned(caption, tags[0]) then Unmentioned(caption, tags[1..])
    else [tags[0]] + Unmentioned(caption, tags[1..])
  }

  /** A tag is appended exactly when it is one of the video's tags and the caption does not mention it. */
  lemma {:induction false} UnmentionedMembers(caption: string, tags: seq<string>)
    ensures forall t :: t in Unmentioned(caption, tags) <==> t in tags && !Mentioned(caption, t)
  {
    if tags != [] {
      UnmentionedMembers(caption, tags[1..]);
      assert tags == [tags[0]] + tags[1..];
    }
  }

  /** Filtering keeps order: the tags of a concatenation are filtered part by part. */
  lemma {:induction false} UnmentionedAppend(caption: string, a: seq<string>, b: seq<string>)
    ensures Unmentioned(caption, a + b) == Unmentioned(caption, a) + Unmentioned(caption, b)
  {
    if a == [] {
      assert a + b == b;
    } else {
      assert (a + b)[1..] == a[1..] + b;
      UnmentionedAppend(caption, a[1..], b);
    }
  }

  /**
   * `formattedCaption`: the caption itself without a video or with automatic
   * hashtags off; otherwise the trimmed caption, a space and the unmentioned
   * tags joined by spaces, trimmed as a whole.
   */
  function FormattedCaption(caption: string, video: Option<GeneratedVideo>, autoHashtags: bool): (r: string)
    ensures video.None? || !autoHashtags ==> r == caption
    ensures video.Some? && autoHashtags ==> Trimmed(r)
  {
    if video.None? then caption
    else if !autoHashtags then caption
    else Trim(Trim(caption) + " " + Join(Unmentioned(caption, video.value.hashtags), " "))
  }

  /** Tags that are all mentioned leave nothing to append. */
  lemma {:induction false} NoneUnmentioned(caption: string, tags: seq<string>)
    requires forall k :: 0 <= k < |tags| ==> Mentioned(caption, tags[k])
    ensures Unmentioned(caption, tags) == []
  {
    if tags != [] {
      NoneUnmentioned(caption, tags[1..]);
    }
  }

  /** When the caption already mentions every tag, the result is just the trimmed caption. */
  lemma AllMentioned(caption: string, video: GeneratedVideo)
    requires forall k :: 0 <= k < |video.hashtags| ==> Mentioned(caption, video.hashtags[k])
    ensures FormattedCaption(caption, Some(video), true) == Trim(caption)
  {
    NoneUnmentioned(caption, video.hashtags);
    var t := Trim(caption);
    assert Join([], " ") == [];
    assert FormattedCaption(caption, Some(video), true) == Trim(t + " " + Join([], " "));
    assert t + " " + Join([], " ") == t + " ";
    TrimSpaceAfter(t);
  }

  /**
   * A video rendered by the composer, published with its own caption and
   * automatic hashtags on, gets no tag appended: every tag of the form
   * "#..." already occurs in the caption the composer wrote.
   */
  lemma RenderedCaptionMentionsTags(s: TaggedScript, video: GeneratedVideo)
    requires video.caption == Caption(s) && video.hashtags == s.hashtags
    requires forall k :: 0 <= k < |s.hashtags| ==> s.hashtags[k] != [] && s.hashtags[k][0] == '#'
    ensures FormattedCaption(video.caption, Some(video), true) == Trim(video.caption)
  {
    var front := s.script.hook + " " + s.script.cta + " ";
    var tags := Join(s.hashtags, " ");
    assert front + tags + [] == Caption(s);
    forall k | 0 <= k < |s.hashtags| ensures Mentioned(video.caption, video.hashtags[k]) {
      JoinHasPiece(s.hashtags, " ", k);
      var p :| OccursAt(tags, s.hashtags[k], p);
      OccursInside(front, tags, [], s.hashtags[k], p);
      OccurringTagMentioned(video.caption, s.hashtags[k], |front| + p);
    }
    AllMentioned(video.caption, video);
  }

  /** A space after a trimmed text is all that trimming removes. */
  lemma TrimSpaceAfter(t: string)
    requires Trimmed(t)
    ensures Trim(t + " ") == t
  {
    assert [] + t + " " == t + " ";
    TrimPadded([], t, " ");
    TrimOfTrimmed(t);
  }

  /** A join of non-empty words without whitespace has no whitespace at either end. */
  lemma {:induction false} JoinTrimmed(ws: seq<string>)
    requires ws != []
    requires forall k :: 0 <= k < |ws| ==> ws[k] != [] && NoSpace(ws[k])
    ensures var j := Join(ws, " "); j != [] && !IsSpace(j[0]) && !IsSpace(j[|j| - 1])
    decreases |ws|
  {
    if |ws| > 1 {
      JoinCons(ws[0], ws[1..], " ");
      assert [ws[0]] + ws[1..] == ws;
      var last := ws[|ws| - 1];
      JoinSnoc(ws[..|ws| - 1], last, " ");
      assert ws[..|ws| - 1] + [last] == ws;
    }
  }

  /** Filtering keeps the tags' shape: non-empty and without whitespace. */
  lemma {:induction false} UnmentionedWords(caption: string, tags: seq<string>)
    requires forall k :: 0 <= k < |tags| ==> tags[k] != [] && NoSpace(tags[k])
    ensures forall k :: 0 <= k < |Unmentioned(caption, tags)| ==>
      Unmentioned(caption, tags)[k] != [] && NoSpace(Unmentioned(caption, tags)[k])
  {
    if tags != [] {
      UnmentionedWords(caption, tags[1..]);
      var rest := Unmentioned(caption, tags[1..]);
      if !Mentioned(caption, tags[0]) {
        var f := [tags[0]] + rest;
        assert Unmentioned(caption, tags) == f;
        forall k | 0 <= k < |f| ensures f[k] != [] && NoSpace(f[k]) {
          if k > 0 {
            assert f[k] == rest[k - 1];
          } else {
            assert f[k] == tags[0];
          }
        }
      }
    }
  }

  /**
   * With some tag left to add (tags being non-empty and free of whitespace),
   * the result is the trimmed caption, one space and the remaining tags in
   * order separated by single spaces; an empty caption leaves only the tags.
   */
  lemma AppendedTags(caption: string, video: GeneratedVideo)
    requires forall k :: 0 <= k < |video.hashtags| ==> video.hashtags[k] != [] && NoSpace(video.hashtags[k])
    requires Unmentioned(caption, video.hashtags) != []
    ensures var j := Join(Unmentioned(caption, video.hashtags), " ");
      FormattedCaption(caption, Some(video), true) == if Trim(caption) == [] then j else Trim(caption) + " " + j
  {
    var f := Unmentioned(caption, video.hashtags);
    UnmentionedWords(caption, video.hashtags);
    JoinTrimmed(f);
    assert FormattedCaption(caption, Some(video), true) == Trim(Trim(caption) + " " + Join(f, " "));
    TrimAround(Trim(caption), Join(f, " "));
  }

  /** A trimmed text, a space and a non-empty trimmed text: trimming removes only the space when the first is empty. */
  lemma TrimAround(t: string, j: string)
    requires Trimmed(t) && j != [] && !IsSpace(j[0]) && !IsSpace(j[|j| - 1])
    ensures Trim(t + " " + j) == if t == [] then j else t + " " + j
  {
    TrimOfTrimmed(j);
    if t == [] {
      assert t + " " + j == " " + j + [];
      TrimPadded(" ", j, []);
    } else {
      var x := t + " " + j;
      assert x[0] == t[0] && x[|x| - 1] == j[|j| - 1];
      TrimOfTrimmed(x);
    }
  }

  // ---------------------------------------------------------------------
  // The file name sent along
  // ---------------------------------------------------------------------

  /** `name.replace(/\.webm$/, ".mp4")`: a trailing ".webm" becomes ".mp4", any other name is kept. */
  function RenameWebm(name: string): (r: string)
    ensures !EndsWith(r, ".webm")
    ensures EndsWith(name, ".webm") ==> r == name[..|name| - 5] + ".mp4"
    ensures !EndsWith(name, ".webm") ==> r == name
  {
    if EndsWith(name, ".webm") then
      var r := name[..|name| - 5] + ".mp4";
      assert r[|r| - 1] == '4';
      r
    else name
  }

  /** Renaming twice is renaming once. */
  lemma RenameIdempotent(name: string)
    ensures RenameWebm(RenameWebm(name)) == RenameWebm(name)
  {
  }

  /** A rendered video's name is sent with ".mp4" in place of ".webm". */
  lemma RenderedNameBecomesMp4(niche: string, stopMs: nat)
    ensures RenameWebm(FileName(niche, stopMs)) == Slug(niche) + "-" + Decimal(stopMs) + ".mp4"
  {
    var n := FileName(niche, stopMs);
    assert n[..|n| - 5] == Slug(niche) + "-" + Decimal(stopMs);
  }

  // ---------------------------------------------------------------------
  // The request and its reply
  // ---------------------------------------------------------------------

  /** The multipart form `handleSubmit` sends: every field a string, the recording as a WebM file. */
  function RequestFor(token: string, userId: string, caption: string, scheduleTime: string, video: GeneratedVideo): (f: PublishRoute.PublishForm)
    ensures PublishRoute.HasRequiredFields(f)
    ensures f.fileName == PublishRoute.Text(RenameWebm(video.fileName)) && f.caption == PublishRoute.Text(caption)
  {
    PublishRoute.PublishForm(
      PublishRoute.Text(token), PublishRoute.Text(caption), PublishRoute.Text(scheduleTime),
      PublishRoute.Text(userId), PublishRoute.Upload(PublishRoute.VideoFile(VideoMime, video.blob)),
      PublishRoute.Text(RenameWebm(video.fileName)))
  }

  /** What the form reads back: the status with the `error` and `publishId` fields, or a failure to get or parse a reply. */
  datatype ClientReply = Received(status: int, error: Option<string>, publishId: Option<string>) | Unreadable(message: Option<string>)

  /**
   * The endpoint's response as the form reads it: the status, the `error`
   * field exactly when the endpoint failed and the `publishId` field exactly
   * when it published.
   */
  function ToClient(o: PublishRoute.Outcome): (r: ClientReply)
    ensures r.Received? && r.status == o.response.status
    ensures r.error.Some? <==> o.response.body.Failure?
    ensures r.error.Some? ==> r.error.value == o.response.body.error
    ensures r.publishId.Some? <==> o.response.body.Published?
    ensures r.publishId.Some? ==> r.publishId.value == o.response.body.publishId
  {
    var b := o.response.body;
    Received(o.response.status, if b.Failure? then Some(b.error) else None, if b.Published? then Some(b.publishId) else None)
  }

  /**
   * The state after the request settles: success with the publish id (or
   * "submitted") for a success status; otherwise an error carrying the
   * reply's message, "TikTok publish failed", or the message of what was
   * thrown ("Unexpected error occurred" for a non-error value).
   */
  function Settle(reply: ClientReply): (s: PublishState)
    ensures s.Success? <==> reply.Received? && PublishRoute.Ok(reply.status)
    ensures s.Success? ==> s.reference == reply.publishId.GetOr("submitted")
    ensures s.Error? && reply.Received? ==> s.message == reply.error.GetOr("TikTok publish failed")
    ensures s.Error? && reply.Unreadable? ==> s.message == reply.message.GetOr("Unexpected error occurred")
  {
    match reply
    case Received(status, error, publishId) =>
      if !PublishRoute.Ok(status) then Error(error.GetOr("TikTok publish failed"))
      else Success(publishId.GetOr("submitted"))
    case Unreadable(message) => Error(message.GetOr("Unexpected error occurred"))
  }

  /**
   * From the form to the endpoint and back: the request passes validation,
   * the init call names the renamed file, and the form ends in success
   * exactly when every step of the endpoint succeeded, reporting the
   * endpoint's publish id or its error message.
   */
  lemma EndToEnd(token: string, userId: string, caption: string, scheduleTime: string, video: GeneratedVideo, w: PublishRoute.World)
    ensures var req := RequestFor(token, userId, caption, scheduleTime, video);
      var o := PublishRoute.Post(req, w);
      && o.calls[0].publishId == RenameWebm(video.fileName)
      && (Settle(ToClient(o)).Success? <==> PublishRoute.Succeeds(req, w))
      && (Settle(ToClient(o)).Success? ==> Settle(ToClient(o)).reference == o.response.body.publishId)
      && (Settle(ToClient(o)).Error? ==> Settle(ToClient(o)).message == o.response.body.error)
  {
    var req := RequestFor(token, userId, caption, scheduleTime, video);
    PublishRoute.StatusTellsSuccess(req, w);
    PublishRoute.InitCallFields(req, w);
  }

  // ---------------------------------------------------------------------
  // The component's state
  // ---------------------------------------------------------------------

  class Publisher {
    var accessToken: string
    var tiktokUserId: string
    var caption: string
    var scheduleTime: string
    var autoHashtags: bool
    var video: Option<GeneratedVideo>
    var state: PublishState

    /** Empty inputs, automatic hashtags on, no video, idle; `defaultSchedule` is the clock's suggestion. */
    constructor (defaultSchedule: string)
      ensures accessToken == [] && tiktokUserId == [] && caption == [] && scheduleTime == defaultSchedule
      ensures autoHashtags && video.None? && state == Idle
    {
      accessToken := [];
      tiktokUserId := [];
      caption := [];
      scheduleTime := defaultSchedule;
      autoHashtags := true;
      video := None;
      state := Idle;
    }

    /** A new video arrives: its caption replaces the caption input. */
    method ReceiveVideo(v: Option<GeneratedVideo>)
      modifies this`video, this`caption
      ensures video == v
      ensures caption == if v.Some? then v.value.caption else old(caption)
    {
      video := v;
      if v.Some? {
        caption := v.value.caption;
      }
    }

    /** The inputs' change handlers. */
    method Edit(token: string, userId: string, newCaption: string, newSchedule: string, auto: bool)
      modifies this`accessToken, this`tiktokUserId, this`caption, this`scheduleTime, this`autoHashtags
      ensures accessToken == token && tiktokUserId == userId && caption == newCaption
      ensures scheduleTime == newSchedule && autoHashtags == auto
    {
      accessToken, tiktokUserId, caption, scheduleTime, autoHashtags := token, userId, newCaption, newSchedule, auto;
    }

    /** The caption that would be sent now: the caption input itself unless a video is present and automatic hashtags are on, then a trimmed text. */
    function Formatted(): (r: string)
      reads this
      ensures video.None? || !autoHashtags ==> r == caption
      ensures video.Some? && autoHashtags ==> Trimmed(r)
    {
      FormattedCaption(caption, video, autoHashtags)
    }

    /** The submit button is enabled: a video, a token and a user id, and no upload in flight. */
    function CanSubmit(): (b: bool)
      reads this
      ensures b ==> state != Uploading && video.Some? && accessToken != [] && tiktokUserId != []
      ensures video.Some? && accessToken != [] && tiktokUserId != [] && state != Uploading ==> b
      ensures state == Uploading ==> !b
    {
      video.Some? && accessToken != [] && tiktokUserId != [] && !state.Uploading?
    }

    /**
     * `handleSubmit` up to the request: without a video, token or user id
     * nothing changes; otherwise the state becomes uploading and the form
     * with the formatted caption and the renamed file goes out.
     */
    method HandleSubmit() returns (request: Option<PublishRoute.PublishForm>)
      modifies this`state
      ensures video.None? || accessToken == [] || tiktokUserId == [] ==> request.None? && state == old(state)
      ensures video.Some? && accessToken != [] && tiktokUserId != [] ==>
        state == Uploading && request == Some(RequestFor(accessToken, tiktokUserId, Formatted(), scheduleTime, video.value))
    {
      if video.None? || accessToken == [] || tiktokUserId == [] {
        return None;
      }
      state := Uploading;
      request := Some(RequestFor(accessToken, tiktokUserId, Formatted(), scheduleTime, video.value));
    }

    /** `handleSubmit` after the request: the reply settles the state. */
    method Settled(reply: ClientReply)
      modifies this`state
      ensures state == Settle(reply)
      ensures state.Success? || state.Error?
    {
      state := Settle(reply);
    }
  }
}
