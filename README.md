# TikTok content studio — a Dafny model of its core

The studio is a small Next.js application that helps a creator go from an
idea to a scheduled TikTok post. Its core, modelled here, is:

- **Hashtags** (`Hashtags.dfy`): `getHashtags(niche)` trims and lower-cases
  the niche, picks the tag list of the first niche key that occurs in it
  (business, fitness, beauty, tech, else the default list), appends the
  default tags, removes duplicates and keeps the first six.
- **Script engine** (`ScriptEngine.dfy`): `generateScript(options)` draws
  one hook and one call to action at random, fills the `{benefit}`,
  `{niche}` and step placeholders of the templates, and joins hook, body
  and call to action into one script.
- **Content planner** (`ContentPlanner.dfy`): the list of planned posts, the
  form that adds a draft, the status change and the deletion of an entry,
  and the dashboard metrics (counts by status and a per-day cadence).
- **Video composer** (`VideoComposer.dfy`): the greedy word wrap of
  `drawTextBlock`, the progress of the frame loop, and the video record
  built when recording stops (file name, caption, hashtags).
- **Publisher form** (`PublisherForm.dfy`): the caption with the missing
  hashtags appended, the `.webm` to `.mp4` rename, the request sent to the
  publish route, and the state machine idle → uploading → success or error.
- **Publish route** (`PublishRoute.dfy`): the server handler that validates
  the form, initialises a direct post with TikTok, uploads the video, submits
  the post, and maps each failure to a status and a message.

`Text.dfy` holds the JavaScript string operations the core relies on
(`trim`, `toLowerCase`, `toUpperCase`, `includes`, first-occurrence
`replace`, `split`, `join`, decimal rendering of an integer), each
specified by what it computes and related to its partner (`split` and
`join` undo each other, `trim` is idempotent and ignores surrounding
whitespace, lower-casing commutes with trimming). `Wrappers.dfy` holds the
`Option` type and `GetOr`, the model of JavaScript's `??`.

Randomness, clocks, the network and the browser become parameters: a
random draw is a real in `[0, 1)`, a `Date.now()` reading is a number, and a
reply from TikTok is a `Reply` value that is either a status and a body or
a thrown error.

Not every default tag reaches the result: `getHashtags` keeps only the
first six tags after de-duplication (`src/lib/hashtags.ts:45`), so when a
niche key matches, its five tags fill the first five places and only
`#fyp` survives from the default list, as `Hashtags.OnlyFypFromDefaults`
states.

## Model

| member | source | states |
|---|---|---|
| Wrappers.Option.GetOr | src/app/api/tiktok/publish/route.ts:50-51 | `x ?? d`: the present value when there is one, the default otherwise |
| Text.Trim | src/lib/hashtags.ts:40 | `trim()` yields a string with whitespace at neither end, no longer than the input, empty exactly when the input is all whitespace |
| Text.TrimStart | src/lib/hashtags.ts:40 | dropping leading whitespace leaves a suffix of the input that does not start with whitespace, and everything dropped is whitespace; empty exactly for an all-whitespace input |
| Text.TrimEnd | src/lib/hashtags.ts:40 | dropping trailing whitespace leaves a prefix of the input that does not end with whitespace, and everything dropped is whitespace; empty exactly for an all-whitespace input |
| Text.TrimOfTrimmed | src/lib/hashtags.ts:40 | trimming a string that is already trimmed changes nothing |
| Text.TrimPadded | src/lib/hashtags.ts:40 | whitespace added on either side of a string does not change its trim |
| Text.Lower | src/lib/hashtags.ts:40 | `toLowerCase()` keeps the length, leaves no upper-case letter and keeps whitespace where it was |
| Text.Upper | src/components/VideoComposer.tsx:105 | `toUpperCase()` keeps the length, leaves no lower-case letter and keeps whitespace where it was |
| Text.LowerIdempotent | src/lib/hashtags.ts:40 | lower-casing twice is lower-casing once |
| Text.LowerTrimCommute | src/lib/hashtags.ts:40 | `trim().toLowerCase()` equals `toLowerCase().trim()` |
| Text.Find | src/lib/hashtags.ts:41-42 | a position the search returns leaves room for the whole pattern |
| Text.Contains | src/lib/hashtags.ts:42 | `includes` holds exactly when the pattern occurs at some position |
| Text.FindSpec | src/lib/hashtags.ts:41-43 | the search returns the first position where the pattern occurs, and `includes` holds exactly when the pattern occurs somewhere |
| Text.ReplaceFirst | src/lib/scriptEngine.ts:36-38 | a string without the pattern comes back unchanged; otherwise the result has the pattern's length traded for the replacement's |
| Text.OccursInside | src/components/VideoComposer.tsx:165 | an occurrence inside a piece is an occurrence inside any text containing that piece |
| Text.LowerOccurs | src/components/TikTokPublisherForm.tsx:40 | lower-casing text and pattern together keeps every occurrence |
| Text.ReplaceFirstSpec | src/lib/scriptEngine.ts:36-38 | `replace` with a string pattern splices the replacement over the first occurrence only, and returns the string unchanged when the pattern does not occur |
| Text.ReplaceAbsent | src/lib/scriptEngine.ts:50 | a pattern whose first character does not occur is never replaced |
| Text.Split | src/components/VideoComposer.tsx:106 | `split(" ")` yields at least one piece and no piece contains the separator |
| Text.JoinSplit | src/components/VideoComposer.tsx:106 | joining the pieces of a split with the separator gives back the original string |
| Text.SplitJoin | src/components/VideoComposer.tsx:106 | splitting a join of separator-free pieces gives back the pieces |
| Text.Join | src/lib/scriptEngine.ts:48 | a single piece joins to itself |
| Text.JoinEnds | src/components/VideoComposer.tsx:165 | a join begins with the first piece and ends with the last |
| Text.JoinHasPiece | src/components/VideoComposer.tsx:165 | every piece occurs in the join |
| Text.Decimal | src/components/VideoComposer.tsx:154 | a number renders as a non-empty string of digits without a leading zero |
| Text.DecimalRoundTrip | src/components/VideoComposer.tsx:154 | reading back the digits of a rendered number gives the number |
| Hashtags.FirstKeyFrom | src/lib/hashtags.ts:41-42 | the key found is the first key, in declaration order, that the niche contains; none is found only when the niche contains no key |
| Hashtags.Normalize | src/lib/hashtags.ts:40 | the normalised niche has no whitespace at either end and no upper-case letter, is never longer than the niche, and is empty exactly for an all-whitespace niche |
| Hashtags.FirstKeyIsFirst | src/lib/hashtags.ts:41-42 | the key search returns a key exactly when it is the first key the niche contains, and nothing exactly when it contains none |
| Hashtags.DedupeInto | src/lib/hashtags.ts:45 | `Array.from(new Set(...))`: no duplicates, first occurrences kept in order, and a tag is in the result exactly when it is in the input |
| Hashtags.DedupeIntoDistinct | src/lib/hashtags.ts:45 | a list without duplicates passes through de-duplication unchanged |
| Hashtags.DedupeIntoSeen | src/lib/hashtags.ts:45 | tags already seen are all dropped |
| Hashtags.DedupeIntoAppend | src/lib/hashtags.ts:45 | de-duplicating a concatenation is de-duplicating the first part and then continuing with the second |
| Hashtags.DedupeTwice | src/lib/hashtags.ts:45 | a duplicate-free list followed by itself de-duplicates to the list |
| Hashtags.ListsDistinct | src/lib/hashtags.ts:1-37 | every niche list followed by the default list has no duplicate tag |
| Hashtags.NicheListDistinct | src/lib/hashtags.ts:1-37 | each niche list has five tags, none repeated and none among the defaults |
| Hashtags.Chosen | src/lib/hashtags.ts:41-43 | for a key the normalised niche contains with no earlier key contained, the tags of that key; the default list when it contains no key |
| Hashtags.MergeNicheList | src/lib/hashtags.ts:45 | a five-tag niche list disjoint from the defaults merges to itself followed by `#fyp` |
| Hashtags.MergeDefault | src/lib/hashtags.ts:43-45 | with no matching niche key the result is the default list |
| Hashtags.GetHashtags | src/lib/hashtags.ts:39-46 | between one and six tags, no duplicates, `#fyp` always present, every tag from the chosen list or the defaults |
| Hashtags.Merge | src/lib/hashtags.ts:45 | the merged list is capped at six, duplicate-free, and draws only on the chosen and default tags |
| Hashtags.FypKept | src/lib/hashtags.ts:45 | `#fyp` survives the cut to six whichever list is chosen |
| Hashtags.SelectionShape | src/lib/hashtags.ts:39-46 | the exact result for each outcome of the key search: niche list plus `#fyp`, or the default list |
| Hashtags.MergeOfChoice | src/lib/hashtags.ts:42-45 | for each outcome of the key search, the merged list: the niche list plus `#fyp`, or the default list |
| Hashtags.GetHashtagsSelection | src/lib/hashtags.ts:39-46 | the same three cases stated on `getHashtags` itself |
| Hashtags.OnlyFypFromDefaults | src/lib/hashtags.ts:45 | when a niche key matches, the four defaults other than `#fyp` are never returned |
| Hashtags.ListsWritten | src/lib/hashtags.ts:1-37 | every tag of every list is a `#` followed by text |
| Hashtags.TagsWritten | src/lib/hashtags.ts:39-46 | every tag `getHashtags` returns is a `#` followed by text |
| Hashtags.NormalizeOfNormal | src/lib/hashtags.ts:40 | a trimmed lower-case niche is its own normal form |
| Hashtags.BusinessGrowthExample | src/lib/hashtags.ts:39-46 | "business growth" yields the five business tags and `#fyp` |
| Hashtags.BusinessKeyFound | src/lib/hashtags.ts:41-42 | the key search finds "business" first in "business growth" |
| Hashtags.NormalizeIdempotent | src/lib/hashtags.ts:40 | normalising a normalised niche changes nothing |
| Hashtags.CaseInsensitive | src/lib/hashtags.ts:40 | niches equal up to letter case get the same tags |
| Hashtags.SameNormalSameTags | src/lib/hashtags.ts:40-45 | the tags depend only on the normalised niche |
| Hashtags.GetHashtagsOfNormalized | src/lib/hashtags.ts:40 | looking up the normalised niche gives the same tags as the raw niche |
| Hashtags.SurroundingSpaceIgnored | src/lib/hashtags.ts:40 | whitespace around the niche does not change the tags |
| ScriptEngine.PickIndex | src/lib/scriptEngine.ts:30-31 | `Math.floor(Math.random() * n)` is a valid index, the floor of the scaled draw |
| ScriptEngine.RandomFrom | src/lib/scriptEngine.ts:30-31 | the item drawn is one of the items |
| ScriptEngine.GenerateScript | src/lib/scriptEngine.ts:33-59 | the script is hook, body and call to action separated by single spaces; the hook is some filled hook template, the body the three filled body lines joined by spaces, and the call to action some filled call-to-action template; the niche is carried through |
| ScriptEngine.FillSlot | src/lib/scriptEngine.ts:37 | replacing the only placeholder puts the phrase exactly where it was and leaves no `{` behind |
| ScriptEngine.OtherSlotAbsent | src/lib/scriptEngine.ts:37-38 | a template holding one placeholder does not contain a different placeholder |
| ScriptEngine.FillBenefitHook | src/lib/scriptEngine.ts:37-38 | a hook with a `{benefit}` slot is filled with the benefit and nothing else changes |
| ScriptEngine.FillHook | src/lib/scriptEngine.ts:36-38 | a hook template without either placeholder is used as written |
| ScriptEngine.FillNicheHook | src/lib/scriptEngine.ts:37-38 | a hook with a `{niche}` slot is filled with the niche and nothing else changes |
| ScriptEngine.Hook0Filled | src/lib/scriptEngine.ts:2 | the first hook reads "Stop scrolling if you want to" followed by the benefit |
| ScriptEngine.Hook1Filled | src/lib/scriptEngine.ts:3 | the second hook carries the benefit in its slot |
| ScriptEngine.Hook2Filled | src/lib/scriptEngine.ts:4 | the third hook carries the benefit in its slot |
| ScriptEngine.Hook3Filled | src/lib/scriptEngine.ts:5 | the fourth hook carries the niche in its slot |
| ScriptEngine.Hook4Filled | src/lib/scriptEngine.ts:6 | the fifth hook carries the niche in its slot |
| ScriptEngine.HookFilled | src/lib/scriptEngine.ts:1-7 | the filled text of all five hooks |
| ScriptEngine.BodyLineOne | src/lib/scriptEngine.ts:10 | the first body line carries step one |
| ScriptEngine.BodyLineTwo | src/lib/scriptEngine.ts:11 | the second body line carries step two |
| ScriptEngine.BodyLineThree | src/lib/scriptEngine.ts:12 | the third body line carries step three |
| ScriptEngine.FillBodyLine | src/lib/scriptEngine.ts:42-46 | a body line without any of the four placeholders is used as written |
| ScriptEngine.FillBody | src/lib/scriptEngine.ts:40-48 | the body is the three filled lines in order, separated by single spaces |
| ScriptEngine.Join3 | src/lib/scriptEngine.ts:48 | three lines joined by spaces |
| ScriptEngine.BodyFilled | src/lib/scriptEngine.ts:40-48 | the body is the three filled lines joined by single spaces |
| ScriptEngine.BodyBraceFree | src/lib/scriptEngine.ts:40-48 | no placeholder survives in the body |
| ScriptEngine.Cta0Filled | src/lib/scriptEngine.ts:16 | the first call to action carries the niche |
| ScriptEngine.Cta1Verbatim | src/lib/scriptEngine.ts:17 | the second call to action has no slot and is used as written |
| ScriptEngine.Cta2Filled | src/lib/scriptEngine.ts:18 | the third call to action carries the niche |
| ScriptEngine.Cta3Verbatim | src/lib/scriptEngine.ts:19 | the fourth call to action has no slot and is used as written |
| ScriptEngine.FillCta | src/lib/scriptEngine.ts:50 | a call to action without `{niche}` is used as written; with it, the niche takes the placeholder's place |
| ScriptEngine.HookBraceFree | src/lib/scriptEngine.ts:36-38 | whichever hook is drawn, no placeholder survives |
| ScriptEngine.CtaBraceFree | src/lib/scriptEngine.ts:50 | whichever call to action is drawn, no placeholder survives |
| ScriptEngine.NoPlaceholderLeft | src/lib/scriptEngine.ts:33-59 | for every draw, hook, body, call to action and script contain no `{` |
| ContentPlanner.NewEntry | src/components/ContentPlanner.tsx:85-93 | the new entry is a draft with the given id and the form's fields |
| ContentPlanner.DefaultForm | src/components/ContentPlanner.tsx:39-50 | the reset form has empty idea, hook, call to action and notes, and the next slot as its schedule |
| ContentPlanner.Ids | src/components/ContentPlanner.tsx:99-107 | the ids of the list, position by position |
| ContentPlanner.AddEntry | src/components/ContentPlanner.tsx:95 | the new entry goes first and the old list follows unchanged |
| ContentPlanner.SetStatus | src/components/ContentPlanner.tsx:99-103 | entries with the id get the new status and nothing else changes; other entries are untouched |
| ContentPlanner.RemoveId | src/components/ContentPlanner.tsx:105-107 | an entry survives exactly when its id differs; a list without the id comes back unchanged |
| ContentPlanner.CountStatus | src/components/ContentPlanner.tsx:72-73 | a status count never exceeds the number of entries |
| ContentPlanner.CountId | src/components/ContentPlanner.tsx:105-107 | an id count never exceeds the number of entries |
| ContentPlanner.HasSchedule | src/components/ContentPlanner.tsx:75 | the definition of an entry with a schedule: a `scheduleAt` that is present and not empty, as JavaScript truthiness reads it |
| ContentPlanner.AnyScheduled | src/components/ContentPlanner.tsx:75 | the definition of `items.some(item => item.scheduleAt)`: some entry has a schedule |
| ContentPlanner.RateTenths | src/components/ContentPlanner.tsx:76 | `Math.round((total / 7) * 10)`: within half a tenth of the exact weekly rate |
| ContentPlanner.ComputeMetrics | src/components/ContentPlanner.tsx:70-80 | total, scheduled and posted counts; "Plan more drops" exactly when no entry has a schedule, else the rounded rate |
| ContentPlanner.ScheduledPlusPosted | src/components/ContentPlanner.tsx:72-73 | scheduled and posted together never exceed the total |
| ContentPlanner.SetStatusKeepsIds | src/components/ContentPlanner.tsx:100-102 | a status change keeps every id in place |
| ContentPlanner.SetStatusIdempotent | src/components/ContentPlanner.tsx:99-103 | setting the same status twice is setting it once |
| ContentPlanner.SetStatusKeepsUnique | src/components/ContentPlanner.tsx:99-103 | a status change keeps ids unique |
| ContentPlanner.AddKeepsUnique | src/components/ContentPlanner.tsx:85-95 | adding an entry with a fresh id keeps ids unique |
| ContentPlanner.RemoveIdAppend | src/components/ContentPlanner.tsx:106 | deletion distributes over concatenation |
| ContentPlanner.RemoveIdLength | src/components/ContentPlanner.tsx:105-107 | deletion removes exactly the entries with the id, and none remains |
| ContentPlanner.UniqueCountId | src/components/ContentPlanner.tsx:105-107 | with unique ids an id occurs once or not at all |
| ContentPlanner.RemoveIdKeepsUnique | src/components/ContentPlanner.tsx:105-107 | deletion keeps ids unique |
| ContentPlanner.AddMetrics | src/components/ContentPlanner.tsx:70-97 | after a submit the total grows by one, the status counts are unchanged, and a scheduled draft sets the cadence to the rate of the new total |
| ContentPlanner.DefaultFormScheduled | src/components/ContentPlanner.tsx:39-50 | submitting the untouched form adds a scheduled draft, so the cadence becomes the rate of the new total |
| ContentPlanner.Planner.constructor | src/components/ContentPlanner.tsx:53-64 | the planner starts from the stored list and the default form |
| ContentPlanner.Planner.CurrentMetrics | src/components/ContentPlanner.tsx:70-80 | the total is the number of entries, scheduled and posted never exceed it, and "Plan more drops" shows exactly when no entry has a schedule |
| ContentPlanner.Planner.HandleSubmit | src/components/ContentPlanner.tsx:82-97 | prepends the draft built from the form, resets the form, and keeps ids unique when the new id is fresh |
| ContentPlanner.Planner.UpdateStatus | src/components/ContentPlanner.tsx:99-103 | the list becomes the status-changed list and ids stay unique |
| ContentPlanner.Planner.DeleteEntry | src/components/ContentPlanner.tsx:105-107 | the list loses the entries with the id, exactly one when the id was present, and ids stay unique |
| VideoComposer.Processed | src/components/VideoComposer.tsx:105 | the text unchanged, or `Upper` of it (no lower-case letter, whitespace where it was) when asked; always of the same length |
| VideoComposer.TestLine | src/components/VideoComposer.tsx:111 | the test line ends with the word; it is the word alone on an empty line, else the line, one space and the word |
| VideoComposer.Step | src/components/VideoComposer.tsx:110-119 | one turn only appends lines, at most one, and a pushed line is the non-empty current line; the new current line fits or is the word alone |
| VideoComposer.StepEndsWithWord | src/components/VideoComposer.tsx:111-117 | after one turn the current line ends with the word just taken |
| VideoComposer.Fold | src/components/VideoComposer.tsx:109-119 | the loop keeps the lines pushed so far in front and pushes at most one line per word; no words, no change |
| VideoComposer.FoldEndsWithLast | src/components/VideoComposer.tsx:109-119 | after the loop the current line ends with the last word |
| VideoComposer.Finish | src/components/VideoComposer.tsx:120 | the last line is pushed after the others exactly when it is not empty |
| VideoComposer.Wrap | src/components/VideoComposer.tsx:105-120 | every drawn line is non-empty and fits the width, unless it is one word too wide on its own |
| VideoComposer.DrawTextBlock | src/components/VideoComposer.tsx:105-120 | the loop computes exactly the wrapped lines |
| VideoComposer.StepKeepsShape | src/components/VideoComposer.tsx:110-119 | one loop turn keeps every line non-empty and fitting |
| VideoComposer.FoldKeepsShape | src/components/VideoComposer.tsx:109-120 | the whole loop keeps every line non-empty and fitting |
| VideoComposer.FirstWordExtend | src/components/VideoComposer.tsx:111 | extending a line does not change its first word |
| VideoComposer.PushGreedy | src/components/VideoComposer.tsx:113-115 | pushing the current line keeps consecutive lines greedy |
| VideoComposer.StepKeepsMaximal | src/components/VideoComposer.tsx:110-119 | one loop turn keeps the lines greedy |
| VideoComposer.FoldKeepsMaximal | src/components/VideoComposer.tsx:109-119 | the whole loop keeps the lines greedy |
| VideoComposer.WrapGreedy | src/components/VideoComposer.tsx:105-120 | no line could have taken the first word of the next line |
| VideoComposer.FlatPush | src/components/VideoComposer.tsx:113-115 | starting a new line adds a space and the word to the text the lines spell |
| VideoComposer.FlatExtend | src/components/VideoComposer.tsx:116-117 | extending the current line adds a space and the word to the text the lines spell |
| VideoComposer.StepFlat | src/components/VideoComposer.tsx:110-119 | one loop turn appends its word to the text the lines spell |
| VideoComposer.GlueAssoc | src/components/VideoComposer.tsx:111 | joining with a space is associative around a non-empty word |
| VideoComposer.JoinGlue | src/components/VideoComposer.tsx:106 | a join of words is the first word glued to the join of the rest |
| VideoComposer.FoldFlat | src/components/VideoComposer.tsx:109-120 | the loop's lines spell the words joined by spaces |
| VideoComposer.WrapJoin | src/components/VideoComposer.tsx:105-120 | joining the drawn lines with spaces gives back the processed text: no word is lost, added or reordered |
| VideoComposer.Slug | src/components/VideoComposer.tsx:154 | `replace(/\s+/g, "-")` leaves no whitespace and never lengthens the niche |
| VideoComposer.SlugFrom | src/components/VideoComposer.tsx:154 | the same, for the rest of a niche inside or outside a whitespace run |
| VideoComposer.SlugPlain | src/components/VideoComposer.tsx:154 | a niche without whitespace is kept as it is |
| VideoComposer.SlugInRun | src/components/VideoComposer.tsx:154 | further whitespace inside a run adds nothing |
| VideoComposer.SlugSpaceRun | src/components/VideoComposer.tsx:154 | a whitespace run becomes a single dash |
| VideoComposer.SlugRun | src/components/VideoComposer.tsx:154 | a word, a whitespace run and the rest become the word, one dash and the slug of the rest |
| VideoComposer.SlugOfWords | src/components/VideoComposer.tsx:154 | words joined by single spaces come out joined by dashes |
| VideoComposer.FileName | src/components/VideoComposer.tsx:154 | the file name starts with the slug of the niche and ends in `.webm` |
| VideoComposer.Caption | src/components/VideoComposer.tsx:165 | the caption starts with the hook and a space, has the call to action and a space next, and ends with the hashtags joined by spaces |
| VideoComposer.Progress | src/components/VideoComposer.tsx:171-172 | progress is the elapsed fraction of the duration while below 1, reaches 1 exactly when the duration has elapsed, never exceeds 1, and is not negative for a non-negative elapsed time |
| VideoComposer.NextFrameWhileRunning | src/components/VideoComposer.tsx:210-212 | another frame is requested exactly while less than the duration has elapsed |
| VideoComposer.Render | src/components/VideoComposer.tsx:132-168 | a video comes out exactly when canvas, image, script and context exist, carrying the recording, the script's hashtags, the hook-cta-hashtags caption and the slugged file name |
| PublisherForm.Unmentioned | src/components/TikTokPublisherForm.tsx:39-41 | the filter keeps at most the tags it was given |
| PublisherForm.UnmentionedMembers | src/components/TikTokPublisherForm.tsx:39-41 | a tag is appended exactly when the caption does not mention it, ignoring case and the `#` |
| PublisherForm.UnmentionedAppend | src/components/TikTokPublisherForm.tsx:39-41 | the filter works tag by tag and keeps the order |
| PublisherForm.StripHash | src/components/TikTokPublisherForm.tsx:40 | `replace("#", "")` keeps a tag without `#` and otherwise removes exactly one character |
| PublisherForm.StripLeadingHash | src/components/TikTokPublisherForm.tsx:40 | a tag written with a leading `#` loses exactly that character |
| PublisherForm.Mentioned | src/components/TikTokPublisherForm.tsx:40 | the definition of a mentioned tag: its text without `#` occurs in the caption, both lower-cased |
| PublisherForm.OccurringTagMentioned | src/components/TikTokPublisherForm.tsx:40 | a `#` tag that occurs in the caption is mentioned |
| PublisherForm.FormattedCaption | src/components/TikTokPublisherForm.tsx:35-43 | without a video or with auto-hashtags off the caption is kept as typed; otherwise the result is trimmed |
| PublisherForm.NoneUnmentioned | src/components/TikTokPublisherForm.tsx:39-41 | when the caption mentions every tag, none is appended |
| PublisherForm.AllMentioned | src/components/TikTokPublisherForm.tsx:35-43 | when the caption mentions every tag, the result is the trimmed caption |
| PublisherForm.RenderedCaptionMentionsTags | src/components/TikTokPublisherForm.tsx:35-43 | a rendered video published with its own caption and auto-hashtags on gets no tag appended: the composer's caption already holds every `#` tag |
| PublisherForm.TrimSpaceAfter | src/components/TikTokPublisherForm.tsx:42 | a trailing separator space is removed by the final trim |
| PublisherForm.JoinTrimmed | src/components/TikTokPublisherForm.tsx:42 | space-free tags joined by spaces start and end with a tag character |
| PublisherForm.UnmentionedWords | src/components/TikTokPublisherForm.tsx:39-41 | the appended tags are non-empty and space-free when the video's tags are |
| PublisherForm.AppendedTags | src/components/TikTokPublisherForm.tsx:35-43 | the result is the trimmed caption, a space and the missing tags joined by spaces (just the tags when the caption is blank) |
| PublisherForm.TrimAround | src/components/TikTokPublisherForm.tsx:42 | trimming caption, space and tags keeps the single separating space |
| PublisherForm.RenameWebm | src/components/TikTokPublisherForm.tsx:56 | a trailing `.webm` becomes `.mp4`, any other name is kept, and the result never ends in `.webm` |
| PublisherForm.RenameIdempotent | src/components/TikTokPublisherForm.tsx:56 | renaming twice is renaming once |
| PublisherForm.RenderedNameBecomesMp4 | src/components/TikTokPublisherForm.tsx:56 | a rendered video's name is sent as the slug, a dash, the time and `.mp4` |
| PublisherForm.RequestFor | src/components/TikTokPublisherForm.tsx:51-57 | the request has every field the route requires, the formatted caption and the renamed file |
| PublisherForm.ToClient | src/components/TikTokPublisherForm.tsx:59-64 | the form reads the route's status, an `error` field exactly when the route failed and a `publishId` exactly when it published |
| PublisherForm.Settle | src/components/TikTokPublisherForm.tsx:59-78 | success exactly for a 2xx reply, with its publish id or "submitted"; otherwise the reply's error, "TikTok publish failed", or the thrown message |
| PublisherForm.EndToEnd | src/components/TikTokPublisherForm.tsx:45-79 | against the route, the form succeeds exactly when all three TikTok calls succeed, and shows the route's publish id or error |
| PublisherForm.Publisher.constructor | src/components/TikTokPublisherForm.tsx:22-27 | empty credentials and caption, the default schedule, auto-hashtags on, no video, idle |
| PublisherForm.Publisher.ReceiveVideo | src/components/TikTokPublisherForm.tsx:29-33 | the video is replaced; the caption takes the video's caption only when a video arrives |
| PublisherForm.Publisher.Edit | src/components/TikTokPublisherForm.tsx:100-143 | the inputs set the token, user id, caption, schedule and auto-hashtags switch |
| PublisherForm.Publisher.Formatted | src/components/TikTokPublisherForm.tsx:35-43 | the caption to send is the caption input unless a video is present and auto-hashtags are on; then it is trimmed |
| PublisherForm.Publisher.CanSubmit | src/components/TikTokPublisherForm.tsx:163 | the button is enabled exactly when a video, an access token and a user id are present and no upload is in flight |
| PublisherForm.Publisher.HandleSubmit | src/components/TikTokPublisherForm.tsx:45-57 | without video, token or user id nothing happens; otherwise the state becomes uploading and the request is built from the current fields |
| PublisherForm.Publisher.Settled | src/components/TikTokPublisherForm.tsx:59-78 | the state becomes success or error as the reply dictates |
| PublishRoute.Prefix | src/app/api/tiktok/publish/route.ts:43 | `slice(0, n)`: a prefix of at most n characters, the whole string when it is short enough |
| PublishRoute.CaptionToTitle | src/app/api/tiktok/publish/route.ts:7-9 | the first 42 characters of the caption (the whole caption when shorter), or the default title for an empty caption; never empty |
| PublishRoute.ParseSchedule | src/app/api/tiktok/publish/route.ts:11-19 | a time only for a non-empty parseable schedule, in whole seconds, never earlier than the minimum lead |
| PublishRoute.ScheduleMonotone | src/app/api/tiktok/publish/route.ts:11-19 | a later requested time never gives an earlier scheduled time |
| PublishRoute.ScheduleHonoured | src/app/api/tiktok/publish/route.ts:15-18 | a time far enough ahead is kept (in seconds); an earlier one is moved to the minimum lead |
| PublishRoute.Extension | src/app/api/tiktok/publish/route.ts:53 | `webm` exactly when the type names webm and not mp4, else `mp4` |
| PublishRoute.UploadFileName | src/app/api/tiktok/publish/route.ts:50-54 | the given name, else `agentic-` with the time and the extension |
| PublishRoute.UntypedFileIsWebm | src/app/api/tiktok/publish/route.ts:49-54 | a file without a type is sent as webm and named `.webm` |
| PublishRoute.ContentType | src/app/api/tiktok/publish/route.ts:49 | the file's own type when it has one, and `video/webm` when it has none |
| PublishRoute.Prepare | src/app/api/tiktok/publish/route.ts:43-54 | the description is the caption cut to 2200 characters, and the file type, file name and schedule are settled as above |
| PublishRoute.HasRequiredFields | src/app/api/tiktok/publish/route.ts:31-36 | the definition of a complete form: token, caption and user id are strings and the video is a file |
| PublishRoute.MissingUploadInfo | src/app/api/tiktok/publish/route.ts:91 | the definition of missing upload info: the upload URL or the publish id is absent or empty |
| PublishRoute.InitOf | src/app/api/tiktok/publish/route.ts:57-78 | the init call carries the bearer token, the user, the upload name as publish id, the description and schedule, and a title of 1 to 42 characters that begins the description |
| PublishRoute.Succeeds | src/app/api/tiktok/publish/route.ts:31-139 | the definition of a publish that went through: a complete form, a 2xx init reply with upload info, then a 2xx upload and a 2xx submit |
| PublishRoute.ServerError | src/app/api/tiktok/publish/route.ts:140-143 | a thrown error becomes a 500 failure without details |
| PublishRoute.Run | src/app/api/tiktok/publish/route.ts:56-139 | the init call is always made first, and at most three calls are made |
| PublishRoute.Post | src/app/api/tiktok/publish/route.ts:21-144 | no call and a 400 exactly when a field is missing; a published body exactly when every step succeeds, then with status 200 after three calls |
| PublishRoute.StatusTellsSuccess | src/app/api/tiktok/publish/route.ts:21-144 | the response status is 2xx exactly when the post was published |
| PublishRoute.CallsInOrder | src/app/api/tiktok/publish/route.ts:57-125 | the calls are init, then upload, then submit |
| PublishRoute.InitCallFields | src/app/api/tiktok/publish/route.ts:57-78 | the init call carries the bearer token, the user, the cut description, the derived title and the file name as publish id |
| PublishRoute.LaterCallsFollowInit | src/app/api/tiktok/publish/route.ts:88-125 | the upload goes to the URL from init with the file's type and data; the submit uses the publish id from init |
| PublishRoute.PublishedFields | src/app/api/tiktok/publish/route.ts:135-139 | a success reports the submit's publish id (else init's) and its status (else "submitted") |
| PublishRoute.InitFailureStops | src/app/api/tiktok/publish/route.ts:80-86 | a failed init returns its status and message, and no later call is made |
| PublishRoute.MissingInfoIs502 | src/app/api/tiktok/publish/route.ts:88-96 | an init reply without upload URL or publish id gives 502 after one call |
| PublishRoute.UploadFailureStops | src/app/api/tiktok/publish/route.ts:107-113 | a failed upload returns its status and text, and the submit is never made |
| PublishRoute.SubmitFailureStops | src/app/api/tiktok/publish/route.ts:127-133 | a failed submit returns its status and message, or "TikTok submit failed", after all three calls |
| PublishRoute.ThrownIs500 | src/app/api/tiktok/publish/route.ts:140-143 | an error thrown by any call gives 500 with its message, or "Unexpected server error" |

## Left out

- Canvas drawing (`drawBackground`, fonts, colours, text positions), `MediaRecorder`, object URLs and the timer that stops the recorder are browser I/O; `Render` takes the recording and the stop time as parameters.
- Timestamps and the progress ratio are exact reals; JavaScript's floating-point rounding of `elapsed / VIDEO_DURATION_MS` is not modelled.
- `measureText` is a parameter of the wrap (`measure`); the real font metrics are not modelled.
- `localStorage` loading and saving of the planner list is I/O: the planner starts from a given list.
- `crypto.randomUUID()` becomes a parameter; `ContentPlanner.Planner.HandleSubmit` keeps ids unique under the condition that the new id is fresh.
- The default schedule and form slot (`Date` arithmetic and `toISOString`) are string parameters; `Date.parse` of the schedule is a parameter `parsedSchedule`.
- The route reads `Date.now()` twice; the model gives each reading its own parameter in `World`.
- The cadence label is `RateTenths(total) / 10` printed as a JavaScript number and followed by "/day" (for example "1/day" for seven entries); the model keeps the whole number of tenths, and the rendering of that number as text is not modelled.
- `fetch`, `response.json()`, `response.text()` and the TikTok API are modelled as `Reply` values; a reply body that fails to parse counts as a thrown error, as it does inside the route's `try` block.
- `request.formData()` and `video.arrayBuffer()` failures: the model assumes the form can be read and the file's bytes are available.
- A `fileName` form value that is a file rather than text is treated as absent.
- JSON fields of a non-string type (a numeric `publish_id`, say) are not modelled: a field is either absent or a string.
- Whitespace and letter case are ASCII only; JavaScript's Unicode-aware `trim`, `\s`, `toLowerCase` and `toUpperCase` also act on other characters, and strings are UTF-16 code units in JavaScript.
- `replace` with a string replacement in JavaScript expands `$&`, `$$` and the like; the model inserts the replacement literally, so the template lemmas describe phrases without `$` patterns.
- ScriptEngine.HookFilled: the closed forms require phrases without `{`; a phrase holding a placeholder can be filled again by a later replacement, a case these lemmas do not describe (`GenerateScript` itself models it).
- VideoComposer.WrapGreedy: requires words without empty pieces (no leading, trailing or doubled spaces); with empty pieces the loop still runs but the greedy property is not stated.
- VideoComposer.WrapJoin: requires the same; with empty pieces the spaces around them are not reproduced exactly.
- PublisherForm.AppendedTags: requires non-empty, space-free hashtags, as `getHashtags` produces.
- PublisherForm.Unmentioned: its own contract states only the length bound; membership is stated by `UnmentionedMembers`.
- PublisherForm.Publisher.HandleSubmit: the asynchronous exchange is split into the request it returns and `Settled`, which takes the reply; a second submit while uploading is prevented only by the disabled button, as in the page.
- React rendering, memoisation and effect timing are not modelled.
- `ScriptGenerator.tsx`, `ImageUploader.tsx`, `page.tsx` and `layout.tsx` are not part of this model.
