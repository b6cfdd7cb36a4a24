/**
 * The `AIDataVisualization` component of the ai-data-visualization library:
 * the HTML it hands to the sandboxed frame (`injectApiBridge`,
 * `sanitizeHtmlResponse`), its history of generated visualizations, and the
 * prompt bookkeeping of `generateVisualization`.
 *
 * The chat endpoint, the clock and `localStorage` are parameters: the AI's
 * reply, the current time and the stored history are passed in.
 */
module Visualization {
  import opened Wrappers
  import opened Text

  // ---------------------------------------------------------------------------
  // injectApiBridge

  /** `pat` first occurs in `s` at `i`. */
  predicate FirstOccurrence(s: string, pat: string, i: nat) {
    OccursAt(s, pat, i) && forall j | 0 <= j < i :: !OccursAt(s, pat, j)
  }

  /**
   * Where the bridge goes: at the first `</head>` (any case); failing that,
   * just after the first `>` that follows the first `<body` (any case), or
   * at 0 when no `>` follows it; failing both, at 0.
   */
  function BridgeAt(html: string): (p: nat)
    ensures p <= |html|
    ensures Contains(ToLower(html), "</head>") ==> FirstOccurrence(ToLower(html), "</head>", p)
    ensures !Contains(ToLower(html), "</head>") && Contains(ToLower(html), "<body") ==>
      var b := IndexOf(ToLower(html), "<body").value;
      FirstOccurrence(ToLower(html), "<body", b)
      && ((p == 0 && forall j | b <= j < |html| :: html[j] != '>')
          || (b < p && html[p - 1] == '>' && forall j | b <= j < p - 1 :: html[j] != '>'))
    ensures !Contains(ToLower(html), "</head>") && !Contains(ToLower(html), "<body") ==> p == 0
  {
    var lower := ToLower(html);
    var headClose := IndexOf(lower, "</head>");
    var bodyOpen := IndexOf(lower, "<body");
    if headClose.Some? then headClose.value
    else if bodyOpen.None? then 0
    else AfterTagEnd(html, bodyOpen.value)
  }

  /** Just after the first `>` at or after `b`, or 0 when there is none. */
  function AfterTagEnd(html: string, b: nat): (p: nat)
    ensures p <= |html|
    ensures (p == 0 && forall j | b <= j < |html| :: html[j] != '>')
      || (b < p && html[p - 1] == '>' && forall j | b <= j < p - 1 :: html[j] != '>')
  {
    var gt := IndexOfFrom(html, ">", b);
    assert forall j | b <= j < |html| && (gt.None? || j < gt.value) :: html[j] != '>' by {
      forall j | b <= j < |html| && (gt.None? || j < gt.value) ensures html[j] != '>' {
        assert !OccursAt(html, ">", j);
        assert html[j..j + 1] == [html[j]];
      }
    }
    if gt.Some? then
      assert html[gt.value..gt.value + 1] == ">";
      gt.value + 1
    else 0
  }

  /**
   * `injectApiBridge(htmlContent)`: the page with `bridge` inserted at
   * `BridgeAt`; cutting the bridge back out gives the page unchanged.
   */
  function InjectApiBridge(html: string, bridge: string): (r: string)
    ensures |r| == |html| + |bridge|
    ensures r[BridgeAt(html)..BridgeAt(html) + |bridge|] == bridge
    ensures r[..BridgeAt(html)] + r[BridgeAt(html) + |bridge|..] == html
  {
    var p := BridgeAt(html);
    var r := html[..p] + bridge + html[p..];
    assert r[..p] == html[..p];
    assert r[p + |bridge|..] == html[p..];
    assert html[..p] + html[p..] == html;
    r
  }

  // ---------------------------------------------------------------------------
  // sanitizeHtmlResponse

  /** Three backticks start at `i`. */
  predicate FenceAt(s: string, i: int) {
    0 <= i && i + 3 <= |s| && s[i] == '`' && s[i + 1] == '`' && s[i + 2] == '`'
  }

  /** The word `html`, in any case, starts at `i`. */
  predicate HtmlWordAt(s: string, i: nat) {
    i + 4 <= |s| && LowerChar(s[i]) == 'h' && LowerChar(s[i + 1]) == 't'
    && LowerChar(s[i + 2]) == 'm' && LowerChar(s[i + 3]) == 'l'
  }

  /** The number of whitespace characters of `s` from `from` on, up to the first other one. */
  function SpaceAfter(s: string, from: nat): (n: nat)
    requires from <= |s|
    ensures from + n <= |s|
    ensures forall i | from <= i < from + n :: IsWhitespace(s[i])
    ensures from + n == |s| || !IsWhitespace(s[from + n])
    decreases |s| - from
  {
    if from == |s| || !IsWhitespace(s[from]) then 0 else 1 + SpaceAfter(s, from + 1)
  }

  /** The number of whitespace characters of `s` just before `to`. */
  function SpaceBefore(s: string, to: nat): (n: nat)
    requires to <= |s|
    ensures n <= to
    ensures forall i | to - n <= i < to :: IsWhitespace(s[i])
    ensures n == to || !IsWhitespace(s[to - n - 1])
  {
    if to == 0 || !IsWhitespace(s[to - 1]) then 0 else 1 + SpaceBefore(s, to - 1)
  }

  /**
   * The length of the match of the case-insensitive pattern `^````?\s*html\s*`
   * at the start of `s`, if it matches: three or four backticks, optional
   * whitespace, `html`, optional whitespace.
   */
  function OpeningFenceEnd(s: string): (n: Option<nat>)
    ensures n.Some? ==> 7 <= n.value <= |s|
  {
    if !FenceAt(s, 0) then None
    else
      var k := if |s| > 3 && s[3] == '`' then 4 else 3;
      var a := k + SpaceAfter(s, k);
      if HtmlWordAt(s, a) then Some(a + 4 + SpaceAfter(s, a + 4)) else None
  }

  /** `s` without its opening fence, if it has one. */
  function StripOpeningFence(s: string): string {
    match OpeningFenceEnd(s)
    case Some(n) => s[n..]
    case None => s
  }

  /** `s` without three leading backticks, if it has them. */
  function StripBackticks(s: string): string {
    if FenceAt(s, 0) then s[3..] else s
  }

  /**
   * `s` without the match of the pattern `````?\s*$`: three or four
   * backticks at the end, before any trailing whitespace, and that
   * whitespace. The leftmost match is taken, so four backticks go when
   * there are four.
   */
  function StripClosingFence(s: string): string {
    var e := |s| - SpaceBefore(s, |s|);
    if e >= 4 && FenceAt(s, e - 4) && s[e - 1] == '`' then s[..e - 4]
    else if e >= 3 && FenceAt(s, e - 3) then s[..e - 3]
    else s
  }

  /** `sanitizeHtmlResponse(raw)`, without the `sourceMappingURL` clean-up. */
  function SanitizeHtmlResponse(raw: string): (r: string)
    ensures r == [] || (!IsWhitespace(r[0]) && !IsWhitespace(r[|r| - 1]))
  {
    Trim(StripClosingFence(StripBackticks(StripOpeningFence(Trim(raw)))))
  }

  /** Trailing whitespace does not survive `trim`. */
  lemma TrimDropsTrailingSpace(body: string, tail: string)
    requires body == [] || (!IsWhitespace(body[0]) && !IsWhitespace(body[|body| - 1]))
    requires forall i | 0 <= i < |tail| :: IsWhitespace(tail[i])
    ensures Trim(body + tail) == body
  {
    var s := body + tail;
    if body == [] {
      assert s == tail;
      assert TrimStart(s) == [];
    } else {
      assert TrimStart(s) == s;
      TrimEndOfSpace(body, tail);
    }
  }

  /** `TrimEnd` removes exactly a whitespace tail from a body that does not end in whitespace. */
  lemma {:induction false} TrimEndOfSpace(body: string, tail: string)
    requires body == [] || !IsWhitespace(body[|body| - 1])
    requires forall i | 0 <= i < |tail| :: IsWhitespace(tail[i])
    ensures TrimEnd(body + tail) == body
  {
    if tail == [] {
      assert body + tail == body;
    } else {
      var n := |tail| - 1;
      assert (body + tail)[..|body + tail| - 1] == body + tail[..n];
      TrimEndOfSpace(body, tail[..n]);
    }
  }

  /** A page the model wraps in a ```` ```html ```` fence comes back as it was. */
  lemma HtmlFenceRoundTrip(body: string)
    requires body == [] || (!IsWhitespace(body[0]) && !IsWhitespace(body[|body| - 1]))
    requires body == [] || (body[0] != '`' && body[|body| - 1] != '`')
    ensures SanitizeHtmlResponse("```html\n" + body + "\n```") == body
  {
    if body == [] {
      EmptyFenceRoundTrip();
    } else {
      PageFenceRoundTrip(body);
    }
  }

  /** An empty fence gives the empty page. */
  lemma EmptyFenceRoundTrip()
    ensures SanitizeHtmlResponse("```html\n" + [] + "\n```") == []
  {
    var raw := "```html\n" + [] + "\n```";
    SanitizeOfTrimmed(raw);
    OpeningOfWrapped([]);
    assert StripBackticks("```") == [];
    assert StripClosingFence([]) == [];
  }

  /** A non-empty page comes out of its fence unchanged. */
  lemma PageFenceRoundTrip(body: string)
    requires body != [] && !IsWhitespace(body[0]) && !IsWhitespace(body[|body| - 1])
    requires body[0] != '`' && body[|body| - 1] != '`'
    ensures SanitizeHtmlResponse("```html\n" + body + "\n```") == body
  {
    var raw := "```html\n" + body + "\n```";
    SanitizeOfTrimmed(raw);
    OpeningOfWrapped(body);
    var inner := body + "\n```";
    assert StripBackticks(inner) == inner;
    ClosingOfWrapped(body);
    TrimDropsTrailingSpace(body, "\n");
  }

  /** An answer without surrounding whitespace skips the first `trim`. */
  lemma SanitizeOfTrimmed(raw: string)
    requires raw != [] && !IsWhitespace(raw[0]) && !IsWhitespace(raw[|raw| - 1])
    ensures SanitizeHtmlResponse(raw) == Trim(StripClosingFence(StripBackticks(StripOpeningFence(raw))))
  {
    TrimOfTrimmed(raw);
  }

  /** The opening fence of a wrapped page ends where the page starts. */
  lemma OpeningOfWrapped(body: string)
    requires body == [] || !IsWhitespace(body[0])
    ensures StripOpeningFence("```html\n" + body + "\n```") == if body == [] then "```" else body + "\n```"
  {
    var raw := "```html\n" + body + "\n```";
    assert FenceAt(raw, 0) && raw[3] == 'h';
    assert SpaceAfter(raw, 3) == 0;
    assert HtmlWordAt(raw, 3);
    if body == [] {
      assert SpaceAfter(raw, 9) == 0;
      assert SpaceAfter(raw, 7) == 2;
      assert raw[9..] == "```";
    } else {
      assert raw[8] == body[0];
      assert SpaceAfter(raw, 8) == 0;
      assert SpaceAfter(raw, 7) == 1;
      assert raw[8..] == body + "\n```";
    }
  }

  /** The closing fence of a wrapped page goes, and the line break before it stays. */
  lemma ClosingOfWrapped(body: string)
    requires body != [] && body[|body| - 1] != '`'
    ensures StripClosingFence(body + "\n```") == body + "\n"
  {
    var inner := body + "\n```";
    assert SpaceBefore(inner, |inner|) == 0;
    assert inner[|inner| - 4] == '\n';
    assert inner[..|inner| - 3] == body + "\n";
  }

  /** An answer that neither starts nor ends with three backticks only loses its surrounding whitespace. */
  lemma UnfencedPassesThrough(raw: string)
    requires !FenceAt(Trim(raw), 0) && !FenceAt(Trim(raw), |Trim(raw)| - 3)
    ensures SanitizeHtmlResponse(raw) == Trim(raw)
  {
    var t := Trim(raw);
    assert StripOpeningFence(t) == t;
    assert StripBackticks(t) == t;
    assert SpaceBefore(t, |t|) == 0;
    assert StripClosingFence(t) == t;
    TrimOfTrimmed(t);
  }

  // ---------------------------------------------------------------------------
  // History

  /** One generated page: `{ html, timestamp, prompt }`, each member possibly absent. */
  datatype Version = Version(html: Option<string>, timestamp: Option<int>, prompt: Option<string>)

  /** A prompt and the pages generated from it and its improvements, oldest first. */
  datatype HistoryItem = HistoryItem(prompt: Option<string>, versions: seq<Version>)

  /** An element of the stored history list, as `loadHistory` tells them apart. */
  datatype StoredItem =
    | NullItem                                                        // `null`: reading `prompt` throws
    | Legacy(prompt: Option<string>, html: Option<string>, timestamp: Option<int>)  // no `versions`
    | Current(item: HistoryItem)                                      // has `versions`

  /** What `localStorage.getItem(HISTORY_KEY)` and `JSON.parse` yield. */
  datatype Stored = Absent | Unparsable | NotAList | Items(items: seq<StoredItem>)

  /** How many items the history keeps. */
  const HistoryLimit: nat := 10

  /** A stored item as a history item; a legacy page becomes the single version of its prompt. */
  function Migrate(it: StoredItem): (r: HistoryItem)
    requires !it.NullItem?
    ensures it.Current? ==> r == it.item
    ensures it.Legacy? ==> r.prompt == it.prompt && r.versions == [Version(it.html, it.timestamp, None)]
  {
    match it
    case Current(item) => item
    case Legacy(prompt, html, timestamp) => HistoryItem(prompt, [Version(html, timestamp, None)])
  }

  /**
   * The history after `loadHistory`: the stored list, migrated, when it is
   * one and has no `null` element (which makes the migration throw);
   * otherwise the history held before.
   */
  function Loaded(current: seq<HistoryItem>, stored: Stored): (r: seq<HistoryItem>)
    ensures stored.Items? && (forall i | 0 <= i < |stored.items| :: !stored.items[i].NullItem?) ==>
      |r| == |stored.items| && forall i | 0 <= i < |r| :: r[i] == Migrate(stored.items[i])
    ensures !(stored.Items? && (forall i | 0 <= i < |stored.items| :: !stored.items[i].NullItem?)) ==> r == current
  {
    if stored.Items? && forall i | 0 <= i < |stored.items| :: !stored.items[i].NullItem? then
      seq(|stored.items|, i requires 0 <= i < |stored.items| => Migrate(stored.items[i]))
    else current
  }

  /** What `persistHistory` writes: `JSON.stringify(history)`. */
  function Persisted(history: seq<HistoryItem>): (s: Stored)
    ensures s.Items? && |s.items| == |history|
  {
    Items(seq(|history|, i requires 0 <= i < |history| => Current(history[i])))
  }

  /** Loading what was persisted gives back the persisted history. */
  lemma LoadPersisted(current: seq<HistoryItem>, history: seq<HistoryItem>)
    ensures Loaded(current, Persisted(history)) == history
  {
  }

  /** The history after `saveHistory(item)`: the item in front, at most ten kept. */
  function Saved(history: seq<HistoryItem>, item: HistoryItem): (r: seq<HistoryItem>)
    ensures |r| == if |history| < HistoryLimit then |history| + 1 else HistoryLimit
    ensures r[0] == item
    ensures forall i | 1 <= i < |r| :: r[i] == history[i - 1]
  {
    var pushed := [item] + history;
    if |pushed| <= HistoryLimit then pushed else pushed[..HistoryLimit]
  }

  /** The history after `addVersionToHistory(idx, version)`. */
  function WithVersion(history: seq<HistoryItem>, idx: int, version: Version): (r: seq<HistoryItem>)
    ensures |r| == |history|
    ensures forall j | 0 <= j < |history| && j != idx :: r[j] == history[j]
    ensures 0 <= idx < |history| ==>
      r[idx].prompt == history[idx].prompt && r[idx].versions == history[idx].versions + [version]
  {
    if idx < 0 || idx >= |history| then history
    else history[idx := history[idx].(versions := history[idx].versions + [version])]
  }

  /** The history after `removeHistory(idx)`. */
  function Removed(history: seq<HistoryItem>, idx: int): (r: seq<HistoryItem>)
    ensures !(0 <= idx < |history|) ==> r == history
    ensures 0 <= idx < |history| ==>
      |r| == |history| - 1
      && (forall j | 0 <= j < idx :: r[j] == history[j])
      && (forall j | idx <= j < |r| :: r[j] == history[j + 1])
  {
    if idx < 0 || idx >= |history| then history
    else history[..idx] + history[idx + 1..]
  }

  /** Removing the item just saved undoes the save, unless the save pushed the oldest item out. */
  lemma RemoveUndoesSave(history: seq<HistoryItem>, item: HistoryItem)
    requires |history| < HistoryLimit
    ensures Removed(Saved(history, item), 0) == history
  {
  }

  // ---------------------------------------------------------------------------
  // The component

  /** `VisualizationState` */
  datatype VisualizationState = Idle | Generating | Displaying | Error

  /**
   * The fields of the component that its operations read and write: the
   * page on display, the prompts that produced it, the history and the
   * history item being worked on.
   */
  datatype Session = Session(
    state: VisualizationState,
    lastGeneratedCode: Option<string>,
    originalPrompt: Option<string>,
    improvementPrompts: seq<string>,
    history: seq<HistoryItem>,
    activeHistoryIndex: Option<int>)

  /** The state of a freshly constructed component, before its history is loaded. */
  const Fresh := Session(Idle, None, None, [], [], None)

  /** The page generated from the AI's `reply`, or `None` when the request failed or the page is empty. */
  function GeneratedHtml(reply: Option<string>): (r: Option<string>)
    ensures r.Some? ==> reply.Some? && r.value == SanitizeHtmlResponse(reply.value) && r.value != []
    ensures r.None? ==> reply.None? || SanitizeHtmlResponse(reply.value) == []
  {
    match reply
    case None => None
    case Some(text) =>
      var html := SanitizeHtmlResponse(text);
      if Trim(html) == [] then None else Some(html)
  }

  /** The prompt a new history item is saved under: `originalPrompt || message`. */
  function ItemPrompt(originalPrompt: Option<string>, message: string): string {
    if originalPrompt.Some? && originalPrompt.value != "" then originalPrompt.value else message
  }

  /** A new prompt refines the page on display exactly when one was generated and is shown. */
  predicate IsImprovement(s: Session) {
    s.lastGeneratedCode.Some? && s.state == Displaying
  }

  /**
   * `renderHistoryList()` reads the prompt of every item, so it lists the
   * history exactly when no item lacks one; otherwise it throws.
   */
  predicate Listable(history: seq<HistoryItem>) {
    forall i | 0 <= i < |history| :: history[i].prompt.Some?
  }

  /**
   * The session after `generateVisualization()` for the text `input` of the
   * prompt box, with `page` the sanitised answer of the chat completion
   * (`None` when it rejects or the page is empty; see `GeneratedHtml`) and
   * `now` the clock. Once the page is filed in the history, the history is
   * listed; when that throws the error state follows, with the page and the
   * history already updated.
   */
  function Generate(s: Session, input: string, page: Option<string>, now: int): Session {
    var message := Trim(input);
    if message == [] then s
    else
      var improvement := IsImprovement(s);
      var prompted := Prompted(s, message);
      match page
      case None => prompted.(state := Error)
      case Some(html) =>
        var filed := Filed(prompted, improvement, message, html, now);
        filed.(state := if Listable(filed.history) then Displaying else Error)
  }

  /**
   * Session `s` with prompt `message` recorded: appended to the improvement
   * prompts of a page on display, or else starting a new original prompt.
   */
  function Prompted(s: Session, message: string): Session {
    if IsImprovement(s) then s.(improvementPrompts := s.improvementPrompts + [message])
    else s.(originalPrompt := Some(message), improvementPrompts := [])
  }

  /**
   * Session `s` with page `html` kept as the last generated code and filed
   * in the history: as a new version of the active item for an
   * `improvement` with an active item, otherwise as a new item in front,
   * which becomes the active one.
   */
  function Filed(s: Session, improvement: bool, message: string, html: string, now: int): Session {
    if improvement && s.activeHistoryIndex.Some? then
      s.(lastGeneratedCode := Some(html),
        history := WithVersion(s.history, s.activeHistoryIndex.value, Version(Some(html), Some(now), Some(message))))
    else
      var p := ItemPrompt(s.originalPrompt, message);
      s.(lastGeneratedCode := Some(html),
        history := Saved(s.history, HistoryItem(Some(p), [Version(Some(html), Some(now), Some(p))])),
        activeHistoryIndex := Some(0))
  }

  /** `prompts.filter(Boolean)` */
  function NonEmpty(prompts: seq<string>): (r: seq<string>)
    ensures forall i | 0 <= i < |r| :: r[i] != [] && r[i] in prompts
  {
    if |prompts| == 0 then []
    else
      var front := NonEmpty(prompts[..|prompts| - 1]);
      var last := prompts[|prompts| - 1];
      assert forall x | x in prompts[..|prompts| - 1] :: x in prompts;
      if last == [] then front else front + [last]
  }

  /** The prompts the summary lists: `[originalPrompt, ...improvementPrompts].filter(Boolean)`. */
  function PromptTrail(s: Session): seq<string> {
    NonEmpty((if s.originalPrompt.Some? then [s.originalPrompt.value] else []) + s.improvementPrompts)
  }

  /** A blank prompt changes nothing. */
  lemma BlankPromptIgnored(s: Session, input: string, page: Option<string>, now: int)
    requires Trim(input) == []
    ensures Generate(s, input, page, now) == s
  {
  }

  /**
   * An improvement adds its prompt to the end of the trail; any other prompt
   * starts a new trail holding just itself. This holds whether or not the
   * AI answers.
   */
  lemma PromptTrailOfGenerate(s: Session, input: string, page: Option<string>, now: int)
    requires Trim(input) != []
    ensures IsImprovement(s) ==> PromptTrail(Generate(s, input, page, now)) == PromptTrail(s) + [Trim(input)]
    ensures !IsImprovement(s) ==> PromptTrail(Generate(s, input, page, now)) == [Trim(input)]
  {
    var r := Generate(s, input, page, now);
    var m := Trim(input);
    PromptsOfGenerate(s, input, page, now);
    var xs := (if s.originalPrompt.Some? then [s.originalPrompt.value] else []) + s.improvementPrompts;
    if IsImprovement(s) {
      assert (if r.originalPrompt.Some? then [r.originalPrompt.value] else []) + r.improvementPrompts == xs + [m];
      NonEmptyAppend(xs, m);
    } else {
      assert (if r.originalPrompt.Some? then [r.originalPrompt.value] else []) + r.improvementPrompts == [] + [m];
      NonEmptyAppend([], m);
    }
  }

  /** The prompt fields after a non-blank prompt, whatever the reply. */
  lemma PromptsOfGenerate(s: Session, input: string, page: Option<string>, now: int)
    requires Trim(input) != []
    ensures IsImprovement(s) ==>
      Generate(s, input, page, now).originalPrompt == s.originalPrompt
      && Generate(s, input, page, now).improvementPrompts == s.improvementPrompts + [Trim(input)]
    ensures !IsImprovement(s) ==>
      Generate(s, input, page, now).originalPrompt == Some(Trim(input))
      && Generate(s, input, page, now).improvementPrompts == []
  {
  }

  /** Filtering keeps a non-empty prompt added at the end. */
  lemma NonEmptyAppend(xs: seq<string>, m: string)
    requires m != []
    ensures NonEmpty(xs + [m]) == NonEmpty(xs) + [m]
  {
    assert (xs + [m])[..|xs|] == xs;
  }

  /** A failed or empty reply leaves the error state, and the page and the history as they were. */
  lemma FailedReplyKeepsPage(s: Session, input: string, page: Option<string>, now: int)
    requires Trim(input) != [] && page.None?
    ensures var r := Generate(s, input, page, now);
      r.state == Error && r.lastGeneratedCode == s.lastGeneratedCode
      && r.history == s.history && r.activeHistoryIndex == s.activeHistoryIndex
  {
  }

  /** The active index is absent or names an item of the history. */
  predicate ActiveInRange(s: Session) {
    s.activeHistoryIndex.None? || 0 <= s.activeHistoryIndex.value < |s.history|
  }

  /** The newest version of history item `idx`. */
  function LatestVersion(s: Session, idx: nat): Option<Version>
    requires idx < |s.history|
  {
    var vs := s.history[idx].versions;
    if vs == [] then None else Some(vs[|vs| - 1])
  }

  /**
   * When the active index names an item, a generated page is recorded as
   * the newest version of the active history item, stamped `now`, which
   * afterwards still names an item; it is displayed exactly when the
   * history can then be listed, and otherwise the error state follows.
   */
  lemma PageRecorded(s: Session, input: string, page: Option<string>, now: int)
    requires Trim(input) != [] && page.Some? && ActiveInRange(s)
    ensures var r := Generate(s, input, page, now);
      && (r.state == Displaying <==> Listable(r.history))
      && (r.state == Error <==> !Listable(r.history))
      && r.lastGeneratedCode == page
      && ActiveInRange(r) && r.activeHistoryIndex.Some?
      && LatestVersion(r, r.activeHistoryIndex.value).Some?
      && LatestVersion(r, r.activeHistoryIndex.value).value.html == page
      && LatestVersion(r, r.activeHistoryIndex.value).value.timestamp == Some(now)
  {
  }

  /**
   * A history whose items all have a prompt keeps that under generating,
   * so a generated page is then always displayed.
   */
  lemma ListableHistoryDisplays(s: Session, input: string, page: Option<string>, now: int)
    requires Listable(s.history) && Trim(input) != [] && page.Some?
    ensures var r := Generate(s, input, page, now);
      Listable(r.history) && r.state == Displaying
  {
  }

  /**
   * An improvement of a page whose history item has no prompt (a legacy
   * item stored without one) records the new version and then fails.
   */
  lemma PromptlessItemFailsImprovement(versions: seq<Version>, code: string, prompt: string, input: string, page: string, now: int)
    requires Trim(input) != []
    ensures var s := Session(Displaying, Some(code), Some(prompt), [], [HistoryItem(None, versions)], Some(0));
      var r := Generate(s, input, Some(page), now);
      && r.state == Error && r.lastGeneratedCode == Some(page)
      && r.history == [HistoryItem(None, versions + [Version(Some(page), Some(now), Some(Trim(input)))])]
  {
  }

  /**
   * The component `initialize()` leaves after loading `stored`, or `None`
   * when listing the loaded history throws, which makes the constructor throw.
   */
  function Initialized(stored: Stored): (r: Option<Session>)
    ensures r.Some? <==> Listable(Loaded([], stored))
    ensures r.Some? ==> r.value.state == Idle && r.value.history == Loaded([], stored)
  {
    var history := Loaded([], stored);
    if Listable(history) then Some(Fresh.(history := history)) else None
  }

  /** A persisted history whose items all have a prompt initialises the component with that history. */
  lemma PersistedListableInitializes(history: seq<HistoryItem>)
    requires Listable(history)
    ensures Initialized(Persisted(history)) == Some(Fresh.(history := history))
  {
    LoadPersisted([], history);
  }

  /** A stored legacy item without a prompt makes initialising throw. */
  lemma PromptlessLegacyFailsInitialization(items: seq<StoredItem>, i: nat, html: Option<string>, timestamp: Option<int>)
    requires i < |items| && items[i] == Legacy(None, html, timestamp)
    requires forall j | 0 <= j < |items| :: !items[j].NullItem?
    ensures Initialized(Items(items)).None?
  {
    assert Loaded([], Items(items))[i].prompt.None?;
  }

  /** `clearVisualization()`: back to a fresh start; the history stays. */
  function Cleared(s: Session): (r: Session)
    ensures r == Fresh.(history := s.history)
  {
    s.(state := Idle, lastGeneratedCode := None, activeHistoryIndex := None, originalPrompt := None, improvementPrompts := [])
  }

  /** `removeHistory(idx)` as written: the item goes, the active index stays as it was. */
  function RemovedAsWritten(s: Session, idx: int): Session
  {
    s.(history := Removed(s.history, idx))
  }

  /**
   * `removeHistory(idx)` with the active index kept on its item: cleared
   * when the active item itself goes, moved down when an earlier one does.
   */
  function RemovedTracking(s: Session, idx: int): Session {
    if idx < 0 || idx >= |s.history| then s
    else
      var active :=
        match s.activeHistoryIndex
        case None => None
        case Some(a) => if a == idx then None else if a > idx then Some(a - 1) else Some(a);
      s.(history := Removed(s.history, idx), activeHistoryIndex := active)
  }

  /**
   * After the corrected removal the active index names the same item as
   * before (or nothing, when that item was removed), and stays in range.
   */
  lemma RemovalKeepsActiveItem(s: Session, idx: int)
    requires ActiveInRange(s)
    ensures var r := RemovedTracking(s, idx);
      && ActiveInRange(r)
      && (r.activeHistoryIndex.Some? ==> r.history[r.activeHistoryIndex.value] == s.history[s.activeHistoryIndex.value])
      && (r.activeHistoryIndex.None? ==> s.activeHistoryIndex.None? || s.activeHistoryIndex == Some(idx))
  {
  }

  /** A session showing page `code` of item `a`, with item `b` after it in the history. */
  function TwoItemSession(a: HistoryItem, b: HistoryItem, code: string): Session {
    Session(Displaying, Some(code), a.prompt, [], [a, b], Some(0))
  }

  /**
   * As written, removing the active item and then asking for an improvement
   * files the improved page as a version of a different item: here the one
   * that moved into the removed item's place.
   */
  lemma RemovedActiveMisfilesImprovement(a: HistoryItem, b: HistoryItem, code: string, input: string, page: string, now: int)
    requires Trim(input) != []
    ensures var r := Generate(RemovedAsWritten(TwoItemSession(a, b, code), 0), input, Some(page), now);
      && r.history == [b.(versions := b.versions + [Version(Some(page), Some(now), Some(Trim(input)))])]
      && r.activeHistoryIndex == Some(0)
  {
  }

  /**
   * With the corrected removal the same steps start a new history item in
   * front, and the item that moved up keeps its versions.
   */
  lemma RemovedActiveStartsNewItem(a: HistoryItem, b: HistoryItem, code: string, input: string, page: string, now: int)
    requires Trim(input) != []
    ensures var r := Generate(RemovedTracking(TwoItemSession(a, b, code), 0), input, Some(page), now);
      && |r.history| == 2 && r.history[1] == b && r.activeHistoryIndex == Some(0)
      && r.history[0].versions == [Version(Some(page), Some(now), r.history[0].prompt)]
  {
  }

  /** A session showing page `code` of item `a`, the only item of the history. */
  function OneItemSession(a: HistoryItem, code: string): Session {
    Session(Displaying, Some(code), a.prompt, [], [a], Some(0))
  }

  /**
   * As written, removing the only item, which is the active one, and then
   * asking for an improvement displays the improved page but files it
   * nowhere: the stale index names no item, so no version is added.
   */
  lemma RemovedOnlyItemLosesImprovement(a: HistoryItem, code: string, input: string, page: string, now: int)
    requires Trim(input) != []
    ensures var r := Generate(RemovedAsWritten(OneItemSession(a, code), 0), input, Some(page), now);
      && r.history == [] && r.activeHistoryIndex == Some(0)
      && r.state == Displaying && r.lastGeneratedCode == Some(page)
  {
  }

  /**
   * With the corrected removal the same steps file the page as the one
   * version of a new item, which becomes the active one.
   */
  lemma RemovedOnlyItemKeepsImprovement(a: HistoryItem, code: string, input: string, page: string, now: int)
    requires Trim(input) != []
    ensures var r := Generate(RemovedTracking(OneItemSession(a, code), 0), input, Some(page), now);
      && |r.history| == 1 && r.activeHistoryIndex == Some(0)
      && r.history[0].versions == [Version(Some(page), Some(now), r.history[0].prompt)]
      && r.state == Displaying
  {
  }

  /** `clearHistory()` */
  function HistoryCleared(s: Session): (r: Session)
    ensures r == Fresh
  {
    Cleared(s.(history := [], activeHistoryIndex := None))
  }

  /** Generating keeps the active index in range. */
  lemma GenerateKeepsActiveInRange(s: Session, input: string, page: Option<string>, now: int)
    requires ActiveInRange(s)
    ensures ActiveInRange(Generate(s, input, page, now))
  {
    var m := Trim(input);
    if m != [] && page.Some? {
      var r := Generate(s, input, page, now);
      if IsImprovement(s) && s.activeHistoryIndex.Some? {
        assert r.activeHistoryIndex == s.activeHistoryIndex;
        assert |r.history| == |s.history|;
      } else {
        assert r.activeHistoryIndex == Some(0) && |r.history| >= 1;
      }
    }
  }

  /** Removing, clearing and loading keep the active index in range. */
  lemma OthersKeepActiveInRange(s: Session, idx: int, stored: Stored)
    requires ActiveInRange(s)
    ensures ActiveInRange(RemovedTracking(s, idx))
    ensures ActiveInRange(Cleared(s)) && ActiveInRange(HistoryCleared(s))
    ensures ActiveInRange(Fresh.(history := Loaded([], stored)))
  {
  }

  class AIDataVisualization {
    var state: VisualizationState
    var lastGeneratedCode: Option<string>
    var originalPrompt: Option<string>
    var improvementPrompts: seq<string>
    var history: seq<HistoryItem>
    var activeHistoryIndex: Option<int>

    /** The component's fields as a `Session`. */
    function Snapshot(): Session
      reads this
    {
      Session(state, lastGeneratedCode, originalPrompt, improvementPrompts, history, activeHistoryIndex)
    }

    /**
     * A new component, with its history loaded from `stored`; it is the one
     * `initialize()` leaves whenever that does not throw.
     */
    constructor(stored: Stored)
      ensures Snapshot() == Fresh.(history := Loaded([], stored))
      ensures Initialized(stored).Some? ==> Initialized(stored) == Some(Snapshot())
    {
      state := Idle;
      lastGeneratedCode := None;
      originalPrompt := None;
      improvementPrompts := [];
      history := [];
      activeHistoryIndex := None;
      new;
      LoadHistory(stored);
    }

    /** `loadHistory()` */
    method LoadHistory(stored: Stored)
      modifies this
      ensures Snapshot() == old(Snapshot()).(history := Loaded(old(history), stored))
    {
      if stored.Items? {
        var items := stored.items;
        var migrated: seq<HistoryItem> := [];
        var i := 0;
        while i < |items|
          invariant 0 <= i <= |items|
          invariant forall j | 0 <= j < i :: !items[j].NullItem?
          invariant |migrated| == i && forall j | 0 <= j < i :: migrated[j] == Migrate(items[j])
        {
          if items[i].NullItem? {
            return;
          }
          migrated := migrated + [Migrate(items[i])];
          i := i + 1;
        }
        history := migrated;
      }
    }

    /** `saveHistory(item)` */
    method SaveHistory(item: HistoryItem)
      modifies this
      ensures Snapshot() == old(Snapshot()).(history := Saved(old(history), item))
    {
      history := [item] + history;
      if |history| > HistoryLimit {
        history := history[..HistoryLimit];
      }
    }

    /** `addVersionToHistory(idx, version)` */
    method AddVersionToHistory(idx: int, version: Version)
      modifies this
      ensures Snapshot() == old(Snapshot()).(history := WithVersion(old(history), idx, version))
    {
      if idx < 0 || idx >= |history| {
        return;
      }
      var item := history[idx];
      history := history[idx := item.(versions := item.versions + [version])];
    }

    /** `removeHistory(idx)`, keeping the active index on its item. */
    method RemoveHistory(idx: int)
      modifies this
      ensures Snapshot() == RemovedTracking(old(Snapshot()), idx)
    {
      if idx < 0 || idx >= |history| {
        return;
      }
      history := history[..idx] + history[idx + 1..];
      if activeHistoryIndex == Some(idx) {
        activeHistoryIndex := None;
      } else if activeHistoryIndex.Some? && activeHistoryIndex.value > idx {
        activeHistoryIndex := Some(activeHistoryIndex.value - 1);
      }
    }

    /** `clearVisualization()` */
    method ClearVisualization()
      modifies this
      ensures Snapshot() == Cleared(old(Snapshot()))
    {
      state := Idle;
      lastGeneratedCode := None;
      activeHistoryIndex := None;
      originalPrompt := None;
      improvementPrompts := [];
    }

    /** `clearHistory()` */
    method ClearHistory()
      modifies this
      ensures Snapshot() == HistoryCleared(old(Snapshot()))
    {
      history := [];
      activeHistoryIndex := None;
      ClearVisualization();
    }

    /**
     * `generateVisualization()` for the text `input` of the prompt box, with
     * `reply` the chat completion (`None` when it rejects) and `now` the clock.
     * The sanitised page depends on `reply` alone, so it is computed first and
     * the session steps of `ShowPage` follow.
     */
    method GenerateVisualization(input: string, reply: Option<string>, now: int)
      modifies this
      ensures Snapshot() == Generate(old(Snapshot()), input, GeneratedHtml(reply), now)
    {
      var page := GeneratedHtml(reply);
      ShowPage(input, page, now);
    }

    /**
     * The steps of `generateVisualization()` around the request: record the
     * prompt, then show `page`, file it in the history and list the history,
     * or fall into the error state when there is no page or listing throws.
     */
    method ShowPage(input: string, page: Option<string>, now: int)
      modifies this
      ensures Snapshot() == Generate(old(Snapshot()), input, page, now)
    {
      ghost var s0 := Snapshot();
      var message := Trim(input);
      if message == [] {
        return;
      }
      var isImprovement := RecordPrompt(message);
      ghost var prompted := Snapshot();
      state := Generating;
      if page.None? {
        state := Error;
        assert Snapshot() == prompted.(state := Error);
        return;
      }
      FilePage(isImprovement, message, page.value, now);
      assert Snapshot() == Filed(prompted, isImprovement, message, page.value, now).(state := Generating);
      var listed := RenderHistoryList();
      state := if listed then Displaying else Error;
    }

    /** The steps of `generateVisualization()` that tell an improvement and record its prompt. */
    method RecordPrompt(message: string) returns (isImprovement: bool)
      modifies this
      ensures isImprovement == IsImprovement(old(Snapshot()))
      ensures Snapshot() == Prompted(old(Snapshot()), message)
    {
      isImprovement := lastGeneratedCode.Some? && state == Displaying;
      if isImprovement {
        improvementPrompts := improvementPrompts + [message];
      } else {
        originalPrompt := Some(message);
        improvementPrompts := [];
      }
    }

    /** The steps of `generateVisualization()` that keep the page and file it in the history. */
    method FilePage(isImprovement: bool, message: string, htmlResponse: string, now: int)
      modifies this
      ensures Snapshot() == Filed(old(Snapshot()), isImprovement, message, htmlResponse, now)
    {
      lastGeneratedCode := Some(htmlResponse);
      if isImprovement && activeHistoryIndex.Some? {
        AddVersionToHistory(activeHistoryIndex.value, Version(Some(htmlResponse), Some(now), Some(message)));
      } else {
        var p := ItemPrompt(originalPrompt, message);
        SaveHistory(HistoryItem(Some(p), [Version(Some(htmlResponse), Some(now), Some(p))]));
        activeHistoryIndex := Some(0);
      }
    }

    /** `renderHistoryList()`: `false` where it throws on an item without a prompt. */
    method RenderHistoryList() returns (listed: bool)
      ensures listed <==> Listable(history)
    {
      var i := 0;
      while i < |history|
        invariant 0 <= i <= |history|
        invariant forall j | 0 <= j < i :: history[j].prompt.Some?
      {
        if history[i].prompt.None? {
          return false;
        }
        i := i + 1;
      }
      return true;
    }
  }
}
