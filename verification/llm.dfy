/**
 * The answer generator: which provider answers (from configuration values),
 * how a provider's free text is cut into the answer's sections, how fenced
 * model output is unwrapped, and the deterministic offline analysis. The
 * remote calls themselves are parameters: a function from the prompt parts
 * to the text the service produced.
 */
module Llm {
  import opened Wrappers
  import opened Text
  import opened CodeUnits

  /** An answer field: a string, or a list of strings (`sources`). */
  datatype Value = Str(s: string) | Strs(items: seq<string>)

  /**
   * The keys of an answer dictionary: the ones the generator writes, by
   * name, and any other key a decoded JSON object may carry.
   */
  datatype Key = ComponentSummary | CallFlow | HotspotsKey | Sources | AiAnalysis | ProviderKey | Note | Other(name: string)

  /** The key as it is spelled in the dictionary. */
  function KeyName(k: Key): string {
    match k
    case ComponentSummary => "component_summary"
    case CallFlow => "call_flow"
    case HotspotsKey => "hotspots"
    case Sources => "sources"
    case AiAnalysis => "ai_analysis"
    case ProviderKey => "provider"
    case Note => "note"
    case Other(name) => name
  }

  /** The answer dictionary the callers receive. */
  type Answer = map<Key, Value>

  /** Python's `a or b` on two strings. */
  function Or(a: string, b: string): string {
    if a != "" then a else b
  }

  // ---------------------------------------------------------------------
  // Provider selection
  // ---------------------------------------------------------------------

  /** `os.environ.get(name)`. */
  function EnvGet(env: map<string, string>, name: string): Option<string> {
    if name in env then Some(env[name]) else None
  }

  /** `os.environ.get(name, default)`. */
  function EnvOr(env: map<string, string>, name: string, default: string): string {
    if name in env then env[name] else default
  }

  /**
   * The provider `__init__` settles on, from the configured name and
   * whether a Hugging Face token and an OpenAI key are set.
   */
  function ChooseProvider(configured: string, hfToken: bool, openaiKey: bool): string {
    var p := Lower(configured);
    if p == "huggingface" then (if hfToken then "huggingface" else "none")
    else if p == "openai" then (if openaiKey then "openai" else "none")
    else "none"
  }

  /**
   * The provider is always one of the three names; a remote provider is
   * kept exactly when it was configured (in any letter case) and its
   * credential is set; anything else means offline analysis.
   */
  lemma ProviderChoice(configured: string, hfToken: bool, openaiKey: bool)
    ensures var r := ChooseProvider(configured, hfToken, openaiKey);
      && (r == "huggingface" || r == "openai" || r == "none")
      && (r == "huggingface" <==> Lower(configured) == "huggingface" && hfToken)
      && (r == "openai" <==> Lower(configured) == "openai" && openaiKey)
  {
  }

  /** The configured name is compared after lower-casing, so its letter case never matters. */
  lemma ProviderIgnoresCase(configured: string, hfToken: bool, openaiKey: bool)
    ensures ChooseProvider(configured, hfToken, openaiKey) == ChooseProvider(Lower(configured), hfToken, openaiKey)
  {
    LowerIdempotent(configured);
  }

  // ---------------------------------------------------------------------
  // Sections of free text
  // ---------------------------------------------------------------------

  /**
   * `_extract_section`: the text after the first case-insensitive
   * occurrence of the `start` header (and one colon right after it), up to
   * the first `end` header after that point, or at most 500 characters;
   * stripped. `""` when the header is missing, and also when it ends the
   * text, where indexing `text[s_idx]` raises and the bare `except` answers
   * `""`. The search runs on the lower-cased text, which has the same length.
   */
  function ExtractSection(text: string, start: string, end: Option<string>): string {
    Section(text, Lower(text), Lower(start), if end.Some? then Some(Lower(end.value)) else None)
  }

  /** The search for a section in `lower`, the lower-cased `text`, for lower-cased headers. */
  function Section(text: string, lower: string, start: string, end: Option<string>): string
    requires |lower| == |text|
  {
    var found := Find(lower, start, 0);
    if found == -1 || found + |start| >= |text| then ""
    else SectionBody(text, lower, BodyStart(text, |start|, found), end)
  }

  /** Where the body of a section starts, once a header of length `n` was found at `i`. */
  function BodyStart(text: string, n: nat, i: nat): nat
    requires i + n < |text|
  {
    if text[i + n] == ':' then i + n + 1 else i + n
  }

  /** The body from index `b`: up to the first end header at or after `b`, else 500 characters; stripped. */
  function SectionBody(text: string, lower: string, b: nat, end: Option<string>): string
    requires |lower| == |text| && b <= |text|
  {
    if end.Some? && end.value != "" && Find(lower, end.value, b) != -1 then Strip(text[b..Find(lower, end.value, b)])
    else Strip(Slice(text, b, b + 500))
  }

  /** `i` is the first index at or after `from` where `sub` occurs in `s`. */
  predicate FirstAt(s: string, sub: string, from: nat, i: int) {
    from <= i && IsAt(s, sub, i) && forall j :: from <= j < i ==> !IsAt(s, sub, j)
  }

  /** `find` answers the first occurrence. */
  lemma FindFirst(s: string, sub: string, from: nat, i: int)
    requires FirstAt(s, sub, from, i)
    ensures Find(s, sub, from) == i
  {
  }

  /** Whatever the headers, a section body is a piece of the text. */
  lemma SectionBodyInfix(text: string, lower: string, b: nat, end: Option<string>)
    requires |lower| == |text| && b <= |text|
    ensures IsInfix(SectionBody(text, lower, b, end), text)
  {
    if end.Some? && end.value != "" && Find(lower, end.value, b) != -1 {
      var e := Find(lower, end.value, b);
      InfixOfSlice(text, b, e, Strip(text[b..e]));
    } else {
      var hi := if b + 500 < |text| then b + 500 else |text|;
      assert Slice(text, b, b + 500) == text[b..hi];
      InfixOfSlice(text, b, hi, Strip(text[b..hi]));
    }
  }

  /** Whatever the headers, the section is a piece of the text. */
  lemma ExtractSectionInfix(text: string, start: string, end: Option<string>)
    ensures IsInfix(ExtractSection(text, start, end), text)
  {
    var lower := Lower(text);
    var endL := (if end.Some? then Some(Lower(end.value)) else None);
    var found := Find(lower, Lower(start), 0);
    if found == -1 || found + |start| >= |text| {
      assert IsAt(text, "", 0);
    } else {
      SectionBodyInfix(text, lower, BodyStart(text, |start|, found), endL);
    }
  }

  /** Without the start header anywhere (in any letter case) there is no section. */
  lemma ExtractSectionMissing(text: string, start: string, end: Option<string>)
    requires forall i :: !IsAt(Lower(text), Lower(start), i)
    ensures ExtractSection(text, start, end) == ""
  {
  }

  /** A start header that ends the text gives no section (the source's index error, caught). */
  lemma ExtractSectionAtEnd(text: string, start: string, end: Option<string>, i: int)
    requires FirstAt(Lower(text), Lower(start), 0, i) && i + |start| >= |text|
    ensures ExtractSection(text, start, end) == ""
  {
    FindFirst(Lower(text), Lower(start), 0, i);
  }

  /**
   * With the start header first found at `i` and the end header first found
   * at `e` after the body start, the section is the stripped text between.
   */
  lemma ExtractSectionUntil(text: string, start: string, end: string, i: int, e: int)
    requires FirstAt(Lower(text), Lower(start), 0, i) && i + |start| < |text|
    requires end != "" && FirstAt(Lower(text), Lower(end), BodyStart(text, |start|, i), e)
    ensures ExtractSection(text, start, Some(end)) == Strip(text[BodyStart(text, |start|, i)..e])
  {
    SectionFrom(text, start, Some(end), i);
    FindFirst(Lower(text), Lower(end), BodyStart(text, |start|, i), e);
  }

  /**
   * With the start header first found at `i` and no end header (none given,
   * an empty one, or none after the body start), the section is the
   * stripped text of at most 500 characters from the body start.
   */
  lemma ExtractSectionCapped(text: string, start: string, end: Option<string>, i: int)
    requires FirstAt(Lower(text), Lower(start), 0, i) && i + |start| < |text|
    requires end.None? || end.value == "" ||
      forall e :: BodyStart(text, |start|, i) <= e ==> !IsAt(Lower(text), Lower(end.value), e)
    ensures var b := BodyStart(text, |start|, i);
      var r := ExtractSection(text, start, end);
      r == Strip(Slice(text, b, b + 500)) && |r| <= 500
  {
    var b := BodyStart(text, |start|, i);
    SectionFrom(text, start, end, i);
    SectionBodyCapped(text, Lower(text), b, if end.Some? then Some(Lower(end.value)) else None);
  }

  /** Once the start header is first found at `i`, the section is the body from the body start. */
  lemma SectionFrom(text: string, start: string, end: Option<string>, i: int)
    requires FirstAt(Lower(text), Lower(start), 0, i) && i + |start| < |text|
    ensures ExtractSection(text, start, end) == SectionBody(text, Lower(text), BodyStart(text, |start|, i),
      if end.Some? then Some(Lower(end.value)) else None)
  {
    FindFirst(Lower(text), Lower(start), 0, i);
  }

  /** A body without an end header after it is at most 500 characters from `b`, stripped. */
  lemma SectionBodyCapped(text: string, lower: string, b: nat, end: Option<string>)
    requires |lower| == |text| && b <= |text|
    requires end.None? || end.value == "" || forall e :: b <= e ==> !IsAt(lower, end.value, e)
    ensures SectionBody(text, lower, b, end) == Strip(Slice(text, b, b + 500))
    ensures |SectionBody(text, lower, b, end)| <= 500
  {
    if end.Some? && end.value != "" {
      assert Find(lower, end.value, b) == -1;
    }
    assert |Slice(text, b, b + 500)| <= 500;
  }

  /** A piece of a slice is a piece of the whole. */
  lemma InfixOfSlice(text: string, a: nat, b: nat, r: string)
    requires a <= b <= |text| && IsInfix(r, text[a..b])
    ensures IsInfix(r, text)
  {
    var k :| IsAt(text[a..b], r, k);
    forall j | 0 <= j < |r| ensures text[a + k + j] == r[j] {
      assert r[j] == text[a..b][k..k + |r|][j] == text[a..b][k + j];
    }
    assert IsAt(text, r, a + k);
  }

  /** The three sections a provider's free text is cut into, and their headers. */
  const SummaryHeader := "Component Summary"
  const FlowHeader := "Call Flow"
  const PointsHeader := "Key Points"

  /**
   * The summary of a structured answer: its section, or else the first 500
   * characters of the text. Either way a piece of the text, and never empty
   * when the text is not.
   */
  function SummaryField(text: string): (r: string)
    ensures IsInfix(r, text)
    ensures text != "" ==> r != ""
  {
    var section := ExtractSection(text, SummaryHeader, Some(FlowHeader));
    ExtractSectionInfix(text, SummaryHeader, Some(FlowHeader));
    assert IsAt(text, Take(text, 500), 0);
    Or(section, Take(text, 500))
  }

  /** The call flow of a structured answer: its section, or else the first five graph edges. */
  function FlowField(text: string, graph: seq<string>): (r: string)
    ensures IsInfix(r, text) || r == Join(Take(graph, 5), "\n")
    ensures r == "" ==> Join(Take(graph, 5), "\n") == ""
  {
    ExtractSectionInfix(text, FlowHeader, Some(PointsHeader));
    Or(ExtractSection(text, FlowHeader, Some(PointsHeader)), Join(Take(graph, 5), "\n"))
  }

  /** The key points of a structured answer: its section, never empty. */
  function PointsField(text: string): (r: string)
    ensures r != ""
    ensures IsInfix(r, text) || r == "See analysis above."
  {
    ExtractSectionInfix(text, PointsHeader, None);
    Or(ExtractSection(text, PointsHeader, None), "See analysis above.")
  }

  /**
   * `_structure_response`: the six answer fields; an empty section falls
   * back to the first 500 characters of the text, the first five graph
   * edges, or a fixed sentence.
   */
  function StructureResponse(text: string, units: seq<CodeUnit>, graph: seq<string>, provider: string): Answer {
    map[
      ComponentSummary := Str(SummaryField(text)),
      CallFlow := Str(FlowField(text, graph)),
      HotspotsKey := Str(PointsField(text)),
      Sources := Strs(Ids(units)),
      AiAnalysis := Str(text),
      ProviderKey := Str(provider)]
  }

  const StructuredKeys: set<Key> := {ComponentSummary, CallFlow, HotspotsKey, Sources, AiAnalysis, ProviderKey}

  /**
   * A structured answer has exactly the six keys, lists the unit ids in
   * order as its sources, keeps the whole text as `ai_analysis` and names
   * the provider it was given.
   */
  lemma StructureResponseShape(text: string, units: seq<CodeUnit>, graph: seq<string>, provider: string)
    ensures var a := StructureResponse(text, units, graph, provider);
      && a.Keys == StructuredKeys
      && a[Sources] == Strs(Ids(units))
      && a[AiAnalysis] == Str(text)
      && a[ProviderKey] == Str(provider)
  {
    StructuredRecord(SummaryField(text), FlowField(text, graph), PointsField(text), Ids(units), text, provider);
  }

  /** The key set and the fixed fields of the six-field record, whatever the section texts. */
  lemma StructuredRecord(summary: string, flow: string, points: string, ids: seq<string>, text: string, provider: string)
    ensures var a := map[
        ComponentSummary := Str(summary),
        CallFlow := Str(flow),
        HotspotsKey := Str(points),
        Sources := Strs(ids),
        AiAnalysis := Str(text),
        ProviderKey := Str(provider)];
      && a.Keys == StructuredKeys
      && a[Sources] == Strs(ids)
      && a[AiAnalysis] == Str(text)
      && a[ProviderKey] == Str(provider)
  {
  }

  // ---------------------------------------------------------------------
  // Fenced model output
  // ---------------------------------------------------------------------

  const JsonFence := "```json"
  const Fence := "```"

  /**
   * The fence stripping in `_call_openai`: the text between the first
   * "```json" and the next "```", else between the first two "```", else
   * the content unchanged.
   */
  function StripFences(content: string): string {
    if Contains(content, JsonFence) then Split(Split(content, JsonFence)[1], Fence)[0]
    else if Contains(content, Fence) then Split(Split(content, Fence)[1], Fence)[0]
    else content
  }

  /**
   * Cutting at the first opening fence and then at the first fence leaves
   * the text up to the first fence, since an opening fence starts with one.
   */
  lemma FenceInPiece(rest: string, open: string)
    requires |open| >= |Fence| && open[..|Fence|] == Fence
    ensures var h := Split(Split(rest, open)[0], Fence)[0];
      && |h| <= |rest| && rest[..|h|] == h
      && (forall j :: !IsAt(h, Fence, j))
      && (|h| == |rest| || IsAt(rest, Fence, |h|))
  {
    var m := Split(rest, open)[0];
    SplitHead(rest, open);
    SplitHead(m, Fence);
    var h := Split(m, Fence)[0];
    assert rest[..|h|] == m[..|h|];
    if |h| < |m| {
      assert IsAt(m, Fence, |h|);
      assert rest[|h|..|h| + |Fence|] == m[|h|..|h| + |Fence|];
    } else if |m| < |rest| {
      assert IsAt(rest, open, |m|);
      assert rest[|m|..|m| + |Fence|] == rest[|m|..|m| + |open|][..|Fence|];
    }
  }

  /**
   * `r` is the text of `content` from index `from` up to the next fence or
   * the end: a piece starting there that holds no fence and that a fence or
   * the end of the content follows.
   */
  ghost predicate FencedAt(content: string, from: int, r: string) {
    && 0 <= from && from + |r| <= |content| && content[from..from + |r|] == r
    && (forall j :: !IsAt(r, Fence, j))
    && (from + |r| == |content| || IsAt(content, Fence, from + |r|))
  }

  /** A prefix of `content[from..]` that a fence or the end follows, seen in `content` itself. */
  lemma ShiftPiece(content: string, from: nat, r: string)
    requires from <= |content|
    requires |r| <= |content| - from && content[from..][..|r|] == r
    requires forall j :: !IsAt(r, Fence, j)
    requires |r| == |content| - from || IsAt(content[from..], Fence, |r|)
    ensures FencedAt(content, from, r)
  {
    var rest := content[from..];
    assert content[from..from + |r|] == rest[..|r|];
    if |r| < |rest| {
      assert content[from + |r|..from + |r| + |Fence|] == rest[|r|..|r| + |Fence|];
    }
  }

  /** The text after the first occurrence of `open`, up to the next `Fence` or the end. */
  lemma FencedBody(content: string, open: string)
    requires |open| >= |Fence| && open[..|Fence|] == Fence && Contains(content, open)
    ensures FencedAt(content, Find(content, open, 0) + |open|, Split(Split(content, open)[1], Fence)[0])
  {
    var from := Find(content, open, 0) + |open|;
    var rest := content[from..];
    var r := Split(Split(rest, open)[0], Fence)[0];
    assert Split(Split(content, open)[1], Fence)[0] == r by {
      SplitSecond(content, open);
    }
    assert |r| <= |rest| && rest[..|r|] == r && (forall j :: !IsAt(r, Fence, j))
        && (|r| == |rest| || IsAt(rest, Fence, |r|)) by {
      FenceInPiece(rest, open);
    }
    ShiftPiece(content, from, r);
  }

  /** A JSON fence is a fence. */
  lemma JsonFenceIsFence(content: string)
    requires Contains(content, JsonFence)
    ensures Contains(content, Fence)
  {
    var i := Find(content, JsonFence, 0);
    assert content[i..i + 3] == content[i..i + |JsonFence|][..3];
    ContainsAt(content, Fence, i);
  }

  /**
   * Fence stripping keeps what follows the first "```json" (or, failing
   * that, the first "```") up to the next fence or the end, and leaves
   * content without fences alone.
   */
  lemma StripFencesSpec(content: string)
    ensures var r := StripFences(content);
      && (Contains(content, JsonFence) ==> FencedAt(content, Find(content, JsonFence, 0) + |JsonFence|, r))
      && (!Contains(content, JsonFence) && Contains(content, Fence) ==> FencedAt(content, Find(content, Fence, 0) + |Fence|, r))
      && (!Contains(content, Fence) ==> r == content)
  {
    if Contains(content, JsonFence) {
      FencedBody(content, JsonFence);
      JsonFenceIsFence(content);
    } else if Contains(content, Fence) {
      FencedBody(content, Fence);
    }
  }

  // ---------------------------------------------------------------------
  // Offline analysis
  // ---------------------------------------------------------------------

  /** The decorations of the offline answer, character for character as the source spells them. */
  const Bullet := "\U{00E2}\U{20AC}\U{00A2}"
  const Branch := "\U{00E2}\U{201D}\U{201D}\U{00E2}\U{201D}\U{20AC}"
  const FlowIcon := "\U{00F0}\U{0178}\U{201D}\U{201E}"
  const TargetIcon := "\U{00F0}\U{0178}\U{017D}\U{00AF}"
  const Sparkles := "\U{00E2}\U{0153}\U{00A8}"

  /** `u['code'][:100].replace('\n', ' ')`. */
  function Preview(code: string): (r: string)
    ensures |r| <= 100
    ensures forall i :: 0 <= i < |r| ==> r[i] != '\n'
  {
    ReplaceChar(Take(code, 100), '\n', ' ')
  }

  function SummaryLine(u: CodeUnit): string {
    Bullet + " **" + u.name + "** (" + KindName(u.kind) + ")\n  " + Branch + " Code: `" + Preview(u.code) + "...`"
  }

  /** The summary lines: one for each of the first five units. */
  function Summaries(units: seq<CodeUnit>): seq<string> {
    var top := Take(units, 5);
    seq(|top|, i requires 0 <= i < |top| => SummaryLine(top[i]))
  }

  /** One unit's hotspot line: an entry point if its name mentions `main`, else a hub if it calls more than two names. */
  function Hotspot(u: CodeUnit): Option<string> {
    if Contains(Lower(u.name), "main") then Some(Bullet + " " + u.name + " (Entry Point)")
    else if |u.calls| > 2 then Some(Bullet + " " + u.name + " (Hub)")
    else None
  }

  /** The values `f` yields over `xs`, in order, skipping the elements it yields nothing for. */
  function Present<T, U>(xs: seq<T>, f: T -> Option<U>): seq<U>
    decreases |xs|
  {
    if xs == [] then []
    else Present(xs[..|xs| - 1], f) + (match f(xs[|xs| - 1]) case Some(y) => [y] case None => [])
  }

  /** A value is present exactly when some element yields it; there are never more values than elements. */
  lemma {:induction false} PresentMembers<T, U>(xs: seq<T>, f: T -> Option<U>)
    decreases |xs|
    ensures |Present(xs, f)| <= |xs|
    ensures forall y :: y in Present(xs, f) <==> exists i :: 0 <= i < |xs| && f(xs[i]) == Some(y)
  {
    if xs != [] {
      var front := xs[..|xs| - 1];
      PresentMembers(front, f);
      forall y
        ensures y in Present(xs, f) <==> exists i :: 0 <= i < |xs| && f(xs[i]) == Some(y)
      {
        if exists i :: 0 <= i < |front| && f(front[i]) == Some(y) {
          var i :| 0 <= i < |front| && f(front[i]) == Some(y);
          assert xs[i] == front[i];
        }
        if exists i :: 0 <= i < |xs| && f(xs[i]) == Some(y) {
          var i :| 0 <= i < |xs| && f(xs[i]) == Some(y);
          if i < |front| {
            assert front[i] == xs[i];
          }
        }
      }
    }
  }

  /** The hotspot lines of the units, in unit order. */
  function Hotspots(units: seq<CodeUnit>): seq<string> {
    Present(units, Hotspot)
  }

  /** A line is a hotspot exactly when some unit yields it; there are never more than units. */
  lemma HotspotsMembers(units: seq<CodeUnit>)
    ensures |Hotspots(units)| <= |units|
    ensures forall h :: h in Hotspots(units) <==> exists i :: 0 <= i < |units| && Hotspot(units[i]) == Some(h)
  {
    PresentMembers(units, Hotspot);
  }

  /** A unit named like an entry point is reported as one, however many names it calls. */
  lemma EntryPointFirst(u: CodeUnit)
    requires Contains(Lower(u.name), "main")
    ensures Hotspot(u) == Some(Bullet + " " + u.name + " (Entry Point)")
  {
  }

  const FlowTitle := "**" + FlowIcon + " Call Flow**:\n"
  const HotspotsTitle := "**" + TargetIcon + " Key Components**:\n"
  const OfflineNote := Sparkles + " Offline analysis - fast & private!"

  /** The six fields of an offline answer, from its summary lines, the edges, its hotspot lines and the unit ids. */
  function OfflineAnswer(summaries: seq<string>, graph: seq<string>, hotspots: seq<string>, ids: seq<string>): Answer {
    map[
      ComponentSummary := Str(Join(summaries, "\n\n")),
      CallFlow := Str(FlowTitle + (if graph != [] then Join(Take(graph, 5), "\n") else "No calls detected.")),
      HotspotsKey := Str(HotspotsTitle + (if hotspots != [] then Join(Take(hotspots, 5), "\n") else "None detected.")),
      Sources := Strs(ids),
      Note := Str(OfflineNote),
      ProviderKey := Str("Offline Analysis (Enhanced)")]
  }

  /** The answer `_fallback_logic` returns. */
  function Fallback(units: seq<CodeUnit>, graph: seq<string>): Answer {
    if units == [] then
      map[ComponentSummary := Str("No code found."), ProviderKey := Str("Offline Analysis")]
    else
      OfflineAnswer(Summaries(units), graph, Hotspots(units), Ids(units))
  }

  const OfflineKeys: set<Key> := {ComponentSummary, CallFlow, HotspotsKey, Sources, Note, ProviderKey}

  /**
   * The offline answer: two keys for no units; otherwise six keys, the unit
   * ids in order as sources, summaries of the first five units only, the
   * first five edges (or `No calls detected.`) and the first five hotspot
   * lines (or `None detected.`).
   */
  lemma FallbackShape(units: seq<CodeUnit>, graph: seq<string>)
    ensures var a := Fallback(units, graph);
      && (units == [] ==> a.Keys == {ComponentSummary, ProviderKey} && a[ComponentSummary] == Str("No code found.")
                          && a[ProviderKey] == Str("Offline Analysis"))
      && (units != [] ==>
            && a.Keys == OfflineKeys
            && a[Sources] == Strs(Ids(units))
            && a[ProviderKey] == Str("Offline Analysis (Enhanced)")
            && a[ComponentSummary] == Str(Join(Summaries(units), "\n\n"))
            && |Summaries(units)| == (if |units| < 5 then |units| else 5)
            && (forall i :: 0 <= i < |Summaries(units)| ==> Summaries(units)[i] == SummaryLine(units[i]))
            && (graph == [] ==> a[CallFlow] == Str(FlowTitle + "No calls detected."))
            && (graph != [] ==> a[CallFlow] == Str(FlowTitle + Join(Take(graph, 5), "\n")))
            && (Hotspots(units) != [] ==> a[HotspotsKey] == Str(HotspotsTitle + Join(Take(Hotspots(units), 5), "\n")))
            && ((forall u :: u in units ==> Hotspot(u).None?) <==> a[HotspotsKey] == Str(HotspotsTitle + "None detected.")))
  {
    var a := Fallback(units, graph);
    if units == [] {
      assert a.Keys == {ComponentSummary, ProviderKey};
    } else {
      var hs := Hotspots(units);
      OfflineRecord(Summaries(units), graph, hs, Ids(units));
      NoHotspots(units);
      if hs != [] {
        HotspotsNotNone(units);
        var x := Join(Take(hs, 5), "\n");
        assert (HotspotsTitle + x)[|HotspotsTitle|..] == x;
        assert (HotspotsTitle + "None detected.")[|HotspotsTitle|..] == "None detected.";
      }
    }
  }

  /** The key set and the fields of an offline answer, whatever its lines. */
  lemma OfflineRecord(summaries: seq<string>, graph: seq<string>, hotspots: seq<string>, ids: seq<string>)
    ensures var a := OfflineAnswer(summaries, graph, hotspots, ids);
      && a.Keys == OfflineKeys
      && a[Sources] == Strs(ids)
      && a[ProviderKey] == Str("Offline Analysis (Enhanced)")
      && a[ComponentSummary] == Str(Join(summaries, "\n\n"))
      && (graph == [] ==> a[CallFlow] == Str(FlowTitle + "No calls detected."))
      && (graph != [] ==> a[CallFlow] == Str(FlowTitle + Join(Take(graph, 5), "\n")))
      && (hotspots == [] ==> a[HotspotsKey] == Str(HotspotsTitle + "None detected."))
      && (hotspots != [] ==> a[HotspotsKey] == Str(HotspotsTitle + Join(Take(hotspots, 5), "\n")))
  {
  }

  /** No hotspot lines exactly when no unit is an entry point or a hub. */
  lemma NoHotspots(units: seq<CodeUnit>)
    ensures Hotspots(units) == [] <==> forall u :: u in units ==> Hotspot(u).None?
  {
    HotspotsMembers(units);
    var hs := Hotspots(units);
    if hs != [] {
      assert hs[0] in hs;
      var i :| 0 <= i < |units| && Hotspot(units[i]) == Some(hs[0]);
      assert units[i] in units;
    }
    if exists u :: u in units && Hotspot(u).Some? {
      var u :| u in units && Hotspot(u).Some?;
      var i :| 0 <= i < |units| && units[i] == u;
      assert Hotspot(u).value in hs;
    }
  }

  /** Listed hotspots start with a bullet, so they never read "None detected.". */
  lemma HotspotsNotNone(units: seq<CodeUnit>)
    requires Hotspots(units) != []
    ensures Join(Take(Hotspots(units), 5), "\n") != "None detected."
  {
    HotspotsMembers(units);
    var hs := Hotspots(units);
    assert hs[0] in hs;
    var i :| 0 <= i < |units| && Hotspot(units[i]) == Some(hs[0]);
    var t := Take(hs, 5);
    assert t[0] == hs[0];
    assert hs[0][0] == Bullet[0];
    assert Join(t, "\n")[0] == hs[0][0];
  }

  // ---------------------------------------------------------------------
  // Answers from the remote providers
  // ---------------------------------------------------------------------

  /** What `json.loads` made of the unwrapped content. */
  datatype Decoded = NotJson | Object(fields: Answer) | OtherJson

  /**
   * `_call_openai` from the reply on: `None` for a failed call or a missing
   * reply content (both end in the outer `except`), then fence stripping and JSON
   * decoding; a decoded object gets the provider `"OpenAI"`, undecodable
   * text is structured, and any other JSON value fails on the key
   * assignment and falls back to offline analysis.
   */
  function OpenAIAnswer(reply: Option<string>, decode: string -> Decoded, units: seq<CodeUnit>, graph: seq<string>): Answer {
    match reply
    case None => Fallback(units, graph)
    case Some(content) =>
      var body := StripFences(content);
      match decode(body)
      case Object(fields) => fields[ProviderKey := Str("OpenAI")]
      case NotJson => StructureResponse(body, units, graph, "OpenAI")
      case OtherJson => Fallback(units, graph)
  }

  /** The user prompt `_call_huggingface` sends. */
  function HuggingFacePrompt(question: string, contextStr: string, graphStr: string): (r: string)
    ensures StartsWith(r, "Question: " + question)
  {
    ("Question: " + question) + ("\n\nCode Context:\n" + Take(contextStr, 1500)) + ("\n\nCall Graph:\n" + Take(graphStr, 400))
    + "\n\nProvide a structured answer with:\n1. Component Summary\n2. Call Flow\n3. Key Points\n\nBe concise."
  }

  /**
   * The prompt holds the question, at most 1500 characters of the context
   * and at most 400 of the graph, each after its heading, and 136
   * characters of fixed text in all.
   */
  lemma HuggingFacePromptLayout(question: string, contextStr: string, graphStr: string)
    ensures var r := HuggingFacePrompt(question, contextStr, graphStr);
      && |r| == |question| + |Take(contextStr, 1500)| + |Take(graphStr, 400)| + 136
      && |r| <= |question| + 1500 + 400 + 136
      && IsAt(r, "\n\nCode Context:\n" + Take(contextStr, 1500), 10 + |question|)
      && IsAt(r, "\n\nCall Graph:\n" + Take(graphStr, 400), 26 + |question| + |Take(contextStr, 1500)|)
  {
    PartsAt("Question: " + question, "\n\nCode Context:\n" + Take(contextStr, 1500), "\n\nCall Graph:\n" + Take(graphStr, 400),
      "\n\nProvide a structured answer with:\n1. Component Summary\n2. Call Flow\n3. Key Points\n\nBe concise.");
  }

  /** Where each of four concatenated parts sits. */
  lemma PartsAt(a: string, b: string, c: string, d: string)
    ensures StartsWith(a + b + c + d, a)
    ensures IsAt(a + b + c + d, b, |a|)
    ensures IsAt(a + b + c + d, c, |a| + |b|)
  {
    var s := a + b + c + d;
    assert s[..|a|] == a;
    assert s[|a|..|a| + |b|] == b;
    assert s[|a| + |b|..|a| + |b| + |c|] == c;
  }

  /** `_call_huggingface` from the generated text on: structured when there is text, offline otherwise. */
  function HuggingFaceAnswer(generated: string, model: string, units: seq<CodeUnit>, graph: seq<string>): Answer {
    if generated != "" then StructureResponse(generated, units, graph, "Hugging Face (" + model + ")")
    else Fallback(units, graph)
  }

  /** A remote answer always names its provider, or is the offline one. */
  lemma RemoteAnswersNameProvider(reply: Option<string>, decode: string -> Decoded, generated: string, model: string,
                                  units: seq<CodeUnit>, graph: seq<string>)
    ensures var a := OpenAIAnswer(reply, decode, units, graph);
      a == Fallback(units, graph) || a[ProviderKey] == Str("OpenAI")
    ensures var a := HuggingFaceAnswer(generated, model, units, graph);
      a == Fallback(units, graph) || a[ProviderKey] == Str("Hugging Face (" + model + ")")
  {
  }

  /** One unit's block of the prompt context: its id and the first 500 characters of its code. */
  function ContextBlock(u: CodeUnit): string {
    "--- " + u.id + " ---\n" + Take(u.code, 500) + "...\n\n"
  }

  /** `context_str` for a list of units. */
  function ContextString(units: seq<CodeUnit>): string
    decreases |units|
  {
    if units == [] then "" else ContextString(units[..|units| - 1]) + ContextBlock(units[|units| - 1])
  }

  /** The context string holds every unit's block, headed by its id. */
  lemma {:induction false} ContextHasEveryUnit(units: seq<CodeUnit>, i: nat)
    requires i < |units|
    decreases |units|
    ensures IsInfix(ContextBlock(units[i]), ContextString(units))
  {
    var front := units[..|units| - 1];
    var last := units[|units| - 1];
    if i == |units| - 1 {
      SuffixAt(ContextString(front), ContextBlock(last));
    } else {
      assert front[i] == units[i];
      ContextHasEveryUnit(front, i);
      InfixOfPrefix(ContextBlock(units[i]), ContextString(front), ContextBlock(last));
    }
  }

  /** What occurs in `a` occurs in `a + b`. */
  lemma InfixOfPrefix(x: string, a: string, b: string)
    requires IsInfix(x, a)
    ensures IsInfix(x, a + b)
  {
    var k :| IsAt(a, x, k);
    assert (a + b)[k..k + |x|] == a[k..k + |x|];
    assert IsAt(a + b, x, k);
  }

  /** `b` occurs in `a + b` right after `a`. */
  lemma SuffixAt(a: string, b: string)
    ensures IsInfix(b, a + b)
  {
    assert (a + b)[|a|..|a| + |b|] == b;
    assert IsAt(a + b, b, |a|);
  }

  // ---------------------------------------------------------------------
  // The client object
  // ---------------------------------------------------------------------

  class LLMClient {
    var provider: string
    const hfToken: Option<string>
    const hfModel: string
    const openaiKey: Option<string>
    const openaiModel: string

    /** `__init__`, reading the configuration from `env`. */
    constructor(env: map<string, string>)
      ensures hfToken == OrElse(EnvGet(env, "HUGGINGFACE_API_KEY"), EnvGet(env, "HF_TOKEN"))
      ensures hfModel == EnvOr(env, "HUGGINGFACE_MODEL", "HuggingFaceH4/zephyr-7b-beta")
      ensures openaiKey == EnvGet(env, "OPENAI_API_KEY")
      ensures openaiModel == EnvOr(env, "OPENAI_MODEL", "gpt-3.5-turbo")
      ensures provider == ChooseProvider(EnvOr(env, "LLM_PROVIDER", "none"), Truthy(hfToken), Truthy(openaiKey))
    {
      var p := Lower(EnvOr(env, "LLM_PROVIDER", "none"));
      var token := OrElse(EnvGet(env, "HUGGINGFACE_API_KEY"), EnvGet(env, "HF_TOKEN"));
      var key := EnvGet(env, "OPENAI_API_KEY");
      if p == "huggingface" {
        if !Truthy(token) {
          p := "none";
        }
      } else if p == "openai" {
        if !Truthy(key) {
          p := "none";
        }
      } else {
        p := "none";
      }
      provider := p;
      hfToken := token;
      hfModel := EnvOr(env, "HUGGINGFACE_MODEL", "HuggingFaceH4/zephyr-7b-beta");
      openaiKey := key;
      openaiModel := EnvOr(env, "OPENAI_MODEL", "gpt-3.5-turbo");
    }

    /**
     * The answer `generate_answer` gives for these units and graph lines,
     * routed by provider. `hf` stands for the Hugging Face call, from the
     * user prompt to the generated text (`""` when both the client and the
     * HTTP request failed); `openai` for the OpenAI call, from the question,
     * the context string and the graph string to the reply content;
     * `decode` for `json.loads`.
     */
    function Respond(question: string, units: seq<CodeUnit>, graph: seq<string>,
                     hf: string -> string,
                     openai: (string, string, string) -> Option<string>,
                     decode: string -> Decoded): Answer
      reads this
    {
      if provider == "huggingface" then
        HuggingFaceAnswer(hf(HuggingFacePrompt(question, ContextString(units), Join(graph, "\n"))), hfModel, units, graph)
      else if provider == "openai" then
        OpenAIAnswer(openai(question, ContextString(units), Join(graph, "\n")), decode, units, graph)
      else Fallback(units, graph)
    }

    /** `generate_answer`: build the prompt context with a loop, then route by provider. */
    method GenerateAnswer(question: string, units: seq<CodeUnit>, graph: seq<string>,
                          hf: string -> string,
                          openai: (string, string, string) -> Option<string>,
                          decode: string -> Decoded) returns (a: Answer)
      ensures a == Respond(question, units, graph, hf, openai, decode)
    {
      var contextStr := "";
      for i := 0 to |units|
        invariant contextStr == ContextString(units[..i])
      {
        assert units[..i + 1][..i] == units[..i];
        contextStr := contextStr + ContextBlock(units[i]);
      }
      assert units[..|units|] == units;
      var graphStr := Join(graph, "\n");
      if provider == "huggingface" {
        a := HuggingFaceAnswer(hf(HuggingFacePrompt(question, contextStr, graphStr)), hfModel, units, graph);
      } else if provider == "openai" {
        a := OpenAIAnswer(openai(question, contextStr, graphStr), decode, units, graph);
      } else {
        a := FallbackLogic(question, units, graph);
      }
    }

    /**
     * Offline mode answers with the offline analysis, and a remote provider
     * answers in its own name or falls back to it.
     */
    lemma RespondRouting(question: string, units: seq<CodeUnit>, graph: seq<string>,
                         hf: string -> string,
                         openai: (string, string, string) -> Option<string>,
                         decode: string -> Decoded)
      ensures var a := Respond(question, units, graph, hf, openai, decode);
        && (provider != "huggingface" && provider != "openai" ==> a == Fallback(units, graph))
        && (provider == "openai" ==> a == Fallback(units, graph) || a[ProviderKey] == Str("OpenAI"))
        && (provider == "huggingface" ==> a == Fallback(units, graph) || a[ProviderKey] == Str("Hugging Face (" + hfModel + ")"))
    {
      RemoteAnswersNameProvider(openai(question, ContextString(units), Join(graph, "\n")), decode,
        hf(HuggingFacePrompt(question, ContextString(units), Join(graph, "\n"))), hfModel, units, graph);
    }

    /** `_fallback_logic`, with its two append loops. */
    method FallbackLogic(question: string, units: seq<CodeUnit>, graph: seq<string>) returns (a: Answer)
      ensures a == Fallback(units, graph)
    {
      if units == [] {
        return map[ComponentSummary := Str("No code found."), ProviderKey := Str("Offline Analysis")];
      }
      var top := Take(units, 5);
      var summaries := [];
      for i := 0 to |top|
        invariant |summaries| == i
        invariant forall j :: 0 <= j < i ==> summaries[j] == SummaryLine(top[j])
      {
        summaries := summaries + [SummaryLine(top[i])];
      }
      assert summaries == Summaries(units);
      var hotspots := [];
      for i := 0 to |units|
        invariant hotspots == Hotspots(units[..i])
      {
        var u := units[i];
        assert units[..i + 1][..i] == units[..i];
        if Contains(Lower(u.name), "main") {
          hotspots := hotspots + [Bullet + " " + u.name + " (Entry Point)"];
        } else if |u.calls| > 2 {
          hotspots := hotspots + [Bullet + " " + u.name + " (Hub)"];
        }
      }
      assert units[..|units|] == units;
      a := OfflineAnswer(summaries, graph, hotspots, Ids(units));
    }
  }
}
