/**
 The AI-answer panel of components/ui/QuestionItem.tsx as a state machine.
 The panel's state is the four React state variables; `fetchAiAnswer` runs in
 two halves around the store lookup (its start, and its completion with the
 lookup's outcome); `regenerateAiAnswer` only starts. Three decisions read the
 state: the auto-fetch guard of the effect, the action and copy buttons, and
 the order in which the answer area picks what to show.
 */
module QuestionItem {
  import opened Js
  import opened Store

  datatype Tab = MyAnswer | AiAnswer

  /** `activeTab`, `aiAnswer` (null: not fetched; "": the lookup matched zero or several rows), `isLoading`, `aiError`. */
  datatype Panel = Panel(activeTab: Tab, aiAnswer: Option<string>, isLoading: bool, aiError: Option<string>)

  const InitialPanel := Panel(MyAnswer, None, false, None)

  /** How the `ai_answers` lookup of `fetchAiAnswer` ends: a row (whose `content` may be null),
      neither row nor error, a store error, or a rejected call. */
  datatype Lookup =
    | RowFound(content: Option<string>)
    | NoData
    | StoreFailed(error: StoreError)
    | Rejected(thrown: Thrown)

  /** PostgREST's code, under `.single()`, for a lookup that matched zero or several rows. */
  const NotFoundCode := "PGRST116"
  const QueryFailedPrefix := "查询失败: "
  const FetchFailed := "获取AI回答时发生错误，请稍后重试"

  /** The synchronous start of `fetchAiAnswer` and of `regenerateAiAnswer`. */
  function StartLoading(p: Panel): (r: Panel)
    ensures r.isLoading && r.aiError == None
    ensures r.activeTab == p.activeTab && r.aiAnswer == p.aiAnswer
  {
    p.(isLoading := true, aiError := None)
  }

  /** The rest of `fetchAiAnswer`, once the lookup has an outcome. */
  function CompleteFetch(p: Panel, outcome: Lookup): (r: Panel)
    ensures !r.isLoading && r.activeTab == p.activeTab
  {
    match outcome
    case StoreFailed(e) =>
      if e.code == NotFoundCode then p.(aiAnswer := Some(""), isLoading := false)
      else p.(aiError := Some(QueryFailedPrefix + e.message), isLoading := false)
    case RowFound(content) => p.(aiAnswer := content, isLoading := false)
    case NoData => p.(isLoading := false)
    case Rejected(thrown) => p.(aiError := Some(MessageOr(thrown, FetchFailed)), isLoading := false)
  }

  /** A whole `fetchAiAnswer` call whose lookup ends with `outcome`. */
  function FetchAiAnswer(p: Panel, outcome: Lookup): (r: Panel)
    ensures !r.isLoading && r.activeTab == p.activeTab
    ensures outcome.StoreFailed? && outcome.error.code == NotFoundCode ==>
      r.aiAnswer == Some("") && r.aiError == None
    ensures outcome.StoreFailed? && outcome.error.code != NotFoundCode ==>
      r.aiAnswer == p.aiAnswer && r.aiError == Some(QueryFailedPrefix + outcome.error.message)
    ensures outcome.RowFound? ==> r.aiAnswer == outcome.content && r.aiError == None
    ensures outcome.NoData? ==> r.aiAnswer == p.aiAnswer && r.aiError == None
    ensures outcome.Rejected? ==>
      r.aiAnswer == p.aiAnswer && r.aiError == Some(MessageOr(outcome.thrown, FetchFailed))
  {
    CompleteFetch(StartLoading(p), outcome)
  }

  /** `regenerateAiAnswer` as written: its request code is commented out, so only the start
      remains and nothing ever clears the loading flag. */
  function RegenerateAiAnswer(p: Panel): (r: Panel)
    ensures r.isLoading && r.aiError == None
    ensures r.aiAnswer == p.aiAnswer && r.activeTab == p.activeTab
  {
    StartLoading(p)
  }

  /** The effect's condition for fetching on its own. It fires only where the user could click
      "fetch" themselves, and it fires while an error message is on show. */
  predicate AutoFetchFires(p: Panel): (fires: bool)
    ensures fires ==> p.activeTab == AiAnswer && ActionEnabled(p) && ButtonAction(p) == Fetch && !CopyEnabled(p)
    ensures fires ==> RenderAi(p) == if Truthy(p.aiError) then ErrorNotice(p.aiError.value) else Markdown(None)
    ensures p.activeTab == AiAnswer && !p.isLoading && !fires ==> p.aiAnswer.Some?
  {
    p.activeTab == AiAnswer && p.aiAnswer == None && !p.isLoading
  }

  datatype Action = Regenerate | Fetch

  /** `onClick={aiAnswer ? regenerateAiAnswer : fetchAiAnswer}` */
  function ButtonAction(p: Panel): (a: Action)
    ensures a == Regenerate <==> Truthy(p.aiAnswer)
  {
    if Truthy(p.aiAnswer) then Regenerate else Fetch
  }

  predicate ActionEnabled(p: Panel)
  {
    !p.isLoading
  }

  predicate CopyEnabled(p: Panel)
  {
    Truthy(p.aiAnswer)
  }

  function ActionLabel(p: Panel): (text: string)
    ensures p.isLoading ==> text == "处理中..."
    ensures !p.isLoading && ButtonAction(p) == Regenerate ==> text == "重新生成"
    ensures !p.isLoading && ButtonAction(p) == Fetch ==> text == "生成回答"
  {
    if p.isLoading then "处理中..." else if Truthy(p.aiAnswer) then "重新生成" else "生成回答"
  }

  /** What the answer area shows. `Markdown` hands the text (possibly null) to the sanitising
      markdown renderer. */
  datatype AiView = Spinner | ErrorNotice(message: string) | NoAnswerNotice | Markdown(source: Option<string>)

  function RenderAi(p: Panel): (v: AiView)
    ensures v.Spinner? <==> p.isLoading
    ensures v.ErrorNotice? <==> !p.isLoading && Truthy(p.aiError)
    ensures v.ErrorNotice? ==> v.message == p.aiError.value
    ensures v.NoAnswerNotice? <==> !p.isLoading && !Truthy(p.aiError) && p.aiAnswer == Some("")
    ensures v.Markdown? <==> !p.isLoading && !Truthy(p.aiError) && p.aiAnswer != Some("")
    ensures v.Markdown? ==> v.source == p.aiAnswer
  {
    if p.isLoading then Spinner
    else if Truthy(p.aiError) then ErrorNotice(p.aiError.value)
    else if p.aiAnswer == Some("") then NoAnswerNotice
    else Markdown(p.aiAnswer)
  }

  // ---------------------------------------------------------------------------
  // The panel over time: user events, effect runs and lookup completions.

  /** The panel and whether a `fetchAiAnswer` lookup is still awaiting the store. */
  datatype Session = Session(panel: Panel, pending: bool)

  const InitialSession := Session(InitialPanel, false)

  datatype Event =
    | SelectTab(tab: Tab)
    | ClickAction
    | ClickCopy
    | EffectRuns
    | LookupSettles(outcome: Lookup)

  /** One event. The two buttons exist only on the AI tab, so a click elsewhere changes nothing;
      neither does a click on a disabled button, an effect run whose guard is false, or a
      completion with no lookup in flight. Copying writes to the clipboard only. */
  function Step(s: Session, e: Event): (t: Session)
    ensures (e.ClickAction? || e.ClickCopy?) && s.panel.activeTab != AiAnswer ==> t == s
    ensures t.panel.activeTab == if e.SelectTab? then e.tab else s.panel.activeTab
    ensures t.pending && !s.pending ==>
      || (e.EffectRuns? && AutoFetchFires(s.panel))
      || (e.ClickAction? && s.panel.activeTab == AiAnswer && ActionEnabled(s.panel) && ButtonAction(s.panel) == Fetch)
    ensures s.panel.isLoading && !t.panel.isLoading ==> e.LookupSettles? && s.pending
    ensures t.panel.aiAnswer != s.panel.aiAnswer ==> e.LookupSettles? && s.pending
  {
    match e
    case SelectTab(tab) => s.(panel := s.panel.(activeTab := tab))
    case ClickAction =>
      if s.panel.activeTab != AiAnswer || !ActionEnabled(s.panel) then s
      else if ButtonAction(s.panel) == Regenerate then s.(panel := RegenerateAiAnswer(s.panel))
      else Session(StartLoading(s.panel), true)
    case ClickCopy => s
    case EffectRuns =>
      if AutoFetchFires(s.panel) then Session(StartLoading(s.panel), true) else s
    case LookupSettles(outcome) =>
      if s.pending then Session(CompleteFetch(s.panel, outcome), false) else s
  }

  function Run(s: Session, events: seq<Event>): Session
    decreases |events|
  {
    if events == [] then s else Run(Step(s, events[0]), events[1..])
  }

  /** A lookup in flight always shows as loading, with no error. */
  predicate Consistent(s: Session)
  {
    s.pending ==> s.panel.isLoading && s.panel.aiError == None
  }

  lemma StepConsistent(s: Session, e: Event)
    requires Consistent(s)
    ensures Consistent(Step(s, e))
  {
  }

  /** Every state reachable from a freshly mounted panel is consistent. */
  lemma {:induction false} RunConsistent(s: Session, events: seq<Event>)
    requires Consistent(s)
    ensures Consistent(Run(s, events))
    decreases |events|
  {
    if events != [] {
      StepConsistent(s, events[0]);
      RunConsistent(Step(s, events[0]), events[1..]);
    }
  }

  /** Every fetch ends: a lookup completion clears the loading flag of a fetching panel. */
  lemma FetchSettles(s: Session, outcome: Lookup)
    requires Consistent(s) && s.pending
    ensures var t := Step(s, LookupSettles(outcome));
      !t.pending && !t.panel.isLoading && t.panel == FetchAiAnswer(s.panel, outcome)
  {
  }

  /** Clicking the action button on the AI tab of a panel showing an answer starts a regeneration that
      leaves the panel loading with no lookup in flight. */
  lemma ClickRegenerates(s: Session)
    requires Consistent(s) && s.panel.activeTab == AiAnswer && !s.panel.isLoading && Truthy(s.panel.aiAnswer)
    ensures var t := Step(s, ClickAction);
      t.panel.isLoading && !t.pending && t.panel.aiAnswer == s.panel.aiAnswer
  {
  }

  /** Once a regeneration has started, no sequence of events ever clears the loading flag:
      the action button stays disabled, the effect's guard stays false, and no lookup is in
      flight to complete. */
  lemma {:induction false} RegenerateNeverSettles(s: Session, events: seq<Event>)
    requires s.panel.isLoading && !s.pending
    ensures var t := Run(s, events);
      t.panel.isLoading && !t.pending && RenderAi(t.panel) == Spinner && t.panel.aiAnswer == s.panel.aiAnswer
    decreases |events|
  {
    if events != [] {
      RegenerateNeverSettles(Step(s, events[0]), events[1..]);
    }
  }

  /** Opening the AI tab on a fresh panel starts a fetch as soon as the effect runs. */
  lemma OpeningTabFetches()
    ensures var t := Run(InitialSession, [SelectTab(AiAnswer), EffectRuns]);
      t.pending && RenderAi(t.panel) == Spinner
  {
  }

  /** A lookup outcome that leaves a never-fetched answer null. */
  predicate LeavesUnfetched(outcome: Lookup)
  {
    || (outcome.StoreFailed? && outcome.error.code != NotFoundCode)
    || outcome.Rejected? || outcome.NoData? || outcome == RowFound(None)
  }

  /** Repeats of "the effect runs, the lookup ends with `outcome`". */
  function Retries(n: nat, outcome: Lookup): (events: seq<Event>)
    ensures |events| == 2 * n
  {
    if n == 0 then [] else [EffectRuns, LookupSettles(outcome)] + Retries(n - 1, outcome)
  }

  lemma RunConcat(s: Session, a: seq<Event>, b: seq<Event>)
    ensures Run(s, a + b) == Run(Run(s, a), b)
    decreases |a|
  {
    if a != [] {
      assert (a + b)[0] == a[0];
      assert (a + b)[1..] == a[1..] + b;
      RunConcat(Step(s, a[0]), a[1..], b);
    } else {
      assert a + b == b;
    }
  }

  /** The guard does not look at `aiError`: a failed lookup leaves `aiAnswer` null, clears the
      loading flag, and so re-arms the effect, which fetches again — for every number of
      rounds, the panel is back where it was, ready to fetch once more. */
  lemma {:induction false} ErrorRefetchLoop(s: Session, outcome: Lookup, n: nat)
    requires AutoFetchFires(s.panel) && !s.pending
    requires LeavesUnfetched(outcome)
    requires outcome.StoreFailed? || outcome.Rejected? ==> s.panel.aiError == FetchAiAnswer(s.panel, outcome).aiError
    requires outcome.NoData? || outcome.RowFound? ==> s.panel.aiError == None
    ensures Run(s, Retries(n, outcome)) == s
    ensures AutoFetchFires(Run(s, Retries(n, outcome)).panel)
    decreases n
  {
    if n > 0 {
      var once := [EffectRuns, LookupSettles(outcome)];
      assert Retries(n, outcome) == once + Retries(n - 1, outcome);
      RunConcat(s, once, Retries(n - 1, outcome));
      RetryRound(s, outcome);
      ErrorRefetchLoop(s, outcome, n - 1);
    }
  }

  /** One round of the loop: the effect fires and the lookup settles back where it started. */
  lemma RetryRound(s: Session, outcome: Lookup)
    requires AutoFetchFires(s.panel) && !s.pending
    requires LeavesUnfetched(outcome)
    requires outcome.StoreFailed? || outcome.Rejected? ==> s.panel.aiError == FetchAiAnswer(s.panel, outcome).aiError
    requires outcome.NoData? || outcome.RowFound? ==> s.panel.aiError == None
    ensures Run(s, [EffectRuns, LookupSettles(outcome)]) == s
  {
    var once := [EffectRuns, LookupSettles(outcome)];
    assert once[1..] == [LookupSettles(outcome)];
    assert Run(s, once) == Run(Step(s, EffectRuns), [LookupSettles(outcome)]);
    assert [LookupSettles(outcome)][1..] == [];
  }

  /** After a completed fetch, the action button and the view agree: a found answer can be
      copied and regenerated and is rendered; a lookup matching zero or several rows shows the notice and offers
      a fetch; a failed lookup shows its message. */
  lemma FetchThenDecide(p: Panel, outcome: Lookup)
    ensures var r := FetchAiAnswer(p, outcome);
      && ActionEnabled(r)
      && (outcome.RowFound? && Truthy(outcome.content) ==>
            ButtonAction(r) == Regenerate && CopyEnabled(r) && RenderAi(r) == Markdown(outcome.content))
      && (outcome.StoreFailed? && outcome.error.code == NotFoundCode ==>
            ButtonAction(r) == Fetch && !CopyEnabled(r) && RenderAi(r) == NoAnswerNotice)
      && (outcome.StoreFailed? && outcome.error.code != NotFoundCode ==>
            RenderAi(r) == ErrorNotice(QueryFailedPrefix + outcome.error.message))
  {
  }

  /** The action button regenerates exactly when copying is possible, and both are decided by
      the answer alone: null and "" both fetch. */
  lemma ActionMatchesCopy(p: Panel)
    ensures ButtonAction(p) == Regenerate <==> CopyEnabled(p)
    ensures p.aiAnswer == None || p.aiAnswer == Some("") ==> ButtonAction(p) == Fetch && !CopyEnabled(p)
  {
  }

  // ---------------------------------------------------------------------------
  // Question header labels.

  function DifficultyText(level: int): (r: string)
    ensures r == "未知" <==> level !in {1, 2, 3}
  {
    match level
    case 1 => "简单"
    case 2 => "中等"
    case 3 => "较难"
    case _ => "未知"
  }

  function TypeText(questionType: int): (r: string)
    ensures r == "其他类型" <==> questionType !in {1, 2}
  {
    match questionType
    case 1 => "前端开发"
    case 2 => "后端开发"
    case _ => "其他类型"
  }

  /** Different known levels get different labels, and so do different known types. */
  lemma LabelsDistinguish(a: int, b: int)
    requires a != b
    ensures a in {1, 2, 3} && b in {1, 2, 3} ==> DifficultyText(a) != DifficultyText(b)
    ensures a in {1, 2} && b in {1, 2} ==> TypeText(a) != TypeText(b)
  {
  }
}
