/** What the asynchronous handlers write once their AI call answers: the
    market-search chat's reply, the support expert's reply and navigation
    directive, and the generated graphic of one LinkedIn post. */
module Completions {

  import opened Wrappers
  import opened Domain
  import opened Content

  // ---------------------------------------------------------------------
  // Market-search chat

  /** The parsed answer of a market-search call: the `reply` field and the
      grounding chunks of the first candidate, when there are any. */
  datatype ChatReply = ChatReply(reply: string, chunks: Option<seq<GroundingChunk>>)

  const ChatFallback := "I'm having a brief connection issue while scanning the job market. Let's try that again in a second!"

  /** The message the chat appends when its call completes. Only a real
      answer carries a source list, possibly empty, so a failure can always
      be told apart from an answer that happens to use the fallback's words. */
  function ChatAnswer(result: AiResult<ChatReply>): (m: ChatMessage)
    ensures m.role == Model
    ensures m.sources.Some? <==> result.Ok?
    ensures result.Failed? ==> m == ModelMessage(ChatFallback)
    ensures result.Ok? ==> m.text == result.value.reply
    ensures result.Ok? && result.value.chunks.None? ==> m.sources == Some([])
    ensures m.sources.Some? ==> forall i, j :: 0 <= i < j < |m.sources.value| ==> m.sources.value[i].uri != m.sources.value[j].uri
    ensures m.sources.Some? ==> forall s :: s in m.sources.value ==> s.uri != "" && s.title != ""
  {
    match result
    case Ok(r) => ChatMessage(Model, r.reply, Some(GroundingSources(r.chunks)))
    case Failed => ModelMessage(ChatFallback)
  }

  // ---------------------------------------------------------------------
  // Support expert

  /** A function call the support expert may answer with; only a call named
      `navigateApp` is acted upon, with the step it names. */
  datatype FunctionCall = FunctionCall(name: string, step: Step)

  /** The expert's answer: its text, which may be missing, and its function
      calls. */
  datatype SupportReply = SupportReply(text: Option<string>, calls: seq<FunctionCall>)

  /** The support page and the floating assistant share one protocol but
      word their messages differently. */
  datatype Voice = Voice(emptyReply: string, actionLead: string, connectionError: string)

  const PageVoice := Voice("I'm looking into that for you.", "*System Action: Navigating to ", "System connection error. Please try again.")
  const FloatingVoice := Voice("I'm processing your request.", "*Action: Jumping to ", "I'm having trouble connecting to the expert manual.")

  /** `response.text || fallback`. */
  function ReplyText(v: Voice, text: Option<string>): string {
    if Truthy(text) then text.value else v.emptyReply
  }

  /** The reply that announces a navigation. */
  function Announcement(v: Voice, text: string, step: Step): string {
    text + "\n\n" + v.actionLead + StepId(step) + "...*"
  }

  /** The effect of one answered support request: the reply appended, if
      any, and the step navigated to, if any. */
  datatype SupportOutcome = SupportOutcome(reply: Option<ChatMessage>, navigate: Option<Step>)

  predicate Directs(r: SupportReply) {
    |r.calls| > 0 && r.calls[0].name == "navigateApp"
  }

  /** Only the first function call is looked at. A `navigateApp` call moves
      to its step, whatever the step, and announces it; a call of any other
      name leaves the conversation without a reply; no call at all appends
      the text; a failure appends the connection error. */
  function SupportAnswer(v: Voice, result: AiResult<SupportReply>): (o: SupportOutcome)
    ensures o.navigate.Some? <==> result.Ok? && Directs(result.value)
    ensures o.navigate.Some? ==> o.navigate.value == result.value.calls[0].step
    ensures o.reply.None? <==> result.Ok? && |result.value.calls| > 0 && !Directs(result.value)
    ensures o.reply.Some? ==> o.reply.value.role == Model && o.reply.value.sources.None?
    ensures result.Failed? ==> o.reply == Some(ModelMessage(v.connectionError))
    ensures o.navigate.Some? ==> o.reply == Some(ModelMessage(Announcement(v, ReplyText(v, result.value.text), o.navigate.value)))
    ensures result.Ok? && result.value.calls == [] ==> o.reply == Some(ModelMessage(ReplyText(v, result.value.text)))
  {
    match result
    case Failed => SupportOutcome(Some(ModelMessage(v.connectionError)), None)
    case Ok(r) =>
      var text := ReplyText(v, r.text);
      if |r.calls| > 0 then
        if r.calls[0].name == "navigateApp" then
          SupportOutcome(Some(ModelMessage(Announcement(v, text, r.calls[0].step))), Some(r.calls[0].step))
        else
          SupportOutcome(None, None)
      else
        SupportOutcome(Some(ModelMessage(text)), None)
  }

  lemma StepIdInjective(a: Step, b: Step)
    requires StepId(a) == StepId(b)
    ensures a == b
  {
  }

  /** The step's id sits between the announcement's lead and its closing
      `...*`. */
  lemma AnnouncedStepId(v: Voice, text: string, step: Step)
    ensures var n := |text + "\n\n" + v.actionLead|;
            |Announcement(v, text, step)| == n + |StepId(step)| + 4 &&
            Announcement(v, text, step)[n..n + |StepId(step)|] == StepId(step)
  {
    var lead := text + "\n\n" + v.actionLead;
    assert Announcement(v, text, step) == lead + StepId(step) + "...*";
  }

  /** An announcement names the step it navigates to: two announcements of
      the same text are equal only when their steps are. */
  lemma AnnouncementIdentifiesStep(v: Voice, text: string, a: Step, b: Step)
    requires Announcement(v, text, a) == Announcement(v, text, b)
    ensures a == b
  {
    AnnouncedStepId(v, text, a);
    AnnouncedStepId(v, text, b);
    StepIdInjective(a, b);
  }

  // ---------------------------------------------------------------------
  // Post graphics

  /** The post list with `url` as the image of post `index`. */
  function WithImage(posts: seq<LinkedInPost>, index: nat, url: string): (r: seq<LinkedInPost>)
    requires index < |posts|
    ensures |r| == |posts|
    ensures r[index].imageUrl == Some(url)
    ensures r[index].(imageUrl := posts[index].imageUrl) == posts[index]
    ensures forall k :: 0 <= k < |r| && k != index ==> r[k] == posts[k]
  {
    posts[index := posts[index].(imageUrl := Some(url))]
  }

  /** A graphic completion as written: the post list the handler captured
      when it was invoked, with the image set, replaces the current list. */
  function GraphicAsWritten(current: seq<LinkedInPost>, snapshot: seq<LinkedInPost>, index: nat, url: string): (r: seq<LinkedInPost>)
    requires index < |snapshot|
    ensures |r| == |snapshot| && r[index].imageUrl == Some(url)
    ensures forall k :: 0 <= k < |r| && k != index ==> r[k] == snapshot[k]
  {
    WithImage(snapshot, index, url)
  }

  /** Two graphics requested from the same list, answered one after the
      other: the second completion overwrites the first one's image. */
  lemma {:induction false} GraphicAsWrittenLosesImage(posts: seq<LinkedInPost>, i: nat, j: nat, ui: string, uj: string)
    requires i < |posts| && j < |posts| && i != j
    requires posts[i].imageUrl == None
    ensures GraphicAsWritten(GraphicAsWritten(posts, posts, i, ui), posts, j, uj)[i].imageUrl == None
  {
    var after := GraphicAsWritten(GraphicAsWritten(posts, posts, i, ui), posts, j, uj);
    assert after == WithImage(posts, j, uj);
    assert after[i] == posts[i];
  }

  /** A graphic completion applied to the post list as it is when the answer
      arrives; a list that no longer has that post (after a reset) is left
      alone. */
  function GraphicOnCurrent(current: seq<LinkedInPost>, index: nat, url: string): (r: seq<LinkedInPost>)
    ensures |r| == |current|
    ensures index < |current| ==> r[index].imageUrl == Some(url) && r[index].(imageUrl := current[index].imageUrl) == current[index]
    ensures forall k :: 0 <= k < |r| && k != index ==> r[k] == current[k]
  {
    if index < |current| then WithImage(current, index, url) else current
  }

  /** Completions applied to the current list keep every image, whatever
      the order the answers arrive in. */
  lemma {:induction false} GraphicOnCurrentKeepsBoth(posts: seq<LinkedInPost>, i: nat, j: nat, ui: string, uj: string)
    requires i < |posts| && j < |posts| && i != j
    ensures GraphicOnCurrent(GraphicOnCurrent(posts, i, ui), j, uj)[i].imageUrl == Some(ui)
    ensures GraphicOnCurrent(GraphicOnCurrent(posts, i, ui), j, uj)[j].imageUrl == Some(uj)
    ensures GraphicOnCurrent(GraphicOnCurrent(posts, i, ui), j, uj) == GraphicOnCurrent(GraphicOnCurrent(posts, j, uj), i, ui)
  {
    var a := GraphicOnCurrent(GraphicOnCurrent(posts, i, ui), j, uj);
    var b := GraphicOnCurrent(GraphicOnCurrent(posts, j, uj), i, ui);
    assert |a| == |b|;
    forall k | 0 <= k < |a|
      ensures a[k] == b[k]
    {
      if k == i {
        assert a[k] == posts[k].(imageUrl := Some(ui));
      } else if k == j {
        assert b[k] == posts[k].(imageUrl := Some(uj));
      }
    }
  }
}
