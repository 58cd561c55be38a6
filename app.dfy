/** The application's in-memory state and its event handlers. Every handler
    that awaits an AI call is split in two: a `Begin` method for what happens
    before the call (guards, loading flags, what the call is given) and a
    `Finish` method for what its completion writes, with the call's answer as
    a parameter. Completions may arrive in any order and at any time after
    their request, including after a reset. */
module App {

  import opened Wrappers
  import opened Text
  import opened Domain
  import opened Workflow
  import opened Views
  import opened Intake
  import opened Content
  import opened Completions

  function SourceSet(o: Option<nat>): set<nat> {
    if o.Some? then {o.value} else {}
  }

  /** The enhancement call and the form it was made from; its completion
      takes the partner lists from that form. */
  datatype IntakeCall = IntakeCall(request: EnhanceRequest, form: Form)

  /** The message sent to the support expert and the history it is sent
      with. */
  datatype SupportCall = SupportCall(message: string, history: seq<Turn>)

  datatype Channel = Page | Floating

  function VoiceOf(c: Channel): Voice {
    if c == Page then PageVoice else FloatingVoice
  }

  /** The texts an open outreach modal offers to read aloud: the primary
      email and each follow-up, the call script joined by line breaks, or
      the LinkedIn message. */
  function ModalTexts(kind: ModalKind, a: OutreachAssets): seq<string> {
    match kind
    case FollowUps => [a.primaryEmail] + a.followUps
    case Script => [Join(a.callScript, "\n")]
    case LinkedInDm => [a.linkedInMessage]
  }

  class AppState {
    var step: Step
    var loading: bool
    /** The per-post "generating" flag, keyed by post index. */
    var generatingImages: map<nat, bool>
    var profile: Option<Profile>
    var matches: seq<EmployerMatch>
    var selected: set<string>
    /** Generated campaign packages, keyed by employer name. */
    var outreach: map<string, OutreachAssets>
    var posts: seq<LinkedInPost>
    var botMessages: seq<ChatMessage>
    var botInput: string
    var botLoading: bool
    var resetModalOpen: bool
    var resetTarget: Step
    var resetToast: bool
    var chatMessages: seq<ChatMessage>
    var chatInput: string
    var chatLoading: bool
    var supportMessages: seq<ChatMessage>
    var supportInput: string
    var supportLoading: bool
    var speakingText: Option<string>
    var speechLoading: bool
    /** The audio source the speech controller holds on to, by identity. */
    var currentSource: Option<nat>
    /** The audio sources that are sounding. */
    var playing: set<nat>
    /** The identity the next audio source will get. */
    var nextSource: nat
    /** The speech calls still waiting for their answer. */
    var speechCalls: nat
    var emailDraft: Option<EmailDraft>
    var form: Form
    var errors: map<Field, string>
    var modal: Option<Modal>

    /** The speech bookkeeping: the source held on to is sounding, and every
        sounding source has been created. */
    predicate Valid()
      reads this`currentSource, this`playing, this`nextSource
    {
      (currentSource.Some? ==> currentSource.value in playing) &&
      (forall s :: s in playing ==> s < nextSource)
    }

    /** At most one narration is heard, it is the one held on to, and none is
        heard while a new one is being fetched. */
    predicate SingleVoice()
      reads this`currentSource, this`playing, this`speechLoading
    {
      (forall s :: s in playing ==> currentSource == Some(s)) &&
      (speechLoading ==> playing == {})
    }


    /** The state on first render: the landing view, an empty engine, and the
        floating assistant's greeting. */
    constructor ()
      ensures step == Landing && !loading && generatingImages == map[]
      ensures profile.None? && matches == [] && selected == {} && outreach == map[] && posts == []
      ensures botMessages == [ModelMessage(BotGreeting)] && botInput == "" && !botLoading
      ensures !resetModalOpen && resetTarget == Intake && !resetToast
      ensures chatMessages == [] && chatInput == "" && !chatLoading
      ensures supportMessages == [] && supportInput == "" && !supportLoading
      ensures speakingText.None? && !speechLoading && currentSource.None? && playing == {}
      ensures nextSource == 0 && speechCalls == 0
      ensures emailDraft.None? && form == InitialForm && errors == map[] && modal.None?
      ensures Valid() && SingleVoice()
    {
      step := Landing;
      loading := false;
      generatingImages := map[];
      profile := None;
      matches := [];
      selected := {};
      outreach := map[];
      posts := [];
      botMessages := [ModelMessage(BotGreeting)];
      botInput := "";
      botLoading := false;
      resetModalOpen := false;
      resetTarget := Intake;
      resetToast := false;
      chatMessages := [];
      chatInput := "";
      chatLoading := false;
      supportMessages := [];
      supportInput := "";
      supportLoading := false;
      speakingText := None;
      speechLoading := false;
      currentSource := None;
      playing := {};
      nextSource := 0;
      speechCalls := 0;
      emailDraft := None;
      form := InitialForm;
      errors := map[];
      modal := None;
    }

    // -------------------------------------------------------------------
    // Speech

    /** Stops the source held on to, if any, and clears the speech slot.
        Other sources that are still sounding are not reached. */
    method StopSpeech()
      requires Valid()
      modifies this`currentSource, this`playing, this`speakingText, this`speechLoading
      ensures Valid()
      ensures old(SingleVoice()) ==> SingleVoice() && playing == {}
      ensures currentSource.None? && speakingText.None? && !speechLoading
      ensures playing == old(playing) - SourceSet(old(currentSource))
    {
      if currentSource.Some? {
        playing := playing - {currentSource.value};
        currentSource := None;
      }
      speakingText := None;
      speechLoading := false;
    }

    /** A read-aloud button for `text` is on screen: one post of the
        LinkedIn view carries it (an empty calendar shows no buttons), or an
        outreach modal is open on an employer with a campaign and offers
        it. */
    predicate ReadAloudShown(text: string)
      reads this`step, this`posts, this`modal, this`outreach
    {
      (step == Linkedin && exists k :: 0 <= k < |posts| && posts[k].content == text) ||
      (modal.Some? && modal.value.employer in outreach && text in ModalTexts(modal.value.kind, outreach[modal.value.employer]))
    }

    /** A click on a read-aloud button, which is disabled while speech
        loads. The text being spoken is stopped; any other text first stops
        what is spoken, then is fetched. */
    method RequestReadAloud(text: string) returns (fetching: bool)
      requires Valid() && !speechLoading
      requires ReadAloudShown(text)
      modifies this`currentSource, this`playing, this`speakingText, this`speechLoading, this`speechCalls
      ensures Valid()
      ensures old(SingleVoice()) ==> SingleVoice()
      ensures fetching <==> old(speakingText) != Some(text)
      ensures currentSource.None? && playing == old(playing) - SourceSet(old(currentSource))
      ensures !fetching ==> speakingText.None? && !speechLoading && speechCalls == old(speechCalls)
      ensures fetching ==> speakingText == Some(text) && speechLoading && speechCalls == old(speechCalls) + 1
    {
      if speakingText == Some(text) {
        StopSpeech();
        fetching := false;
      } else {
        StopSpeech();
        speechLoading := true;
        speakingText := Some(text);
        speechCalls := speechCalls + 1;
        fetching := true;
      }
    }

    /** A speech call answered and its audio decoded, as written: a new
        source starts and is held on to, whatever happened since the
        request. The source held on to before is not stopped. */
    method AudioReady() returns (source: nat)
      requires Valid() && speechCalls > 0
      modifies this`currentSource, this`playing, this`nextSource, this`speechLoading, this`speechCalls
      ensures Valid()
      ensures source == old(nextSource) && source !in old(playing)
      ensures playing == old(playing) + {source} && currentSource == Some(source)
      ensures nextSource == old(nextSource) + 1 && !speechLoading && speechCalls == old(speechCalls) - 1
    {
      source := nextSource;
      nextSource := nextSource + 1;
      playing := playing + {source};
      currentSource := Some(source);
      speechLoading := false;
      speechCalls := speechCalls - 1;
    }

    /** A speech call answered, checked against the slot: the audio for
        `text` starts only when that text is still the one being fetched;
        otherwise the answer is dropped. */
    method AudioReadyChecked(text: string) returns (source: Option<nat>)
      requires Valid() && speechCalls > 0
      modifies this`currentSource, this`playing, this`nextSource, this`speechLoading, this`speechCalls
      ensures Valid()
      ensures old(SingleVoice()) ==> SingleVoice()
      ensures source.Some? <==> old(speechLoading) && old(speakingText) == Some(text)
      ensures speechCalls == old(speechCalls) - 1
      ensures source.Some? ==> source.value == old(nextSource) && nextSource == old(nextSource) + 1
      ensures source.Some? ==> playing == old(playing) + {source.value} && currentSource == source && !speechLoading
      ensures source.None? ==> playing == old(playing) && currentSource == old(currentSource)
      ensures source.None? ==> nextSource == old(nextSource) && speechLoading == old(speechLoading)
    {
      if speechLoading && speakingText == Some(text) {
        var s := AudioReady();
        source := Some(s);
      } else {
        speechCalls := speechCalls - 1;
        source := None;
      }
    }

    /** A speech call failed: the slot is cleared, even if it now belongs to
        a later request. */
    method SpeechFailed()
      requires Valid() && speechCalls > 0
      modifies this`currentSource, this`playing, this`speakingText, this`speechLoading, this`speechCalls
      ensures Valid()
      ensures old(SingleVoice()) ==> SingleVoice()
      ensures currentSource.None? && speakingText.None? && !speechLoading
      ensures playing == old(playing) - SourceSet(old(currentSource))
      ensures speechCalls == old(speechCalls) - 1
    {
      StopSpeech();
      speechCalls := speechCalls - 1;
    }

    /** A sounding source reached its end. The slot is cleared only when that
        source is still the one held on to. */
    method SourceEnded(source: nat)
      requires Valid() && source in playing
      modifies this`currentSource, this`playing, this`speakingText
      ensures Valid()
      ensures old(SingleVoice()) ==> SingleVoice()
      ensures playing == old(playing) - {source}
      ensures old(currentSource) == Some(source) ==> currentSource.None? && speakingText.None?
      ensures old(currentSource) != Some(source) ==> currentSource == old(currentSource) && speakingText == old(speakingText)
    {
      playing := playing - {source};
      if currentSource == Some(source) {
        speakingText := None;
        currentSource := None;
      }
    }

    // -------------------------------------------------------------------
    // Reset engine

    /** Asks for confirmation of a reset that will land on `target`. */
    method HandleResetEngine(target: Step)
      modifies this`resetTarget, this`resetModalOpen
      ensures resetTarget == target && resetModalOpen
    {
      resetTarget := target;
      resetModalOpen := true;
    }

    method CancelReset()
      modifies this`resetModalOpen
      ensures !resetModalOpen
    {
      resetModalOpen := false;
    }

    /** The form, the profile and everything derived from it are back to
        their initial values. */
    predicate EngineCleared()
      reads this`form, this`errors, this`profile, this`matches, this`selected, this`outreach, this`posts
    {
      (form, errors, profile, matches, selected, outreach, posts) ==
      (InitialForm, map[], None, [], {}, map[], [])
    }

    /** The chat and support conversations, their inputs and loading flags,
        the open modal, the image flags and the global loading flag are back
        to their initial values. */
    predicate InteractionCleared()
      reads this`chatMessages, this`supportMessages, this`chatInput, this`supportInput
      reads this`chatLoading, this`supportLoading, this`modal, this`generatingImages, this`loading
    {
      (chatMessages, supportMessages, chatInput, supportInput, chatLoading, supportLoading, modal, generatingImages, loading) ==
      ([], [], "", "", false, false, None, map[], false)
    }

    /** The reset's first stages: the form and its errors, then the profile
        and everything derived from it. */
    method ClearEngine()
      modifies this`form, this`errors, this`profile, this`matches, this`selected, this`outreach, this`posts
      ensures EngineCleared()
    {
      form := InitialForm;
      errors := map[];
      profile := None;
      matches := [];
      selected := {};
      outreach := map[];
      posts := [];
    }

    /** The reset's interaction stage. */
    method ClearInteraction()
      modifies this`chatMessages, this`supportMessages, this`chatInput, this`supportInput
      modifies this`chatLoading, this`supportLoading, this`modal, this`generatingImages, this`loading
      ensures InteractionCleared()
    {
      chatMessages := [];
      supportMessages := [];
      chatInput := "";
      supportInput := "";
      chatLoading := false;
      supportLoading := false;
      modal := None;
      generatingImages := map[];
      loading := false;
    }

    /** The reset's state slices: stages one to three. */
    method ClearSlices()
      modifies this`form, this`errors, this`profile, this`matches, this`selected, this`outreach, this`posts
      modifies this`chatMessages, this`supportMessages, this`chatInput, this`supportInput
      modifies this`chatLoading, this`supportLoading, this`modal, this`generatingImages, this`loading
      ensures EngineCleared() && InteractionCleared()
    {
      ClearEngine();
      ClearInteraction();
    }

    /** The reset's last stage: the confirmed target is shown, the modal
        closes and the toast appears. */
    method ShowResetTarget()
      modifies this`step, this`resetModalOpen, this`resetToast
      ensures step == resetTarget && !resetModalOpen && resetToast
    {
      step := resetTarget;
      resetModalOpen := false;
      resetToast := true;
    }

    /** The confirmed reset: the form, the profile and everything derived
        from it, the chat and support conversations and their loading flags,
        the open modal and the image flags are cleared, speech is stopped,
        and the view moves to the confirmed target with the toast showing.
        The floating assistant's conversation, its input and its loading
        flag, and a pending email draft, are not in the frame: they stay as
        they were. */
    method PerformResetEngine()
      requires Valid()
      modifies this`form, this`errors, this`profile, this`matches, this`selected, this`outreach, this`posts
      modifies this`chatMessages, this`supportMessages, this`chatInput, this`supportInput
      modifies this`chatLoading, this`supportLoading, this`modal, this`generatingImages, this`loading
      modifies this`currentSource, this`playing, this`speakingText, this`speechLoading
      modifies this`step, this`resetModalOpen, this`resetToast
      ensures Valid()
      ensures old(SingleVoice()) ==> SingleVoice()
      ensures EngineCleared() && InteractionCleared()
      ensures speakingText.None? && currentSource.None? && !speechLoading
      ensures playing == old(playing) - SourceSet(old(currentSource))
      ensures step == old(resetTarget) && !resetModalOpen && resetToast
    {
      StopSpeech();
      ShowResetTarget();
      ClearSlices();
    }

    // -------------------------------------------------------------------
    // Navigation

    /** A landing-view button that starts the intake. */
    method StartIntake()
      modifies this`step
      ensures step == Intake && SidebarShown(step)
    {
      step := Intake;
    }

    /** A sidebar entry: the sidebar is drawn only off the landing, terms and
        docs views, and only entries it shows can be clicked; the click also
        stops speech. */
    method SidebarNavigate(target: Step)
      requires Valid() && SidebarShown(step)
      requires target in SidebarEntries && (!RequiresProfile(target) || profile.Some?)
      modifies this`step, this`currentSource, this`playing, this`speakingText, this`speechLoading
      ensures Valid()
      ensures old(SingleVoice()) ==> SingleVoice()
      ensures step == target
      ensures currentSource.None? && speakingText.None? && !speechLoading
      ensures playing == old(playing) - SourceSet(old(currentSource))
    {
      step := target;
      StopSpeech();
    }

    /** The mobile "Engine" button, drawn off the landing view: moves to the
        workflow target, which the sidebar also offers, and stops speech. */
    method EngineButton()
      requires Valid() && step != Landing
      modifies this`step, this`currentSource, this`playing, this`speakingText, this`speechLoading
      ensures Valid()
      ensures old(SingleVoice()) ==> SingleVoice()
      ensures step == WorkflowTarget(profile.Some?, |matches|, old(step))
      ensures step in SidebarItems(profile.Some?)
      ensures currentSource.None? && speakingText.None? && !speechLoading
      ensures playing == old(playing) - SourceSet(old(currentSource))
    {
      var target := WorkflowTarget(profile.Some?, |matches|, step);
      WorkflowTargetIsNavigable(profile.Some?, |matches|, step);
      StopSpeech();
      step := target;
    }

    /** "Back" from the terms and docs views. */
    method ReadingBack()
      modifies this`step
      ensures step == ReadingBackTarget(profile.Some?)
      ensures step in SidebarItems(profile.Some?)
    {
      step := ReadingBackTarget(profile.Some?);
    }

    /** The "Safely Interrupt" button of the loading overlay: only the flag
        drops; the call in flight still completes. */
    method InterruptLoading()
      modifies this`loading
      ensures !loading
    {
      loading := false;
    }

    // -------------------------------------------------------------------
    // Intake

    /** Typing into a form control: that field takes the value, every other
        field keeps its own, and only that field's error is cleared. */
    method UpdateField(f: Field, v: FieldValue)
      requires FitsField(f, v)
      modifies this`form, this`errors
      ensures GetField(form, f) == v
      ensures forall g :: g != f ==> GetField(form, g) == GetField(old(form), g)
      ensures errors == ClearFieldError(old(errors), f)
    {
      form := SetField(form, f, v);
      errors := ClearFieldError(errors, f);
    }

    /** Submitting the intake form. With any required field missing, the
        errors are shown and nothing else happens; otherwise loading starts
        and the enhancement call is made. Earlier errors are not cleared. */
    method BeginIntake() returns (call: Option<IntakeCall>)
      modifies this`errors, this`loading
      ensures call.None? <==> |Validate(form)| > 0
      ensures call.None? ==> errors == Validate(form) && loading == old(loading)
      ensures call.Some? ==> call.value == IntakeCall(EnhanceRequestOf(form), form)
      ensures call.Some? ==> loading && errors == old(errors)
    {
      var newErrors := Validate(form);
      if |newErrors| > 0 {
        errors := newErrors;
        call := None;
      } else {
        call := Some(IntakeCall(EnhanceRequestOf(form), form));
        loading := true;
      }
    }

    /** The enhancement call answered: on success the profile, with the
        partner lists of the submitted form, is stored and discovery is
        next; either way loading stops. */
    method FinishIntake(call: IntakeCall, result: AiResult<Profile>)
      modifies this`profile, this`step, this`loading
      ensures !loading
      ensures result.Ok? ==> profile == Some(MergePartners(result.value, call.form)) && step == Discovery
      ensures result.Ok? ==> profile.value.currentPartners == PartnerList(call.form.currentPartners)
      ensures result.Ok? ==> profile.value.pastPartners == PartnerList(call.form.pastPartners)
      ensures result.Failed? ==> profile == old(profile) && step == old(step)
    {
      loading := false;
      if result.Ok? {
        step := Discovery;
        profile := Some(MergePartners(result.value, call.form));
      }
    }

    // -------------------------------------------------------------------
    // Discovery, outreach and LinkedIn calls

    /** Starts a call that needs the profile (discovery, outreach, the
        LinkedIn calendar); without one nothing happens. */
    method BeginProfileCall() returns (request: Option<Profile>)
      modifies this`loading
      ensures request == profile
      ensures loading == (old(loading) || profile.Some?)
    {
      request := profile;
      if profile.Some? {
        loading := true;
      }
    }

    /** The discovery call answered: on success the matches replace the old
        ones and the report is next. */
    method FinishDiscovery(result: AiResult<seq<EmployerMatch>>)
      modifies this`matches, this`step, this`loading
      ensures !loading
      ensures result.Ok? ==> matches == result.value && step == Report
      ensures result.Failed? ==> matches == old(matches) && step == old(step)
    {
      if result.Ok? {
        matches := result.value;
        step := Report;
      }
      loading := false;
    }

    /** The outreach call for one employer answered: on success that
        employer's entry is written and no other entry changes, so
        regenerating for the same employer keeps one entry. */
    method FinishOutreach(employer: EmployerMatch, result: AiResult<OutreachAssets>)
      modifies this`outreach, this`loading
      ensures !loading
      ensures result.Ok? ==> employer.name in outreach && outreach[employer.name] == result.value
      ensures forall n :: n != employer.name ==> (n in outreach <==> n in old(outreach))
      ensures forall n :: n != employer.name && n in outreach ==> outreach[n] == old(outreach)[n]
      ensures employer.name in old(outreach) ==> outreach.Keys == old(outreach).Keys
      ensures result.Failed? ==> outreach == old(outreach)
    {
      if result.Ok? {
        outreach := outreach[employer.name := result.value];
      }
      loading := false;
    }

    /** The "Campaign" button of a report row: that employer alone is
        selected, its outreach call starts (when there is a profile) and the
        campaign view opens. */
    method CampaignButton(m: EmployerMatch) returns (request: Option<Profile>)
      modifies this`selected, this`loading, this`step
      ensures selected == {m.name} && step == Outreach
      ensures request == profile && loading == (old(loading) || profile.Some?)
      ensures Filtered() == KeepSelected(matches, {m.name})
    {
      selected := {m.name};
      request := BeginProfileCall();
      step := Outreach;
    }

    /** A click on an employer's checkbox. */
    method ToggleEmployer(name: string)
      modifies this`selected
      ensures name in selected <==> name !in old(selected)
      ensures selected == Toggle(old(selected), name)
    {
      selected := Toggle(selected, name);
    }

    /** The LinkedIn call answered: on success the posts replace the old
        ones. */
    method FinishLinkedin(result: AiResult<seq<LinkedInPost>>)
      modifies this`posts, this`loading
      ensures !loading
      ensures posts == if result.Ok? then result.value else old(posts)
    {
      if result.Ok? {
        posts := result.value;
      }
      loading := false;
    }

    // -------------------------------------------------------------------
    // Posts and graphics

    /** Edits post `index`: every other post is unchanged. */
    method UpdatePost(index: nat, u: PostUpdate)
      requires index < |posts|
      modifies this`posts
      ensures |posts| == |old(posts)| && posts[index] == ApplyUpdate(old(posts)[index], u)
      ensures forall k :: 0 <= k < |posts| && k != index ==> posts[k] == old(posts)[k]
    {
      posts := posts[index := ApplyUpdate(posts[index], u)];
    }

    /** The remove button on one hashtag of a post. */
    method RemoveHashtag(index: nat, tagIndex: nat)
      requires index < |posts|
      modifies this`posts
      ensures |posts| == |old(posts)|
      ensures posts[index] == old(posts)[index].(hashtags := RemoveTagAt(old(posts)[index].hashtags, tagIndex))
      ensures forall k :: 0 <= k < |posts| && k != index ==> posts[k] == old(posts)[k]
      ensures tagIndex < |old(posts)[index].hashtags| ==> |posts[index].hashtags| == |old(posts)[index].hashtags| - 1
    {
      UpdatePost(index, NewHashtags(RemoveTagAt(posts[index].hashtags, tagIndex)));
    }

    /** A click on one of a post's suggested tags: the tag is appended, and a
        post without repeated tags still has none. */
    method AddSuggestedHashtag(index: nat, tag: string)
      requires index < |posts|
      requires tag in SuggestionsFor(SuggestedTags(profile), posts[index].hashtags)
      modifies this`posts
      ensures |posts| == |old(posts)|
      ensures posts[index] == old(posts)[index].(hashtags := old(posts)[index].hashtags + [tag])
      ensures forall k :: 0 <= k < |posts| && k != index ==> posts[k] == old(posts)[k]
      ensures NoDuplicates(old(posts)[index].hashtags) ==> NoDuplicates(posts[index].hashtags)
    {
      var tags := posts[index].hashtags;
      if NoDuplicates(tags) {
        AddSuggestionKeepsDistinct(SuggestedTags(profile), tags, tag);
      }
      UpdatePost(index, NewHashtags(AddTag(tags, tag)));
    }

    /** Asks for a graphic for post `index`: nothing without a profile or
        without such a post; otherwise the post's flag goes up and the
        handler keeps the post list as it is now. */
    method BeginGraphic(index: nat) returns (snapshot: Option<seq<LinkedInPost>>)
      modifies this`generatingImages
      ensures snapshot.None? <==> profile.None? || index >= |posts|
      ensures snapshot.None? ==> generatingImages == old(generatingImages)
      ensures snapshot.Some? ==> snapshot.value == posts && generatingImages == old(generatingImages)[index := true]
    {
      if profile.None? || index >= |posts| {
        snapshot := None;
      } else {
        generatingImages := generatingImages[index := true];
        snapshot := Some(posts);
      }
    }

    /** The graphic call answered, as written: on success the list kept at
        request time, with the image set, replaces the current list, which
        drops every change made since (another post's image, a reset);
        either way the post's flag goes down. */
    method FinishGraphic(index: nat, snapshot: seq<LinkedInPost>, result: AiResult<string>)
      requires index < |snapshot|
      modifies this`posts, this`generatingImages
      ensures posts == if result.Ok? then GraphicAsWritten(old(posts), snapshot, index, result.value) else old(posts)
      ensures generatingImages == old(generatingImages)[index := false]
    {
      if result.Ok? {
        posts := GraphicAsWritten(posts, snapshot, index, result.value);
      }
      generatingImages := generatingImages[index := false];
    }

    /** The graphic call answered, applied to the current list: other posts'
        images and edits survive, and a post that is gone is not brought
        back. */
    method FinishGraphicOnCurrent(index: nat, result: AiResult<string>)
      modifies this`posts, this`generatingImages
      ensures |posts| == |old(posts)|
      ensures forall k :: 0 <= k < |posts| && k != index ==> posts[k] == old(posts)[k]
      ensures result.Ok? && index < |posts| ==> posts[index] == old(posts)[index].(imageUrl := Some(result.value))
      ensures result.Failed? ==> posts == old(posts)
      ensures generatingImages == old(generatingImages)[index := false]
    {
      if result.Ok? {
        posts := GraphicOnCurrent(posts, index, result.value);
      }
      generatingImages := generatingImages[index := false];
    }

    // -------------------------------------------------------------------
    // Market-search chat

    /** Sends the typed input, or `override` (a suggested prompt). Blank text
        or a call in flight does nothing; otherwise the input is cleared
        (unless an override was sent), the user's message is appended and
        loading starts. */
    method BeginChat(override: Option<string>) returns (sent: Option<string>)
      modifies this`chatInput, this`chatMessages, this`chatLoading
      ensures sent.None? <==> Trim(if override.Some? then override.value else old(chatInput)) == "" || old(chatLoading)
      ensures sent.None? ==> chatInput == old(chatInput) && chatMessages == old(chatMessages) && chatLoading == old(chatLoading)
      ensures sent.Some? ==> sent.value == (if override.Some? then override.value else old(chatInput))
      ensures sent.Some? ==> chatInput == (if override.Some? then old(chatInput) else "")
      ensures sent.Some? ==> chatMessages == old(chatMessages) + [UserMessage(sent.value)] && chatLoading
    {
      var msg := if override.Some? then override.value else chatInput;
      if Trim(msg) == "" || chatLoading {
        sent := None;
        return;
      }
      if override.None? {
        chatInput := "";
      }
      chatMessages := chatMessages + [UserMessage(msg)];
      chatLoading := true;
      sent := Some(msg);
    }

    /** The market-search call answered: its reply, or the fallback, is
        appended, even to a conversation that was reset meanwhile. */
    method FinishChat(result: AiResult<ChatReply>)
      modifies this`chatMessages, this`chatLoading
      ensures chatMessages == old(chatMessages) + [ChatAnswer(result)] && !chatLoading
      ensures chatMessages[|old(chatMessages)|].sources.Some? <==> result.Ok?
    {
      chatMessages := chatMessages + [ChatAnswer(result)];
      chatLoading := false;
    }

    // -------------------------------------------------------------------
    // Support expert

    /** Sends a question to the support page's expert. Blank text, or a call
        in flight, does nothing. Otherwise the history is taken from the
        conversation as it was, before the question is appended. */
    method BeginPageSupport(override: Option<string>) returns (call: Option<SupportCall>)
      modifies this`supportInput, this`supportMessages, this`supportLoading
      ensures call.None? <==> Trim(if override.Some? then override.value else old(supportInput)) == "" || old(supportLoading)
      ensures call.None? ==> supportInput == old(supportInput) && supportMessages == old(supportMessages) && supportLoading == old(supportLoading)
      ensures call.Some? ==> call.value == SupportCall(if override.Some? then override.value else old(supportInput), History(old(supportMessages)))
      ensures call.Some? ==> supportInput == (if override.Some? then old(supportInput) else "")
      ensures call.Some? ==> supportMessages == old(supportMessages) + [UserMessage(call.value.message)] && supportLoading
    {
      var msg := if override.Some? then override.value else supportInput;
      if Trim(msg) == "" || supportLoading {
        call := None;
        return;
      }
      if override.None? {
        supportInput := "";
      }
      var history := History(supportMessages);
      supportMessages := supportMessages + [UserMessage(msg)];
      supportLoading := true;
      call := Some(SupportCall(msg, history));
    }

    /** The same for the floating assistant, on its own conversation. */
    method BeginBotSupport(override: Option<string>) returns (call: Option<SupportCall>)
      modifies this`botInput, this`botMessages, this`botLoading
      ensures call.None? <==> Trim(if override.Some? then override.value else old(botInput)) == "" || old(botLoading)
      ensures call.None? ==> botInput == old(botInput) && botMessages == old(botMessages) && botLoading == old(botLoading)
      ensures call.Some? ==> call.value == SupportCall(if override.Some? then override.value else old(botInput), History(old(botMessages)))
      ensures call.Some? ==> botInput == (if override.Some? then old(botInput) else "")
      ensures call.Some? ==> botMessages == old(botMessages) + [UserMessage(call.value.message)] && botLoading
    {
      var msg := if override.Some? then override.value else botInput;
      if Trim(msg) == "" || botLoading {
        call := None;
        return;
      }
      if override.None? {
        botInput := "";
      }
      var history := History(botMessages);
      botMessages := botMessages + [UserMessage(msg)];
      botLoading := true;
      call := Some(SupportCall(msg, history));
    }

    /** The page expert answered: a `navigateApp` directive moves to its step
        (with no profile check and without stopping speech) and is
        announced; the reply, if any, is appended; loading stops. */
    method FinishPageSupport(result: AiResult<SupportReply>)
      modifies this`step, this`supportMessages, this`supportLoading
      ensures var o := SupportAnswer(PageVoice, result);
        step == (if o.navigate.Some? then o.navigate.value else old(step)) &&
        supportMessages == old(supportMessages) + (if o.reply.Some? then [o.reply.value] else [])
      ensures !supportLoading
    {
      var o := SupportAnswer(PageVoice, result);
      if o.navigate.Some? {
        step := o.navigate.value;
      }
      if o.reply.Some? {
        supportMessages := supportMessages + [o.reply.value];
      }
      supportLoading := false;
    }

    /** The floating assistant's expert answered, in its own words. */
    method FinishBotSupport(result: AiResult<SupportReply>)
      modifies this`step, this`botMessages, this`botLoading
      ensures var o := SupportAnswer(FloatingVoice, result);
        step == (if o.navigate.Some? then o.navigate.value else old(step)) &&
        botMessages == old(botMessages) + (if o.reply.Some? then [o.reply.value] else [])
      ensures !botLoading
    {
      var o := SupportAnswer(FloatingVoice, result);
      if o.navigate.Some? {
        step := o.navigate.value;
      }
      if o.reply.Some? {
        botMessages := botMessages + [o.reply.value];
      }
      botLoading := false;
    }

    // -------------------------------------------------------------------
    // Email export

    /** Opens the provider chooser for a drafted email. */
    method HandleEmailExport(recipient: string, subject: string, body: string)
      modifies this`emailDraft
      ensures emailDraft == Some(EmailDraft(recipient, subject, body))
    {
      emailDraft := Some(EmailDraft(recipient, subject, body));
    }

    /** Picks a provider: without a draft nothing happens; otherwise the
        compose URL to open is returned and the chooser closes. */
    method TriggerEmailProvider(p: Provider) returns (url: Option<string>)
      modifies this`emailDraft
      ensures url.None? <==> old(emailDraft).None?
      ensures url.Some? ==> url.value == ComposeUrl(p, old(emailDraft).value)
      ensures emailDraft.None?
    {
      if emailDraft.None? {
        url := None;
        return;
      }
      url := Some(ComposeUrl(p, emailDraft.value));
      emailDraft := None;
    }

    // -------------------------------------------------------------------
    // Derived views

    /** The campaign view's list of employers. */
    function Filtered(): (r: seq<EmployerMatch>)
      reads this`matches, this`selected
      ensures |selected| == 0 ==> r == matches
      ensures |selected| > 0 ==> forall m :: m in r <==> m in matches && m.name in selected
    {
      FilteredMatches(matches, selected)
    }
  }

  /** The required intake fields typed in: a title, a region, an industry
      and the terms accepted. */
  method FillRequired(app: AppState)
    modifies app`form, app`errors
    ensures app.form.title != "" && app.form.region != "" && app.form.industries != "" && app.form.termsAccepted
  {
    app.UpdateField(TitleField, Text("Welding Pathway"));
    app.UpdateField(RegionField, Text("Dayton"));
    app.UpdateField(IndustriesField, Text("Manufacturing"));
    app.UpdateField(TermsAcceptedField, Flag(true));
  }

  /** The intake submitted and answered with `enhanced`: a profile exists
      and discovery is shown. */
  method SubmitIntake(app: AppState, enhanced: Profile)
    modifies app`form, app`errors, app`loading, app`profile, app`step
    ensures app.profile.Some? && app.step == Discovery
  {
    FillRequired(app);
    assert Validate(app.form) == map[];
    var call := app.BeginIntake();
    app.FinishIntake(call.value, Ok(enhanced));
  }

  /** From first render to a LinkedIn calendar: start, submit the intake,
      pick the LinkedIn entry of the sidebar and generate the calendar, which
      the service answers with `calendar`. Speech is still silent. */
  method OpenLinkedin(app: AppState, enhanced: Profile, calendar: seq<LinkedInPost>)
    requires app.Valid() && app.step == Landing && app.playing == {} && app.currentSource.None?
    requires app.speechCalls == 0
    modifies app
    ensures app.Valid() && app.step == Linkedin && app.profile.Some? && app.posts == calendar
    ensures app.playing == {} && app.currentSource.None? && app.speakingText.None?
    ensures !app.speechLoading && app.speechCalls == 0
  {
    app.StartIntake();
    SubmitIntake(app, enhanced);
    app.SidebarNavigate(Linkedin);
    var request := app.BeginProfileCall();
    app.FinishLinkedin(Ok(calendar));
  }

  /** The events both narration scenarios share, on the LinkedIn view with
      speech silent: `first` is read aloud, the user clicks the sidebar's
      LinkedIn entry (which stops speech and so re-enables the buttons), and
      `second` is read aloud; the two speech calls are both unanswered. */
  method StaleRequestPending(app: AppState, first: string, second: string)
    requires app.Valid() && app.step == Linkedin && app.profile.Some?
    requires app.ReadAloudShown(first) && app.ReadAloudShown(second)
    requires app.playing == {} && app.currentSource.None?
    requires app.speakingText.None? && !app.speechLoading && app.speechCalls == 0
    modifies app
    ensures app.Valid() && app.SingleVoice()
    ensures app.speechLoading && app.speakingText == Some(second)
    ensures app.playing == {} && app.speechCalls == 2
  {
    var _ := app.RequestReadAloud(first);
    app.SidebarNavigate(Linkedin);
    var _ := app.RequestReadAloud(second);
  }

  /** As written, the narration of the first post, stopped before its audio
      arrived, still starts when it does, and the second post's starts
      beside it: two sources sound at once, whatever profile and calendar
      the service returned. */
  method OverlappingNarration(enhanced: Profile, calendar: seq<LinkedInPost>) returns (app: AppState, first: nat, second: nat)
    requires 2 <= |calendar|
    ensures first != second && first in app.playing && second in app.playing
  {
    app := new AppState();
    OpenLinkedin(app, enhanced, calendar);
    StaleRequestPending(app, calendar[0].content, calendar[1].content);
    first := app.AudioReady();
    second := app.AudioReady();
  }

  /** The same events with each answer checked against the slot: the stale
      narration is dropped and only the second one sounds. */
  method CheckedNarration(enhanced: Profile, calendar: seq<LinkedInPost>) returns (app: AppState, first: Option<nat>, second: Option<nat>)
    requires 2 <= |calendar| && calendar[0].content != calendar[1].content
    ensures first.None? && second.Some? && app.playing == {second.value}
  {
    app := new AppState();
    OpenLinkedin(app, enhanced, calendar);
    StaleRequestPending(app, calendar[0].content, calendar[1].content);
    first := app.AudioReadyChecked(calendar[0].content);
    second := app.AudioReadyChecked(calendar[1].content);
  }
}
