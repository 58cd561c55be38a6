/** The entities the application keeps in memory: the workflow steps, the
    intake form, the enhanced workforce profile, discovered employer matches,
    outreach packages, LinkedIn posts and chat messages. */
module Domain {

  import opened Wrappers

  /** The eleven views of the application; `Landing` is where it starts. */
  datatype Step =
    | Landing | Intake | Discovery | Report | Outreach | Linkedin | Dashboard
    | Chat | Support | Docs | Terms

  /** The identifier the application uses for a step, as it appears in
      navigation directives and in the messages that announce them. */
  function StepId(s: Step): string {
    match s
    case Landing => "landing"
    case Intake => "intake"
    case Discovery => "discovery"
    case Report => "report"
    case Outreach => "outreach"
    case Linkedin => "linkedin"
    case Dashboard => "dashboard"
    case Chat => "chat"
    case Support => "support"
    case Docs => "docs"
    case Terms => "terms"
  }

  /** The intake form as typed: every list is still one comma-separated
      string. */
  datatype Form = Form(
    title: string,
    region: string,
    industries: string,
    wageRange: string,
    contactName: string,
    contactEmail: string,
    contactPhone: string,
    programLink: string,
    currentPartners: string,
    pastPartners: string,
    termsAccepted: bool)

  const InitialForm := Form("", "", "", "", "", "", "", "", "", "", false)

  /** The keys of the form, which are also the keys of the error map. */
  datatype Field =
    | TitleField | RegionField | IndustriesField | WageRangeField
    | ContactNameField | ContactEmailField | ContactPhoneField | ProgramLinkField
    | CurrentPartnersField | PastPartnersField | TermsAcceptedField

  /** A value typed into a form control: text for the text inputs, a flag for
      the terms checkbox. */
  datatype FieldValue = Text(text: string) | Flag(flag: bool)

  predicate FitsField(f: Field, v: FieldValue) {
    if f == TermsAcceptedField then v.Flag? else v.Text?
  }

  datatype Contact = Contact(name: string, email: string, phone: string)

  /** The workforce program once the AI service has enhanced the intake: the
      lists of current and past partners are added locally afterwards. */
  datatype Profile = Profile(
    title: string,
    region: string,
    industries: seq<string>,
    wageRange: string,
    elevatorPitch: string,
    geoAnalytics: string,
    siteSummary: string,
    safetyAssessment: string,
    contact: Contact,
    targetJobTitles: seq<string>,
    hardSkills: seq<string>,
    softSkills: seq<string>,
    ctaLink: string,
    currentPartners: seq<string>,
    pastPartners: seq<string>)

  /** What the enhancement call receives: title, region, the industries split
      on commas and trimmed, the program link and the contact typed in. */
  datatype EnhanceRequest = EnhanceRequest(
    title: string,
    region: string,
    industries: seq<string>,
    ctaLink: string,
    contact: Contact)

  /** One discovered employer. The name is the key into the outreach map and
      the selection set. Optional fields that are absent are None. */
  datatype EmployerMatch = EmployerMatch(
    name: string,
    score: int,
    rationale: string,
    segment: string,
    industryAlignment: int,
    jobTitleOverlap: int,
    skillOverlap: int,
    geographicProximity: int,
    hiringSignals: int,
    website: Option<string>,
    phone: Option<string>,
    contactEmail: Option<string>,
    employeeCount: Option<string>)

  /** One generated campaign package for one employer. */
  datatype OutreachAssets = OutreachAssets(
    primaryEmail: string,
    followUps: seq<string>,
    callScript: seq<string>,
    subjectLines: seq<string>,
    linkedInMessage: string)

  datatype LinkedInPost = LinkedInPost(
    day: int,
    pillar: string,
    content: string,
    hashtags: seq<string>,
    imageUrl: Option<string>)

  /** The partial updates the LinkedIn view's editor applies to one post:
      new body text or a new hashtag list. */
  datatype PostUpdate = NewContent(content: string) | NewHashtags(hashtags: seq<string>)

  /** `{ ...post, ...updates }`: the named field takes the new value and
      every other field keeps its own. */
  function ApplyUpdate(p: LinkedInPost, u: PostUpdate): (q: LinkedInPost)
    ensures q.day == p.day && q.pillar == p.pillar && q.imageUrl == p.imageUrl
    ensures u.NewContent? ==> q.content == u.content && q.hashtags == p.hashtags
    ensures u.NewHashtags? ==> q.hashtags == u.hashtags && q.content == p.content
  {
    match u
    case NewContent(c) => p.(content := c)
    case NewHashtags(h) => p.(hashtags := h)
  }

  datatype Role = User | Model

  /** A grounding citation attached to an answer of the market-search chat. */
  datatype Source = Source(title: string, uri: string)

  /** `sources` is None on every message except the market-search chat's
      successful answers. */
  datatype ChatMessage = ChatMessage(role: Role, text: string, sources: Option<seq<Source>>)

  function UserMessage(text: string): ChatMessage {
    ChatMessage(User, text, None)
  }

  function ModelMessage(text: string): ChatMessage {
    ChatMessage(Model, text, None)
  }

  /** The two-field view of a message that is sent to the support expert as
      conversation history. */
  datatype Turn = Turn(role: Role, text: string)

  function History(msgs: seq<ChatMessage>): (h: seq<Turn>)
    ensures |h| == |msgs|
    ensures forall k :: 0 <= k < |h| ==> h[k].role == msgs[k].role && h[k].text == msgs[k].text
  {
    if msgs == [] then [] else [Turn(msgs[0].role, msgs[0].text)] + History(msgs[1..])
  }

  /** The greeting the floating assistant starts with. */
  const BotGreeting := "Hello! I'm the E^3 Expert Bot. I can answer questions about the engine, help you find features, or explain how matching works. How can I help you scale your network today?"

  /** The modal that shows one employer's follow-ups, call script or
      LinkedIn message. */
  datatype ModalKind = FollowUps | Script | LinkedInDm
  datatype Modal = Modal(kind: ModalKind, employer: string)
}
