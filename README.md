# E3Engine application core, modelled in Dafny

E3Engine is a single-page workforce-development assistant. A program
coordinator fills in an intake form. An AI service enhances it into a
workforce profile. From the profile the application discovers matching
employers, builds outreach campaigns for the selected ones, writes a LinkedIn
calendar with generated graphics, and shows an analytics dashboard. A
market-search chat, a support expert and a floating assistant answer
questions, and any text can be read aloud.

All of that state and every handler lives in one React component,
`App.tsx`. This project models that component:

- `Domain` holds the entities: the eleven steps, the form, the profile,
  employer matches, outreach packages, posts and chat messages.
- `Text` writes out the JavaScript string operations the component relies on
  over `seq<char>`: `trim`, `split`, `join`, `startsWith`, `replace`, `\s`,
  CSV quote doubling, number formatting and `encodeURIComponent`.
- `Workflow` holds the step machine: the progress bar, the sidebar entries,
  the mobile "Engine" button and the "back" target of the reading views.
- `Intake` holds field edits, validation and the comma-separated lists.
- `Views` holds the selection filter, the reconnect marker, the CSV match
  report and the dashboard counts. The segment breakdown is a loop.
- `Content` holds the hashtag bank and hashtag edits, the line classifier of
  the markdown renderer, grounding citations and email compose URLs.
- `Completions` holds what each AI answer writes into the state.
- `Audio` holds the byte-filling loop of the base64 audio decoder.
- `App` holds the class `AppState`: the component's state as fields, with
  one method per handler.

A handler that awaits an AI call is split in two. A `Begin` method covers
its guards, its loading flag and what the call receives. A `Finish` method
covers what the completion writes, with the call's answer as a parameter
(`AiResult<T>`: `Ok(value)` or `Failed`). Completions may therefore be
applied in any order and at any time after their request, including after a
reset. Speech is modelled with audio sources as identities: `playing` holds
the sources that are sounding and `currentSource` is the one the component
holds on to.

## Model

| member | source | states |
|---|---|---|
| App.AppState.constructor | App.tsx:251-357 | First render: the landing view, an initial form, empty engine data, the floating assistant's greeting and no speech. |
| App.AppState.StopSpeech | App.tsx:450-457 | Only the held source stops; speech text and loading are cleared; from a single-voice state nothing is left sounding. |
| App.AppState.RequestReadAloud | App.tsx:510-522 | Only for a text whose button is on screen (the content of one post of the LinkedIn view, or a text of an open outreach modal whose employer has a campaign) and not while speech loads: clicking the text being spoken only stops it; any other text stops speech, then is fetched with loading on; one more speech call is outstanding. |
| App.AppState.AudioReady | App.tsx:523-538 | As written: a new source starts and is held on to whatever happened since the request; the source held before is not stopped. |
| App.AppState.AudioReadyChecked | App.tsx:510-545 | Corrected completion: audio starts exactly when its text is still the one loading; otherwise nothing changes; single voice is preserved. |
| App.AppState.SpeechFailed | App.tsx:539-544 | A failed speech call clears the slot (even a later request's) and stops the held source. |
| App.AppState.SourceEnded | App.tsx:531-535 | A source that ends stops sounding; the slot is cleared only when it is the held source. |
| App.AppState.HandleResetEngine | App.tsx:459-462 | The reset target is recorded and the confirmation modal opens. |
| App.AppState.CancelReset | App.tsx:2904 | Cancel closes the confirmation modal. |
| App.AppState.ClearEngine | App.tsx:469-478 | The form, its errors, the profile, matches, selection, outreach and posts are back to their initial values. |
| App.AppState.ClearInteraction | App.tsx:480-489 | Chat and support conversations, inputs, loading flags, the modal, image flags and global loading are cleared. |
| App.AppState.ShowResetTarget | App.tsx:494-497 | The confirmed target is shown, the modal closes and the toast appears. |
| App.AppState.PerformResetEngine | App.tsx:468-503 | The whole reset: engine and interaction state cleared, speech stopped, view at the confirmed target; the floating assistant and an email draft are outside the frame and keep their values. |
| App.AppState.StartIntake | App.tsx:1191 | The landing view's start button opens the intake, where the sidebar is drawn. |
| App.AppState.SidebarNavigate | App.tsx:989-1034 | The sidebar is drawn off the landing, terms and docs views, and only its visible entries can be chosen; the view moves there and speech stops. |
| App.AppState.EngineButton | App.tsx:2652-2671 | The view moves to the workflow target, which is always a sidebar entry; speech stops. |
| App.AppState.ReadingBack | App.tsx:2453 | "Back" from docs or terms goes to the reading-back target, a visible sidebar entry. |
| App.AppState.InterruptLoading | App.tsx:1144 | Interrupting drops only the loading flag. |
| App.AppState.UpdateField | App.tsx:636-648 | The edited field takes the value, every other field keeps its own, and only that field's error is cleared. |
| App.AppState.BeginIntake | App.tsx:651-670 | A submission is refused exactly when validation finds errors, which are then shown; otherwise loading starts and the enhancement request is built from the form. |
| App.AppState.FinishIntake | App.tsx:671-691 | On success the profile, with the form's own partner lists, is stored and discovery is next; loading stops either way. |
| App.AppState.BeginProfileCall | App.tsx:699-701 | A profile-dependent call starts (loading on) exactly when a profile exists. |
| App.AppState.FinishDiscovery | App.tsx:702-711 | On success the matches are replaced and the report is next; loading stops. |
| App.AppState.FinishOutreach | App.tsx:715-727 | On success only that employer's entry is written; regenerating keeps one entry per employer. |
| App.AppState.CampaignButton | App.tsx:1854-1857 | The employer alone is selected, its outreach call starts and the campaign view shows that employer. |
| App.AppState.ToggleEmployer | App.tsx:963-971 | The name leaves the selection if present, joins it otherwise. |
| App.AppState.FinishLinkedin | App.tsx:803-815 | On success the posts are replaced; loading stops. |
| App.AppState.UpdatePost | App.tsx:624-630 | The one post takes the partial update; every other post is unchanged. |
| App.AppState.RemoveHashtag | App.tsx:2124 | The tag at the index is removed from that post only; the list shrinks by one. |
| App.AppState.AddSuggestedHashtag | App.tsx:2145-2152 | A suggested tag is appended to that post only, and a post without repeated tags stays without. |
| App.AppState.BeginGraphic | App.tsx:818-820 | Without a profile or without that post nothing happens; otherwise that post's flag goes up and the current list is captured. |
| App.AppState.FinishGraphic | App.tsx:821-831 | As written: the captured list, with the image, replaces the current list; the flag goes down. |
| App.AppState.FinishGraphicOnCurrent | App.tsx:818-832 | Corrected completion: only the one post gains the image, in the current list; nothing else changes. |
| App.AppState.BeginChat | App.tsx:835-842 | Blank text or a call in flight does nothing; otherwise the input is cleared unless a prompt was passed, the user message is appended and loading starts. |
| App.AppState.FinishChat | App.tsx:878-898 | The answer (or the fallback) is appended; it carries sources exactly when the call succeeded. |
| App.AppState.BeginPageSupport | App.tsx:902-910 | Same guard; the history sent is the conversation before the question. |
| App.AppState.BeginBotSupport | App.tsx:931-937 | The floating assistant's version, on its own conversation. |
| App.AppState.FinishPageSupport | App.tsx:915-930 | The step and the conversation are updated as the support answer dictates; loading stops. |
| App.AppState.FinishBotSupport | App.tsx:931-957 | The same, in the floating assistant's words. |
| App.AppState.HandleEmailExport | App.tsx:547-549 | The draft is kept for the provider chooser. |
| App.AppState.TriggerEmailProvider | App.tsx:551-577 | Without a draft nothing is opened; otherwise the provider's compose URL for it is returned and the chooser closes. |
| App.AppState.Filtered | App.tsx:362-365 | All matches with an empty selection; otherwise exactly the selected ones. |
| App.FillRequired | App.tsx:636-648 | Typing a title, region and industry and ticking the terms leaves every required field filled. |
| App.SubmitIntake | App.tsx:651-691 | A filled form passes validation, and the answered enhancement call stores a profile and shows discovery. |
| App.OpenLinkedin | App.tsx:803-815 | From first render, through the intake, the sidebar and the calendar generator, the LinkedIn view shows the calendar the service returned, with a profile and speech silent. |
| App.StaleRequestPending | App.tsx:510-522 | On the LinkedIn view, for two texts whose buttons are shown: read the first aloud, click the sidebar's LinkedIn entry, read the second aloud; one voice, the second loading, two calls outstanding. |
| App.OverlappingNarration | App.tsx:523-538 | From first render, for any profile and any calendar of two or more posts the service returns, reading the first two posts aloud: as written, both answers start a source, and two distinct sources sound at once. |
| App.CheckedNarration | App.tsx:510-545 | The same events, for a calendar whose first two posts differ, with checked completions: the stale answer is dropped and only the second narration sounds. |
| Audio.ByteOf | App.tsx:123 | A character code below 256 is stored as itself. |
| Audio.BinaryToBytes | App.tsx:118-126 | The array has one byte per character, each the character's code modulo 256. |
| Domain.ApplyUpdate | App.tsx:624-630 | The named field (content or hashtags) takes the new value; every other field of the post keeps its own. |
| Domain.History | App.tsx:908 | The history has one turn per message, with its role and text. |
| Workflow.IndexOf | App.tsx:370 | `indexOf`: -1 exactly when absent; otherwise the first position holding the value. |
| Workflow.Progress | App.tsx:367-375 | The percentage lies between 0 and 100. |
| Workflow.ProgressValues | App.tsx:367-375 | 0 exactly on landing, (i+1)/6 of 100 for the i-th linear step, 100 off the path. |
| Workflow.ProgressIncreasesAlongPath | App.tsx:367-375 | Progress is positive and strictly grows along the linear path. |
| Workflow.KeepVisible | App.tsx:1027 | An entry is kept exactly when it needs no profile or a profile exists. |
| Workflow.SidebarItems | App.tsx:1016-1027 | The sidebar offers exactly its entries that are not gated, or all of them with a profile. |
| Workflow.WorkflowTarget | App.tsx:977-982 | Intake without a profile, discovery without matches, the report from the chat, docs, terms and support views, else the current step. |
| Workflow.WorkflowTargetIsNavigable | App.tsx:977-982 | The workflow target is always an entry the sidebar shows. |
| Workflow.ReadingBackTarget | App.tsx:2453 | Discovery with a profile, landing without one; either is a sidebar entry. |
| Intake.GetField | App.tsx:103-115 | A field's value has the kind of its control. |
| Intake.SetField | App.tsx:636-640 | The one field takes the value; every other field keeps its own. |
| Intake.ClearFieldError | App.tsx:641-647 | A non-empty error of the edited field is removed; no other error changes. |
| Intake.Validate | App.tsx:653-657 | An error appears under title, region, industries or terms exactly when that one is empty or unaccepted, and nowhere else. |
| Intake.TrimAll | App.tsx:669 | Each piece trimmed, in order, none dropped. |
| Intake.DropEmpty | App.tsx:680-681 | Exactly the non-empty pieces, none added. |
| Intake.DropEmptyAppend | App.tsx:680-681 | The filter distributes over concatenation, so the pieces kept keep their order and repeats. |
| Intake.IndustryList | App.tsx:669 | The industries are the comma pieces, each trimmed. |
| Intake.TrimAllClean | App.tsx:669 | Trimmed pieces keep out a character that was out, and are their own trim. |
| Intake.PartnerList | App.tsx:680-681 | Every partner is non-empty, comma-free and trimmed. |
| Intake.PartnerPiecesClean | App.tsx:680-681 | The same facts about the split, trim and filter chain. |
| Intake.TrimAllIdentity | App.tsx:669 | Already trimmed pieces pass through trimming unchanged. |
| Intake.DropEmptyIdentity | App.tsx:680-681 | Non-empty pieces pass through the filter unchanged. |
| Intake.PartnerListRoundTrip | App.tsx:680-681 | Clean names joined by commas come back as the same list. |
| Intake.SplitTwoCommas | App.tsx:669 | "A,,B" splits into three pieces, the middle one empty. |
| Intake.TrimLetters | App.tsx:669 | Trimming leaves "A", "" and "B" as they are. |
| Intake.DropBlank | App.tsx:680-681 | The filter drops the empty middle piece. |
| Intake.BlankIndustryKept | App.tsx:669-681 | An empty industry reaches the enhancement call, where the same text gives partners without it. |
| Intake.EnhanceRequestOf | App.tsx:666-676 | The request carries title, region, program link, contact and the industry list of the form. |
| Intake.MergePartners | App.tsx:678-682 | The stored profile is the enhanced one with only its partner lists replaced by the form's. |
| Views.KeepSelected | App.tsx:364 | Exactly the matches whose names are selected. |
| Views.FilteredMatches | App.tsx:362-365 | All matches with an empty selection; otherwise exactly the selected ones. |
| Views.KeepSelectedPreservesOrder | App.tsx:364 | Filtering distributes over concatenation, so match order is kept. |
| Views.SelectingAllKeepsAll | App.tsx:364 | With every name selected the list is shown whole and in order. |
| Views.Toggle | App.tsx:963-971 | The name flips membership; no other name moves. |
| Views.ToggleTwice | App.tsx:963-971 | Two clicks restore the selection. |
| Views.DisplayRationale | App.tsx:1786-1787 | A rationale without the leading marker is shown as is. |
| Views.ReconnectDisplay | App.tsx:1786-1787 | A reconnect shows the text after its marker, trimmed. |
| Views.TaggedDisplaysUntagged | App.tsx:1786-1787 | Tagging then displaying gives back the trimmed text. |
| Views.MarkerNotAtStart | App.tsx:1786-1787 | A marker not at the very start is not a reconnect and is shown in place. |
| Views.OrElse | App.tsx:752-757 | `value || fallback`: the value unless missing or empty. |
| Views.CsvCells | App.tsx:750-759 | One cell per header column. |
| Views.CsvRows | App.tsx:750-761 | One comma-joined row per match, in order. |
| Views.MatchReport | App.tsx:747-761 | No report exactly when there are no matches; otherwise the header line and the rows, joined by line breaks (pinned by MatchReportLines). |
| Views.MatchReportLines | App.tsx:761 | When no cell holds a line break, the report splits at line breaks into exactly the header line, then one line per match, in match order. |
| Views.HeaderOneLine | App.tsx:749 | The header line holds no line break. |
| Views.EscapedCellsReadBack | App.tsx:751-758 | The name, size and rationale cells read back to the values they hold, whatever quotes are in them. |
| Views.UnescapedCellsBreak | App.tsx:754-757 | Segment, website, phone and email are quoted without doubling: whenever one of them holds a quote, its cell does not read back to it. |
| Views.UnescapedWebsiteBreaks | App.tsx:755 | A website holding a quote gives a cell that does not read back. |
| Views.HighAlignment | App.tsx:380 | At most the number of matches; all of them exactly when every score is 85 or more. |
| Views.HighAlignmentAppend | App.tsx:380 | One more match adds one exactly when it scores 85 or more. |
| Views.SegmentCount | App.tsx:385-388 | Positive exactly when some match has that segment. |
| Views.SegmentCountAppend | App.tsx:386-388 | One more match adds one to its own segment's count only. |
| Views.BreakdownStep | App.tsx:386-388 | Counting one more match keeps the breakdown exact. |
| Views.SegmentBreakdown | App.tsx:384-389 | A segment is a key exactly when some match has it, and its value is that segment's count. |
| Views.ComputeDashboardStats | App.tsx:378-392 | Totals, the high-alignment count, campaigns, posts and the exact segment breakdown. |
| Content.DistinctFrom | App.tsx:399 | Every unseen value once, nothing else, no repeats. |
| Content.DistinctFromAppend | App.tsx:399 | The distinct values of `a + b` are those of `a`, then those of `b` not already seen: first-appearance order. |
| Content.Distinct | App.tsx:399 | `[...new Set(xs)]`: every value of the input once. |
| Content.DistinctSnoc | App.tsx:399 | Appending a value adds it at the end of the distinct values exactly when it is new: the Set's insertion order. |
| Content.DistinctFromPrefix | App.tsx:399 | A repeat-free prefix keeps its place in front. |
| Content.StripAll | App.tsx:398 | Each industry with its whitespace removed. |
| Content.SuggestedTags | App.tsx:395-400 | The four defaults without a profile; with one, the seven base tags first, then the stripped industries, each tag once. |
| Content.Absent | App.tsx:2146 | Exactly the bank tags the post does not carry. |
| Content.AbsentAppend | App.tsx:2146 | The filter distributes over concatenation, so the bank's order is kept. |
| Content.SuggestionsFor | App.tsx:2145-2147 | The first eight absent tags in bank order, or all of them when fewer: `.filter(...).slice(0, 8)`. |
| Content.RemoveTagAt | App.tsx:2124 | The tag at the index removed, or the list unchanged when there is none. |
| Content.AddTag | App.tsx:2150-2152 | The tag is appended after the existing tags. |
| Content.AddThenRemove | App.tsx:2124-2152 | Removing the tag just added restores the list. |
| Content.AddSuggestionKeepsDistinct | App.tsx:2145-2152 | Adding a suggestion never repeats a tag. |
| Content.ClassifyLine | App.tsx:159-185 | Spacer exactly for blank lines; headings and bullets carry the trimmed text after their marker in precedence order; paragraphs keep the line untrimmed. |
| Content.Blocks | App.tsx:159 | One block per line of the text. |
| Content.ClassifyAll | App.tsx:159-185 | Each line classified, in order. |
| Content.HeadingRoundTrip | App.tsx:159-185 | A one-line heading renders as one heading carrying its title. |
| Content.TrimIndented | App.tsx:163 | An indented "x" trims to "x". |
| Content.ParagraphKeepsIndent | App.tsx:163-183 | A paragraph is shown with its indentation. |
| Content.Citations | App.tsx:882-885 | Only chunks with both a URI and a title become sources; all do when all are usable. |
| Content.CitationsAppend | App.tsx:882-885 | One more chunk adds its own title and URI at the end exactly when it is usable: the sources are the usable chunks, in order. |
| Content.FirstWithUri | App.tsx:888 | `findIndex`: -1 exactly when no source has the URI; otherwise its first position. |
| Content.FirstWithUriPrefix | App.tsx:888 | Appending sources does not move a URI's first position. |
| Content.FirstOccurrencesExtend | App.tsx:887-889 | First occurrences stay first when a source is appended. |
| Content.LastIsFirst | App.tsx:887-889 | The last source is its URI's first exactly when no earlier source has that URI. |
| Content.AppendNewUri | App.tsx:887-889 | Appending a source with a new URI keeps URIs distinct. |
| Content.UniqueByUri | App.tsx:887-889 | URIs distinct, the same URIs as the input, each kept source the first with its URI, and the kept sources in the order of those first positions. |
| Content.InFirstOrderKept | App.tsx:887-889 | Appending sources does not change the order of the ones already kept. |
| Content.InFirstOrderNew | App.tsx:887-889 | A source whose URI first appears at the end comes after every kept source. |
| Content.GroundingSources | App.tsx:880-889 | None without metadata; otherwise each source is the first citation with its URI (title included), in citation order, with distinct URIs and every cited URI kept. |
| Content.ProviderUrlJoins | App.tsx:561-572 | Each provider's URL template is exactly its intended parameters joined by `&`. |
| Content.ComposeUrl | App.tsx:553-572 | The compose URL of a draft is its intended parameters, built from the encoded parts (the mailto recipient as typed), joined by `&`. |
| Content.ComposeUrlSplits | App.tsx:551-577 | A webmail URL splits on `&` into exactly its intended parameters; the mailto link does when the recipient has no `&`. |
| Content.GmailSplits | App.tsx:561-563 | The Gmail URL splits into its five parameters. |
| Content.OutlookSplits | App.tsx:564-566 | The Outlook URL splits into its three parameters. |
| Content.YahooSplits | App.tsx:567-569 | The Yahoo URL splits into its three parameters. |
| Content.MailtoSplits | App.tsx:570-572 | The mailto link splits into two parameters. |
| Content.MailtoRecipientUnencoded | App.tsx:570-572 | An `&` in a mailto recipient cuts the recipient in two. |
| Completions.ChatAnswer | App.tsx:878-896 | The reply with sources exactly on success, with distinct, usable URIs; the fallback text on failure. |
| Completions.SupportAnswer | App.tsx:907-957 | Navigation exactly for a first call named `navigateApp`, to its step, announced; no reply for another call; the text or fallback otherwise; the error text on failure. |
| Completions.AnnouncedStepId | App.tsx:919-923 | The announcement holds the step id after its lead. |
| Completions.AnnouncementIdentifiesStep | App.tsx:919-923 | Equal announcements of the same text name the same step. |
| Completions.WithImage | App.tsx:823-825 | Only that post changes, and only its image. |
| Completions.GraphicAsWritten | App.tsx:821-831 | As written: the result is the captured list with the image on that post; every other post is the captured one, whatever the current list holds. |
| Completions.GraphicAsWrittenLosesImage | App.tsx:818-832 | Two graphics from one list: the second completion erases the first one's image. |
| Completions.GraphicOnCurrent | App.tsx:818-832 | Only that post's image changes; a post that is gone is not brought back. |
| Completions.GraphicOnCurrentKeepsBoth | App.tsx:818-832 | Applied to the current list, both images survive in either order. |
| Text.Trim | App.tsx:163 | `trim` never lengthens the text and invents no character. |
| Text.TrimStart | App.tsx:163 | The suffix after the leading whitespace. |
| Text.TrimEnd | App.tsx:163 | The prefix before the trailing whitespace. |
| Text.TrimSteps | App.tsx:163 | `trim` is the leading run removed, then the trailing run. |
| Text.TrimBounds | App.tsx:163 | The trimmed text is a slice with only whitespace around it. |
| Text.TrimIsInfix | App.tsx:163 | The trimmed text is a slice with only whitespace around it and none at its ends. |
| Text.TrimEmptyIff | App.tsx:837 | A text trims to nothing exactly when it is all whitespace. |
| Text.TrimNoOp | App.tsx:669 | A text without whitespace at its ends is its own trim. |
| Text.TrimIdempotent | App.tsx:669 | Trimming twice is trimming once. |
| Text.Join | App.tsx:2944 | `join`: nothing for no parts; otherwise every part's characters plus one separator between neighbours. |
| Text.Split | App.tsx:669 | At least one piece, none holding the separator. |
| Text.SplitJoin | App.tsx:159 | Joining the pieces with the separator gives the text back. |
| Text.SplitJoinedLines | App.tsx:761 | A first line and further lines, none holding the separator, split back into exactly those lines. |
| Text.JoinKeepsOut | App.tsx:761 | A character in neither the parts nor the separator is not in their join. |
| Text.JoinSplit | App.tsx:680-681 | Splitting separator-free pieces joined by it gives them back. |
| Text.SplitNoSep | App.tsx:159 | A text without the separator is one piece. |
| Text.SplitAround | App.tsx:669 | Splitting at a separator splits both sides. |
| Text.IndexOfFrom | App.tsx:1787 | The first occurrence at or after a position, or -1. |
| Text.ReplaceFirst | App.tsx:1787 | `replace` with a string pattern: unchanged when the pattern does not occur; otherwise its first occurrence, and only that, is replaced. |
| Text.ReplacePrefix | App.tsx:1787 | Replacing a leading pattern by nothing drops it. |
| Text.RemoveSpaces | App.tsx:398 | Exactly the non-whitespace characters remain. |
| Text.RemoveSpacesAppend | App.tsx:398 | Removal distributes over concatenation, so the remaining characters keep their order. |
| Text.DoubleQuotes | App.tsx:751 | Quote doubling never shortens the text. |
| Text.DoubleQuotesRoundTrip | App.tsx:751 | Undoubling a doubled text gives it back. |
| Text.UndoubleShrinks | App.tsx:751 | Reading a field back never lengthens it, and shortens one that holds a quote. |
| Text.UnescapedQuoteLost | App.tsx:754-757 | A text holding a quote, left undoubled, never reads back as itself. |
| Text.LoneQuoteUnreadable | App.tsx:755 | A lone quote does not undouble. |
| Text.NatToDecimal | App.tsx:753 | Decimal digits without a leading zero. |
| Text.DecimalRoundTrip | App.tsx:753 | Reading the decimal back gives the number. |
| Text.EncodeURIComponent | App.tsx:556-558 | Only `%` and unreserved characters, never shorter. |
| Text.EncodedHasNoDelimiters | App.tsx:556-558 | The encoding holds no `&`, `?`, `=` or `#`. |

## Left out

- The AI service module (`geminiService.ts`) is not part of this model. Every answer it gives, and every failure, is a parameter of a `Finish` method.
- Audio decoding beyond the byte loop is left out: `atob`, the float conversion of `decodeAudioData` (App.tsx:128-146) and the `AudioContext`. Audio sources are opaque identities.
- Browser effects are left out because they are I/O: clipboard, share, the download anchors of the CSV and image exports, `window.open`, confetti, `alert` and scrolling.
- Timers (the toast timeout) and `Math.random` are left out.
- Workflow.Progress: computed as an exact `real`; JavaScript's floating-point rounding of `(index + 1) / 6 * 100` is not modelled.
- Views.ComputeDashboardStats: the rounded average score (`avgScore`, App.tsx:382) is left out, because it is floating-point rounding of a mean.
- The `parseBold` splitter of the markdown renderer (App.tsx:149-157) uses a regular expression with a capture group, which is not modelled. Only the line classifier is.
- The modals' open and close handlers, other than the reset confirmation and the email chooser, are plain flag updates and are not modelled.
- Completions.SupportAnswer: a `navigateApp` call names a `Step`. A directive naming a string that is not one of the eleven steps is not modelled.
- App.AppState.SourceEnded: in a browser, a source that `stopSpeech` stopped also fires `onended`. The model removes a stopped source from `playing` at once, and its later `onended` finds it no longer held, so that event is not modelled separately.
- Asynchronous interleavings are modelled only as the order in which `Begin` and `Finish` methods are called. React's batching of state updates is not modelled.
- The "Step N of 6" header shown without a profile is display text and is left out.
- App.AppState.PerformResetEngine: following the code, the reset does not clear the floating assistant's messages, input and loading flag, or a pending email draft. Those fields are outside its frame.
- App.AppState.BeginProfileCall: the discovery, outreach and LinkedIn handlers share this guard. Their prompts are built by the AI service module and are not modelled.
- Domain.EmployerMatch: the score is an `int`. The service types it as a JSON number and asks for a weighted percentage, so it may be fractional (87.5). A fractional score is not modelled: its CSV cell text (`${m.score}`, App.tsx:753, written by `IntToDecimal`) and its place in the `>= 85` count (App.tsx:380) are stated for whole scores only.
- The segment cell's display (`segment.split('&')[0]`, App.tsx:1923) is presentation only and is left out.

## Findings

| source | as written | input that shows it | evidently intended | confidence | as-written member | corrected member |
|---|---|---|---|---|---|---|
| App.tsx:818-832 | A graphic completion copies the post list it captured at request time, sets the image, and stores that copy. | Request graphics for posts 0 and 1 of a list without images; answer 0, then 1. The second store is a copy without post 0's image, so that image is lost. A reset in between is also undone. | Set the image on the list as it is when the answer arrives (`setLinkedinPosts(prev => ...)`), keeping every other change. | not executed | Completions.GraphicAsWrittenLosesImage (App.AppState.FinishGraphic) | Completions.GraphicOnCurrentKeepsBoth (App.AppState.FinishGraphicOnCurrent) |
| App.tsx:510-545 | An answered speech call starts its audio and holds on to it without checking that its text is still the one requested. The source held before is not stopped. | Generate a LinkedIn calendar of two posts. On the LinkedIn view, read post one aloud, click the sidebar's LinkedIn entry before the audio arrives (it stops speech and re-enables the buttons), then read post two aloud. Both answers arrive and two narrations play at once. | Start the audio only when its text is still the one loading, and drop a stale answer. | not executed | App.OverlappingNarration | App.CheckedNarration |
