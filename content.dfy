/** Content the LinkedIn, chat and campaign views derive from stored data:
    the hashtag suggestions and hashtag edits, the line classifier of the
    markdown renderer, the grounding citations attached to market-search
    answers, and the compose URLs of the email providers. */
module Content {

  import opened Wrappers
  import opened Text
  import opened Domain

  // ---------------------------------------------------------------------
  // Hashtags

  predicate NoDuplicates(xs: seq<string>) {
    forall i, j :: 0 <= i < j < |xs| ==> xs[i] != xs[j]
  }

  /** `[...new Set(xs)]` with the values in `seen` already inserted: every
      value not yet seen, once, in order of first appearance. */
  function DistinctFrom(xs: seq<string>, seen: set<string>): (r: seq<string>)
    ensures NoDuplicates(r)
    ensures forall x :: x in r <==> x in xs && x !in seen
  {
    if xs == [] then []
    else if xs[0] in seen then DistinctFrom(xs[1..], seen)
    else [xs[0]] + DistinctFrom(xs[1..], seen + {xs[0]})
  }

  function Distinct(xs: seq<string>): (r: seq<string>)
    ensures NoDuplicates(r)
    ensures forall x :: x in r <==> x in xs
  {
    DistinctFrom(xs, {})
  }

  lemma ConsAppend(a: seq<string>, tail: seq<string>)
    requires a != []
    ensures [a[0]] + (a[1..] + tail) == a + tail
  {
    assert [a[0]] + a[1..] == a;
  }

  /** The tail of a duplicate-free sequence is duplicate-free and does not
      hold its head. */
  lemma NoDuplicatesTail(a: seq<string>)
    requires a != [] && NoDuplicates(a)
    ensures NoDuplicates(a[1..]) && a[0] !in a[1..]
  {
    forall k | 0 <= k < |a[1..]| ensures a[1..][k] != a[0] {
      assert a[1..][k] == a[k + 1];
    }
    forall i, j | 0 <= i < j < |a[1..]| ensures a[1..][i] != a[1..][j] {
      assert a[1..][i] == a[i + 1] && a[1..][j] == a[j + 1];
    }
  }

  /** A duplicate-free run of values not yet seen passes through unchanged
      and in front: first appearances keep their places. */
  lemma {:induction false} DistinctFromPrefix(a: seq<string>, b: seq<string>, seen: set<string>)
    requires NoDuplicates(a)
    requires forall x :: x in a ==> x !in seen
    ensures DistinctFrom(a + b, seen) == a + DistinctFrom(b, seen + set x | x in a)
  {
    if a == [] {
      assert a + b == b;
      assert (set x | x in a) == {};
      assert seen + {} == seen;
    } else {
      assert (a + b)[0] == a[0];
      assert (a + b)[1..] == a[1..] + b;
      NoDuplicatesTail(a);
      DistinctFromPrefix(a[1..], b, seen + {a[0]});
      var seenAll := seen + set x | x in a;
      assert (seen + {a[0]}) + (set x | x in a[1..]) == seenAll;
      calc {
        DistinctFrom(a + b, seen);
        [a[0]] + DistinctFrom(a[1..] + b, seen + {a[0]});
        [a[0]] + (a[1..] + DistinctFrom(b, seenAll));
        { ConsAppend(a, DistinctFrom(b, seenAll)); }
        a + DistinctFrom(b, seenAll);
      }
    }
  }

  /** `[...new Set(a + b)]` with `seen` already inserted is the distinct
      values of `a`, then those of `b` that neither `seen` nor `a` holds:
      values come out in order of first appearance. */
  lemma {:induction false} DistinctFromAppend(a: seq<string>, b: seq<string>, seen: set<string>)
    ensures DistinctFrom(a + b, seen) == DistinctFrom(a, seen) + DistinctFrom(b, seen + set x | x in a)
  {
    if a == [] {
      assert a + b == b;
      assert seen + (set x | x in a) == seen;
    } else {
      assert (a + b)[0] == a[0];
      assert (a + b)[1..] == a[1..] + b;
      var seen' := if a[0] in seen then seen else seen + {a[0]};
      DistinctFromAppend(a[1..], b, seen');
      SeenAfterHead(a, seen);
    }
  }

  /** Seeing the head of `a`, then its tail, is seeing all of `a`. */
  lemma SeenAfterHead(a: seq<string>, seen: set<string>)
    requires a != []
    ensures (if a[0] in seen then seen else seen + {a[0]}) + (set x | x in a[1..]) == seen + set x | x in a
  {
    assert forall x :: x in a <==> x == a[0] || x in a[1..];
  }

  /** Appending a value to a list adds it at the end of the distinct values
      exactly when the list does not hold it yet. */
  lemma DistinctSnoc(a: seq<string>, x: string)
    ensures Distinct(a + [x]) == Distinct(a) + (if x in a then [] else [x])
  {
    DistinctFromAppend(a, [x], {});
    var seen := {} + set y | y in a;
    assert [x][1..] == [];
    assert x in seen <==> x in a;
  }

  /** The tags every bank starts with. */
  const BaseTags: seq<string> := ["Workforce", "WorkforceDevelopment", "LocalHiring", "FutureOfWork", "SkillsGap", "CommunityImpact", "TalentPipeline"]

  /** The bank shown before any profile exists. */
  const DefaultTags: seq<string> := ["Workforce", "WorkforceDevelopment", "LocalHiring", "FutureOfWork"]

  /** Every industry name with its whitespace removed. */
  function StripAll(industries: seq<string>): (r: seq<string>)
    ensures |r| == |industries|
    ensures forall k :: 0 <= k < |r| ==> r[k] == RemoveSpaces(industries[k])
  {
    if industries == [] then [] else [RemoveSpaces(industries[0])] + StripAll(industries[1..])
  }

  /** The suggested hashtag bank: the four default tags without a profile;
      with one, the seven base tags followed by the profile's industries with
      their whitespace removed, each tag once. */
  function SuggestedTags(profile: Option<Profile>): (r: seq<string>)
    ensures profile.None? ==> r == DefaultTags
    ensures NoDuplicates(r)
    ensures profile.Some? ==> |r| >= |BaseTags| && r[..|BaseTags|] == BaseTags
    ensures profile.Some? ==> forall t :: t in r <==> t in BaseTags || t in StripAll(profile.value.industries)
  {
    match profile
    case None => DefaultTags
    case Some(p) =>
      var all := BaseTags + StripAll(p.industries);
      assert NoDuplicates(BaseTags);
      DistinctFromPrefix(BaseTags, StripAll(p.industries), {});
      Distinct(all)
  }

  /** The bank's tags that are not on the post yet, in bank order. */
  function Absent(bank: seq<string>, present: seq<string>): (r: seq<string>)
    ensures forall t :: t in r <==> t in bank && t !in present
    ensures |r| <= |bank|
  {
    if bank == [] then []
    else if bank[0] in present then Absent(bank[1..], present)
    else [bank[0]] + Absent(bank[1..], present)
  }

  /** Filtering out present tags works piece by piece, so the bank's order
      and repeats are kept. */
  lemma {:induction false} AbsentAppend(a: seq<string>, b: seq<string>, present: seq<string>)
    ensures Absent(a + b, present) == Absent(a, present) + Absent(b, present)
  {
    if a == [] {
      assert a + b == b;
    } else {
      assert (a + b)[0] == a[0];
      assert (a + b)[1..] == a[1..] + b;
      AbsentAppend(a[1..], b, present);
    }
  }

  const MaxSuggestions := 8

  /** The booster tags offered for one post: the first eight bank tags the
      post does not already carry. */
  function SuggestionsFor(bank: seq<string>, present: seq<string>): (r: seq<string>)
    ensures |r| <= MaxSuggestions
    ensures |r| == if |Absent(bank, present)| < MaxSuggestions then |Absent(bank, present)| else MaxSuggestions
    ensures r == Absent(bank, present)[..|r|]
    ensures forall t :: t in r ==> t in bank && t !in present
    ensures |Absent(bank, present)| >= MaxSuggestions ==> |r| == MaxSuggestions
    ensures |r| < MaxSuggestions ==> forall t :: t in bank && t !in present ==> t in r
  {
    var absent := Absent(bank, present);
    if |absent| <= MaxSuggestions then absent else absent[..MaxSuggestions]
  }

  /** `tags.filter((_, i) => i !== index)`: the tag at `index` removed, or
      the list unchanged when there is no such index. */
  function RemoveTagAt(tags: seq<string>, index: nat): (r: seq<string>)
    ensures index < |tags| ==> r == tags[..index] + tags[index + 1..]
    ensures index >= |tags| ==> r == tags
  {
    if tags == [] then []
    else if index == 0 then tags[1..]
    else
      var rest := RemoveTagAt(tags[1..], index - 1);
      assert index < |tags| ==> tags[1..][..index - 1] == tags[1..index];
      [tags[0]] + rest
  }

  /** A tag picked from the suggestions is appended at the end. */
  function AddTag(tags: seq<string>, tag: string): (r: seq<string>)
    ensures |r| == |tags| + 1 && r[..|tags|] == tags && r[|tags|] == tag
  {
    tags + [tag]
  }

  /** Removing the tag just added gives the previous list back. */
  lemma AddThenRemove(tags: seq<string>, tag: string)
    ensures RemoveTagAt(AddTag(tags, tag), |tags|) == tags
  {
    assert AddTag(tags, tag)[..|tags|] == tags;
  }

  /** Adding a suggested tag never duplicates one the post already has. */
  lemma AddSuggestionKeepsDistinct(bank: seq<string>, tags: seq<string>, tag: string)
    requires NoDuplicates(tags)
    requires tag in SuggestionsFor(bank, tags)
    ensures NoDuplicates(AddTag(tags, tag))
  {
    var r := AddTag(tags, tag);
    forall i, j | 0 <= i < j < |r| ensures r[i] != r[j] {
      if j == |tags| {
        assert r[i] == tags[i];
      } else {
        assert r[i] == tags[i] && r[j] == tags[j];
      }
    }
  }

  // ---------------------------------------------------------------------
  // Markdown line classifier

  /** How the chat views render one line of a reply. */
  datatype Block =
    | Spacer
    | Heading3(text: string)
    | Heading2(text: string)
    | Bullet(text: string)
    | Paragraph(text: string)

  /** The line is trimmed and tested, in this order: empty, `### `, `## `,
      `* ` or `- `. A heading or bullet shows the trimmed line after its
      marker; a paragraph shows the line as it was, untrimmed. */
  function ClassifyLine(line: string): (b: Block)
    ensures b.Spacer? <==> AllSpace(line)
    ensures b.Heading3? ==> Trim(line) == "### " + b.text
    ensures b.Heading2? ==> Trim(line) == "## " + b.text && !StartsWith(Trim(line), "### ")
    ensures b.Bullet? ==> (Trim(line) == "* " + b.text || Trim(line) == "- " + b.text)
                          && !StartsWith(Trim(line), "### ") && !StartsWith(Trim(line), "## ")
    ensures b.Paragraph? ==> b.text == line && !AllSpace(line)
                             && !StartsWith(Trim(line), "### ") && !StartsWith(Trim(line), "## ")
                             && !StartsWith(Trim(line), "* ") && !StartsWith(Trim(line), "- ")
  {
    var t := Trim(line);
    TrimEmptyIff(line);
    if t == "" then Spacer
    else if StartsWith(t, "### ") then
      assert t == "### " + t[4..];
      Heading3(t[4..])
    else if StartsWith(t, "## ") then
      assert t == "## " + t[3..];
      Heading2(t[3..])
    else if StartsWith(t, "* ") || StartsWith(t, "- ") then
      assert t == t[..2] + t[2..];
      Bullet(t[2..])
    else Paragraph(line)
  }

  /** `text.split('\n')`, each line classified. */
  function Blocks(text: string): (r: seq<Block>)
    ensures |r| == |Split(text, '\n')|
    ensures forall k :: 0 <= k < |r| ==> r[k] == ClassifyLine(Split(text, '\n')[k])
  {
    ClassifyAll(Split(text, '\n'))
  }

  function ClassifyAll(lines: seq<string>): (r: seq<Block>)
    ensures |r| == |lines|
    ensures forall k :: 0 <= k < |r| ==> r[k] == ClassifyLine(lines[k])
  {
    if lines == [] then [] else [ClassifyLine(lines[0])] + ClassifyAll(lines[1..])
  }

  /** A one-line `### ` heading whose title has no surrounding whitespace
      renders as one heading block carrying exactly that title. */
  lemma HeadingRoundTrip(title: string)
    requires title != [] && !IsSpace(title[0]) && !IsSpace(title[|title| - 1])
    requires '\n' !in title
    ensures Blocks("### " + title) == [Heading3(title)]
  {
    var line := "### " + title;
    assert '\n' !in line by {
      assert forall k :: 0 <= k < 4 ==> line[k] != '\n';
      assert forall k :: 4 <= k < |line| ==> line[k] == title[k - 4];
    }
    SplitNoSep(line, '\n');
    assert line[0] == '#' && line[|line| - 1] == title[|title| - 1];
    TrimNoOp(line);
    assert line[..4] == "### ";
    assert line[4..] == title;
  }

  lemma TrimIndented()
    ensures Trim("  x") == "x" && !AllSpace("  x")
  {
    assert !IsSpace("  x"[2]);
    assert "  x"[1..] == " x" && " x"[1..] == "x";
    assert Trim("  x") == Trim(" x") == Trim("x");
    TrimNoOp("x");
  }

  /** A paragraph keeps its leading whitespace: it is shown untrimmed. */
  lemma ParagraphKeepsIndent()
    ensures ClassifyLine("  x") == Paragraph("  x")
  {
    TrimIndented();
    assert !StartsWith("x", "### ") && !StartsWith("x", "## ") && !StartsWith("x", "* ") && !StartsWith("x", "- ");
  }

  // ---------------------------------------------------------------------
  // Grounding citations

  /** One grounding chunk of a search-backed answer; every part may be
      missing. */
  datatype WebRef = WebRef(uri: Option<string>, title: Option<string>)
  datatype GroundingChunk = GroundingChunk(web: Option<WebRef>)

  /** A JavaScript string is truthy when it is present and not empty. */
  predicate Truthy(s: Option<string>) {
    s.Some? && s.value != ""
  }

  predicate Usable(c: GroundingChunk) {
    c.web.Some? && Truthy(c.web.value.uri) && Truthy(c.web.value.title)
  }

  /** The chunks that carry a web reference with both a URI and a title, as
      sources, in order. */
  function Citations(chunks: seq<GroundingChunk>): (r: seq<Source>)
    ensures |r| <= |chunks|
    ensures forall s :: s in r ==> s.uri != "" && s.title != ""
    ensures (forall c :: c in chunks ==> Usable(c)) ==> |r| == |chunks|
  {
    if chunks == [] then []
    else
      var c := chunks[0];
      var rest := Citations(chunks[1..]);
      if Usable(c) then [Source(c.web.value.title.value, c.web.value.uri.value)] + rest else rest
  }

  /** One more chunk adds its source at the end exactly when it is usable:
      the sources are the usable chunks' titles and URIs, in chunk order. */
  lemma {:induction false} CitationsAppend(chunks: seq<GroundingChunk>, c: GroundingChunk)
    ensures Citations(chunks + [c])
         == Citations(chunks) + (if Usable(c) then [Source(c.web.value.title.value, c.web.value.uri.value)] else [])
  {
    if chunks == [] {
      assert chunks + [c] == [c];
    } else {
      assert (chunks + [c])[0] == chunks[0];
      assert (chunks + [c])[1..] == chunks[1..] + [c];
      CitationsAppend(chunks[1..], c);
    }
  }

  function UrisOf(s: seq<Source>): set<string> {
    set x | x in s :: x.uri
  }

  /** `findIndex(t => t.uri === uri)`: the first position carrying `uri`, or
      -1. */
  function FirstWithUri(s: seq<Source>, uri: string): (r: int)
    ensures r == -1 <==> uri !in UrisOf(s)
    ensures r != -1 ==> 0 <= r < |s| && s[r].uri == uri && forall k :: 0 <= k < r ==> s[k].uri != uri
  {
    if s == [] then -1
    else if s[0].uri == uri then 0
    else
      var i := FirstWithUri(s[1..], uri);
      assert forall x :: x in s ==> x == s[0] || x in s[1..];
      if i == -1 then -1 else i + 1
  }

  /** The first position of a URI does not change when later sources are
      appended. */
  lemma {:induction false} FirstWithUriPrefix(s: seq<Source>, n: nat, uri: string)
    requires n <= |s|
    requires uri in UrisOf(s[..n])
    ensures FirstWithUri(s, uri) == FirstWithUri(s[..n], uri)
  {
    var i := FirstWithUri(s[..n], uri);
    assert s[..n][i] == s[i];
    assert forall k :: 0 <= k < i ==> s[..n][k] == s[k];
    var j := FirstWithUri(s, uri);
    assert j != -1 by { assert s[i] in s; }
  }

  predicate DistinctUris(r: seq<Source>) {
    forall i, j :: 0 <= i < j < |r| ==> r[i].uri != r[j].uri
  }

  /** Every source in `r` is the first in `s` that carries its URI. */
  predicate FirstOccurrences(r: seq<Source>, s: seq<Source>) {
    forall x :: x in r ==> FirstWithUri(s, x.uri) != -1 && s[FirstWithUri(s, x.uri)] == x
  }

  lemma FirstOccurrencesExtend(s: seq<Source>, kept: seq<Source>)
    requires s != []
    requires UrisOf(kept) <= UrisOf(s[..|s| - 1])
    requires FirstOccurrences(kept, s[..|s| - 1])
    ensures FirstOccurrences(kept, s)
  {
    var n := |s| - 1;
    forall x | x in kept
      ensures FirstWithUri(s, x.uri) != -1 && s[FirstWithUri(s, x.uri)] == x
    {
      assert x.uri in UrisOf(kept);
      FirstWithUriPrefix(s, n, x.uri);
      assert s[..n][FirstWithUri(s[..n], x.uri)] == s[FirstWithUri(s[..n], x.uri)];
    }
  }

  /** The last source is the first with its URI exactly when no earlier
      source carries that URI. */
  lemma LastIsFirst(s: seq<Source>)
    requires s != []
    ensures UrisOf(s) == UrisOf(s[..|s| - 1]) + {s[|s| - 1].uri}
    ensures FirstWithUri(s, s[|s| - 1].uri) == |s| - 1 <==> s[|s| - 1].uri !in UrisOf(s[..|s| - 1])
  {
    var n := |s| - 1;
    assert s == s[..n] + [s[n]];
    var u := s[n].uri;
    if u in UrisOf(s[..n]) {
      FirstWithUriPrefix(s, n, u);
    }
  }

  lemma AppendNewUri(kept: seq<Source>, last: Source)
    requires DistinctUris(kept)
    requires last.uri !in UrisOf(kept)
    ensures DistinctUris(kept + [last])
    ensures UrisOf(kept + [last]) == UrisOf(kept) + {last.uri}
    ensures forall x :: x in kept + [last] <==> x in kept || x == last
  {
    var r := kept + [last];
    forall i, j | 0 <= i < j < |r| ensures r[i].uri != r[j].uri {
      if j == |kept| {
        assert r[i] in kept;
      }
    }
  }

  /** The sources of `r` appear in the order of their first positions in
      `s`. */
  predicate InFirstOrder(r: seq<Source>, s: seq<Source>) {
    forall i, j :: 0 <= i < j < |r| ==> FirstWithUri(s, r[i].uri) < FirstWithUri(s, r[j].uri)
  }

  /** Appending sources does not move the first position of a URI already
      kept, which lies before the appended part. */
  lemma KeptPositions(s: seq<Source>, kept: seq<Source>, n: nat)
    requires n <= |s|
    requires UrisOf(kept) <= UrisOf(s[..n])
    ensures forall x :: x in kept ==> FirstWithUri(s, x.uri) == FirstWithUri(s[..n], x.uri) < n
  {
    forall x | x in kept
      ensures FirstWithUri(s, x.uri) == FirstWithUri(s[..n], x.uri) < n
    {
      assert x.uri in UrisOf(kept);
      FirstWithUriPrefix(s, n, x.uri);
    }
  }

  /** Appending sources keeps the first-position order of the sources
      already kept. */
  lemma InFirstOrderKept(s: seq<Source>, kept: seq<Source>, n: nat)
    requires n <= |s|
    requires UrisOf(kept) <= UrisOf(s[..n])
    requires InFirstOrder(kept, s[..n])
    ensures InFirstOrder(kept, s)
  {
    KeptPositions(s, kept, n);
    forall i, j | 0 <= i < j < |kept|
      ensures FirstWithUri(s, kept[i].uri) < FirstWithUri(s, kept[j].uri)
    {
      assert kept[i] in kept && kept[j] in kept;
    }
  }

  /** A source first at position `n` comes after kept sources that are all
      first before `n`. */
  lemma InFirstOrderNew(s: seq<Source>, kept: seq<Source>, n: nat)
    requires n < |s| && FirstWithUri(s, s[n].uri) == n
    requires InFirstOrder(kept, s)
    requires forall x :: x in kept ==> FirstWithUri(s, x.uri) < n
    ensures InFirstOrder(kept + [s[n]], s)
  {
    var r := kept + [s[n]];
    forall i | 0 <= i < |kept|
      ensures FirstWithUri(s, r[i].uri) < FirstWithUri(s, r[|kept|].uri)
    {
      assert r[i] == kept[i] && kept[i] in kept;
    }
  }

  /** `filter((s, i, self) => i === self.findIndex(t => t.uri === s.uri))`:
      a source is kept when its position is the first that carries its
      URI. */
  function UniqueByUri(s: seq<Source>): (r: seq<Source>)
    ensures DistinctUris(r)
    ensures UrisOf(r) == UrisOf(s)
    ensures FirstOccurrences(r, s)
    ensures InFirstOrder(r, s)
    ensures |r| <= |s|
  {
    if s == [] then []
    else
      var n := |s| - 1;
      var kept := UniqueByUri(s[..n]);
      LastIsFirst(s);
      FirstOccurrencesExtend(s, kept);
      InFirstOrderKept(s, kept, n);
      if FirstWithUri(s, s[n].uri) == n then
        AppendNewUri(kept, s[n]);
        KeptPositions(s, kept, n);
        InFirstOrderNew(s, kept, n);
        kept + [s[n]]
      else
        kept
  }

  /** The sources attached to a market-search answer: none when the answer
      carries no grounding metadata, otherwise the usable citations with
      repeated URIs dropped. */
  function GroundingSources(chunks: Option<seq<GroundingChunk>>): (r: seq<Source>)
    ensures chunks.None? ==> r == []
    ensures forall i, j :: 0 <= i < j < |r| ==> r[i].uri != r[j].uri
    ensures chunks.Some? ==> UrisOf(r) == UrisOf(Citations(chunks.value))
    ensures chunks.Some? ==> FirstOccurrences(r, Citations(chunks.value))
    ensures chunks.Some? ==> InFirstOrder(r, Citations(chunks.value))
    ensures forall x :: x in r ==> x.uri != "" && x.title != ""
  {
    match chunks
    case None => []
    case Some(cs) =>
      var r := UniqueByUri(Citations(cs));
      assert forall x :: x in r ==> x in Citations(cs);
      r
  }

  // ---------------------------------------------------------------------
  // Email compose URLs

  datatype Provider = DefaultClient | Gmail | Outlook | Yahoo

  /** The recipient, subject and body waiting for the provider choice. */
  datatype EmailDraft = EmailDraft(recipient: string, subject: string, body: string)

  /** The URL of each provider, built from the recipient as typed and the
      encoded recipient, subject and body. */
  function ProviderUrl(p: Provider, recipient: string, to: string, subject: string, body: string): string {
    match p
    case Gmail => "https://mail.google.com/mail/?view=cm&fs=1&to=" + to + "&su=" + subject + "&body=" + body
    case Outlook => "https://outlook.office.com/mail/deeplink/compose?to=" + to + "&subject=" + subject + "&body=" + body
    case Yahoo => "https://compose.mail.yahoo.com/?to=" + to + "&subj=" + subject + "&body=" + body
    case DefaultClient => "mailto:" + recipient + "?subject=" + subject + "&body=" + body
  }

  /** The compose URL of a draft. The webmail providers get every part
      percent-encoded; the local mail client's `mailto:` link carries the
      recipient as typed. */
  function ComposeUrl(p: Provider, d: EmailDraft): (r: string)
    ensures r == Join(UrlPieces(p, d), "&")
  {
    ProviderUrlJoins(p, d.recipient, EncodeURIComponent(d.recipient), EncodeURIComponent(d.subject), EncodeURIComponent(d.body));
    ProviderUrl(p, d.recipient, EncodeURIComponent(d.recipient), EncodeURIComponent(d.subject), EncodeURIComponent(d.body))
  }

  /** The `&`-separated pieces each provider's URL is meant to have. */
  function ProviderPieces(p: Provider, recipient: string, to: string, subject: string, body: string): seq<string> {
    match p
    case Gmail => ["https://mail.google.com/mail/?view=cm", "fs=1", "to=" + to, "su=" + subject, "body=" + body]
    case Outlook => ["https://outlook.office.com/mail/deeplink/compose?to=" + to, "subject=" + subject, "body=" + body]
    case Yahoo => ["https://compose.mail.yahoo.com/?to=" + to, "subj=" + subject, "body=" + body]
    case DefaultClient => ["mailto:" + recipient + "?subject=" + subject, "body=" + body]
  }

  function UrlPieces(p: Provider, d: EmailDraft): seq<string> {
    ProviderPieces(p, d.recipient, EncodeURIComponent(d.recipient), EncodeURIComponent(d.subject), EncodeURIComponent(d.body))
  }

  /** Each provider's URL template is its intended parameters joined by
      `&`. */
  lemma ProviderUrlJoins(p: Provider, recipient: string, to: string, subject: string, body: string)
    ensures ProviderUrl(p, recipient, to, subject, body) == Join(ProviderPieces(p, recipient, to, subject, body), "&")
  {
    match p {
      case Gmail => GmailJoins(recipient, to, subject, body);
      case Outlook => OutlookJoins(recipient, to, subject, body);
      case Yahoo => YahooJoins(recipient, to, subject, body);
      case DefaultClient => MailtoJoins(recipient, to, subject, body);
    }
  }

  lemma GmailJoins(recipient: string, to: string, subject: string, body: string)
    ensures ProviderUrl(Gmail, recipient, to, subject, body) == Join(ProviderPieces(Gmail, recipient, to, subject, body), "&")
  {
    var pieces := ProviderPieces(Gmail, recipient, to, subject, body);
    JoinPieces(pieces, "&");
    GmailShape(to, subject, body);
  }

  lemma OutlookJoins(recipient: string, to: string, subject: string, body: string)
    ensures ProviderUrl(Outlook, recipient, to, subject, body) == Join(ProviderPieces(Outlook, recipient, to, subject, body), "&")
  {
    var pieces := ProviderPieces(Outlook, recipient, to, subject, body);
    JoinPieces(pieces, "&");
    OutlookShape(to, subject, body);
  }

  lemma YahooJoins(recipient: string, to: string, subject: string, body: string)
    ensures ProviderUrl(Yahoo, recipient, to, subject, body) == Join(ProviderPieces(Yahoo, recipient, to, subject, body), "&")
  {
    var pieces := ProviderPieces(Yahoo, recipient, to, subject, body);
    JoinPieces(pieces, "&");
    YahooShape(to, subject, body);
  }

  lemma MailtoJoins(recipient: string, to: string, subject: string, body: string)
    ensures ProviderUrl(DefaultClient, recipient, to, subject, body) == Join(ProviderPieces(DefaultClient, recipient, to, subject, body), "&")
  {
    JoinPieces(ProviderPieces(DefaultClient, recipient, to, subject, body), "&");
  }

  /** Splitting at a first piece that holds no separator. */
  lemma SplitFirst(a: string, rest: string)
    requires '&' !in a
    ensures Split(a + "&" + rest, '&') == [a] + Split(rest, '&')
  {
    assert a + "&" + rest == a + ['&'] + rest;
    SplitAround(a, '&', rest);
    SplitNoSep(a, '&');
  }

  lemma SplitParams(first: string, body: string)
    requires '&' !in first && '&' !in body
    ensures Split(first + "&body=" + body, '&') == [first, "body=" + body]
  {
    var tail := "body=" + body;
    assert '&' !in tail;
    assert first + "&body=" + body == first + "&" + tail;
    SplitFirst(first, tail);
    SplitNoSep(tail, '&');
  }

  /** The fixed part of the Outlook URL holds no `&`. */
  lemma OutlookBaseClean()
    ensures '&' !in "https://outlook.office.com/mail/deeplink/compose?to="
  {
    var u := "https://outlook.office.com/mail/deeplink/compose?to=";
    assert u[..26] == "https://outlook.office.com";
    assert u == u[..26] + u[26..];
  }

  /** The fixed part of the Yahoo URL holds no `&`. */
  lemma YahooBaseClean()
    ensures '&' !in "https://compose.mail.yahoo.com/?to="
  {
    var u := "https://compose.mail.yahoo.com/?to=";
    assert u[..20] == "https://compose.mail";
    assert u == u[..20] + u[20..];
  }

  lemma GmailShape(to: string, subject: string, body: string)
    ensures ProviderUrl(Gmail, "", to, subject, body)
         == "https://mail.google.com/mail/?view=cm" + "&" + ("fs=1" + "&" + ("to=" + to + "&" + ("su=" + subject + "&body=" + body)))
  {
  }

  lemma GmailSplits(to: string, subject: string, body: string)
    requires '&' !in to && '&' !in subject && '&' !in body
    ensures Split(ProviderUrl(Gmail, "", to, subject, body), '&') == ProviderPieces(Gmail, "", to, subject, body)
  {
    var base := "https://mail.google.com/mail/?view=cm";
    assert '&' !in base;
    var r3 := "su=" + subject + "&body=" + body;
    SplitParams("su=" + subject, body);
    var r2 := "to=" + to + "&" + r3;
    SplitFirst("to=" + to, r3);
    var r1 := "fs=1" + "&" + r2;
    SplitFirst("fs=1", r2);
    SplitFirst(base, r1);
    GmailShape(to, subject, body);
  }

  lemma OutlookSplits(to: string, subject: string, body: string)
    requires '&' !in to && '&' !in subject && '&' !in body
    ensures Split(ProviderUrl(Outlook, "", to, subject, body), '&') == ProviderPieces(Outlook, "", to, subject, body)
  {
    var params := "subject=" + subject + "&body=" + body;
    OutlookBaseClean();
    SplitParams("subject=" + subject, body);
    SplitFirst("https://outlook.office.com/mail/deeplink/compose?to=" + to, params);
    OutlookShape(to, subject, body);
  }

  lemma OutlookShape(to: string, subject: string, body: string)
    ensures ProviderUrl(Outlook, "", to, subject, body)
         == "https://outlook.office.com/mail/deeplink/compose?to=" + to + "&" + ("subject=" + subject + "&body=" + body)
  {
  }

  lemma YahooSplits(to: string, subject: string, body: string)
    requires '&' !in to && '&' !in subject && '&' !in body
    ensures Split(ProviderUrl(Yahoo, "", to, subject, body), '&') == ProviderPieces(Yahoo, "", to, subject, body)
  {
    var params := "subj=" + subject + "&body=" + body;
    YahooBaseClean();
    SplitParams("subj=" + subject, body);
    SplitFirst("https://compose.mail.yahoo.com/?to=" + to, params);
    YahooShape(to, subject, body);
  }

  lemma YahooShape(to: string, subject: string, body: string)
    ensures ProviderUrl(Yahoo, "", to, subject, body)
         == "https://compose.mail.yahoo.com/?to=" + to + "&" + ("subj=" + subject + "&body=" + body)
  {
  }

  lemma MailtoSplits(recipient: string, subject: string, body: string)
    requires '&' !in recipient && '&' !in subject && '&' !in body
    ensures Split(ProviderUrl(DefaultClient, recipient, "", subject, body), '&') == ProviderPieces(DefaultClient, recipient, "", subject, body)
  {
    SplitParams("mailto:" + recipient + "?subject=" + subject, body);
  }

  /** Whatever the draft holds, a webmail URL splits on `&` into exactly its
      intended parameters: each value is one encoded part of the draft, so
      the provider reads back the recipient, the subject and the body. The
      `mailto:` link does so only when the recipient has no `&`. */
  lemma ComposeUrlSplits(p: Provider, d: EmailDraft)
    requires p == DefaultClient ==> '&' !in d.recipient
    ensures Split(ComposeUrl(p, d), '&') == UrlPieces(p, d)
  {
    var to := EncodeURIComponent(d.recipient);
    var subject := EncodeURIComponent(d.subject);
    var body := EncodeURIComponent(d.body);
    EncodedHasNoDelimiters(d.recipient);
    EncodedHasNoDelimiters(d.subject);
    EncodedHasNoDelimiters(d.body);
    match p {
      case Gmail => GmailSplits(to, subject, body);
      case Outlook => OutlookSplits(to, subject, body);
      case Yahoo => YahooSplits(to, subject, body);
      case DefaultClient => MailtoSplits(d.recipient, subject, body);
    }
  }

  /** Regrouping a `mailto:` link whose recipient is `before & after`. */
  lemma MailtoRegroup(before: string, after: string, subject: string, body: string)
    ensures ProviderUrl(DefaultClient, before + "&" + after, "", subject, body)
         == ("mailto:" + before) + "&" + (after + "?subject=" + subject + "&body=" + body)
  {
  }

  /** A `mailto:` recipient is not encoded, so an `&` in it is read as the
      start of another parameter: the link splits into three pieces, the
      recipient cut in two. */
  lemma MailtoRecipientUnencoded(before: string, after: string, d: EmailDraft)
    requires d.recipient == before + "&" + after && '&' !in before && '&' !in after
    ensures Split(ComposeUrl(DefaultClient, d), '&')
         == ["mailto:" + before, after + "?subject=" + EncodeURIComponent(d.subject), "body=" + EncodeURIComponent(d.body)]
  {
    var subject := EncodeURIComponent(d.subject);
    var body := EncodeURIComponent(d.body);
    EncodedHasNoDelimiters(d.subject);
    EncodedHasNoDelimiters(d.body);
    var tail := after + "?subject=" + subject;
    assert '&' !in "?subject=";
    assert '&' !in tail;
    MailtoRegroup(before, after, subject, body);
    SplitFirst("mailto:" + before, tail + "&body=" + body);
    SplitParams(tail, body);
  }
}
