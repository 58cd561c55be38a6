/** The intake form: editing one field, validating the required fields, and
    turning the comma-separated lists into the request for the enhancement
    call and the partner lists of the profile. */
module Intake {

  import opened Wrappers
  import opened Text
  import opened Domain

  /** The current value of one form field. */
  function GetField(form: Form, f: Field): (v: FieldValue)
    ensures FitsField(f, v)
  {
    match f
    case TitleField => Text(form.title)
    case RegionField => Text(form.region)
    case IndustriesField => Text(form.industries)
    case WageRangeField => Text(form.wageRange)
    case ContactNameField => Text(form.contactName)
    case ContactEmailField => Text(form.contactEmail)
    case ContactPhoneField => Text(form.contactPhone)
    case ProgramLinkField => Text(form.programLink)
    case CurrentPartnersField => Text(form.currentPartners)
    case PastPartnersField => Text(form.pastPartners)
    case TermsAcceptedField => Flag(form.termsAccepted)
  }

  /** `{ ...form, [field]: value }`: the one field takes the new value and
      every other field keeps its old one. */
  function SetField(form: Form, f: Field, v: FieldValue): (r: Form)
    requires FitsField(f, v)
    ensures GetField(r, f) == v
    ensures forall g :: g != f ==> GetField(r, g) == GetField(form, g)
  {
    match f
    case TitleField => form.(title := v.text)
    case RegionField => form.(region := v.text)
    case IndustriesField => form.(industries := v.text)
    case WageRangeField => form.(wageRange := v.text)
    case ContactNameField => form.(contactName := v.text)
    case ContactEmailField => form.(contactEmail := v.text)
    case ContactPhoneField => form.(contactPhone := v.text)
    case ProgramLinkField => form.(programLink := v.text)
    case CurrentPartnersField => form.(currentPartners := v.text)
    case PastPartnersField => form.(pastPartners := v.text)
    case TermsAcceptedField => form.(termsAccepted := v.flag)
  }

  /** Editing a field clears that field's error, if it has a (non-empty)
      message, and no other. */
  function ClearFieldError(errors: map<Field, string>, f: Field): (r: map<Field, string>)
    ensures f in errors && errors[f] != "" ==> f !in r
    ensures forall g :: g != f ==> (g in r <==> g in errors)
    ensures forall g :: g in r ==> g in errors && r[g] == errors[g]
  {
    if f in errors && errors[f] != "" then errors - {f} else errors
  }

  const TitleRequired := "Title is required"
  const RegionRequired := "Region is required"
  const IndustriesRequired := "Industries are required"
  const TermsRequired := "You must accept the terms"

  /** The submission check: an empty title, region or industries text, or
      unaccepted terms, each produce an error under that field. The texts
      are tested for emptiness only, so a title of spaces passes. */
  function Validate(form: Form): (errors: map<Field, string>)
    ensures TitleField in errors <==> form.title == ""
    ensures RegionField in errors <==> form.region == ""
    ensures IndustriesField in errors <==> form.industries == ""
    ensures TermsAcceptedField in errors <==> !form.termsAccepted
    ensures forall f :: f in errors ==> f in {TitleField, RegionField, IndustriesField, TermsAcceptedField}
    ensures forall f :: f in errors ==> errors[f] != ""
  {
    var e0: map<Field, string> := map[];
    var e1 := if form.title == "" then e0[TitleField := TitleRequired] else e0;
    var e2 := if form.region == "" then e1[RegionField := RegionRequired] else e1;
    var e3 := if form.industries == "" then e2[IndustriesField := IndustriesRequired] else e2;
    if !form.termsAccepted then e3[TermsAcceptedField := TermsRequired] else e3
  }

  /** Every piece trimmed, in order; empty pieces stay. */
  function TrimAll(parts: seq<string>): (r: seq<string>)
    ensures |r| == |parts|
    ensures forall k :: 0 <= k < |r| ==> r[k] == Trim(parts[k])
  {
    if parts == [] then [] else [Trim(parts[0])] + TrimAll(parts[1..])
  }

  /** The pieces that are not empty, in order. */
  function DropEmpty(parts: seq<string>): (r: seq<string>)
    ensures forall k :: 0 <= k < |r| ==> r[k] != ""
    ensures forall x :: x in r <==> x in parts && x != ""
    ensures |r| <= |parts|
  {
    if parts == [] then []
    else if parts[0] == "" then DropEmpty(parts[1..])
    else [parts[0]] + DropEmpty(parts[1..])
  }

  /** Dropping empty pieces works piece by piece, so the pieces that stay
      keep their order and their repeats. */
  lemma {:induction false} DropEmptyAppend(a: seq<string>, b: seq<string>)
    ensures DropEmpty(a + b) == DropEmpty(a) + DropEmpty(b)
  {
    if a == [] {
      assert a + b == b;
    } else {
      assert (a + b)[0] == a[0];
      assert (a + b)[1..] == a[1..] + b;
      DropEmptyAppend(a[1..], b);
    }
  }

  /** The industries as sent to the enhancement call: the text split on
      commas and each piece trimmed; empty pieces are kept. */
  function IndustryList(text: string): (r: seq<string>)
    ensures |r| == |Split(text, ',')|
    ensures forall k :: 0 <= k < |r| ==> r[k] == Trim(Split(text, ',')[k])
  {
    TrimAll(Split(text, ','))
  }

  /** Trimming keeps a character out if it was out, and a trimmed piece is
      its own trim. */
  lemma TrimAllClean(parts: seq<string>, c: char)
    requires forall k :: 0 <= k < |parts| ==> c !in parts[k]
    ensures forall x :: x in TrimAll(parts) ==> c !in x && Trim(x) == x
  {
    forall k | 0 <= k < |parts|
      ensures c !in TrimAll(parts)[k] && Trim(TrimAll(parts)[k]) == TrimAll(parts)[k]
    {
      var s := parts[k];
      TrimSteps(s);
      var t := TrimStart(s);
      assert forall x :: x in t ==> x in s;
      assert forall x :: x in TrimEnd(t) ==> x in t;
      TrimIdempotent(s);
    }
  }

  /** A list of partners: the text split on commas, each piece trimmed, and
      the pieces left empty dropped. */
  function PartnerList(text: string): (r: seq<string>)
    ensures forall x :: x in r ==> x != "" && ',' !in x && Trim(x) == x
  {
    PartnerPiecesClean(text);
    DropEmpty(TrimAll(Split(text, ',')))
  }

  lemma PartnerPiecesClean(text: string)
    ensures forall x :: x in DropEmpty(TrimAll(Split(text, ','))) ==> x != "" && ',' !in x && Trim(x) == x
  {
    TrimAllClean(Split(text, ','), ',');
  }

  lemma {:induction false} TrimAllIdentity(parts: seq<string>)
    requires forall k :: 0 <= k < |parts| ==> Trim(parts[k]) == parts[k]
    ensures TrimAll(parts) == parts
  {
    if parts != [] {
      TrimAllIdentity(parts[1..]);
    }
  }

  lemma {:induction false} DropEmptyIdentity(parts: seq<string>)
    requires forall k :: 0 <= k < |parts| ==> parts[k] != ""
    ensures DropEmpty(parts) == parts
  {
    if parts != [] {
      DropEmptyIdentity(parts[1..]);
    }
  }

  /** Partner names that are non-empty, already trimmed and free of commas,
      typed as one comma-separated text, come back as the same list. */
  lemma PartnerListRoundTrip(names: seq<string>)
    requires forall k :: 0 <= k < |names| ==> names[k] != "" && ',' !in names[k] && Trim(names[k]) == names[k]
    ensures PartnerList(Join(names, ",")) == names
  {
    if names == [] {
      assert Split("", ',') == [""];
      assert TrimAll([""]) == [Trim("")];
    } else {
      JoinSplit(names, ',');
      TrimAllIdentity(names);
      DropEmptyIdentity(names);
    }
  }

  lemma SplitTwoCommas()
    ensures Split("A,,B", ',') == ["A", "", "B"]
  {
    assert "A,,B" == "A" + [','] + ("" + [','] + "B");
    SplitAround("A", ',', "" + [','] + "B");
    SplitAround("", ',', "B");
    SplitNoSep("A", ',');
    SplitNoSep("B", ',');
  }

  lemma TrimLetters()
    ensures TrimAll(["A", "", "B"]) == ["A", "", "B"]
  {
    assert !IsSpace('A') && !IsSpace('B');
    var parts: seq<string> := ["A", "", "B"];
    assert Trim(parts[0]) == parts[0];
    assert Trim(parts[2]) == parts[2];
    TrimAllIdentity(parts);
  }

  lemma DropBlank()
    ensures DropEmpty(["A", "", "B"]) == ["A", "B"]
  {
    var parts: seq<string> := ["A", "", "B"];
    assert parts[1..] == ["", "B"] && parts[1..][1..] == ["B"] && parts[1..][1..][1..] == [];
    assert DropEmpty(["B"]) == ["B"];
  }

  /** Industries are not filtered: a blank piece between two commas reaches
      the enhancement call as an empty industry, where a partner list drops
      it. */
  lemma BlankIndustryKept()
    ensures IndustryList("A,,B") == ["A", "", "B"]
    ensures PartnerList("A,,B") == ["A", "B"]
  {
    SplitTwoCommas();
    TrimLetters();
    DropBlank();
  }

  /** What the enhancement call receives for a valid form. */
  function EnhanceRequestOf(form: Form): (r: EnhanceRequest)
    ensures r.title == form.title && r.region == form.region && r.ctaLink == form.programLink
    ensures r.industries == IndustryList(form.industries)
    ensures r.contact == Contact(form.contactName, form.contactEmail, form.contactPhone)
  {
    EnhanceRequest(form.title, form.region, IndustryList(form.industries), form.programLink,
                   Contact(form.contactName, form.contactEmail, form.contactPhone))
  }

  /** The profile that is stored: the enhanced profile with the locally typed
      partner lists put in place of whatever the service returned. */
  function MergePartners(enhanced: Profile, form: Form): (p: Profile)
    ensures p.currentPartners == PartnerList(form.currentPartners)
    ensures p.pastPartners == PartnerList(form.pastPartners)
    ensures p.(currentPartners := enhanced.currentPartners, pastPartners := enhanced.pastPartners) == enhanced
  {
    enhanced.(currentPartners := PartnerList(form.currentPartners), pastPartners := PartnerList(form.pastPartners))
  }
}
