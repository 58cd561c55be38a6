/** The step machine: the progress indicator, the sidebar's navigation
    entries, the target of the mobile "Engine" button and the "back" target of
    the reading views. */
module Workflow {

  import opened Domain

  /** The canonical path the progress indicator follows. */
  const LinearSteps: seq<Step> := [Intake, Discovery, Report, Outreach, Linkedin, Dashboard]

  /** `xs.indexOf(x)`: the first position of `x`, or -1. */
  function IndexOf<T(==)>(xs: seq<T>, x: T): (r: int)
    ensures r == -1 <==> x !in xs
    ensures r != -1 ==> 0 <= r < |xs| && xs[r] == x && x !in xs[..r]
  {
    if xs == [] then -1
    else if xs[0] == x then 0
    else
      var i := IndexOf(xs[1..], x);
      if i == -1 then -1 else i + 1
  }

  /** The percentage shown by the progress bar: `(index + 1) / 6 * 100`,
      computed exactly here (the application computes it in floating
      point). */
  function Progress(step: Step): (r: real)
    ensures 0.0 <= r <= 100.0
  {
    if step == Landing then 0.0
    else
      var i := IndexOf(LinearSteps, step);
      if i == -1 then 100.0 else ((i + 1) as real / |LinearSteps| as real) * 100.0
  }

  /** Landing shows no progress, the i-th step of the linear path shows
      (i + 1)/6 of it, and every view off the path shows it complete. */
  lemma ProgressValues(step: Step)
    ensures Progress(step) == 0.0 <==> step == Landing
    ensures forall i :: 0 <= i < 6 && LinearSteps[i] == step ==> Progress(step) == (i + 1) as real * 100.0 / 6.0
    ensures step !in LinearSteps && step != Landing ==> Progress(step) == 100.0
  {
    var i := IndexOf(LinearSteps, step);
    if i != -1 {
      LinearStepsDistinct();
    }
  }

  /** No step occurs twice on the linear path. */
  lemma LinearStepsDistinct()
    ensures forall a, b :: 0 <= a < b < |LinearSteps| ==> LinearSteps[a] != LinearSteps[b]
  {
  }

  /** Progress grows strictly along the linear path. */
  lemma ProgressIncreasesAlongPath(i: nat, j: nat)
    requires i < j < |LinearSteps|
    ensures 0.0 < Progress(LinearSteps[i]) < Progress(LinearSteps[j])
  {
    ProgressValues(LinearSteps[i]);
    ProgressValues(LinearSteps[j]);
  }

  /** The views that are only reachable once a profile exists. */
  predicate RequiresProfile(s: Step) {
    s in {Discovery, Report, Outreach, Linkedin, Dashboard}
  }

  /** The sidebar's entries, in order, before filtering. */
  const SidebarEntries: seq<Step> := [Landing, Intake, Discovery, Report, Outreach, Linkedin, Dashboard, Chat, Support, Docs]

  function KeepVisible(entries: seq<Step>, hasProfile: bool): (r: seq<Step>)
    ensures forall s :: s in r <==> s in entries && (!RequiresProfile(s) || hasProfile)
    ensures |r| <= |entries|
  {
    if entries == [] then []
    else
      var rest := KeepVisible(entries[1..], hasProfile);
      if !RequiresProfile(entries[0]) || hasProfile then [entries[0]] + rest else rest
  }

  /** The sidebar hides the profile-gated entries while there is no profile. */
  function SidebarItems(hasProfile: bool): (r: seq<Step>)
    ensures forall s :: s in r <==> s in SidebarEntries && (!RequiresProfile(s) || hasProfile)
  {
    KeepVisible(SidebarEntries, hasProfile)
  }

  /** The sidebar is not drawn on the landing, terms and docs views. */
  predicate SidebarShown(step: Step) {
    step != Landing && step != Terms && step != Docs
  }

  /** The step the mobile "Engine" button leads to: intake without a profile,
      discovery without matches, the report from the chat, docs, terms and
      support views, and otherwise the current step. */
  function WorkflowTarget(hasProfile: bool, matchCount: nat, step: Step): (r: Step)
    ensures !hasProfile ==> r == Intake
    ensures hasProfile && matchCount == 0 ==> r == Discovery
    ensures r != Chat && r != Docs && r != Terms && r != Support
    ensures hasProfile && matchCount > 0 && step in {Chat, Docs, Terms, Support} ==> r == Report
    ensures hasProfile && matchCount > 0 && step !in {Chat, Docs, Terms, Support} ==> r == step
  {
    if !hasProfile then Intake
    else if matchCount == 0 then Discovery
    else if step in {Chat, Docs, Terms, Support} then Report
    else step
  }

  /** The "Engine" button never leads anywhere the sidebar would hide: its
      target is always one of the entries the sidebar shows. */
  lemma WorkflowTargetIsNavigable(hasProfile: bool, matchCount: nat, step: Step)
    ensures WorkflowTarget(hasProfile, matchCount, step) in SidebarItems(hasProfile)
  {
  }

  /** "Back" from the terms and docs views: the discovery view with a
      profile, the landing view without one. */
  function ReadingBackTarget(hasProfile: bool): (r: Step)
    ensures hasProfile ==> r == Discovery
    ensures !hasProfile ==> r == Landing
    ensures r in SidebarItems(hasProfile)
  {
    if hasProfile then Discovery else Landing
  }
}
