/** The detail pane of the selected candidate: the avatar initials, the
    Disqualify and Move buttons, and the resume viewer. */
module CandidateDetail {
  import opened Common
  import JsString
  import opened CandidatesPipeline

  /** `parts.map(n => n[0]).join('')`: `n[0]` of an empty part is
      `undefined`, which `join` writes as nothing. */
  function FirstChars(parts: seq<string>): string
    decreases |parts|
  {
    if parts == [] then [] else (if parts[0] == [] then [] else [parts[0][0]]) + FirstChars(parts[1..])
  }

  /** The characters that begin a word of `s`: not a space, and either the
      first character or one after a space (`afterSpace` says whether the
      character before `s` was a space). */
  function WordStartsAfter(afterSpace: bool, s: string): string
    decreases |s|
  {
    if s == [] then []
    else (if afterSpace && s[0] != ' ' then [s[0]] else []) + WordStartsAfter(s[0] == ' ', s[1..])
  }

  function WordStarts(s: string): string {
    WordStartsAfter(true, s)
  }

  lemma {:induction false} SplitHead(t: string)
    ensures JsString.Split(t, ' ')[0] == [] <==> (t == [] || t[0] == ' ')
    ensures t != [] && t[0] != ' ' ==> JsString.Split(t, ' ')[0][0] == t[0]
  {
  }

  lemma {:induction false} FirstCharsAfterHead(t: string)
    ensures FirstChars(JsString.Split(t, ' ')[1..]) == WordStartsAfter(false, t)
    decreases |t|
  {
    if t != [] {
      var rest := JsString.Split(t[1..], ' ');
      FirstCharsAfterHead(t[1..]);
      if t[0] == ' ' {
        assert JsString.Split(t, ' ')[1..] == rest;
        SplitHead(t[1..]);
        assert rest == [rest[0]] + rest[1..];
        assert FirstChars(rest) == (if rest[0] == [] then [] else [rest[0][0]]) + FirstChars(rest[1..]);
      } else {
        assert JsString.Split(t, ' ')[1..] == rest[1..];
      }
    }
  }

  /** Splitting on spaces and taking the first character of every part gives
      exactly the characters that begin a word, in order. */
  lemma FirstCharsSplit(name: string)
    ensures FirstChars(JsString.Split(name, ' ')) == WordStarts(name)
  {
    var parts := JsString.Split(name, ' ');
    FirstCharsAfterHead(name);
    SplitHead(name);
    assert parts == [parts[0]] + parts[1..];
    assert FirstChars(parts) == (if parts[0] == [] then [] else [parts[0][0]]) + FirstChars(parts[1..]);
    if name != [] {
      assert WordStartsAfter(true, name) ==
        (if name[0] != ' ' then [name[0]] else []) + WordStartsAfter(false, name);
    }
  }

  /** `name.split(' ').map(n => n[0]).join('').substring(0, 2).toUpperCase()`:
      the upper-cased first letters of the first two space-separated words. */
  function NameInitials(name: string): (r: string)
    ensures var starts := WordStarts(name);
            r == JsString.ToUpper(starts[..Min(2, |starts|)])
    ensures |r| <= 2 && JsString.IsUpper(r)
  {
    var firsts := FirstChars(JsString.Split(name, ' '));
    FirstCharsSplit(name);
    JsString.ToUpper(firsts[..Min(2, |firsts|)])
  }

  /** The avatar text: "UN" without a candidate or a name, otherwise at most
      two upper-cased word initials of the name. */
  function Initials(candidate: Option<App>): (r: string)
    ensures candidate.None? || candidate.value.candidateName == "" ==> r == "UN"
    ensures candidate.Some? && candidate.value.candidateName != "" ==>
              var starts := WordStarts(candidate.value.candidateName);
              r == JsString.ToUpper(starts[..Min(2, |starts|)])
    ensures |r| <= 2 && JsString.IsUpper(r)
  {
    if candidate.None? || candidate.value.candidateName == "" then "UN"
    else NameInitials(candidate.value.candidateName)
  }

  /** `canMoveForward`: a candidate outside "hired" and "rejected" with a
      (truthy) next-stage label. */
  predicate CanMoveForward(candidate: Option<App>, nextStageLabel: Option<string>) {
    && candidate.Some?
    && candidate.value.stage != "hired"
    && candidate.value.stage != "rejected"
    && nextStageLabel.Some? && nextStageLabel.value != ""
  }

  /** In the pipeline, where the label is derived from the selection, the
      Move button appears exactly for a candidate in "applied" or
      "screening" (the hired/rejected tests never decide anything), and
      pressing it always makes `moveToNextStage` call the server. */
  lemma MoveButtonInPipeline(selected: Option<App>)
    ensures CanMoveForward(selected, NextStageLabel(selected)) <==>
              selected.Some? && selected.value.stage in ["applied", "screening"]
    ensures CanMoveForward(selected, NextStageLabel(selected)) ==>
              NextStage(selected.value.stage).Some? && NextStage(selected.value.stage) != Some("rejected")
  {
    NextStageLabelSpec(selected);
    if selected.Some? {
      NextStageCases(selected.value.stage);
    }
  }

  /** The Disqualify button's payload: a copy of the candidate whose stage is
      "rejected". */
  function DisqualifyPayload(candidate: App): (p: App)
    ensures p.stage == "rejected" && p.(stage := candidate.stage) == candidate
  {
    candidate.(stage := "rejected")
  }

  /** What the pane shows for a candidate. */
  datatype DetailView =
    | NoCandidate
    | Shown(initials: string, moveButton: Option<string>, resumeViewer: bool)

  /** The pane: the move button carries "Move to <label>" and is present
      exactly when `canMoveForward`; the resume iframe is present exactly when
      the resume link is non-empty (otherwise the missing-resume warning). */
  function View(candidate: Option<App>, nextStageLabel: Option<string>): (v: DetailView)
    ensures v.NoCandidate? <==> candidate.None?
    ensures v.Shown? ==> v.initials == Initials(candidate)
    ensures v.Shown? ==> (v.moveButton.Some? <==> CanMoveForward(candidate, nextStageLabel))
    ensures v.Shown? && v.moveButton.Some? ==> v.moveButton.value == "Move to " + nextStageLabel.value
    ensures v.Shown? ==> (v.resumeViewer <==> candidate.value.resumeLink != "")
  {
    if candidate.None? then NoCandidate
    else
      Shown(Initials(candidate),
            if CanMoveForward(candidate, nextStageLabel) then Some("Move to " + nextStageLabel.value) else None,
            candidate.value.resumeLink != "")
  }

  /** The pane of the pipeline's selection shows "Move to Phone Screen" for
      an applied candidate, "Move to Interview" for one in screening, and no
      Move button otherwise. */
  lemma PipelineMoveButton(selected: Option<App>)
    requires selected.Some?
    ensures var v := View(selected, NextStageLabel(selected));
            v.moveButton ==
              if selected.value.stage == "applied" then Some("Move to Phone Screen")
              else if selected.value.stage == "screening" then Some("Move to Interview")
              else None
  {
    MoveButtonInPipeline(selected);
    NextStageLabelSpec(selected);
    NextStageCases(selected.value.stage);
    if selected.value.stage == "applied" {
      assert NextStageLabel(selected) == Some("Phone Screen");
      assert "Move to " + "Phone Screen" == "Move to Phone Screen";
    } else if selected.value.stage == "screening" {
      assert NextStageLabel(selected) == Some("Interview");
      assert CanMoveForward(selected, NextStageLabel(selected));
      assert "Move to " + "Interview" == "Move to Interview";
    }
  }

  /** The Disqualify button: `moveToNextStage` with the payload. It always
      asks the server for "rejected"; on success the candidate's records take
      that stage, and the selection is never cleared, since the payload's
      stage equals the new stage. */
  method Disqualify(p: Pipeline, candidate: App, server: Outcome<()>) returns (request: Option<(int, string)>)
    modifies p
    ensures request == Some((candidate.id, "rejected"))
    ensures p.selected == old(p.selected) && p.activeStage == old(p.activeStage) && p.loading == old(p.loading)
    ensures p.applications == if server.Ok? then WithStage(old(p.applications), candidate.id, "rejected")
                              else old(p.applications)
  {
    NextStageCases("rejected");
    request := p.MoveToNextStage(DisqualifyPayload(candidate), server);
  }
}
