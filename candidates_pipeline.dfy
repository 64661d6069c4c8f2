/** The candidate pipeline screen: the stage constants, the normalising map
    applied to the server's application records, the "move to next stage"
    transition, and the derived active-stage list and next-stage label. */
module CandidatesPipeline {
  import opened Common
  import JsString

  const PipelineStages: seq<string> := ["applied", "screening", "interview"]
  const AllStages: seq<string> := PipelineStages + ["hired", "rejected"]

  /** `stageLabels[stage]`, with `None` for a key the table does not have. */
  function StageLabel(stage: string): Option<string> {
    if stage == "applied" then Some("Applied")
    else if stage == "screening" then Some("Phone Screen")
    else if stage == "interview" then Some("Interview")
    else if stage == "hired" then Some("Offer / Hired")
    else if stage == "rejected" then Some("Disqualified")
    else None
  }

  /** An application as the screen holds it after normalisation. */
  datatype App = App(
    id: int,
    stage: string,
    jobTitle: string,
    candidateName: string,
    candidateEmail: string,
    phone: string,
    resumeLink: string,
    source: string,
    location: string)

  /** The nested `candidate` object of a server record. */
  datatype RawCandidate = RawCandidate(phone: string, resume: string)

  /** An application record as the server sends it; `stage` and `candidate`
      may be missing. */
  datatype RawApp = RawApp(
    id: int,
    stage: Option<string>,
    jobTitle: string,
    candidateName: string,
    candidateEmail: string,
    candidate: Option<RawCandidate>)

  /** `xs.indexOf(x)`: the first position of `x`, or -1. */
  function IndexOf(xs: seq<string>, x: string): (i: int)
    ensures -1 <= i < |xs|
    ensures i == -1 <==> x !in xs
    ensures 0 <= i ==> xs[i] == x && x !in xs[..i]
    decreases |xs|
  {
    if xs == [] then -1
    else if xs[0] == x then 0
    else
      var j := IndexOf(xs[1..], x);
      if j == -1 then -1
      else
        assert xs[..j + 1] == [xs[0]] + xs[1..][..j];
        j + 1
  }

  /** The stage `moveToNextStage` asks the server for, or `None` when it
      returns without a call. A value whose stage is already "rejected" is the
      Disqualify button's payload and is sent to "rejected". */
  function NextStage(stage: string): Option<string> {
    var i := IndexOf(PipelineStages, stage);
    if stage == "rejected" then Some("rejected")
    else if i > -1 && i < |PipelineStages| - 1 then Some(PipelineStages[i + 1])
    else None
  }

  /** The whole transition table: applied steps to screening, screening to
      interview, the Disqualify payload to rejected, and every other stage
      (interview, hired, or one outside the pipeline) makes no call. */
  lemma NextStageCases(stage: string)
    ensures NextStage(stage) == Some("screening") <==> stage == "applied"
    ensures NextStage(stage) == Some("interview") <==> stage == "screening"
    ensures NextStage(stage) == Some("rejected") <==> stage == "rejected"
    ensures NextStage(stage) == None <==> stage !in ["applied", "screening", "rejected"]
  {
    var i := IndexOf(PipelineStages, stage);
    if stage == "applied" {
      assert PipelineStages[0] == stage;
      assert i == 0;
    } else if stage == "screening" {
      assert PipelineStages[1] == stage;
      assert PipelineStages[..1] == ["applied"];
      assert i == 1;
    } else if stage == "interview" {
      assert PipelineStages[2] == stage;
      assert PipelineStages[..2] == ["applied", "screening"];
      assert i == 2;
    } else {
      assert stage !in PipelineStages;
    }
  }

  /** The label of the Move button: the label of the pipeline stage after the
      selected one, or `None` (null) when nothing is selected or the selected
      stage is not followed by a pipeline stage. */
  function NextStageLabel(selected: Option<App>): Option<string> {
    if selected.None? then None
    else
      var i := IndexOf(PipelineStages, selected.value.stage);
      if i == -1 || i == |PipelineStages| - 1 then None
      else StageLabel(PipelineStages[i + 1])
  }

  /** The label is shown exactly for a selected application in "applied" or
      "screening", and it names the stage the Move button sends it to. */
  lemma NextStageLabelSpec(selected: Option<App>)
    ensures NextStageLabel(selected).Some? <==>
              selected.Some? && selected.value.stage in ["applied", "screening"]
    ensures NextStageLabel(selected).Some? ==>
              NextStage(selected.value.stage).Some? &&
              NextStageLabel(selected) == StageLabel(NextStage(selected.value.stage).value)
  {
    if selected.Some? {
      NextStageCases(selected.value.stage);
      var i := IndexOf(PipelineStages, selected.value.stage);
      if selected.value.stage == "applied" {
        assert i == 0;
      } else if selected.value.stage == "screening" {
        assert i == 1;
      } else if selected.value.stage == "interview" {
        assert i == 2;
      }
    }
  }

  /** One record of the normalising map; `None` when reading `stage` or
      `candidate.phone` would throw, which aborts the whole load. */
  function Normalize(raw: RawApp): Option<App> {
    if raw.stage.None? || raw.candidate.None? then None
    else
      Some(App(raw.id, JsString.ToLower(raw.stage.value), raw.jobTitle,
               raw.candidateName, raw.candidateEmail,
               raw.candidate.value.phone, raw.candidate.value.resume,
               "Job Portal / Direct", "Remote"))
  }

  /** `data.map(...)`: one record per input, in order, with the same id, a
      lower-cased stage and the resume path copied as it is; `None` when any
      record lacks its stage or its candidate. */
  function NormalizeAll(raws: seq<RawApp>): (r: Option<seq<App>>)
    ensures r.Some? <==> forall i :: 0 <= i < |raws| ==> raws[i].stage.Some? && raws[i].candidate.Some?
    ensures r.Some? ==> |r.value| == |raws|
    ensures r.Some? ==> forall i :: 0 <= i < |raws| ==>
              && r.value[i].id == raws[i].id
              && r.value[i].stage == JsString.ToLower(raws[i].stage.value)
              && JsString.IsLower(r.value[i].stage)
              && r.value[i].resumeLink == raws[i].candidate.value.resume
              && r.value[i].candidateName == raws[i].candidateName
    decreases |raws|
  {
    if raws == [] then Some([])
    else
      var head := Normalize(raws[0]);
      var tail := NormalizeAll(raws[1..]);
      if head.None? || tail.None? then
        assert tail.None? ==> exists i :: 0 <= i < |raws[1..]| && (raws[1..][i].stage.None? || raws[1..][i].candidate.None?);
        None
      else Some([head.value] + tail.value)
  }

  /** Whether `xs` can be obtained from `ys` by deleting elements. */
  ghost predicate IsSubsequence<T>(xs: seq<T>, ys: seq<T>)
    decreases |ys|
  {
    if xs == [] then true
    else if ys == [] then false
    else (xs[0] == ys[0] && IsSubsequence(xs[1..], ys[1..])) || IsSubsequence(xs, ys[1..])
  }

  /** `apps.filter(a => a.stage === stage)`: the applications in `stage`, in
      their original order. */
  function InStage(apps: seq<App>, stage: string): (r: seq<App>)
    ensures |r| <= |apps|
    ensures forall a :: a in r <==> a in apps && a.stage == stage
    ensures IsSubsequence(r, apps)
    decreases |apps|
  {
    if apps == [] then []
    else if apps[0].stage == stage then [apps[0]] + InStage(apps[1..], stage)
    else InStage(apps[1..], stage)
  }

  /** The head of the filtered list is the first application of `apps` in
      that stage: the one the load selects. */
  lemma {:induction false} InStageHead(apps: seq<App>, stage: string)
    requires InStage(apps, stage) != []
    ensures exists k :: 0 <= k < |apps| && apps[k] == InStage(apps, stage)[0] &&
              forall j :: 0 <= j < k ==> apps[j].stage != stage
    decreases |apps|
  {
    if apps[0].stage != stage {
      InStageHead(apps[1..], stage);
      var k :| 0 <= k < |apps[1..]| && apps[1..][k] == InStage(apps[1..], stage)[0] &&
                forall j :: 0 <= j < k ==> apps[1..][j].stage != stage;
      assert apps[k + 1] == InStage(apps, stage)[0];
      assert forall j :: 0 <= j < k + 1 ==> apps[j].stage != stage by {
        forall j | 0 <= j < k + 1 ensures apps[j].stage != stage {
          if j > 0 { assert apps[j] == apps[1..][j - 1]; }
        }
      }
    }
  }

  /** `prev.map(a => a.id === id ? { ...a, stage } : a)`: same length and
      order, every record keeps its id and every field but `stage`, and exactly
      the records with that id take the new stage. */
  function WithStage(apps: seq<App>, id: int, stage: string): (r: seq<App>)
    ensures |r| == |apps|
    ensures forall i :: 0 <= i < |apps| ==>
              r[i].id == apps[i].id && r[i].(stage := apps[i].stage) == apps[i]
    ensures forall i :: 0 <= i < |apps| ==>
              r[i].stage == (if apps[i].id == id then stage else apps[i].stage)
    decreases |apps|
  {
    if apps == [] then []
    else
      [if apps[0].id == id then apps[0].(stage := stage) else apps[0]]
        + WithStage(apps[1..], id, stage)
  }

  /** The state of the `CandidatesPipeline` component. */
  class Pipeline {
    var applications: seq<App>
    var loading: bool
    var activeStage: string
    var selected: Option<App>

    constructor ()
      ensures applications == [] && loading && activeStage == "applied" && selected == None
    {
      applications := [];
      loading := true;
      activeStage := "applied";
      selected := None;
    }

    /** `candidatesInActiveStage`. */
    function CandidatesInActiveStage(): seq<App>
      reads this
    {
      InStage(applications, activeStage)
    }

    /** `loadApplications`: on a response whose records all normalise, the
        list is replaced and the first record in the active stage (if any) is
        selected; otherwise the list and the selection stay as they were.
        Loading ends either way. */
    method LoadApplications(response: Outcome<seq<RawApp>>)
      modifies this
      ensures !loading && activeStage == old(activeStage)
      ensures var loaded := if response.Ok? then NormalizeAll(response.data) else None;
              if loaded.None? then
                applications == old(applications) && selected == old(selected)
              else
                var initial := InStage(loaded.value, activeStage);
                && applications == loaded.value
                && selected == (if |initial| > 0 then Some(initial[0]) else old(selected))
    {
      if response.Ok? {
        var normalized := NormalizeAll(response.data);
        if normalized.Some? {
          applications := normalized.value;
          var initial := InStage(normalized.value, activeStage);
          if |initial| > 0 {
            selected := Some(initial[0]);
          }
        }
      }
      loading := false;
    }

    /** `moveToNextStage(app)`: returns the stage update it asked the server
        for, if any. Local state changes only when that call succeeds: then
        the records with `app.id` take the new stage and the selection is
        cleared exactly when the active stage is `app.stage` and differs from
        the new stage. */
    method MoveToNextStage(app: App, server: Outcome<()>) returns (request: Option<(int, string)>)
      modifies this
      ensures request == (if NextStage(app.stage).Some? then Some((app.id, NextStage(app.stage).value)) else None)
      ensures loading == old(loading) && activeStage == old(activeStage)
      ensures request.None? || server.Err? ==>
                applications == old(applications) && selected == old(selected)
      ensures request.Some? && server.Ok? ==>
                && applications == WithStage(old(applications), app.id, request.value.1)
                && selected == (if activeStage == app.stage && activeStage != request.value.1
                                then None else old(selected))
    {
      var next := NextStage(app.stage);
      if next.None? {
        return None;
      }
      request := Some((app.id, next.value));
      if server.Ok? {
        applications := WithStage(applications, app.id, next.value);
        if activeStage == app.stage && activeStage != next.value {
          selected := None;
        }
      }
    }

    /** A tab click: `setActiveStage(stage)`; the selection is left alone. */
    method SetActiveStage(stage: string)
      modifies this`activeStage
      ensures activeStage == stage
    {
      activeStage := stage;
    }

    /** `onSelectCandidate`. */
    method SelectCandidate(app: App)
      modifies this`selected
      ensures selected == Some(app)
    {
      selected := Some(app);
    }
  }
}
