/** The admin dashboard: the two "recent" lists taken from the first page of
    applications and of jobs, and the four statistics derived from them. */
module Dashboard {
  import opened Common
  import JsString
  import opened CandidatesPipeline
  import opened Jobs

  /** A response body as the dashboard reads it: an object with a `results`
      array, a bare array, or anything else. */
  datatype Body<T> = Paged(results: seq<T>) | Bare(items: seq<T>) | Malformed

  /** `fetchApplications()`: the `results` of the applications body. The
      dashboard then evaluates `(data.results || data)`; an array has no
      `results`, so the array itself is used, and any other body has given
      `undefined`, whose `.results` throws (`None`). */
  function ApplicationsList(body: Body<RawApp>): (r: Option<seq<RawApp>>)
    ensures r.Some? <==> body.Paged?
    ensures r.Some? ==> r.value == body.results
  {
    match body
    case Paged(results) => Some(results)
    case _ => None
  }

  /** `(jobsData.results || jobsData)` on the jobs body as it is: the
      `results` array of a page (an empty array is truthy), the array itself,
      or `None` where `.slice` is not a function and throws. */
  function JobsList(body: Body<Job>): (r: Option<seq<Job>>)
    ensures r.None? <==> body.Malformed?
    ensures body.Paged? ==> r == Some(body.results)
    ensures body.Bare? ==> r == Some(body.items)
  {
    match body
    case Paged(results) => Some(results)
    case Bare(items) => Some(items)
    case Malformed => None
  }

  /** `.slice(0, 5)`: the first five elements, or all of them when there are
      fewer. */
  function FirstFive<T>(xs: seq<T>): (r: seq<T>)
    ensures |r| <= 5 && |r| <= |xs|
    ensures |r| == 5 || r == xs
    ensures forall i :: 0 <= i < |r| ==> r[i] == xs[i]
  {
    xs[..Min(5, |xs|)]
  }

  /** Taking the first five of a list that has at most five changes
      nothing, so slicing again is harmless. */
  lemma FirstFiveIdempotent<T>(xs: seq<T>)
    ensures FirstFive(FirstFive(xs)) == FirstFive(xs)
    ensures |xs| <= 5 ==> FirstFive(xs) == xs
  {
  }

  /** The raw stage fields of `cs`, in order. */
  function RawStages(cs: seq<RawApp>): seq<Option<string>> {
    seq(|cs|, i requires 0 <= i < |cs| => cs[i].stage)
  }

  /** `list.filter(c => c.stage === stage)`, compared with the exact,
      case-sensitive text: the records in that stage, in their original order,
      one for every record of `cs` whose stage is that text. */
  function WithRawStage(cs: seq<RawApp>, stage: string): (r: seq<RawApp>)
    ensures |r| == multiset(RawStages(cs))[Some(stage)]
    ensures forall c :: c in r <==> c in cs && c.stage == Some(stage)
    ensures IsSubsequence(r, cs)
    decreases |cs|
  {
    if cs == [] then []
    else
      assert RawStages(cs) == [cs[0].stage] + RawStages(cs[1..]);
      if cs[0].stage == Some(stage) then [cs[0]] + WithRawStage(cs[1..], stage)
      else WithRawStage(cs[1..], stage)
  }

  /** The four numbers on the statistic cards. */
  datatype Stats = Stats(activeJobs: nat, totalApplicants: nat, interviews: nat, offers: nat)

  function StatsOf(recentJobs: seq<Job>, recentCandidates: seq<RawApp>): (s: Stats)
    ensures s.activeJobs == |recentJobs| && s.totalApplicants == |recentCandidates|
    ensures s.interviews == |WithRawStage(recentCandidates, "Interview")|
    ensures s.offers == |WithRawStage(recentCandidates, "Offer")|
    ensures s.interviews <= s.totalApplicants && s.offers <= s.totalApplicants
  {
    Stats(|recentJobs|, |recentCandidates|,
          |WithRawStage(recentCandidates, "Interview")|, |WithRawStage(recentCandidates, "Offer")|)
  }

  /** A candidate is counted under at most one of "Interviews Scheduled" and
      "Pending Offers", so together they never exceed the applicants. */
  lemma {:induction false} InterviewsPlusOffers(cs: seq<RawApp>)
    ensures |WithRawStage(cs, "Interview")| + |WithRawStage(cs, "Offer")| <= |cs|
    decreases |cs|
  {
    if cs != [] {
      InterviewsPlusOffers(cs[1..]);
    }
  }

  /** Stages written in lower case, as the server's pipeline stages are,
      match neither "Interview" nor "Offer": both cards then read 0. */
  lemma {:induction false} LowerCaseStagesNotCounted(cs: seq<RawApp>, stage: string)
    requires forall i :: 0 <= i < |cs| ==> cs[i].stage.None? || JsString.IsLower(cs[i].stage.value)
    requires !JsString.IsLower(stage)
    ensures WithRawStage(cs, stage) == []
    decreases |cs|
  {
    if cs != [] {
      LowerCaseStagesNotCounted(cs[1..], stage);
    }
  }

  /** The caption after a job's number of openings: plural exactly when the
      number is greater than one. */
  function OpeningsLabel(openings: int): (r: string)
    ensures r == "Opening" || r == "Openings"
    ensures r == "Openings" <==> openings > 1
  {
    "Opening" + (if openings > 1 then "s" else "")
  }

  /** The state of the `Dashboard` component. */
  class DashboardPage {
    var recentCandidates: seq<RawApp>
    var recentJobs: seq<Job>
    var loading: bool

    /** Both lists hold at most five entries. */
    predicate Valid()
      reads this
    {
      |recentCandidates| <= 5 && |recentJobs| <= 5
    }

    constructor ()
      ensures recentCandidates == [] && recentJobs == [] && loading
      ensures Valid()
    {
      recentCandidates := [];
      recentJobs := [];
      loading := true;
    }

    /** The statistic cards of the current state. */
    function CurrentStats(): (s: Stats)
      reads this
      ensures Valid() ==> s.activeJobs <= 5 && s.totalApplicants <= 5
    {
      StatsOf(recentJobs, recentCandidates)
    }

    /** `loadDashboardData`: both requests run together and either failing
        sets nothing. Otherwise the candidates are set first (a body without
        `results` throws before that), then the jobs (a malformed jobs body
        throws after the candidates were set). Loading ends in every case. */
    method LoadDashboardData(applications: Outcome<Body<RawApp>>, jobs: Outcome<Body<Job>>)
      requires Valid()
      modifies this
      ensures Valid() && !loading
      ensures var cands := if applications.Ok? && jobs.Ok? then ApplicationsList(applications.data) else None;
              && recentCandidates == (if cands.Some? then FirstFive(cands.value) else old(recentCandidates))
              && recentJobs == (if cands.Some? && JobsList(jobs.data).Some? then FirstFive(JobsList(jobs.data).value)
                                else old(recentJobs))
    {
      if applications.Ok? && jobs.Ok? {
        var cands := ApplicationsList(applications.data);
        if cands.Some? {
          recentCandidates := FirstFive(cands.value);
          var js := JobsList(jobs.data);
          if js.Some? {
            recentJobs := FirstFive(js.value);
          }
        }
      }
      loading := false;
    }
  }

  /** A first load that fails, or whose applications body is not a page,
      leaves both lists empty and every statistic at 0. */
  method FailedFirstLoad(applications: Outcome<Body<RawApp>>, jobs: Outcome<Body<Job>>)
      returns (s: Stats)
    requires applications.Err? || jobs.Err? || !applications.data.Paged?
    ensures s == Stats(0, 0, 0, 0)
  {
    var page := new DashboardPage();
    page.LoadDashboardData(applications, jobs);
    s := page.CurrentStats();
  }
}
