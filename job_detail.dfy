/** The job detail page: the loaded job, and what the page shows for it. */
module JobDetail {
  import opened Common
  import opened Jobs
  import opened JobText
  import JobCard

  /** `{field && <ul>{renderBullets(field)}</ul>}`: the bullets of a
      non-empty list field, and no section for an empty one. */
  function BulletSection(field: string): (r: Option<seq<string>>)
    ensures r.Some? <==> field != ""
    ensures r.Some? ==> r.value == RenderBullets(field)
  {
    if field != "" then Some(RenderBullets(field)) else None
  }

  datatype PageView =
    | Spinner
    | NotFound
    | Shown(
        title: string,
        status: string,
        description: Option<string>,
        requirements: Option<seq<string>>,
        responsibilities: Option<seq<string>>,
        benefits: Option<seq<string>>,
        location: Option<string>,
        typeText: Option<string>,
        applyLink: Option<string>)

  /** The page: a spinner while loading, "Job not found." without a job,
      otherwise the job with its open or closed status, the optional parts
      shown only when non-empty, the type with its first dash replaced, and
      the Apply link only for an open job. */
  function Page(loading: bool, job: Option<Job>): (v: PageView)
    ensures v.Spinner? <==> loading
    ensures v.NotFound? <==> !loading && job.None?
    ensures v.Shown? ==> var j := job.value;
              && v.title == j.title
              && v.status == (if j.isOpen then "Open for applications" else "Applications Closed")
              && v.description == (if j.description != "" then Some(j.description) else None)
              && v.requirements == BulletSection(j.requirements)
              && v.responsibilities == BulletSection(j.responsibilities)
              && v.benefits == BulletSection(j.benefits)
              && v.location == (if j.location != "" then Some(j.location) else None)
              && v.typeText == (if j.jobType != "" then Some(ReplaceFirstDash(j.jobType)) else None)
              && v.applyLink == (if j.isOpen then Some(JobCard.DetailsPath(j.id) + "/apply") else None)
  {
    if loading then Spinner
    else if job.None? then NotFound
    else
      var j := job.value;
      Shown(
        j.title,
        if j.isOpen then "Open for applications" else "Applications Closed",
        if j.description != "" then Some(j.description) else None,
        BulletSection(j.requirements),
        BulletSection(j.responsibilities),
        BulletSection(j.benefits),
        if j.location != "" then Some(j.location) else None,
        if j.jobType != "" then Some(ReplaceFirstDash(j.jobType)) else None,
        if j.isOpen then Some(JobCard.DetailsPath(j.id) + "/apply") else None)
  }

  /** The detail page and the job's card offer the same Apply link, or
      both none. */
  lemma ApplyLinkAsOnCard(job: Job)
    ensures Page(false, Some(job)).applyLink == JobCard.Card(job).applyLink
  {
  }

  /** The state of the `JobDetail` component. */
  class JobDetailPage {
    var job: Option<Job>
    var loading: bool

    constructor ()
      ensures job == None && loading
    {
      job := None;
      loading := true;
    }

    /** `loadJob`: the fetched job on success, nothing on failure; loading
        ends either way. */
    method LoadJob(response: Outcome<Job>)
      modifies this
      ensures !loading
      ensures job == if response.Ok? then Some(response.data) else old(job)
    {
      if response.Ok? {
        job := Some(response.data);
      }
      loading := false;
    }

    function View(): PageView
      reads this
    {
      Page(loading, job)
    }
  }

  /** Opening the page: a failed fetch shows "Job not found.", a successful
      one shows the job. */
  method OpenPage(response: Outcome<Job>) returns (v: PageView)
    ensures response.Err? ==> v == NotFound
    ensures response.Ok? ==> v.Shown? && v.title == response.data.title
  {
    var page := new JobDetailPage();
    page.LoadJob(response);
    v := page.View();
  }
}
