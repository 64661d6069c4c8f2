/** A job on the public board: badge, description and location fallbacks,
    the capitalised type, and the two links. */
module JobCard {
  import JsString
  import opened Common
  import opened Jobs

  /** `t.charAt(0).toUpperCase() + t.slice(1)`: only the first character is
      upper-cased, the rest is kept, and "" stays "". */
  function Capitalize(t: string): (r: string)
    ensures |r| == |t|
    ensures t != [] ==> r[0] == JsString.UpperChar(t[0]) && r[1..] == t[1..]
  {
    if t == [] then [] else [JsString.UpperChar(t[0])] + t[1..]
  }

  /** Capitalising twice is capitalising once. */
  lemma CapitalizeIdempotent(t: string)
    ensures Capitalize(Capitalize(t)) == Capitalize(t)
  {
  }

  /** `/jobs/${id}`. */
  function DetailsPath(id: int): (r: string)
    ensures |r| > 6 && r[..6] == "/jobs/" && r[6..] == JsString.IntToDecimal(id)
  {
    "/jobs/" + JsString.IntToDecimal(id)
  }

  /** Different jobs have different detail links. */
  lemma DetailsPathInjective(a: int, b: int)
    requires DetailsPath(a) == DetailsPath(b)
    ensures a == b
  {
    assert DetailsPath(a)[6..] == DetailsPath(b)[6..];
    JsString.IntToDecimalInjective(a, b);
  }

  /** What a card shows. */
  datatype CardView = CardView(
    title: string,
    badge: string,
    description: string,
    location: string,
    typeLabel: string,
    detailsLink: string,
    applyLink: Option<string>)

  function Card(job: Job): (v: CardView)
    ensures v.title == job.title
    ensures v.badge == (if job.isOpen then "Open" else "Closed")
    ensures v.description == (if job.description != "" then job.description else "No description provided.")
    ensures v.location == (if job.location != "" then job.location else "Not specified")
    ensures v.typeLabel == Capitalize(job.jobType)
    ensures v.detailsLink == DetailsPath(job.id)
    ensures v.applyLink == (if job.isOpen then Some(DetailsPath(job.id) + "/apply") else None)
  {
    CardView(
      job.title,
      if job.isOpen then "Open" else "Closed",
      if job.description != "" then job.description else "No description provided.",
      if job.location != "" then job.location else "Not specified",
      Capitalize(job.jobType),
      DetailsPath(job.id),
      if job.isOpen then Some(DetailsPath(job.id) + "/apply") else None)
  }

  /** The badge and the Apply link agree: an "Open" card always offers the
      application form of its own job, a "Closed" card never does, and no
      two jobs share a card's links. */
  lemma CardConsistent(a: Job, b: Job)
    ensures Card(a).badge == "Open" <==> Card(a).applyLink.Some?
    ensures Card(a).applyLink.Some? ==> Card(a).applyLink.value[..|Card(a).detailsLink|] == Card(a).detailsLink
    ensures a.id != b.id ==> Card(a).detailsLink != Card(b).detailsLink
  {
    if a.id != b.id && Card(a).detailsLink == Card(b).detailsLink {
      DetailsPathInjective(a.id, b.id);
    }
  }
}
