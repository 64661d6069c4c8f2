/** One row of the candidate list: the avatar initials with their "??"
    fallback, the displayed name, the optional contact rows and the
    selection highlight. */
module CandidateListItem {
  import opened Common
  import JsString
  import opened CandidatesPipeline
  import CandidateDetail

  /** The row's avatar text: "??" for an empty name, otherwise the same
      chain as the detail pane (first letters of the first two words,
      upper-cased). */
  function ListInitials(c: App): (r: string)
    ensures c.candidateName == "" ==> r == "??"
    ensures c.candidateName != "" ==>
              var starts := CandidateDetail.WordStarts(c.candidateName);
              r == JsString.ToUpper(starts[..Min(2, |starts|)])
    ensures |r| <= 2
    ensures c.candidateName != "" ==> JsString.IsUpper(r)
  {
    if c.candidateName == "" then "??" else CandidateDetail.NameInitials(c.candidateName)
  }

  /** What a row shows. A row is present (`Some`) exactly when its field is
      non-empty. */
  datatype ItemView = ItemView(
    initials: string,
    name: string,
    email: Option<string>,
    phone: Option<string>,
    resume: Option<string>,
    highlighted: bool)

  function ItemOf(c: App, isSelected: bool): (v: ItemView)
    ensures v.initials == ListInitials(c)
    ensures v.name == if c.candidateName != "" then c.candidateName else "Unnamed Candidate"
    ensures v.name != ""
    ensures v.email == if c.candidateEmail != "" then Some(c.candidateEmail) else None
    ensures v.phone == if c.phone != "" then Some(c.phone) else None
    ensures v.resume == if c.resumeLink != "" then Some(c.resumeLink) else None
    ensures v.highlighted <==> isSelected
  {
    ItemView(
      ListInitials(c),
      if c.candidateName != "" then c.candidateName else "Unnamed Candidate",
      if c.candidateEmail != "" then Some(c.candidateEmail) else None,
      if c.phone != "" then Some(c.phone) else None,
      if c.resumeLink != "" then Some(c.resumeLink) else None,
      isSelected)
  }

  /** The list and the detail pane agree on the initials of a named
      candidate; for an unnamed one the list shows "??" where the pane shows
      "UN". */
  lemma InitialsAgree(c: App)
    ensures c.candidateName != "" ==> ListInitials(c) == CandidateDetail.Initials(Some(c))
    ensures c.candidateName == "" ==>
              ListInitials(c) == "??" && CandidateDetail.Initials(Some(c)) == "UN"
  {
  }

  /** The row offers "View Resume" exactly when the detail pane of the same
      candidate embeds the resume viewer. */
  lemma ResumeRowMatchesViewer(c: App, isSelected: bool, nextStageLabel: Option<string>)
    ensures ItemOf(c, isSelected).resume.Some? <==>
              CandidateDetail.View(Some(c), nextStageLabel).resumeViewer
  {
  }
}
