/** The job application form: the job it applies to, the local resume
    check, and the submission with its reset on success. */
module ApplyForm {
  import opened Common

  /** The file picked in the resume input. */
  datatype Resume = Resume(fileName: string)

  /** One entry of the submitted form data. */
  datatype Entry = TextEntry(name: string, text: string) | FileEntry(name: string, file: Resume)

  /** The reply of the apply endpoint; only its `error` field is read. */
  datatype ApplyReply = ApplyReply(error: JsStr)

  const MissingResume := "⚠️ Please upload your resume to continue."
  const Submitted := "Your application has been submitted successfully!"
  const Fallback := "❌ Something went wrong. Try again."

  /** `propJobId || routeJobId`. */
  function ResolveJobId(propJobId: JsStr, routeJobId: JsStr): (id: JsStr)
    ensures propJobId.Truthy() ==> id == propJobId
    ensures !propJobId.Truthy() ==> id == routeJobId
  {
    if propJobId.Truthy() then propJobId else routeJobId
  }

  /** Whether the submission went through: it did when the call resolved
      with a reply that carries no (truthy) `error`. */
  predicate Accepted(response: Outcome<ApplyReply>) {
    response.Ok? && !response.data.error.Truthy()
  }

  /** The message after a failed submission: `err.message || fallback`,
      where a reply's `error` becomes the message of the thrown error. */
  function FailureMessage(response: Outcome<ApplyReply>): (m: string)
    requires !Accepted(response)
    ensures m != ""
    ensures response.Err? && response.message != "" ==> m == response.message
    ensures response.Ok? ==> m == response.data.error.s
    ensures response.Err? && response.message == "" ==> m == Fallback
  {
    var text := if response.Ok? then response.data.error.s else response.message;
    if text != "" then text else Fallback
  }

  /** The state of the `ApplyForm` component. */
  class ApplyFormPage {
    const jobId: JsStr
    var fullName: string
    var email: string
    var phone: string
    var resume: Option<Resume>
    var showModal: bool
    var message: string
    var isSubmitting: bool

    constructor (propJobId: JsStr, routeJobId: JsStr)
      ensures jobId == ResolveJobId(propJobId, routeJobId)
      ensures fullName == "" && email == "" && phone == "" && resume == None
      ensures !showModal && message == "" && !isSubmitting
    {
      jobId := ResolveJobId(propJobId, routeJobId);
      fullName := "";
      email := "";
      phone := "";
      resume := None;
      showModal := false;
      message := "";
      isSubmitting := false;
    }

    method SetFullName(v: string)
      modifies this`fullName
      ensures fullName == v
    {
      fullName := v;
    }

    method SetEmail(v: string)
      modifies this`email
      ensures email == v
    {
      email := v;
    }

    method SetPhone(v: string)
      modifies this`phone
      ensures phone == v
    {
      phone := v;
    }

    /** The file input's change: its first file, or none. */
    method SelectResume(file: Option<Resume>)
      modifies this`resume
      ensures resume == file
    {
      resume := file;
    }

    /** The modal's close button. */
    method CloseModal()
      modifies this`showModal
      ensures !showModal
    {
      showModal := false;
    }

    /** `handleSubmit` up to the call: without a resume, the warning is
        shown and no call is made; otherwise submitting starts and the
        request carries exactly the four fields. */
    method Begin() returns (request: Option<(JsStr, seq<Entry>)>)
      modifies this`message, this`showModal, this`isSubmitting
      ensures old(resume).None? ==>
                && request.None?
                && message == MissingResume && showModal
                && isSubmitting == old(isSubmitting)
      ensures old(resume).Some? ==>
                && request == Some((jobId, [TextEntry("full_name", fullName), TextEntry("email", email),
                                            TextEntry("phone", phone), FileEntry("resume", resume.value)]))
                && isSubmitting && message == old(message) && showModal == old(showModal)
    {
      if resume.None? {
        message := MissingResume;
        showModal := true;
        return None;
      }
      isSubmitting := true;
      request := Some((jobId, [TextEntry("full_name", fullName), TextEntry("email", email),
                               TextEntry("phone", phone), FileEntry("resume", resume.value)]));
    }

    /** `handleSubmit` after the call: on acceptance the success message and
        a cleared form, otherwise the failure message with the fields kept.
        The modal opens and submitting ends either way. */
    method Settle(response: Outcome<ApplyReply>)
      modifies this
      ensures showModal && !isSubmitting
      ensures Accepted(response) ==>
                && message == Submitted
                && fullName == "" && email == "" && phone == "" && resume == None
      ensures !Accepted(response) ==>
                && message == FailureMessage(response)
                && fullName == old(fullName) && email == old(email) && phone == old(phone)
                && resume == old(resume)
    {
      if Accepted(response) {
        message := Submitted;
        showModal := true;
        fullName := "";
        email := "";
        phone := "";
        resume := None;
      } else {
        message := FailureMessage(response);
        showModal := true;
      }
      isSubmitting := false;
    }
  }

  /** A whole submission: one with a resume reaches the server and always
      ends with submitting off and a non-empty message in the modal; one
      without never calls the server. */
  method Submit(form: ApplyFormPage, response: Outcome<ApplyReply>) returns (called: bool)
    modifies form
    ensures called <==> old(form.resume).Some?
    ensures form.showModal && form.message != ""
    ensures called ==> !form.isSubmitting
    ensures called && Accepted(response) ==> form.resume == None
  {
    var request := form.Begin();
    called := request.Some?;
    if called {
      form.Settle(response);
    }
  }
}
