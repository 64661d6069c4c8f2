/** The create-job page: field updates, and the reset or error after a
    submission. */
module CreateJob {
  import opened Common
  import opened JobForm

  /** The Authorization header sent: the stored `access` entry, which a
      template literal writes as "null" when it is missing. */
  function BearerFrom(store: map<string, string>): (h: string)
    ensures "access" in store ==> h == "Bearer " + store["access"]
    ensures "access" !in store ==> h == "Bearer null"
  {
    "Bearer " + (if "access" in store then store["access"] else "null")
  }

  /** The state of the `CreateJobPage` component. */
  class CreateJobPage {
    var formData: Obj
    var error: string
    var success: string

    constructor ()
      ensures formData == InitialForm && error == "" && success == ""
    {
      formData := InitialForm;
      error := "";
      success := "";
    }

    /** `handleChange`: only the named field changes. */
    method HandleChange(e: ChangeEvent)
      modifies this`formData
      ensures formData == CreateChange(old(formData), e)
    {
      formData := CreateChange(formData, e);
    }

    /** `handleSubmit`: sends the form with the bearer header read from the
        store. On success the form goes back to the fresh defaults; on
        failure it is kept. Either way exactly one of the two messages is
        shown. */
    method HandleSubmit(store: map<string, string>, result: Outcome<()>)
        returns (authorization: string, body: Obj)
      modifies this
      ensures authorization == BearerFrom(store) && body == old(formData)
      ensures result.Ok? ==>
                formData == InitialForm && success == "Job created successfully!" && error == ""
      ensures result.Err? ==>
                formData == old(formData) && error == "Failed to create job. Please check your input." && success == ""
      ensures (error != "") != (success != "")
    {
      authorization := BearerFrom(store);
      body := formData;
      if result.Ok? {
        success := "Job created successfully!";
        error := "";
        formData := InitialForm;
      } else {
        error := "Failed to create job. Please check your input.";
        success := "";
      }
    }
  }
}
