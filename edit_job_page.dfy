/** The second edit-job page, which takes the fetched job wholesale and
    saves the form as multipart form data. */
module EditJobPage {
  import opened Common
  import opened JobForm
  import EditJob

  /** `Object.entries(formData).forEach(([k, v]) => form.append(k, v))`: one
      entry per key, in key order, each value turned into its string. */
  function FormDataEntries(o: Obj): (entries: seq<(string, string)>)
    ensures |entries| == |o|
    ensures forall i :: 0 <= i < |o| ==> entries[i] == (o[i].0, o[i].1.AsString())
    decreases |o|
  {
    if o == [] then [] else [(o[0].0, o[0].1.AsString())] + FormDataEntries(o[1..])
  }

  /** No key is sent twice, and the keys sent are the form's keys in the
      form's order. */
  lemma FormDataOneEntryPerKey(o: Obj)
    ensures forall i, j :: 0 <= i < j < |o| ==> FormDataEntries(o)[i].0 != FormDataEntries(o)[j].0
    ensures forall i :: 0 <= i < |o| ==> FormDataEntries(o)[i].0 == Keys(o)[i]
  {
    var entries := FormDataEntries(o);
    forall i, j | 0 <= i < j < |o| ensures entries[i].0 != entries[j].0 {
      assert entries[i].0 == o[i].0 && entries[j].0 == o[j].0;
    }
  }

  /** A form holding only strings is sent exactly as it reads. */
  lemma {:induction false} FormDataOfStrings(o: Obj, i: nat)
    requires i < |o| && o[i].1.VStr?
    ensures FormDataEntries(o)[i].1 == o[i].1.s
  {
  }

  /** The message of a failed save: the `detail` text, or the fallback. */
  function DetailMessage(err: ErrorData): (m: string)
    ensures TruthyField(err, "detail").Some? ==> m == TruthyField(err, "detail").value.Rendered()
    ensures TruthyField(err, "detail").None? ==> m == "Failed to update job. Please check your input."
  {
    var detail := TruthyField(err, "detail");
    if detail.Some? then detail.value.Rendered() else "Failed to update job. Please check your input."
  }

  /** The state of the `EditJobPage` component. */
  class EditJobFormPage {
    var formData: Obj
    var loading: bool
    var error: string
    var success: string

    constructor ()
      ensures formData == InitialForm && loading && error == "" && success == ""
    {
      formData := InitialForm;
      loading := true;
      error := "";
      success := "";
    }

    /** The fetch on mount: the server's object becomes the form as it is,
        without defaults. */
    method LoadJob(response: Outcome<Obj>)
      modifies this
      ensures !loading && success == old(success)
      ensures response.Ok? ==> formData == response.data && error == old(error)
      ensures response.Err? ==> formData == old(formData) && error == "Failed to load job details."
    {
      if response.Ok? {
        formData := response.data;
      } else {
        error := "Failed to load job details.";
      }
      loading := false;
    }

    /** `handleChange`: the same rule as the other edit page. */
    method HandleChange(e: ChangeEvent)
      modifies this`formData
      ensures formData == EditChange(old(formData), e)
    {
      formData := EditChange(formData, e);
    }

    /** `handleSubmit`: returns the entries sent; then the success text
        (with its leading space) or the `detail` message. */
    method HandleSubmit(result: SubmitResult) returns (entries: seq<(string, string)>)
      modifies this`error, this`success
      ensures entries == FormDataEntries(formData)
      ensures result.Saved? ==> success == " Job updated successfully!" && error == ""
      ensures result.Rejected? ==> success == "" && error == DetailMessage(result.error)
    {
      error := "";
      success := "";
      entries := FormDataEntries(formData);
      if result.Saved? {
        success := " Job updated successfully!";
      } else {
        error := DetailMessage(result.error);
      }
    }
  }

  /** The two edit pages load the same job differently: for a job without
      `type`, the defaulting page shows "full-time" while this page's form
      has no `type` at all, so its save sends no `type` entry. */
  method LoadWithoutType(job: Obj) returns (defaulted: Obj, wholesale: Obj)
    requires "type" !in Keys(job)
    ensures Get(defaulted, "type") == Some(VStr("full-time"))
    ensures Get(wholesale, "type") == None
    ensures forall i :: 0 <= i < |FormDataEntries(wholesale)| ==> FormDataEntries(wholesale)[i].0 != "type"
  {
    var first := new EditJob.EditJobForm();
    first.LoadJob(Ok(job));
    var second := new EditJobFormPage();
    second.LoadJob(Ok(job));
    EditJob.LoadDefaultsType(job);
    defaulted := first.formData;
    wholesale := second.formData;
    FormDataOneEntryPerKey(wholesale);
  }
}
