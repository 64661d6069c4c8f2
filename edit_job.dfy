/** The edit-job form that fills in defaults when it loads a job and reports
    field errors of a failed save. */
module EditJob {
  import opened Common
  import opened JobForm

  /** `v || d`: the value when it is truthy, the default otherwise. */
  function OrElse(v: Option<Value>, d: Value): Value {
    if v.Some? && v.value.Truthy() then v.value else d
  }

  /** `v ?? d`: the value unless it is null or undefined. */
  function Nullish(v: Option<Value>, d: Value): Value {
    if v.Some? && !v.value.VNull? then v.value else d
  }

  /** The loaded value of one form field: `is_open` defaults with `??` to
      true, `type` with `||` to "full-time", every other field with `||` to
      "". */
  function Loaded(key: string, v: Option<Value>): Value {
    if key == "is_open" then Nullish(v, VBool(true))
    else if key == "type" then OrElse(v, VStr("full-time"))
    else OrElse(v, VStr(""))
  }

  /** Loading a second time changes nothing. */
  lemma LoadedIdempotent(key: string, v: Option<Value>)
    ensures Loaded(key, Some(Loaded(key, v))) == Loaded(key, v)
  {
  }

  lemma FormKeysDistinct()
    ensures FormKeys == ["title", "company_details", "description", "requirements", "benefits",
                         "responsibilities", "type", "location", "is_open"]
    ensures forall i, j :: 0 <= i < j < |FormKeys| ==> FormKeys[i] != FormKeys[j]
  {
  }

  /** The form made from a fetched job: exactly the nine form fields, in
      order, each with its loaded value. */
  function LoadDefaults(job: Obj): (form: Obj)
    ensures Keys(form) == FormKeys
    ensures forall i :: 0 <= i < |FormKeys| ==> form[i].1 == Loaded(FormKeys[i], Get(job, FormKeys[i]))
  {
    FormKeysDistinct();
    var form := seq(|FormKeys|, i requires 0 <= i < |FormKeys| => (FormKeys[i], Loaded(FormKeys[i], Get(job, FormKeys[i]))));
    assert DistinctKeys(form);
    form
  }

  /** What a field of the loaded form reads. */
  lemma {:induction false} GetLoadDefaults(job: Obj, i: nat)
    requires i < |FormKeys|
    ensures Get(LoadDefaults(job), FormKeys[i]) == Some(Loaded(FormKeys[i], Get(job, FormKeys[i])))
  {
    GetAt(LoadDefaults(job), i);
  }

  /** A closed job stays closed: `??` keeps `false`, where `||` would have
      reopened it. An absent or null `is_open` loads as open. */
  lemma LoadKeepsClosed(job: Obj)
    ensures Get(job, "is_open") == Some(VBool(false)) ==>
              Get(LoadDefaults(job), "is_open") == Some(VBool(false))
    ensures Get(job, "is_open") in {None, Some(VNull)} ==>
              Get(LoadDefaults(job), "is_open") == Some(VBool(true))
  {
    FormKeysDistinct();
    GetLoadDefaults(job, 8);
  }

  /** A job without a (truthy) type loads as "full-time". */
  lemma LoadDefaultsType(job: Obj)
    ensures Get(job, "type").None? || !Get(job, "type").value.Truthy() ==>
              Get(LoadDefaults(job), "type") == Some(VStr("full-time"))
  {
    FormKeysDistinct();
    GetLoadDefaults(job, 6);
  }

  /** Loading the loaded form again gives the same form. */
  lemma {:induction false} LoadDefaultsIdempotent(job: Obj)
    ensures LoadDefaults(LoadDefaults(job)) == LoadDefaults(job)
  {
    var form := LoadDefaults(job);
    var again := LoadDefaults(form);
    forall i | 0 <= i < |FormKeys| ensures again[i] == form[i] {
      GetLoadDefaults(job, i);
      GetAt(form, i);
      LoadedIdempotent(FormKeys[i], Get(job, FormKeys[i]));
    }
  }

  /** An empty job loads as the fresh form. */
  lemma LoadEmptyIsInitial()
    ensures LoadDefaults([]) == InitialForm
  {
    FormKeysDistinct();
    var form := LoadDefaults([]);
    forall i | 0 <= i < |FormKeys| ensures form[i] == InitialForm[i] {
    }
  }

  /** The message of a failed save: the `title` error, else the `type`
      error, else the body's JSON text, else the fixed fallback. */
  function UpdateErrorMessage(err: ErrorData): (m: string)
    ensures TruthyField(err, "title").Some? ==> m == TruthyField(err, "title").value.Rendered()
    ensures TruthyField(err, "title").None? && TruthyField(err, "type").Some? ==>
              m == TruthyField(err, "type").value.Rendered()
    ensures TruthyField(err, "title").None? && TruthyField(err, "type").None? ==>
              m == if err.Data? && err.json != "" then err.json else "Failed to update job."
  {
    var title := TruthyField(err, "title");
    var jobType := TruthyField(err, "type");
    if title.Some? then title.value.Rendered()
    else if jobType.Some? then jobType.value.Rendered()
    else if err.Data? && err.json != "" then err.json
    else "Failed to update job."
  }

  /** The message is empty only when the deciding field error is an empty
      list. */
  lemma UpdateErrorMessageNonEmpty(err: ErrorData)
    requires TruthyField(err, "title").Some? ==> !TruthyField(err, "title").value.VList?
    requires TruthyField(err, "title").None? && TruthyField(err, "type").Some? ==>
               !TruthyField(err, "type").value.VList?
    ensures UpdateErrorMessage(err) != ""
  {
    var title := TruthyField(err, "title");
    var jobType := TruthyField(err, "type");
    if title.Some? {
      TruthyRenderedNonEmpty(title.value);
    } else if jobType.Some? {
      TruthyRenderedNonEmpty(jobType.value);
    }
  }

  /** The state of the `EditJob` component. */
  class EditJobForm {
    var formData: Obj
    var loading: bool
    var error: string
    var success: string

    constructor ()
      ensures formData == InitialForm && loading && error == "" && success == ""
    {
      formData := InitialForm;
      loading := true;
      error := "";
      success := "";
    }

    /** `loadJob`: the defaulted form on success, the load error on
        failure; loading ends either way. */
    method LoadJob(response: Outcome<Obj>)
      modifies this
      ensures !loading && success == old(success)
      ensures response.Ok? ==> formData == LoadDefaults(response.data) && error == old(error)
      ensures response.Err? ==> formData == old(formData) && error == "Failed to load job details."
    {
      if response.Ok? {
        formData := LoadDefaults(response.data);
      } else {
        error := "Failed to load job details.";
      }
      loading := false;
    }

    /** `handleChange`. */
    method HandleChange(e: ChangeEvent)
      modifies this`formData
      ensures formData == EditChange(old(formData), e)
    {
      formData := EditChange(formData, e);
    }

    /** `handleSubmit`: sends the form as it is, then shows the success
        text or the error message; the form itself is kept. */
    method HandleSubmit(result: SubmitResult) returns (body: Obj)
      modifies this`error, this`success
      ensures body == formData
      ensures result.Saved? ==> success == "Job updated successfully!" && error == ""
      ensures result.Rejected? ==> success == "" && error == UpdateErrorMessage(result.error)
    {
      error := "";
      success := "";
      body := formData;
      if result.Saved? {
        success := "Job updated successfully!";
      } else {
        error := UpdateErrorMessage(result.error);
      }
    }
  }
}
