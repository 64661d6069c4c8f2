/** The job form shared by the create and the two edit pages: the JSON
    values a form field can hold, objects as ordered key/value lists, the
    spread update `{...prev, [name]: v}`, and the change rules of the
    inputs. */
module JobForm {
  import opened Common
  import JsString
  import JobText

  /** A JSON value as the forms meet it. An array is only ever an array of
      strings here (the server's field errors). */
  datatype Value = VStr(s: string) | VBool(b: bool) | VNum(n: int) | VNull | VList(items: seq<string>) {

    /** JavaScript truthiness; every array is truthy, even an empty one. */
    predicate Truthy() {
      match this
      case VStr(t) => t != ""
      case VBool(b) => b
      case VNum(n) => n != 0
      case VNull => false
      case VList(_) => true
    }

    /** `String(v)`, as `FormData.append` stores it: an array is joined
        with commas. */
    function AsString(): string {
      match this
      case VStr(t) => t
      case VBool(b) => if b then "true" else "false"
      case VNum(n) => JsString.IntToDecimal(n)
      case VNull => "null"
      case VList(items) => JoinComma(items)
    }

    /** The text React renders for the value: an array's strings are
        written one after the other. */
    function Rendered(): string {
      match this
      case VList(items) => JobText.Concat(items)
      case _ => AsString()
    }
  }

  function JoinComma(items: seq<string>): string
    decreases |items|
  {
    if items == [] then ""
    else if |items| == 1 then items[0]
    else items[0] + "," + JoinComma(items[1..])
  }

  predicate DistinctKeys(entries: seq<(string, Value)>) {
    forall i, j :: 0 <= i < j < |entries| ==> entries[i].0 != entries[j].0
  }

  /** A JSON object: its entries in key order, no key twice. */
  type Obj = o: seq<(string, Value)> | DistinctKeys(o)

  function Keys(o: seq<(string, Value)>): (ks: seq<string>)
    ensures |ks| == |o| && forall i :: 0 <= i < |o| ==> ks[i] == o[i].0
  {
    seq(|o|, i requires 0 <= i < |o| => o[i].0)
  }

  /** `obj[key]`, `None` standing for `undefined`. */
  function Get(o: Obj, key: string): (r: Option<Value>)
    ensures r.None? <==> key !in Keys(o)
    ensures r.Some? ==> exists i :: 0 <= i < |o| && o[i] == (key, r.value)
    decreases |o|
  {
    if o == [] then None
    else if o[0].0 == key then Some(o[0].1)
    else
      var r := Get(o[1..], key);
      assert Keys(o) == [o[0].0] + Keys(o[1..]);
      if r.Some? then
        var i :| 0 <= i < |o[1..]| && o[1..][i] == (key, r.value);
        assert o[i + 1] == (key, r.value);
        r
      else r
  }

  lemma GetAt(o: Obj, i: nat)
    requires i < |o|
    ensures Get(o, o[i].0) == Some(o[i].1)
    decreases i
  {
    if i > 0 {
      assert o[0].0 != o[i].0;
      assert o[1..][i - 1] == o[i];
      GetAt(o[1..], i - 1);
    }
  }

  /** The position of `key` among the keys of `o`. */
  function KeyIndex(o: seq<(string, Value)>, key: string): (i: nat)
    requires key in Keys(o)
    ensures i < |o| && o[i].0 == key
    decreases |o|
  {
    assert Keys(o) == [o[0].0] + Keys(o[1..]);
    if o[0].0 == key then 0 else 1 + KeyIndex(o[1..], key)
  }

  /** `{...o, [key]: v}`: an existing key keeps its place and takes the new
      value; a new key is added at the end. */
  function Put(o: Obj, key: string, v: Value): (r: Obj)
    ensures Keys(r) == if key in Keys(o) then Keys(o) else Keys(o) + [key]
    ensures |r| >= |o|
    ensures forall i :: 0 <= i < |o| ==> r[i] == if o[i].0 == key then (key, v) else o[i]
    ensures key !in Keys(o) ==> r[|o|] == (key, v)
  {
    if key in Keys(o) then
      var i := KeyIndex(o, key);
      var r := o[i := (key, v)];
      assert Keys(r) == Keys(o);
      r
    else
      var r := o + [(key, v)];
      assert Keys(r) == Keys(o) + [key];
      r
  }

  /** What the spread update promises: the named key reads `v` afterwards and
      every other key reads what it read before. */
  lemma {:induction false} GetPut(o: Obj, key: string, v: Value, other: string)
    ensures Get(Put(o, key, v), key) == Some(v)
    ensures other != key ==> Get(Put(o, key, v), other) == Get(o, other)
  {
    var r := Put(o, key, v);
    if key in Keys(o) {
      var i :| 0 <= i < |o| && Keys(o)[i] == key;
      GetAt(r, i);
    } else {
      GetAt(r, |o|);
    }
    if other != key && other in Keys(o) {
      var i :| 0 <= i < |o| && Keys(o)[i] == other;
      GetAt(o, i);
      GetAt(r, i);
    }
  }

  /** The three list fields, which get the paste formatter on the edit
      pages. */
  const ListFields: seq<string> := ["requirements", "benefits", "responsibilities"]

  /** The nine fields of a fresh form, in order, with their defaults. */
  const InitialForm: Obj := [
    ("title", VStr("")),
    ("company_details", VStr("")),
    ("description", VStr("")),
    ("requirements", VStr("")),
    ("benefits", VStr("")),
    ("responsibilities", VStr("")),
    ("type", VStr("full-time")),
    ("location", VStr("")),
    ("is_open", VBool(true))]

  const FormKeys: seq<string> := Keys(InitialForm)

  /** An input's change event: the target's name, value, type and checked
      state, and whether the input came from a paste. */
  datatype ChangeEvent = ChangeEvent(name: string, value: string, isCheckbox: bool, checked: bool, pasted: bool)

  /** The value an ordinary input stores: `checked` for a checkbox, `value`
      otherwise. */
  function InputValue(e: ChangeEvent): Value {
    if e.isCheckbox then VBool(e.checked) else VStr(e.value)
  }

  /** The create page's `handleChange`: only the named field changes. */
  function CreateChange(form: Obj, e: ChangeEvent): (r: Obj)
    ensures Get(r, e.name) == Some(InputValue(e))
    ensures forall k :: k != e.name ==> Get(r, k) == Get(form, k)
    ensures Keys(r) == if e.name in Keys(form) then Keys(form) else Keys(form) + [e.name]
  {
    forall k ensures Get(Put(form, e.name, InputValue(e)), k) == (if k == e.name then Some(InputValue(e)) else Get(form, k)) {
      GetPut(form, e.name, InputValue(e), k);
    }
    Put(form, e.name, InputValue(e))
  }

  /** The edit pages' `handleChange`: a list field stores its text, passed
      through the paste formatter when it was pasted; any other field
      behaves as on the create page. Only the named field changes. */
  function EditChange(form: Obj, e: ChangeEvent): (r: Obj)
    ensures e.name in ListFields ==>
              Get(r, e.name) == Some(VStr(if e.pasted then JobText.FormatPasted(e.value) else e.value))
    ensures e.name !in ListFields ==> Get(r, e.name) == Some(InputValue(e))
    ensures forall k :: k != e.name ==> Get(r, k) == Get(form, k)
    ensures Keys(r) == if e.name in Keys(form) then Keys(form) else Keys(form) + [e.name]
  {
    var v := if e.name in ListFields then VStr(if e.pasted then JobText.FormatPasted(e.value) else e.value)
             else InputValue(e);
    forall k ensures Get(Put(form, e.name, v), k) == (if k == e.name then Some(v) else Get(form, k)) {
      GetPut(form, e.name, v, k);
    }
    Put(form, e.name, v)
  }

  /** The edit and create pages store the same thing except for pasted list
      text (and a list field's checkbox state, which never arises). */
  lemma EditChangeAsCreate(form: Obj, e: ChangeEvent)
    requires e.name !in ListFields || (!e.pasted && !e.isCheckbox)
    ensures EditChange(form, e) == CreateChange(form, e)
  {
  }

  /** Pasted list text is stored as the formatter leaves it: without
      whitespace at either end, with all of its text, and, when every line
      but the last has text, with a leading marker of each line made "• ". */
  lemma PastedListField(form: Obj, e: ChangeEvent)
    requires e.name in ListFields && e.pasted
    ensures var stored := Get(EditChange(form, e), e.name).value;
            && stored == VStr(JobText.FormatPasted(e.value))
            && (stored.s == [] || (!JsString.IsSpace(stored.s[0]) && !JsString.IsSpace(stored.s[|stored.s| - 1])))
            && JobText.Letters(stored.s) == JobText.Letters(e.value)
    ensures var lines := JsString.Split(JobText.ReplaceCrlf(e.value), '\n');
            && JobText.CrOnlyInPairs(e.value) && '\U{2028}' !in e.value && '\U{2029}' !in e.value
            && (forall i :: 0 <= i < |lines| - 1 ==> JobText.HasText(lines[i]))
            ==> Get(EditChange(form, e), e.name).value.s
                  == JsString.Trim(JsString.Join(JobText.BulletLines(lines), '\n'))
  {
    var lines := JsString.Split(JobText.ReplaceCrlf(e.value), '\n');
    var byLines := && JobText.CrOnlyInPairs(e.value) && '\U{2028}' !in e.value && '\U{2029}' !in e.value
                   && (forall i :: 0 <= i < |lines| - 1 ==> JobText.HasText(lines[i]));
    if byLines {
      JobText.FormatPastedByLines(e.value);
    }
  }

  /** How a form submission settled: saved, or rejected with the error's
      response body, if any. */
  datatype SubmitResult = Saved | Rejected(error: ErrorData)

  /** `err.response?.data`: absent, or a body whose own fields are `fields`
      (none for a body that is not an object) and whose `JSON.stringify`
      text is `json`. */
  datatype ErrorData = NoData | Data(fields: Obj, json: string)

  /** `data?.[key]` when it is truthy. */
  function TruthyField(err: ErrorData, key: string): (r: Option<Value>)
    ensures r.Some? <==> err.Data? && Get(err.fields, key).Some? && Get(err.fields, key).value.Truthy()
    ensures r.Some? ==> r == Get(err.fields, key)
  {
    if err.Data? && Get(err.fields, key).Some? && Get(err.fields, key).value.Truthy() then Get(err.fields, key)
    else None
  }

  /** A truthy value other than an array renders as non-empty text. */
  lemma TruthyRenderedNonEmpty(v: Value)
    requires v.Truthy() && !v.VList?
    ensures v.Rendered() != ""
  {
    if v.VNum? {
      assert |JsString.IntToDecimal(v.n)| >= 1;
    }
  }
}
