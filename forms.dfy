/**
  The REST form mixin (is_core/forms/__init__.py:10-42): reporting a form's
  validation errors in the shape the REST layer sends back, and filling the
  fields a request left out from the form's initial values.

  Django's own validation is not part of this model: what `is_valid()`,
  `errors` and `non_field_errors()` return is held in fields of the form.
*/
module Forms {
  import opened Wrappers

  /** A form field, as far as these operations see it: its own default. */
  datatype FormField<V> = FormField(initial: V)

  /** What `is_invalid` reports under one key: the first message of a
      field, or the whole list of non-field messages. */
  datatype Reported = First(message: string) | All(messages: seq<string>)

  /** The result of `is_invalid`: Python `False`, or the error dictionary. */
  datatype Verdict = NoErrors | Errors(errors: map<string, Reported>)

  /** Taking `v[0]` of an empty message list. */
  datatype Error = IndexError

  const AllKey: string := "__all__"
  const NonFieldKey: string := "non-field-errors"

  /** The report of `is_invalid` for a form whose `is_valid()` answers
      `valid` and which holds the given errors. */
  function Report(valid: bool, errors: map<string, seq<string>>, nonField: seq<string>): (r: Result<Verdict, Error>)
    ensures r.Failure? <==> !valid && exists k :: k in errors && errors[k] == []
    ensures r.Success? ==> (r.value.NoErrors? <==> (valid || errors.Keys <= {AllKey}) && nonField == [])
    ensures r.Success? && r.value.Errors? ==> r.value.errors != map[] && AllKey !in r.value.errors
    ensures r.Success? && r.value.Errors? ==>
              forall k :: k in r.value.errors && k != NonFieldKey ==>
                !valid && k in errors && |errors[k]| > 0 && r.value.errors[k] == First(errors[k][0])
    ensures r.Success? && r.value.Errors? && !valid ==>
              forall k :: k in errors && k != AllKey ==> k in r.value.errors
    ensures r.Success? && r.value.Errors? ==>
              (NonFieldKey in r.value.errors <==> nonField != [] || (!valid && NonFieldKey in errors))
    ensures r.Success? && nonField != [] ==>
              r.value.Errors? && NonFieldKey in r.value.errors && r.value.errors[NonFieldKey] == All(nonField)
    ensures r.Success? && r.value.Errors? && nonField == [] && NonFieldKey in r.value.errors ==>
              |errors[NonFieldKey]| > 0 && r.value.errors[NonFieldKey] == First(errors[NonFieldKey][0])
    ensures r.Success? && r.value.Errors? && valid ==> r.value.errors.Keys == {NonFieldKey}
  {
    if !valid && exists k :: k in errors && errors[k] == [] then Failure(IndexError)
    else
      var fieldErrors := map k | k in errors && k != AllKey && !valid :: First(errors[k][0]);
      var all := if nonField != [] then fieldErrors[NonFieldKey := All(nonField)] else fieldErrors;
      assert nonField != [] ==> NonFieldKey in all;
      assert forall k :: k in errors && k != AllKey && !valid ==> k in all;
      Success(if all == map[] then NoErrors else Errors(all))
  }

  /** The value `merge_from_initial` fills a missing field with: the form's
      initial value for it if there is one, else the field's own default. */
  function InitialFor<V>(initial: map<string, V>, fields: map<string, FormField<V>>, f: string): V
    requires f in fields
  {
    if f in initial then initial[f] else fields[f].initial
  }

  /** The data after `merge_from_initial`: every field has a value, the keys
      already present keep theirs, and nothing else is added. */
  function Merged<V>(data: map<string, V>, initial: map<string, V>, fields: map<string, FormField<V>>): (r: map<string, V>)
    ensures r.Keys == data.Keys + fields.Keys
    ensures forall k :: k in data ==> r[k] == data[k]
    ensures forall k :: k in fields && k !in data ==> r[k] == InitialFor(initial, fields, k)
  {
    data + map k | k in fields.Keys - data.Keys :: InitialFor(initial, fields, k)
  }

  /** Merging a second time changes nothing. */
  lemma MergedIdempotent<V>(data: map<string, V>, initial: map<string, V>, fields: map<string, FormField<V>>)
    ensures Merged(Merged(data, initial, fields), initial, fields) == Merged(data, initial, fields)
  {
  }

  class RestForm<V> {
    var data: map<string, V>
    var initial: map<string, V>
    var fields: map<string, FormField<V>>
    /** What Django's `is_valid()` answers for this form. */
    var valid: bool
    /** Django's `errors`: the messages per field, `'__all__'` included. */
    var errors: map<string, seq<string>>
    /** Django's `non_field_errors()`. */
    var nonFieldErrors: seq<string>

    constructor (data: map<string, V>, initial: map<string, V>, fields: map<string, FormField<V>>,
                 valid: bool, errors: map<string, seq<string>>, nonFieldErrors: seq<string>)
      ensures this.data == data && this.initial == initial && this.fields == fields
      ensures this.valid == valid && this.errors == errors && this.nonFieldErrors == nonFieldErrors
    {
      this.data := data;
      this.initial := initial;
      this.fields := fields;
      this.valid := valid;
      this.errors := errors;
      this.nonFieldErrors := nonFieldErrors;
    }

    /** `is_invalid`: build the dictionary of first messages, drop
        `'__all__'`, add the non-field messages, and answer `False` when
        the dictionary is left empty. */
    method IsInvalid() returns (r: Result<Verdict, Error>)
      ensures r == Report(valid, errors, nonFieldErrors)
    {
      var errs: map<string, Reported> := map[];
      if !valid {
        var rest := errors.Keys;
        while rest != {}
          invariant rest <= errors.Keys
          invariant errs.Keys == errors.Keys - rest
          invariant forall k :: k in errs ==> |errors[k]| > 0 && errs[k] == First(errors[k][0])
          decreases rest
        {
          var k :| k in rest;
          var v := errors[k];
          if |v| == 0 {
            return Failure(IndexError);
          }
          errs := errs[k := First(v[0])];
          rest := rest - {k};
        }
        assert errs == map k | k in errors :: First(errors[k][0]);
      }
      if AllKey in errs {
        errs := errs - {AllKey};
      }
      assert errs == map k | k in errors && k != AllKey && !valid :: First(errors[k][0]);
      if nonFieldErrors != [] {
        errs := errs[NonFieldKey := All(nonFieldErrors)];
      }
      assert nonFieldErrors != [] ==> NonFieldKey in errs;
      if errs != map[] {
        return Success(Errors(errs));
      }
      return Success(NoErrors);
    }

    /** `merge_from_initial`: give every form field the request left out
        its initial value, in place in `data`. */
    method MergeFromInitial()
      modifies this`data
      ensures data == Merged(old(data), initial, fields)
    {
      ghost var data0 := data;
      var pending := fields.Keys - data.Keys;
      while pending != {}
        invariant pending <= fields.Keys - data0.Keys
        invariant data.Keys == data0.Keys + (fields.Keys - data0.Keys - pending)
        invariant forall k :: k in data0 ==> data[k] == data0[k]
        invariant forall k :: k in data && k !in data0 ==> k in fields && data[k] == InitialFor(initial, fields, k)
        decreases pending
      {
        var f :| f in pending;
        data := data[f := if f in initial then initial[f] else fields[f].initial];
        pending := pending - {f};
      }
    }
  }
}
