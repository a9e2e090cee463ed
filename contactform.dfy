/**
 * components/ContactForm.tsx: the lead intake form. `validate` checks the
 * raw lengths of the name and the handle, always both; `handleSubmit`
 * prepends one dated lead, without a status, to the stored lead list.
 */
module ContactForm {
  import opened Wrappers
  import opened Records
  import Registry
  import AdminHub

  /** The form's fields. */
  datatype FormData = FormData(fullName: string, handle: string, goal: string)

  /** The form's per-field error texts; the empty text is no error. */
  datatype FormErrors = FormErrors(fullName: string, handle: string)

  const EmptyForm: FormData := FormData("", "", "Content")
  const NoErrors: FormErrors := FormErrors("", "")

  const NameError: string := "Identity invalid: Name too short."
  const HandleError: string := "Target invalid: Provide handle or site."

  /** The shortest name and handle the form accepts. */
  const MinLength: nat := 3

  /** The record `validate` builds, with its two checks taken independently. */
  function ErrorsFor(form: FormData): (e: FormErrors)
    ensures e.fullName != "" <==> |form.fullName| < MinLength
    ensures e.handle != "" <==> |form.handle| < MinLength
  {
    FormErrors(if |form.fullName| < MinLength then NameError else "",
               if |form.handle| < MinLength then HandleError else "")
  }

  /** What `validate` returns. */
  predicate IsValid(form: FormData) {
    |form.fullName| >= MinLength && |form.handle| >= MinLength
  }

  /** A form is valid exactly when `validate` records no error at all. */
  lemma ValidIffNoErrors(form: FormData)
    ensures IsValid(form) <==> ErrorsFor(form) == NoErrors
  {
  }

  /** A short name and a short handle are reported together: neither check stops the other. */
  lemma BothErrorsReported(form: FormData)
    requires |form.fullName| < MinLength && |form.handle| < MinLength
    ensures ErrorsFor(form) == FormErrors(NameError, HandleError)
  {
  }

  /** The record a valid submit stores: the form's fields and the date, with no status and no notes. */
  function NewLead(form: FormData, date: string): (l: Lead)
    ensures l.status.None? && l.notes.None?
  {
    Lead(form.fullName, form.handle, form.goal, date, None, None)
  }

  /**
   * `JSON.parse(localStorage.getItem('legends_leads') || '[]')` followed by
   * the prepend: `None` when the stored value does not parse as a lead list,
   * where `JSON.parse` throws.
   */
  function SubmittedLeads(saved: Option<Value>, lead: Lead): (r: Option<seq<Lead>>)
    ensures saved.None? ==> r == Some([lead])
    ensures r.Some? <==> saved.None? || AsLeads(saved.value).Some?
    ensures r.Some? ==> |r.value| >= 1 && r.value[0] == lead
    ensures saved.Some? && r.Some? ==> r.value[1..] == AsLeads(saved.value).value
  {
    match saved
    case None => Some([lead])
    case Some(v) => if AsLeads(v).Some? then Some([lead] + AsLeads(v).value) else None
  }

  /** A submit onto the stored text `[]`, whichever collection wrote it, stores the one new lead. */
  lemma SubmitOntoEmptyListStoresOne(lead: Lead)
    ensures SubmittedLeads(Some(ItemList([])), lead) == Some([lead])
    ensures SubmittedLeads(Some(LeadList([])), lead) == Some([lead])
  {
    assert [lead] + [] == [lead];
  }

  /**
   * What the admin load makes of a list right after a submit: the new lead
   * first with the status `new`, then the back-filled earlier leads.
   */
  lemma SubmittedLeadLoadsAsNew(current: seq<Lead>, saved: Option<Value>, form: FormData, date: string)
    requires SubmittedLeads(saved, NewLead(form, date)).Some?
    ensures var stored := SubmittedLeads(saved, NewLead(form, date)).value;
            var existing := if saved.None? then [] else AsLeads(saved.value).value;
            AdminHub.LoadedLeads(current, Some(LeadList(stored)))
              == Some([NewLead(form, date).(status := Some(New))] + Registry.BackfillStatus(existing))
  {
    var lead := NewLead(form, date);
    var stored := SubmittedLeads(saved, lead).value;
    var existing := if saved.None? then [] else AsLeads(saved.value).value;
    assert stored == [lead] + existing;
    var r := Registry.BackfillStatus(stored);
    var expected := [lead.(status := Some(New))] + Registry.BackfillStatus(existing);
    assert |r| == |expected|;
    forall i | 0 <= i < |r| ensures r[i] == expected[i] {
      if i > 0 {
        assert stored[i] == existing[i - 1];
      }
    }
  }

  /** How a submit ends. */
  datatype SubmitOutcome =
    | Rejected     // validation failed
    | ReadFailed   // the stored lead list does not parse: `JSON.parse` throws
    | Stored       // the new lead was prepended and written

  /** The form's state and the storage it submits to. */
  class ContactForm {
    const storage: LocalStorage
    var formData: FormData
    var errors: FormErrors
    var isSubmitted: bool

    constructor (storage: LocalStorage)
      ensures this.storage == storage
      ensures formData == EmptyForm && errors == NoErrors && !isSubmitted
    {
      this.storage := storage;
      formData := EmptyForm;
      errors := NoErrors;
      isSubmitted := false;
    }

    /** `validate`: builds the error record check by check, stores it, and returns the flag. */
    method Validate() returns (isValid: bool)
      modifies this`errors
      ensures isValid <==> IsValid(formData)
      ensures errors == ErrorsFor(formData)
    {
      var newErrors := NoErrors;
      isValid := true;
      if |formData.fullName| < MinLength {
        newErrors := newErrors.(fullName := NameError);
        isValid := false;
      }
      if |formData.handle| < MinLength {
        newErrors := newErrors.(handle := HandleError);
        isValid := false;
      }
      errors := newErrors;
    }

    /**
     * `handleSubmit`, with `new Date().toISOString()` as `date`. An invalid
     * form writes nothing; a valid one prepends exactly one lead to what is
     * stored, a missing list counting as empty.
     */
    method HandleSubmit(date: string) returns (outcome: SubmitOutcome)
      modifies this`errors, this`isSubmitted, storage
      ensures errors == ErrorsFor(formData)
      ensures outcome == Rejected <==> !IsValid(formData)
      ensures outcome == ReadFailed <==>
                IsValid(formData) && SubmittedLeads(old(storage.GetItem(LeadsKey)), NewLead(formData, date)).None?
      ensures outcome == Stored ==>
                storage.entries == old(storage.entries)[LeadsKey :=
                  LeadList(SubmittedLeads(old(storage.GetItem(LeadsKey)), NewLead(formData, date)).value)]
      ensures outcome == Stored ==> isSubmitted
      ensures outcome != Stored ==> storage.entries == old(storage.entries) && isSubmitted == old(isSubmitted)
    {
      var valid := Validate();
      if !valid {
        return Rejected;
      }
      var stored := SubmittedLeads(storage.GetItem(LeadsKey), NewLead(formData, date));
      if stored.None? {
        return ReadFailed;
      }
      storage.SetItem(LeadsKey, LeadList(stored.value));
      isSubmitted := true;
      outcome := Stored;
    }

    /** The confirmation timer's callback: the form is shown again, emptied. */
    method ClearConfirmation()
      modifies this`isSubmitted, this`formData
      ensures !isSubmitted && formData == EmptyForm
    {
      isSubmitted := false;
      formData := EmptyForm;
    }

    /** Typing in the name field clears the name error, if any, and nothing else. */
    method ChangeFullName(value: string)
      modifies this`formData, this`errors
      ensures formData == old(formData).(fullName := value)
      ensures errors == old(errors).(fullName := "")
    {
      formData := formData.(fullName := value);
      if errors.fullName != "" {
        errors := errors.(fullName := "");
      }
    }

    /** Typing in the handle field clears the handle error, if any, and nothing else. */
    method ChangeHandle(value: string)
      modifies this`formData, this`errors
      ensures formData == old(formData).(handle := value)
      ensures errors == old(errors).(handle := "")
    {
      formData := formData.(handle := value);
      if errors.handle != "" {
        errors := errors.(handle := "");
      }
    }

    /** Choosing a goal changes only the goal. */
    method ChangeGoal(value: string)
      modifies this`formData
      ensures formData == old(formData).(goal := value)
    {
      formData := formData.(goal := value);
    }
  }
}
