/**
 * The add-subject page: a four-field form, a submit that refuses an
 * incomplete form and otherwise appends a subject and clears the form, and a
 * continue guard that needs at least one subject.
 */
module Subjects {
  import opened Wrappers
  import opened Digits

  /** The form exactly as typed: every field is text. */
  datatype FormData = FormData(name: string, estimatedHours: string, priority: string, deadline: string)

  /**
   * A submitted subject. `estimatedHours` is the parseInt of the typed text,
   * None where JavaScript would produce NaN.
   */
  datatype Subject = Subject(id: int, name: string, estimatedHours: Option<int>, priority: string, deadline: string)

  datatype SubmitOutcome = MissingInformation | SubjectAdded

  datatype ContinueOutcome = NoSubjectsAdded | GoToAvailableTime

  const EmptyForm := FormData("", "", "", "")

  /** Every field is non-empty text (an empty string is the only falsy string). */
  predicate Filled(f: FormData)
  {
    f.name != "" && f.estimatedHours != "" && f.priority != "" && f.deadline != ""
  }

  /**
   * parseInt on the text of a number input: an optional sign followed by the
   * longest run of decimal digits; no digits gives NaN.
   */
  function ParseInt(s: string): Option<int>
  {
    var negative := |s| > 0 && s[0] == '-';
    var rest := if |s| > 0 && (s[0] == '-' || s[0] == '+') then s[1..] else s;
    var digits := LeadingDigits(rest);
    var magnitude: int := DigitsValue(digits);
    if digits == [] then None
    else Some(if negative then -magnitude else magnitude)
  }

  /** Text made only of digits parses to the value those digits denote. */
  lemma ParseDigits(s: string)
    requires s != [] && AllDigits(s)
    ensures ParseInt(s) == Some(DigitsValue(s))
  {
    assert IsDigit(s[0]);
    LeadingDigitsOfDigits(s);
  }

  /** parseInt reads back the decimal rendering of any whole number of hours. */
  lemma ParseIntRoundTrip(n: nat)
    ensures ParseInt(NatToString(n)) == Some(n)
  {
    ParseDigits(NatToString(n));
    NatToStringRoundTrip(n);
  }

  /** Text that does not start with a digit or a sign followed by a digit is NaN
    (leading white space, which parseInt skips, is not modelled). */
  lemma ParseIntNaN(s: string)
    requires s == [] || (!IsDigit(s[0]) && !((s[0] == '-' || s[0] == '+') && |s| > 1 && IsDigit(s[1])))
    ensures ParseInt(s) == None
  {
  }

  /** The subject made from a filled form: the typed name, priority and deadline, the parsed hours. */
  function NewSubject(id: int, f: FormData): Subject
  {
    Subject(id, f.name, ParseInt(f.estimatedHours), f.priority, f.deadline)
  }

  class SubjectPlanner {
    var subjects: seq<Subject>
    var formData: FormData

    constructor ()
      ensures subjects == [] && formData == EmptyForm
    {
      subjects := [];
      formData := EmptyForm;
    }

    method SetName(value: string)
      modifies this
      ensures formData == old(formData).(name := value) && subjects == old(subjects)
    {
      formData := formData.(name := value);
    }

    method SetEstimatedHours(value: string)
      modifies this
      ensures formData == old(formData).(estimatedHours := value) && subjects == old(subjects)
    {
      formData := formData.(estimatedHours := value);
    }

    method SetPriority(value: string)
      modifies this
      ensures formData == old(formData).(priority := value) && subjects == old(subjects)
    {
      formData := formData.(priority := value);
    }

    method SetDeadline(value: string)
      modifies this
      ensures formData == old(formData).(deadline := value) && subjects == old(subjects)
    {
      formData := formData.(deadline := value);
    }

    /**
     * handleSubmit. `id` stands for the clock reading the page uses as a fresh
     * identifier. An incomplete form is refused and nothing changes; a filled
     * one appends exactly one subject, keeps all earlier ones in order, and
     * clears the form.
     */
    method HandleSubmit(id: int) returns (r: SubmitOutcome)
      modifies this
      ensures r == MissingInformation <==> !Filled(old(formData))
      ensures r == MissingInformation ==> subjects == old(subjects) && formData == old(formData)
      ensures r == SubjectAdded ==>
                && |subjects| == |old(subjects)| + 1
                && subjects[..|old(subjects)|] == old(subjects)
                && subjects[|subjects| - 1] == NewSubject(id, old(formData))
                && formData == EmptyForm
    {
      if !(formData.name != "" && formData.estimatedHours != "" && formData.priority != "" && formData.deadline != "") {
        return MissingInformation;
      }
      var newSubject := Subject(id, formData.name, ParseInt(formData.estimatedHours), formData.priority, formData.deadline);
      subjects := subjects + [newSubject];
      formData := FormData("", "", "", "");
      r := SubjectAdded;
    }

    /** handleContinue: refused exactly when no subject has been added. */
    method HandleContinue() returns (r: ContinueOutcome)
      ensures r == NoSubjectsAdded <==> subjects == []
    {
      if |subjects| == 0 {
        return NoSubjectsAdded;
      }
      r := GoToAvailableTime;
    }
  }
}
