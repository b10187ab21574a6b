/**
 * The contact section of the AgencySpark client: the form's own schema,
 * which is stricter than the server's, and the section's small state, which
 * is either the form or the thank-you panel (`isSubmitted`).
 *
 * The request is sent when the form's values pass `contactSchema`; whether
 * the server accepts it is an outcome passed in (`serverOk`). The e-mail
 * check is the schema library's own and is passed in as `isEmail`.
 */
module ContactForm {
  import opened Maybe
  import opened Schema

  /** `ContactFormData`: a company the user never touched is the default "". */
  datatype FormData = FormData(name: string, email: string, company: Option<string>, message: string)

  /** `defaultValues`: every field "". */
  const Defaults := FormData("", "", Some(""), "")

  /** `contactSchema`: a name of `.length` at least 2, a well-formed e-mail, a message of `.length` at least 10. */
  predicate FormValid(d: FormData, isEmail: string -> bool) {
    && MinLength(d.name, 2)
    && isEmail(d.email)
    && MinLength(d.message, 10)
  }

  /** The body posted to `/api/contact`: a company the form does not carry (undefined) is left out. */
  function ToInsert(d: FormData): (c: InsertContact)
    ensures c.name == d.name && c.email == d.email && c.message == d.message
    ensures c.company.Present? <==> d.company.Some?
    ensures c.company.Present? ==> c.company.value == d.company.value
    ensures !c.company.Null?
  {
    InsertContact(d.name, d.email, if d.company.Some? then Present(d.company.value) else Absent, d.message)
  }

  /** Everything the form accepts, the server schema accepts too. */
  lemma FormRefinesServer(d: FormData, isEmail: string -> bool)
    requires FormValid(d, isEmail)
    ensures ContactInputValid(ToInsert(d), isEmail)
  {
  }

  /** The form is strictly stricter: a one-letter name or a short message is refused by the form. */
  lemma FormRejectsShort(d: FormData, isEmail: string -> bool)
    requires JsLength(d.name) < 2 || JsLength(d.message) < 10
    ensures !FormValid(d, isEmail)
  {
  }

  /** Lengths are JavaScript's: a single emoji is two code units, so it is a long enough name. */
  lemma AstralNamePasses(d: FormData, isEmail: string -> bool)
    requires d.name == "\U{1F600}" && isEmail(d.email) && MinLength(d.message, 10)
    ensures FormValid(d, isEmail)
    ensures |d.name| == 1
  {
    assert d.name[0] >= '\U{10000}';
    assert d.name[1..] == [];
  }

  /** The default company "" is a string, not a nullish value, so it is stored as "" and not as null. */
  lemma DefaultCompanyStoredEmpty(d: FormData, id: string, now: Timestamp)
    requires d.company == Defaults.company
    ensures NewContact(ToInsert(d), id, now).company == Some("")
  {
  }

  /** The section's state: which panel is shown, and the form's current values. */
  datatype Section = Section(isSubmitted: bool, values: FormData)

  /** The state when the page loads. */
  const Initial := Section(false, Defaults)

  /** What pressing "Send Message" posts: nothing unless the form is shown and its values pass. */
  function Request(s: Section, isEmail: string -> bool): (r: Option<InsertContact>)
    ensures r.Some? <==> !s.isSubmitted && FormValid(s.values, isEmail)
    ensures r.Some? ==> r.value == ToInsert(s.values) && ContactInputValid(r.value, isEmail)
  {
    if !s.isSubmitted && FormValid(s.values, isEmail) then Some(ToInsert(s.values)) else None
  }

  /**
   * The state once the request has been answered: on success the thank-you
   * panel is shown and the fields are reset; on failure, or when nothing was
   * sent, nothing changes.
   */
  function AfterSubmit(s: Section, isEmail: string -> bool, serverOk: bool): (r: Section)
    ensures Request(s, isEmail).Some? && serverOk ==> r.isSubmitted && r.values == Defaults
    ensures !serverOk || Request(s, isEmail).None? ==> r == s
  {
    if Request(s, isEmail).Some? && serverOk then Section(true, Defaults) else s
  }

  /** "Send Another Message": back to the form, values as they are. */
  function SendAnother(s: Section): (r: Section)
    ensures !r.isSubmitted && r.values == s.values
  {
    s.(isSubmitted := false)
  }

  /** A successful submission followed by "Send Another Message" brings the section back to its initial state. */
  lemma SubmitThenSendAnother(s: Section, isEmail: string -> bool)
    requires Request(s, isEmail).Some?
    ensures SendAnother(AfterSubmit(s, isEmail, true)) == Initial
  {
  }

  /** While the thank-you panel is shown nothing can be posted. */
  lemma SubmittedSendsNothing(s: Section, isEmail: string -> bool)
    requires s.isSubmitted
    ensures Request(s, isEmail).None?
    ensures AfterSubmit(s, isEmail, true) == s
  {
  }

  /** The section, its two pieces of state updated by the form's handlers. */
  class ContactSection {
    var isSubmitted: bool
    var values: FormData

    function State(): Section
      reads this
    {
      Section(isSubmitted, values)
    }

    constructor ()
      ensures State() == Initial
    {
      isSubmitted, values := false, Defaults;
    }

    /** Typing into the fields. */
    method Edit(d: FormData)
      modifies this
      ensures values == d && isSubmitted == old(isSubmitted)
    {
      values := d;
    }

    /** Pressing "Send Message" and receiving the server's answer; `sent` is what was posted. */
    method Submit(isEmail: string -> bool, serverOk: bool) returns (sent: Option<InsertContact>)
      modifies this
      ensures sent == Request(old(State()), isEmail)
      ensures State() == AfterSubmit(old(State()), isEmail, serverOk)
    {
      sent := Request(State(), isEmail);
      if sent.Some? && serverOk {
        isSubmitted := true;
        values := Defaults;
      }
    }

    /** "Send Another Message". */
    method SendAnotherMessage()
      modifies this
      ensures State() == SendAnother(old(State()))
    {
      isSubmitted := false;
    }
  }
}
