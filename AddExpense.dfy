/** The add-expense route's `action`: four independent field checks that fill
    an error record in place, then either a 400 reply echoing the submitted
    values or one `create` call and a redirect to the list. Unlike the CSV
    import, every check runs, so several errors can be reported at once. */
module AddExpense {
  import opened Wrappers
  import opened Text
  import opened Calendar
  import opened JsHost
  import opened Store

  /** The four form entries as `form.get` returns them; None is `null`. */
  datatype Form = Form(description: Option<string>, amount: Option<string>, category: Option<string>, date: Option<string>)

  /** `!v` for a `string | null`: the entry is missing or empty. */
  predicate Falsy(v: Option<string>) {
    v.None? || v.value == []
  }

  /** The `errors` object; None is an absent key. */
  datatype FieldErrors = FieldErrors(description: Option<string>, amount: Option<string>, category: Option<string>, date: Option<string>)

  const NoErrors := FieldErrors(None, None, None, None)

  /** `Object.keys(errors).length > 0`. */
  predicate HasErrors(e: FieldErrors) {
    e.description.Some? || e.amount.Some? || e.category.Some? || e.date.Some?
  }

  const DescriptionRequired := "Description is required"
  const InvalidAmount := "Please enter a valid amount"
  const AmountNotPositive := "Amount must be greater than 0"
  const CategoryRequired := "Please select a category"
  const DateRequired := "Date is required"
  const FutureDate := "Date cannot be in the future"

  /** The description check: missing, empty or only whitespace. */
  function DescriptionError(v: Option<string>): Option<string> {
    if Falsy(v) || Trim(v.value) == [] then Some(DescriptionRequired) else None
  }

  /** The amount check: missing or NaN first, then not positive. */
  function AmountError(host: Host, v: Option<string>): Option<string> {
    if Falsy(v) || host.parseFloat(v.value).None? then Some(InvalidAmount)
    else if host.parseFloat(v.value).value <= 0.0 then Some(AmountNotPositive)
    else None
  }

  /** The category check: missing or empty; whitespace passes. */
  function CategoryError(v: Option<string>): Option<string> {
    if Falsy(v) then Some(CategoryRequired) else None
  }

  /** The date check: missing or empty, then later than the end of today. An
      Invalid Date compares false with anything, so it raises no error. */
  function DateError(host: Host, now: Moment, v: Option<string>): Option<string> {
    if Falsy(v) then Some(DateRequired)
    else
      match host.parseDate(v.value)
      case None => None
      case Some(d) => if Before(EndOfDay(now), d) then Some(FutureDate) else None
  }

  /** The errors of a form: each key is set by its own check alone. */
  function ErrorsOf(host: Host, now: Moment, form: Form): FieldErrors {
    FieldErrors(DescriptionError(form.description), AmountError(host, form.amount),
                CategoryError(form.category), DateError(host, now, form.date))
  }

  /** The validation statements of `action`, filling `errors` one key at a time. */
  method Validate(host: Host, now: Moment, form: Form) returns (errors: FieldErrors)
    ensures errors == ErrorsOf(host, now, form)
  {
    errors := NoErrors;
    if Falsy(form.description) || Trim(form.description.value) == [] {
      errors := errors.(description := Some(DescriptionRequired));
    }
    if Falsy(form.amount) || host.parseFloat(form.amount.value).None? {
      errors := errors.(amount := Some(InvalidAmount));
    } else if host.parseFloat(form.amount.value).value <= 0.0 {
      errors := errors.(amount := Some(AmountNotPositive));
    }
    if Falsy(form.category) {
      errors := errors.(category := Some(CategoryRequired));
    }
    if Falsy(form.date) {
      errors := errors.(date := Some(DateRequired));
    } else {
      var selected := host.parseDate(form.date.value);
      var today := EndOfDay(now);
      if selected.Some? && Before(today, selected.value) {
        errors := errors.(date := Some(FutureDate));
      }
    }
  }

  /** The record `create` receives for an accepted form. */
  function NewRecord(host: Host, form: Form): Record
    requires form.description.Some? && form.amount.Some? && form.category.Some? && form.date.Some?
    requires host.parseFloat(form.amount.value).Some?
  {
    Record(Trim(form.description.value), host.parseFloat(form.amount.value).value,
           form.category.value, host.parseDate(form.date.value))
  }

  /** The reply: the errors and the submitted values with status 400, or a
      redirect. */
  datatype AddReply = Invalid(errors: FieldErrors, values: Form, status: nat) | Redirect(location: string)

  /** An accepted form has every entry present and non-empty, a description
      that is not only whitespace, a positive amount, and a date that is
      either an Invalid Date or on today's calendar day or earlier. */
  lemma {:induction false} AcceptedForm(host: Host, now: Moment, form: Form)
    requires !HasErrors(ErrorsOf(host, now, form))
    ensures form.description.Some? && Trim(form.description.value) != []
    ensures form.amount.Some? && host.parseFloat(form.amount.value).Some?
    ensures host.parseFloat(form.amount.value).value > 0.0
    ensures form.category.Some? && form.category.value != []
    ensures form.date.Some? && form.date.value != []
    ensures host.parseDate(form.date.value).Some? ==> SameOrEarlierDay(host.parseDate(form.date.value).value, now)
  {
    if host.parseDate(form.date.value).Some? {
      AtOrBeforeEndOfDay(host.parseDate(form.date.value).value, now);
    }
  }

  /** The route's `action`: a 400 reply with the errors and the submitted
      values, and no write, when any check fails; otherwise one record created
      and a redirect to "/". */
  method Action(host: Host, now: Moment, store: ExpenseStore, form: Form) returns (reply: AddReply)
    modifies store
    ensures reply.Invalid? <==> HasErrors(ErrorsOf(host, now, form))
    ensures reply.Invalid? ==>
      reply == Invalid(ErrorsOf(host, now, form), form, 400) && store.inserts == old(store.inserts)
    ensures reply.Redirect? ==>
      && reply.location == "/"
      && form.description.Some? && form.amount.Some? && form.category.Some? && form.date.Some?
      && host.parseFloat(form.amount.value).Some?
      && store.inserts == old(store.inserts) + [[NewRecord(host, form)]]
  {
    var errors := Validate(host, now, form);
    if HasErrors(errors) {
      return Invalid(errors, form, 400);
    }
    AcceptedForm(host, now, form);
    store.Create(Record(Trim(form.description.value), host.parseFloat(form.amount.value).value,
                        form.category.value, host.parseDate(form.date.value)));
    reply := Redirect("/");
  }

  /** The checks are independent: each error key depends on its own form
      entry only, so changing one entry never changes another key. */
  lemma {:induction false} ChecksIndependent(host: Host, now: Moment, f: Form, g: Form)
    ensures f.description == g.description ==> ErrorsOf(host, now, f).description == ErrorsOf(host, now, g).description
    ensures f.amount == g.amount ==> ErrorsOf(host, now, f).amount == ErrorsOf(host, now, g).amount
    ensures f.category == g.category ==> ErrorsOf(host, now, f).category == ErrorsOf(host, now, g).category
    ensures f.date == g.date ==> ErrorsOf(host, now, f).date == ErrorsOf(host, now, g).date
  {
  }

  /** An empty submission reports all four errors at once. */
  lemma {:induction false} EmptyFormAllErrors(host: Host, now: Moment)
    ensures ErrorsOf(host, now, Form(None, None, None, None))
         == FieldErrors(Some(DescriptionRequired), Some(InvalidAmount), Some(CategoryRequired), Some(DateRequired))
  {
  }

  /** Each key's message, both ways: the description, category and date
      messages are set exactly under their conditions, and the two amount
      messages exclude each other, one for a missing or non-numeric amount and
      one for a number at or below zero. */
  lemma {:induction false} ErrorConditions(host: Host, now: Moment, form: Form)
    ensures var e := ErrorsOf(host, now, form);
      && (e.description.Some? <==> Falsy(form.description) || Trim(form.description.value) == [])
      && (e.description.Some? ==> e.description.value == DescriptionRequired)
      && (e.amount == Some(InvalidAmount) <==> Falsy(form.amount) || host.parseFloat(form.amount.value).None?)
      && (e.amount == Some(AmountNotPositive) <==>
            !Falsy(form.amount) && host.parseFloat(form.amount.value).Some? && host.parseFloat(form.amount.value).value <= 0.0)
      && (e.amount.None? <==>
            !Falsy(form.amount) && host.parseFloat(form.amount.value).Some? && host.parseFloat(form.amount.value).value > 0.0)
      && (e.category.Some? <==> Falsy(form.category))
      && (e.date == Some(DateRequired) <==> Falsy(form.date))
      && (e.date == Some(FutureDate) <==>
            !Falsy(form.date) && host.parseDate(form.date.value).Some?
            && !SameOrEarlierDay(host.parseDate(form.date.value).value, now))
  {
    if !Falsy(form.date) && host.parseDate(form.date.value).Some? {
      AtOrBeforeEndOfDay(host.parseDate(form.date.value).value, now);
    }
  }

  /** A category made only of whitespace is accepted as it is (it is not
      trimmed, unlike the description), and a non-empty date text the host
      cannot parse raises no error. */
  lemma {:induction false} LenientFields(host: Host, now: Moment, form: Form)
    ensures form.category.Some? && form.category.value != [] && Trim(form.category.value) == [] ==>
      ErrorsOf(host, now, form).category.None?
    ensures form.description.Some? && form.description.value != [] && Trim(form.description.value) == [] ==>
      ErrorsOf(host, now, form).description == Some(DescriptionRequired)
    ensures form.date.Some? && form.date.value != [] && host.parseDate(form.date.value).None? ==>
      ErrorsOf(host, now, form).date.None?
  {
  }
}
