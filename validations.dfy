/**
 * Form schemas: each rule of a field reports its message when broken, and a form is
 * valid when no rule is broken. Whether a string is an e-mail address is left to the
 * predicate `isEmail`, which the model does not interpret.
 */
module Validations {
  import opened Wrappers
  import opened Text

  /** The fields of the forms, which an issue is attached to. */
  datatype Field =
    | ServiceId | BarberId | Date | TimeSlot | CustomerName | CustomerEmail | CustomerPhone | Notes
    | Name | Email | Password | ConfirmPassword

  /** The messages the rules report. */
  datatype Message =
    | SelectService | SelectDate | SelectTimeSlot | NameTooShort | InvalidEmail | InvalidPhone
    | PasswordTooShort | PasswordsDiffer

  /** The text shown under the field. */
  function MessageText(m: Message): string {
    match m
    case SelectService => "Please select a service"
    case SelectDate => "Please select a date"
    case SelectTimeSlot => "Please select a time slot"
    case NameTooShort => "Name must be at least 2 characters"
    case InvalidEmail => "Please enter a valid email"
    case InvalidPhone => "Please enter a valid phone number"
    case PasswordTooShort => "Password must be at least 8 characters"
    case PasswordsDiffer => "Passwords don't match"
  }

  /** A broken rule: the field it is attached to and the message shown under it. */
  datatype Issue = Issue(path: Field, message: Message)

  /** One rule: no issue when `ok`, else its issue. */
  function Check(ok: bool, path: Field, message: Message): seq<Issue> {
    if ok then [] else [Issue(path, message)]
  }

  /** Whether some issue is attached to `path`. */
  predicate HasIssue(issues: seq<Issue>, path: Field) {
    exists k :: 0 <= k < |issues| && issues[k].path == path
  }

  /** The booking wizard's values; an unset date is `None`. */
  datatype BookingFormValues = BookingFormValues(
    serviceId: string,
    barberId: Option<string>,
    date: Option<int>,
    timeSlot: string,
    customerName: string,
    customerEmail: string,
    customerPhone: string,
    notes: Option<string>)

  /** The wizard's starting values. */
  const BookingDefaults := BookingFormValues("", Some(""), None, "", "", "", "", Some(""))


  /** A character of the phone pattern: a digit, white space, `-`, `+`, `(` or `)`. */
  predicate PhoneChar(c: char) {
    IsDigit(c) || IsSpace(c) || c == '-' || c == '+' || c == '(' || c == ')'
  }

  /** The whole phone string is one or more pattern characters. */
  predicate PhonePattern(s: string) {
    |s| > 0 && forall i :: 0 <= i < |s| ==> PhoneChar(s[i])
  }

  /** `bookingFormSchema`, rule by rule in field order; a phone number can break both of its rules. */
  function BookingIssues(v: BookingFormValues, isEmail: string -> bool): seq<Issue> {
    Check(|v.serviceId| >= 1, ServiceId, SelectService)
    + Check(v.date.Some?, Date, SelectDate)
    + Check(|v.timeSlot| >= 1, TimeSlot, SelectTimeSlot)
    + Check(|v.customerName| >= 2, CustomerName, NameTooShort)
    + Check(isEmail(v.customerEmail), CustomerEmail, InvalidEmail)
    + Check(|v.customerPhone| >= 10, CustomerPhone, InvalidPhone)
    + Check(PhonePattern(v.customerPhone), CustomerPhone, InvalidPhone)
  }

  predicate BookingValid(v: BookingFormValues, isEmail: string -> bool) {
    BookingIssues(v, isEmail) == []
  }

  /**
   * A booking form is valid exactly when a service and a time slot are chosen, a date is
   * set, the name has two characters, the e-mail is an address and the phone number has
   * ten characters all from the pattern; the barber and the notes are free.
   */
  lemma BookingValidIff(v: BookingFormValues, isEmail: string -> bool)
    ensures BookingValid(v, isEmail)
        <==> |v.serviceId| >= 1 && v.date.Some? && |v.timeSlot| >= 1 && |v.customerName| >= 2
             && isEmail(v.customerEmail) && |v.customerPhone| >= 10 && PhonePattern(v.customerPhone)
    ensures forall b, n :: BookingValid(v.(barberId := b, notes := n), isEmail) == BookingValid(v, isEmail)
  {
  }

  /** A field carries an issue exactly when one of its rules is broken; the barber and the notes never do. */
  lemma BookingIssuePaths(v: BookingFormValues, isEmail: string -> bool, p: Field)
    ensures HasIssue(BookingIssues(v, isEmail), p)
        <==> (p == ServiceId && |v.serviceId| < 1) || (p == Date && v.date.None?)
             || (p == TimeSlot && |v.timeSlot| < 1) || (p == CustomerName && |v.customerName| < 2)
             || (p == CustomerEmail && !isEmail(v.customerEmail))
             || (p == CustomerPhone && (|v.customerPhone| < 10 || !PhonePattern(v.customerPhone)))
  {
    SevenRules(|v.serviceId| >= 1, v.date.Some?, |v.timeSlot| >= 1, |v.customerName| >= 2,
      isEmail(v.customerEmail), |v.customerPhone| >= 10, PhonePattern(v.customerPhone), p);
  }

  /** The booking rules, with each rule's outcome left abstract. */
  lemma SevenRules(ok1: bool, ok2: bool, ok3: bool, ok4: bool, ok5: bool, ok6: bool, ok7: bool, p: Field)
    ensures HasIssue(
        Check(ok1, ServiceId, SelectService) + Check(ok2, Date, SelectDate)
        + Check(ok3, TimeSlot, SelectTimeSlot) + Check(ok4, CustomerName, NameTooShort)
        + Check(ok5, CustomerEmail, InvalidEmail) + Check(ok6, CustomerPhone, InvalidPhone)
        + Check(ok7, CustomerPhone, InvalidPhone), p)
      <==> (p == ServiceId && !ok1) || (p == Date && !ok2) || (p == TimeSlot && !ok3)
           || (p == CustomerName && !ok4) || (p == CustomerEmail && !ok5)
           || (p == CustomerPhone && (!ok6 || !ok7))
  {
    var c1 := Check(ok1, ServiceId, SelectService);
    var c2 := Check(ok2, Date, SelectDate);
    var c3 := Check(ok3, TimeSlot, SelectTimeSlot);
    var c4 := Check(ok4, CustomerName, NameTooShort);
    var c5 := Check(ok5, CustomerEmail, InvalidEmail);
    var c6 := Check(ok6, CustomerPhone, InvalidPhone);
    var c7 := Check(ok7, CustomerPhone, InvalidPhone);
    HasIssueOfRules(c1, c2, c3, c4, c5, c6, c7, p);
    HasIssueCheck(ok1, ServiceId, SelectService, p);
    HasIssueCheck(ok2, Date, SelectDate, p);
    HasIssueCheck(ok3, TimeSlot, SelectTimeSlot, p);
    HasIssueCheck(ok4, CustomerName, NameTooShort, p);
    HasIssueCheck(ok5, CustomerEmail, InvalidEmail, p);
    HasIssueCheck(ok6, CustomerPhone, InvalidPhone, p);
    HasIssueCheck(ok7, CustomerPhone, InvalidPhone, p);
  }

  /** One rule reports an issue on its own field exactly when it is broken. */
  lemma HasIssueCheck(ok: bool, path: Field, message: Message, p: Field)
    ensures HasIssue(Check(ok, path, message), p) <==> !ok && path == p
  {
    if !ok {
      assert Check(ok, path, message)[0].path == path;
    }
  }

  /** An issue of seven runs of rules comes from one of them. */
  lemma HasIssueOfRules(c1: seq<Issue>, c2: seq<Issue>, c3: seq<Issue>, c4: seq<Issue>,
                        c5: seq<Issue>, c6: seq<Issue>, c7: seq<Issue>, p: Field)
    ensures HasIssue(c1 + c2 + c3 + c4 + c5 + c6 + c7, p)
        <==> HasIssue(c1, p) || HasIssue(c2, p) || HasIssue(c3, p) || HasIssue(c4, p)
             || HasIssue(c5, p) || HasIssue(c6, p) || HasIssue(c7, p)
  {
    HasIssueAppend(c1, c2, p);
    HasIssueAppend(c1 + c2, c3, p);
    HasIssueAppend(c1 + c2 + c3, c4, p);
    HasIssueAppend(c1 + c2 + c3 + c4, c5, p);
    HasIssueAppend(c1 + c2 + c3 + c4 + c5, c6, p);
    HasIssueAppend(c1 + c2 + c3 + c4 + c5 + c6, c7, p);
  }

  /** An issue of two runs of rules comes from one of them. */
  lemma HasIssueAppend(a: seq<Issue>, b: seq<Issue>, p: Field)
    ensures HasIssue(a + b, p) <==> HasIssue(a, p) || HasIssue(b, p)
  {
    if HasIssue(a + b, p) {
      var k :| 0 <= k < |a + b| && (a + b)[k].path == p;
      if k >= |a| {
        assert b[k - |a|].path == p;
      }
    }
    if HasIssue(b, p) {
      var k :| 0 <= k < |b| && b[k].path == p;
      assert (a + b)[|a| + k].path == p;
    }
    if HasIssue(a, p) {
      var k :| 0 <= k < |a| && a[k].path == p;
      assert (a + b)[k].path == p;
    }
  }

  /** The untouched wizard cannot be submitted: service, date, time slot, name and phone are all flagged. */
  lemma BookingDefaultsRejected(isEmail: string -> bool)
    ensures !BookingValid(BookingDefaults, isEmail)
    ensures var issues := BookingIssues(BookingDefaults, isEmail);
      HasIssue(issues, ServiceId) && HasIssue(issues, Date) && HasIssue(issues, TimeSlot)
      && HasIssue(issues, CustomerName) && HasIssue(issues, CustomerPhone)
  {
    BookingIssuePaths(BookingDefaults, isEmail, ServiceId);
    BookingIssuePaths(BookingDefaults, isEmail, Date);
    BookingIssuePaths(BookingDefaults, isEmail, TimeSlot);
    BookingIssuePaths(BookingDefaults, isEmail, CustomerName);
    BookingIssuePaths(BookingDefaults, isEmail, CustomerPhone);
  }
}
