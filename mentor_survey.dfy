/**
 * The POST handler of `app.py`: validate the form, build the record and
 * append it to the sheet.
 */
module MentorSurvey {
  import opened Wrappers
  import opened PyText
  import opened PyInt
  import opened Patterns
  import opened Forms
  import Columns
  import opened Sheet

  /** The "please choose" entry of the specialisation drop-down. */
  const Placeholder: string := "בחר/י מהרשימה"

  /** One validation check of the handler, named after what it rejects. */
  datatype Problem =
    | NoFirstName | NoLastName | NoMentorStatus | NoInstitute | NoSpecialization
    | NoStreet | NoCity | NoPostalCode | BadPhone | BadEmail | BadNumStudents

  /** The position of a check in the order the handler runs them. */
  function Rank(p: Problem): nat {
    match p
    case NoFirstName => 0
    case NoLastName => 1
    case NoMentorStatus => 2
    case NoInstitute => 3
    case NoSpecialization => 4
    case NoStreet => 5
    case NoCity => 6
    case NoPostalCode => 7
    case BadPhone => 8
    case BadEmail => 9
    case BadNumStudents => 10
  }

  /** The message flashed when a check fails. */
  function Message(p: Problem): string {
    match p
    case NoFirstName => "יש למלא שם פרטי."
    case NoLastName => "יש למלא שם משפחה."
    case NoMentorStatus => "יש לבחור סטטוס מדריך."
    case NoInstitute => "יש למלא שם מוסד."
    case NoSpecialization => "יש לבחור תחום התמחות."
    case NoStreet => "יש למלא רחוב."
    case NoCity => "יש למלא עיר."
    case NoPostalCode => "יש למלא מיקוד."
    case BadPhone => "מספר טלפון לא תקין (דוגמה: 0501234567)."
    case BadEmail => "כתובת דוא\"ל לא תקינה."
    case BadNumStudents => "יש לבחור מספר סטודנטים 1 או 2."
  }

  /** No two checks share a message, so the messages name the problems. */
  lemma MessagesDistinct(p: Problem, q: Problem)
    requires p != q
    ensures Message(p) != Message(q)
  {
  }

  /** The phone as the handler checks and stores it. */
  function PhoneOf(f: Form): string {
    NormalizePhone(GetOr(f, Phone, ""))
  }

  /** The email as the handler checks and stores it. */
  function EmailOf(f: Form): string {
    Strip(GetOr(f, Email, ""))
  }

  /** The student count as submitted, "1" when the field is absent. */
  function NumStudentsText(f: Form): string {
    Strip(GetOr(f, NumStudents, "1"))
  }

  /** `raw in ("1", "2")` */
  predicate CountAccepted(raw: string) {
    raw == "1" || raw == "2"
  }

  /** `f.get("specialization") in ("", placeholder)`: an absent field passes. */
  predicate SpecializationUnset(f: Form) {
    Specialization in f.fields &&
    (f.fields[Specialization] == "" || f.fields[Specialization] == Placeholder)
  }

  /** The verdict of every check on one form: `true` where the check rejects it. */
  datatype Verdicts = Verdicts(
    noFirstName: bool, noLastName: bool, noMentorStatus: bool, noInstitute: bool,
    noSpecialization: bool, noStreet: bool, noCity: bool, noPostalCode: bool,
    badPhone: bool, badEmail: bool, badNumStudents: bool)

  /** Every check passes. */
  const AllPass := Verdicts(false, false, false, false, false, false, false, false, false, false, false)

  /** What each check of the handler decides about `f`. */
  function Judge(f: Form): (v: Verdicts)
    ensures v.badPhone <==> !PhoneShape(PhoneOf(f))
    ensures v.badEmail <==> !EmailShape(EmailOf(f))
  {
    PhoneMatchesIff(PhoneOf(f));
    EmailMatchesIff(EmailOf(f));
    Verdicts(
      noFirstName := !Filled(f, FirstName),
      noLastName := !Filled(f, LastName),
      noMentorStatus := GetOr(f, MentorStatus, "") == "",
      noInstitute := !Filled(f, Institute),
      noSpecialization := SpecializationUnset(f),
      noStreet := !Filled(f, Street),
      noCity := !Filled(f, City),
      noPostalCode := !Filled(f, PostalCode),
      badPhone := !PhoneMatches(PhoneOf(f)),
      badEmail := !EmailMatches(EmailOf(f)),
      badNumStudents := !CountAccepted(NumStudentsText(f)))
  }

  /** Check `p` rejects the form with verdicts `v`. */
  predicate Rejects(p: Problem, v: Verdicts) {
    match p
    case NoFirstName => v.noFirstName
    case NoLastName => v.noLastName
    case NoMentorStatus => v.noMentorStatus
    case NoInstitute => v.noInstitute
    case NoSpecialization => v.noSpecialization
    case NoStreet => v.noStreet
    case NoCity => v.noCity
    case NoPostalCode => v.noPostalCode
    case BadPhone => v.badPhone
    case BadEmail => v.badEmail
    case BadNumStudents => v.badNumStudents
  }

  /** Check `p` rejects the form. */
  predicate Fails(p: Problem, f: Form) {
    Rejects(p, Judge(f))
  }

  /** `[p]` when check `p` rejects, otherwise nothing. */
  function Flag(p: Problem, v: Verdicts): seq<Problem> {
    if Rejects(p, v) then [p] else []
  }

  /** The problems of verdicts `v`, check by check in the handler's order. */
  function Found(v: Verdicts): seq<Problem> {
    Flag(NoFirstName, v) + Flag(NoLastName, v) + Flag(NoMentorStatus, v) +
    Flag(NoInstitute, v) + Flag(NoSpecialization, v) + Flag(NoStreet, v) +
    Flag(NoCity, v) + Flag(NoPostalCode, v) + Flag(BadPhone, v) +
    Flag(BadEmail, v) + Flag(BadNumStudents, v)
  }

  /** The problems the handler finds in `f`. */
  function FailedChecks(f: Form): (r: seq<Problem>)
    ensures r == [] <==> Judge(f) == AllPass
  {
    NoProblemIff(Judge(f));
    Found(Judge(f))
  }

  /** The messages of `ps`, in order. */
  function Messages(ps: seq<Problem>): (r: seq<string>)
    ensures |r| == |ps|
  {
    seq(|ps|, i requires 0 <= i < |ps| => Message(ps[i]))
  }

  /** The problems of `ps` come in strictly increasing rank, so each at most once. */
  predicate InCheckOrder(ps: seq<Problem>) {
    forall i, j :: 0 <= i < j < |ps| ==> Rank(ps[i]) < Rank(ps[j])
  }

  /** Every problem of `ps` comes from a check that runs before check `p`. */
  predicate Before(ps: seq<Problem>, p: Problem) {
    forall i :: 0 <= i < |ps| ==> Rank(ps[i]) < Rank(p)
  }

  lemma Extend(ps: seq<Problem>, p: Problem, v: Verdicts, next: Problem)
    requires InCheckOrder(ps) && Before(ps, p) && Rank(p) < Rank(next)
    ensures InCheckOrder(ps + Flag(p, v)) && Before(ps + Flag(p, v), next)
  {
  }

  lemma ExtendLast(ps: seq<Problem>, p: Problem, v: Verdicts)
    requires InCheckOrder(ps) && Before(ps, p)
    ensures InCheckOrder(ps + Flag(p, v))
  {
  }

  lemma Gather(ps: seq<Problem>, p: Problem, v: Verdicts, q: Problem)
    ensures q in ps + Flag(p, v) <==> q in ps || (q == p && Rejects(p, v))
  {
  }

  /** A problem is listed exactly when its check rejects. */
  lemma FoundMember(v: Verdicts, q: Problem)
    ensures q in Found(v) <==> Rejects(q, v)
  {
    var s := Flag(NoFirstName, v);
    Gather(s, NoLastName, v, q); s := s + Flag(NoLastName, v);
    Gather(s, NoMentorStatus, v, q); s := s + Flag(NoMentorStatus, v);
    Gather(s, NoInstitute, v, q); s := s + Flag(NoInstitute, v);
    Gather(s, NoSpecialization, v, q); s := s + Flag(NoSpecialization, v);
    Gather(s, NoStreet, v, q); s := s + Flag(NoStreet, v);
    Gather(s, NoCity, v, q); s := s + Flag(NoCity, v);
    Gather(s, NoPostalCode, v, q); s := s + Flag(NoPostalCode, v);
    Gather(s, BadPhone, v, q); s := s + Flag(BadPhone, v);
    Gather(s, BadEmail, v, q); s := s + Flag(BadEmail, v);
    Gather(s, BadNumStudents, v, q); s := s + Flag(BadNumStudents, v);
    assert s == Found(v);
  }

  /** The problems are listed in the order the checks run. */
  lemma FoundOrdered(v: Verdicts)
    ensures InCheckOrder(Found(v))
  {
    Extend([], NoFirstName, v, NoLastName);
    assert [] + Flag(NoFirstName, v) == Flag(NoFirstName, v);
    var s := Flag(NoFirstName, v);
    Extend(s, NoLastName, v, NoMentorStatus); s := s + Flag(NoLastName, v);
    Extend(s, NoMentorStatus, v, NoInstitute); s := s + Flag(NoMentorStatus, v);
    Extend(s, NoInstitute, v, NoSpecialization); s := s + Flag(NoInstitute, v);
    Extend(s, NoSpecialization, v, NoStreet); s := s + Flag(NoSpecialization, v);
    Extend(s, NoStreet, v, NoCity); s := s + Flag(NoStreet, v);
    Extend(s, NoCity, v, NoPostalCode); s := s + Flag(NoCity, v);
    Extend(s, NoPostalCode, v, BadPhone); s := s + Flag(NoPostalCode, v);
    Extend(s, BadPhone, v, BadEmail); s := s + Flag(BadPhone, v);
    Extend(s, BadEmail, v, BadNumStudents); s := s + Flag(BadEmail, v);
    ExtendLast(s, BadNumStudents, v); s := s + Flag(BadNumStudents, v);
    assert s == Found(v);
  }

  /**
   * The handler lists every problem of the form and nothing else, in the
   * order the checks run, each once.
   */
  lemma FailedChecksSpec(f: Form)
    ensures forall p :: p in FailedChecks(f) <==> Fails(p, f)
    ensures InCheckOrder(FailedChecks(f))
  {
    var v := Judge(f);
    forall p
      ensures p in Found(v) <==> Rejects(p, v)
    {
      FoundMember(v, p);
    }
    FoundOrdered(v);
  }

  /** No problem is found exactly when every check passes. */
  lemma NoProblemIff(v: Verdicts)
    ensures Found(v) == [] <==> v == AllPass
  {
    if v != AllPass {
      var p :| Rejects(p, v);
      FoundMember(v, p);
    }
    if Found(v) != [] {
      FoundMember(v, Found(v)[0]);
    }
  }

  /** What `errors.append(msg)` under a failed check adds: the message of `p` when `failed`. */
  function Complaint(p: Problem, failed: bool): seq<string> {
    if failed then [Message(p)] else []
  }

  /** Running check `p` after the problems `found` adds its complaint. */
  lemma Report(found: seq<Problem>, p: Problem, v: Verdicts, failed: bool)
    requires failed == Rejects(p, v)
    ensures Messages(found + Flag(p, v)) == Messages(found) + Complaint(p, failed)
  {
    if failed {
      assert (found + [p])[..|found|] == found;
    } else {
      assert found + [] == found;
    }
  }

  /** The problems among the first five checks. */
  function FoundFront(v: Verdicts): seq<Problem> {
    Flag(NoFirstName, v) + Flag(NoLastName, v) + Flag(NoMentorStatus, v) + Flag(NoInstitute, v) + Flag(NoSpecialization, v)
  }

  /** The problems among the first eight checks. */
  function FoundMiddle(v: Verdicts): seq<Problem> {
    FoundFront(v) + Flag(NoStreet, v) + Flag(NoCity, v) + Flag(NoPostalCode, v)
  }

  lemma MessagesOfFront(v: Verdicts)
    ensures Messages(FoundFront(v)) == [] +
      Complaint(NoFirstName, v.noFirstName) +
      Complaint(NoLastName, v.noLastName) +
      Complaint(NoMentorStatus, v.noMentorStatus) +
      Complaint(NoInstitute, v.noInstitute) +
      Complaint(NoSpecialization, v.noSpecialization)
  {
    var found: seq<Problem> := [];
    var errors: seq<string> := [];
    Report(found, NoFirstName, v, v.noFirstName);
    errors := errors + Complaint(NoFirstName, v.noFirstName);
    found := found + Flag(NoFirstName, v);
    Report(found, NoLastName, v, v.noLastName);
    errors := errors + Complaint(NoLastName, v.noLastName);
    found := found + Flag(NoLastName, v);
    Report(found, NoMentorStatus, v, v.noMentorStatus);
    errors := errors + Complaint(NoMentorStatus, v.noMentorStatus);
    found := found + Flag(NoMentorStatus, v);
    Report(found, NoInstitute, v, v.noInstitute);
    errors := errors + Complaint(NoInstitute, v.noInstitute);
    found := found + Flag(NoInstitute, v);
    Report(found, NoSpecialization, v, v.noSpecialization);
    errors := errors + Complaint(NoSpecialization, v.noSpecialization);
    found := found + Flag(NoSpecialization, v);
    assert [] + Flag(NoFirstName, v) == Flag(NoFirstName, v);
  }

  lemma MessagesOfMiddle(v: Verdicts)
    ensures Messages(FoundMiddle(v)) == [] +
      Complaint(NoFirstName, v.noFirstName) +
      Complaint(NoLastName, v.noLastName) +
      Complaint(NoMentorStatus, v.noMentorStatus) +
      Complaint(NoInstitute, v.noInstitute) +
      Complaint(NoSpecialization, v.noSpecialization) +
      Complaint(NoStreet, v.noStreet) +
      Complaint(NoCity, v.noCity) +
      Complaint(NoPostalCode, v.noPostalCode)
  {
    MessagesOfFront(v);
    var found := FoundFront(v);
    var errors := Messages(found);
    Report(found, NoStreet, v, v.noStreet);
    errors := errors + Complaint(NoStreet, v.noStreet);
    found := found + Flag(NoStreet, v);
    Report(found, NoCity, v, v.noCity);
    errors := errors + Complaint(NoCity, v.noCity);
    found := found + Flag(NoCity, v);
    Report(found, NoPostalCode, v, v.noPostalCode);
    errors := errors + Complaint(NoPostalCode, v.noPostalCode);
    found := found + Flag(NoPostalCode, v);
  }

  /** The messages of the problems found, check by check. */
  lemma MessagesOfFound(v: Verdicts)
    ensures Messages(Found(v)) == [] +
      Complaint(NoFirstName, v.noFirstName) +
      Complaint(NoLastName, v.noLastName) +
      Complaint(NoMentorStatus, v.noMentorStatus) +
      Complaint(NoInstitute, v.noInstitute) +
      Complaint(NoSpecialization, v.noSpecialization) +
      Complaint(NoStreet, v.noStreet) +
      Complaint(NoCity, v.noCity) +
      Complaint(NoPostalCode, v.noPostalCode) +
      Complaint(BadPhone, v.badPhone) +
      Complaint(BadEmail, v.badEmail) +
      Complaint(BadNumStudents, v.badNumStudents)
  {
    MessagesOfMiddle(v);
    var found := FoundMiddle(v);
    var errors := Messages(found);
    Report(found, BadPhone, v, v.badPhone);
    errors := errors + Complaint(BadPhone, v.badPhone);
    found := found + Flag(BadPhone, v);
    Report(found, BadEmail, v, v.badEmail);
    errors := errors + Complaint(BadEmail, v.badEmail);
    found := found + Flag(BadEmail, v);
    Report(found, BadNumStudents, v, v.badNumStudents);
    errors := errors + Complaint(BadNumStudents, v.badNumStudents);
    found := found + Flag(BadNumStudents, v);
  }

  /** `int("1")` is 1 and `int("2")` is 2. */
  lemma ParseOneTwo()
    ensures ParseInt("1") == Some(1) && ParseInt("2") == Some(2)
  {
    ParseDecimal(1);
    ParseDecimal(2);
    assert Decimal(1) == "1" && Decimal(2) == "2";
  }

  /** An accepted count reads as the number 1 or 2. */
  lemma ParseCount(raw: string)
    requires CountAccepted(raw)
    ensures ParseInt(raw).Some? && ParseInt(raw).value in {1, 2}
  {
    ParseOneTwo();
  }

  /** `int(num_students_raw)`, reached only for an accepted count. */
  method CountValue(raw: string) returns (n: int)
    requires CountAccepted(raw)
    ensures ParseInt(raw) == Some(n) && n in {1, 2}
  {
    ParseCount(raw);
    n := ParseInt(raw).value;
  }

  /**
   * The validation block: `errors` holds the message of every failed
   * check, in order; `numStudents` is `int(num_students)` when the count
   * is "1" or "2".
   */
  method Validate(f: Form) returns (errors: seq<string>, numStudents: Option<int>)
    ensures errors == Messages(FailedChecks(f))
    ensures numStudents.Some? <==> CountAccepted(NumStudentsText(f))
    ensures numStudents.Some? ==> numStudents == ParseInt(NumStudentsText(f))
    ensures numStudents.Some? ==> numStudents.value in {1, 2}
  {
    ghost var v := Judge(f);
    errors := [];
    errors := errors + Complaint(NoFirstName, !Filled(f, FirstName));
    errors := errors + Complaint(NoLastName, !Filled(f, LastName));
    errors := errors + Complaint(NoMentorStatus, GetOr(f, MentorStatus, "") == "");
    errors := errors + Complaint(NoInstitute, !Filled(f, Institute));
    errors := errors + Complaint(NoSpecialization, SpecializationUnset(f));
    errors := errors + Complaint(NoStreet, !Filled(f, Street));
    errors := errors + Complaint(NoCity, !Filled(f, City));
    errors := errors + Complaint(NoPostalCode, !Filled(f, PostalCode));

    var phone := NormalizePhone(GetOr(f, Phone, ""));
    errors := errors + Complaint(BadPhone, !PhoneMatches(phone));

    var email := Strip(GetOr(f, Email, ""));
    errors := errors + Complaint(BadEmail, !EmailMatches(email));

    var raw := Strip(GetOr(f, NumStudents, "1"));
    errors := errors + Complaint(BadNumStudents, !CountAccepted(raw));
    MessagesOfFound(v);
    if CountAccepted(raw) {
      var n := CountValue(raw);
      numStudents := Some(n);
    } else {
      numStudents := None;
    }
  }

  /** The fields that must be filled in, checked with `not f.get(key)`. */
  predicate RequiredFilled(f: Form) {
    && Filled(f, FirstName) && Filled(f, LastName) && Filled(f, MentorStatus)
    && Filled(f, Institute) && Filled(f, Street) && Filled(f, City) && Filled(f, PostalCode)
  }

  /**
   * A submission `app.py` accepts, stated with the languages of the two
   * patterns rather than their matchers.
   */
  ghost predicate Accepted(f: Form) {
    && RequiredFilled(f)
    && Get(f, Specialization) != Some("")
    && Get(f, Specialization) != Some(Placeholder)
    && PhoneShape(PhoneOf(f))
    && EmailShape(EmailOf(f))
    && CountAccepted(NumStudentsText(f))
  }

  /** The handler reports no error exactly for the accepted submissions. */
  lemma AcceptedIff(f: Form)
    ensures FailedChecks(f) == [] <==> Accepted(f)
  {
    var v := Judge(f);
    assert v == AllPass <==>
      && !v.noFirstName && !v.noLastName && !v.noMentorStatus && !v.noInstitute
      && !v.noSpecialization && !v.noStreet && !v.noCity && !v.noPostalCode
      && !v.badPhone && !v.badEmail && !v.badNumStudents;
    assert RequiredFilled(f) <==>
      && !v.noFirstName && !v.noLastName && !v.noMentorStatus && !v.noInstitute
      && !v.noStreet && !v.noCity && !v.noPostalCode;
    assert !v.noSpecialization <==>
      Get(f, Specialization) != Some("") && Get(f, Specialization) != Some(Placeholder);
  }

  /** A form without problems passes the three format checks. */
  lemma PassedFormats(f: Form)
    requires FailedChecks(f) == []
    ensures CountAccepted(NumStudentsText(f))
    ensures PhoneMatches(PhoneOf(f)) && EmailMatches(EmailOf(f))
  {
    NoProblemIff(Judge(f));
    var v := Judge(f);
    assert !v.badNumStudents && !v.badPhone && !v.badEmail;
  }

  /**
   * The `record` dict: every text field stripped, the feedback points
   * joined with "; ", the normalised phone and the stripped email.
   */
  function BuildRecord(f: Form, now: string, numStudents: int): (r: Columns.Record)
    ensures r.submittedAt == now && r.numStudents == numStudents
    ensures '-' !in r.phone && ' ' !in r.phone
  {
    Columns.Record(
      submittedAt := now,
      firstName := Strip(GetOr(f, FirstName, "")),
      lastName := Strip(GetOr(f, LastName, "")),
      mentorStatus := Strip(GetOr(f, MentorStatus, "")),
      institute := Strip(GetOr(f, Institute, "")),
      specialization := Strip(GetOr(f, Specialization, "")),
      street := Strip(GetOr(f, Street, "")),
      city := Strip(GetOr(f, City, "")),
      postalCode := Strip(GetOr(f, PostalCode, "")),
      numStudents := numStudents,
      continueMentoring := Strip(GetOr(f, ContinueMentoring, "")),
      specialRequests := Strip(GetOr(f, SpecialRequests, "")),
      feedbackPoints := Join("; ", f.feedbackPoints),
      feedbackText := Strip(GetOr(f, FeedbackText, "")),
      phone := PhoneOf(f),
      email := EmailOf(f))
  }

  /** Every free-text value of the record has no whitespace at either end. */
  lemma RecordTrimmed(f: Form, now: string, numStudents: int)
    ensures var r := BuildRecord(f, now, numStudents);
      && Trimmed(r.firstName) && Trimmed(r.lastName) && Trimmed(r.mentorStatus)
      && Trimmed(r.institute) && Trimmed(r.specialization) && Trimmed(r.street)
      && Trimmed(r.city) && Trimmed(r.postalCode) && Trimmed(r.continueMentoring)
      && Trimmed(r.specialRequests) && Trimmed(r.feedbackText) && Trimmed(r.email)
  {
  }

  /** The record of an accepted submission, as the handler stores it. */
  function Stored(f: Form, now: string): (r: Columns.Record)
    requires FailedChecks(f) == []
    ensures r.numStudents in {1, 2}
    ensures PhoneMatches(r.phone) && EmailMatches(r.email)
  {
    PassedFormats(f);
    ParseCount(NumStudentsText(f));
    var r := BuildRecord(f, now, ParseInt(NumStudentsText(f)).value);
    assert r.phone == PhoneOf(f) && r.email == EmailOf(f);
    r
  }

  /**
   * The stored feedback points split back into the checked boxes, as long
   * as no box label contains ';'.
   */
  lemma FeedbackRoundTrip(f: Form, now: string, n: int)
    requires f.feedbackPoints != []
    requires forall i :: 0 <= i < |f.feedbackPoints| ==> ';' !in f.feedbackPoints[i]
    ensures Split(BuildRecord(f, now, n).feedbackPoints, "; ") == f.feedbackPoints
  {
    SplitJoin("; ", f.feedbackPoints);
  }

  /**
   * The required fields are checked before they are stripped, so a first
   * name of spaces passes validation and is stored empty.
   */
  lemma BlankNameStoredEmpty(f: Form, now: string, n: int)
    requires GetOr(f, FirstName, "") == "  "
    ensures !Fails(NoFirstName, f)
    ensures BuildRecord(f, now, n).firstName == ""
  {
    assert IsSpace(' ');
    StripSpec("  ");
  }

  lemma RecordIsStored(f: Form, now: string, numStudents: Option<int>)
    requires FailedChecks(f) == []
    requires numStudents.Some? <==> CountAccepted(NumStudentsText(f))
    requires numStudents.Some? ==> numStudents == ParseInt(NumStudentsText(f))
    ensures numStudents.Some? && BuildRecord(f, now, numStudents.value) == Stored(f, now)
  {
    PassedFormats(f);
    ParseCount(NumStudentsText(f));
  }

  /** What the handler tells the user. */
  datatype Outcome =
    | Rejected(errors: seq<string>)  // every error flashed, nothing saved
    | Saved                          // the success message
    | SaveFailed                     // the "could not save" message

  const SavedMessage: string := "✅ הטופס נשלח ונשמר בהצלחה!"
  const SaveFailedMessage: string := "❌ שגיאה בשמירה לגיליון. נא לפנות לרואן / למערכת."

  /** The flashed messages with their category. */
  function Flashes(o: Outcome): (r: seq<(string, string)>)
    ensures o.Rejected? ==> |r| == |o.errors|
    ensures o.Rejected? ==> forall i :: 0 <= i < |r| ==> r[i] == (o.errors[i], "error")
    ensures o.SaveFailed? ==> r == [(SaveFailedMessage, "error")]
    ensures (exists i :: 0 <= i < |r| && r[i].1 == "success") <==> o.Saved?
  {
    match o
    case Rejected(errors) => seq(|errors|, i requires 0 <= i < |errors| => (errors[i], "error"))
    case Saved =>
      var r := [(SavedMessage, "success")];
      assert r[0].1 == "success";
      r
    case SaveFailed => [(SaveFailedMessage, "error")]
  }

  /**
   * One POST: the form is saved when it passes validation and every remote
   * call succeeds; `net.open` is `get_worksheet()`, and `now` the timestamp.
   */
  method Submit(f: Form, now: string, ws: Worksheet, net: Responses) returns (outcome: Outcome)
    modifies ws
    ensures FailedChecks(f) != [] ==> outcome == Rejected(Messages(FailedChecks(f)))
    ensures outcome.Rejected? ==> ws.rows == old(ws.rows)
    ensures outcome == Saved <==> FailedChecks(f) == [] && SaveSucceeds(old(ws.rows), net)
    ensures outcome == Saved ==>
      FailedChecks(f) == [] && ws.rows == Repaired(old(ws.rows)) + [Columns.Row(Stored(f, now))]
    ensures FailedChecks(f) == [] && outcome != Saved ==> outcome == SaveFailed
    ensures outcome == SaveFailed ==>
      ws.rows == old(ws.rows) || ws.rows == [] || ws.rows == Repaired(old(ws.rows))
  {
    var errors, numStudents := Validate(f);
    if errors != [] {
      return Rejected(errors);
    }
    assert |FailedChecks(f)| == |errors|;
    RecordIsStored(f, now, numStudents);
    var record := BuildRecord(f, now, numStudents.value);
    var ok := SaveRow(ws, net, Columns.Row(record));
    outcome := if ok then Saved else SaveFailed;
  }
}
