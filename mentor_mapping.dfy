/**
 * The POST handler of `mentor-mapping/app.py`, the other copy of the
 * form. It reads fields with `f[key]`, so a field that was not submitted
 * raises `KeyError`; it stores the texts as submitted, and the student
 * count is whatever `int()` makes of the field.
 */
module MentorMapping {
  import opened Wrappers
  import opened PyText
  import opened PyInt
  import opened Patterns
  import opened Forms
  import Columns
  import opened Sheet

  /** The "please choose" entry of the specialisation drop-down. */
  const Placeholder: string := "בחר/י מהרשימה"

  /** One validation check of the handler, named after what it rejects. */
  datatype Problem = NoFirstName | NoLastName | NoSpecialization | BadPhone | BadEmail

  /** The position of a check in the order the handler runs them. */
  function Rank(p: Problem): nat {
    match p
    case NoFirstName => 0
    case NoLastName => 1
    case NoSpecialization => 2
    case BadPhone => 3
    case BadEmail => 4
  }

  /** The message flashed when a check fails. */
  function Message(p: Problem): string {
    match p
    case NoFirstName => "יש למלא שם פרטי"
    case NoLastName => "יש למלא שם משפחה"
    case NoSpecialization => "יש לבחור תחום התמחות"
    case BadPhone => "מספר טלפון לא תקין (דוגמה: 0501234567)"
    case BadEmail => "כתובת דוא\"ל לא תקינה"
  }

  /** No two checks share a message, so the messages name the problems. */
  lemma MessagesDistinct(p: Problem, q: Problem)
    requires p != q
    ensures Message(p) != Message(q)
  {
  }

  /** The exceptions that escape the handler. */
  datatype PyError =
    | KeyError(key: Key)  // `f[key]` for a field that was not submitted
    | ValueError          // `int()` of a count that is not an integer

  /** The fields validation reads with `f[key]`, in the order it reads them. */
  const ValidatedKeys: seq<Key> := [FirstName, LastName, Specialization, Phone, Email]

  /** Every field validation reads was submitted. */
  predicate Present(f: Form) {
    FirstName in f.fields && LastName in f.fields && Specialization in f.fields &&
    Phone in f.fields && Email in f.fields
  }

  /** The field whose `f[key]` raises during validation, if any. */
  function MissingKey(f: Form): (r: Option<Key>)
    ensures r.None? <==> Present(f)
    ensures r.Some? ==> r.value in ValidatedKeys && r.value !in f.fields
  {
    if FirstName !in f.fields then Some(FirstName)
    else if LastName !in f.fields then Some(LastName)
    else if Specialization !in f.fields then Some(Specialization)
    else if Phone !in f.fields then Some(Phone)
    else if Email !in f.fields then Some(Email)
    else None
  }

  /** The key that raises is the first absent one in reading order. */
  lemma MissingKeyIsFirst(f: Form)
    ensures MissingKey(f) == FirstMissing(f, ValidatedKeys)
  {
    FirstMissingCons(f, Email, []);
    FirstMissingCons(f, Phone, [Email]);
    FirstMissingCons(f, Specialization, [Phone, Email]);
    FirstMissingCons(f, LastName, [Specialization, Phone, Email]);
    FirstMissingCons(f, FirstName, [LastName, Specialization, Phone, Email]);
    assert [Email] == [Email] + [];
  }

  /** The phone as the handler checks and stores it. */
  function PhoneOf(f: Form): string
    requires Present(f)
  {
    NormalizePhone(f.fields[Phone])
  }

  /** The verdict of every check on one form: `true` where the check rejects it. */
  datatype Verdicts = Verdicts(
    noFirstName: bool, noLastName: bool, noSpecialization: bool, badPhone: bool, badEmail: bool)

  /** Every check passes. */
  const AllPass := Verdicts(false, false, false, false, false)

  /** What each check of the handler decides about `f`. */
  function Judge(f: Form): (v: Verdicts)
    requires Present(f)
    ensures v.badPhone <==> !PhoneShape(PhoneOf(f))
    ensures v.badEmail <==> !EmailShape(f.fields[Email])
  {
    PhoneMatchesIff(PhoneOf(f));
    EmailMatchesIff(f.fields[Email]);
    Verdicts(
      noFirstName := f.fields[FirstName] == "",
      noLastName := f.fields[LastName] == "",
      noSpecialization := f.fields[Specialization] == Placeholder,
      badPhone := !PhoneMatches(PhoneOf(f)),
      badEmail := !EmailMatches(f.fields[Email]))
  }

  /** Check `p` rejects the form with verdicts `v`. */
  predicate Rejects(p: Problem, v: Verdicts) {
    match p
    case NoFirstName => v.noFirstName
    case NoLastName => v.noLastName
    case NoSpecialization => v.noSpecialization
    case BadPhone => v.badPhone
    case BadEmail => v.badEmail
  }

  /** Check `p` rejects the form. */
  predicate Fails(p: Problem, f: Form)
    requires Present(f)
  {
    Rejects(p, Judge(f))
  }

  /** `[p]` when check `p` rejects, otherwise nothing. */
  function Flag(p: Problem, v: Verdicts): seq<Problem> {
    if Rejects(p, v) then [p] else []
  }

  /** The problems of verdicts `v`, check by check in the handler's order. */
  function Found(v: Verdicts): seq<Problem> {
    Flag(NoFirstName, v) + Flag(NoLastName, v) + Flag(NoSpecialization, v) +
    Flag(BadPhone, v) + Flag(BadEmail, v)
  }

  /** The problems the handler finds in `f`. */
  function FailedChecks(f: Form): (r: seq<Problem>)
    requires Present(f)
    ensures r == [] <==> Judge(f) == AllPass
  {
    NoProblemIff(Judge(f));
    Found(Judge(f))
  }

  /** The messages of `ps`, in order. */
  function Messages(ps: seq<Problem>): (r: seq<string>)
    ensures |r| == |ps|
  {
    seq(|ps|, i requires 0 <= i < |ps| => Message(ps[i]))
  }

  /** The problems of `ps` come in strictly increasing rank, so each at most once. */
  predicate InCheckOrder(ps: seq<Problem>) {
    forall i, j :: 0 <= i < j < |ps| ==> Rank(ps[i]) < Rank(ps[j])
  }

  /** Every problem of `ps` comes from a check that runs before check `p`. */
  predicate Before(ps: seq<Problem>, p: Problem) {
    forall i :: 0 <= i < |ps| ==> Rank(ps[i]) < Rank(p)
  }

  lemma Extend(ps: seq<Problem>, p: Problem, v: Verdicts, next: Problem)
    requires InCheckOrder(ps) && Before(ps, p) && Rank(p) < Rank(next)
    ensures InCheckOrder(ps + Flag(p, v)) && Before(ps + Flag(p, v), next)
  {
  }

  lemma ExtendLast(ps: seq<Problem>, p: Problem, v: Verdicts)
    requires InCheckOrder(ps) && Before(ps, p)
    ensures InCheckOrder(ps + Flag(p, v))
  {
  }

  lemma Gather(ps: seq<Problem>, p: Problem, v: Verdicts, q: Problem)
    ensures q in ps + Flag(p, v) <==> q in ps || (q == p && Rejects(p, v))
  {
  }

  /** A problem is listed exactly when its check rejects. */
  lemma FoundMember(v: Verdicts, q: Problem)
    ensures q in Found(v) <==> Rejects(q, v)
  {
    var s := Flag(NoFirstName, v);
    Gather(s, NoLastName, v, q); s := s + Flag(NoLastName, v);
    Gather(s, NoSpecialization, v, q); s := s + Flag(NoSpecialization, v);
    Gather(s, BadPhone, v, q); s := s + Flag(BadPhone, v);
    Gather(s, BadEmail, v, q); s := s + Flag(BadEmail, v);
    assert s == Found(v);
  }

  /** The problems are listed in the order the checks run. */
  lemma FoundOrdered(v: Verdicts)
    ensures InCheckOrder(Found(v))
  {
    Extend([], NoFirstName, v, NoLastName);
    assert [] + Flag(NoFirstName, v) == Flag(NoFirstName, v);
    var s := Flag(NoFirstName, v);
    Extend(s, NoLastName, v, NoSpecialization); s := s + Flag(NoLastName, v);
    Extend(s, NoSpecialization, v, BadPhone); s := s + Flag(NoSpecialization, v);
    Extend(s, BadPhone, v, BadEmail); s := s + Flag(BadPhone, v);
    ExtendLast(s, BadEmail, v); s := s + Flag(BadEmail, v);
    assert s == Found(v);
  }

  /**
   * The handler lists every problem of the form and nothing else, in the
   * order the checks run, each once.
   */
  lemma FailedChecksSpec(f: Form)
    requires Present(f)
    ensures forall p :: p in FailedChecks(f) <==> Fails(p, f)
    ensures InCheckOrder(FailedChecks(f))
  {
    var v := Judge(f);
    forall p
      ensures p in Found(v) <==> Rejects(p, v)
    {
      FoundMember(v, p);
    }
    FoundOrdered(v);
  }

  /** No problem is found exactly when every check passes. */
  lemma NoProblemIff(v: Verdicts)
    ensures Found(v) == [] <==> v == AllPass
  {
    if v != AllPass {
      var p :| Rejects(p, v);
      FoundMember(v, p);
    }
    if Found(v) != [] {
      FoundMember(v, Found(v)[0]);
    }
  }

  /** What `errors.append(msg)` under a failed check adds: the message of `p` when `failed`. */
  function Complaint(p: Problem, failed: bool): seq<string> {
    if failed then [Message(p)] else []
  }

  /** Running check `p` after the problems `found` adds its complaint. */
  lemma Report(found: seq<Problem>, p: Problem, v: Verdicts, failed: bool)
    requires failed == Rejects(p, v)
    ensures Messages(found + Flag(p, v)) == Messages(found) + Complaint(p, failed)
  {
    if failed {
      assert (found + [p])[..|found|] == found;
    } else {
      assert found + [] == found;
    }
  }

  /** The messages of the problems found, check by check. */
  lemma MessagesOfFound(v: Verdicts)
    ensures Messages(Found(v)) == [] +
      Complaint(NoFirstName, v.noFirstName) +
      Complaint(NoLastName, v.noLastName) +
      Complaint(NoSpecialization, v.noSpecialization) +
      Complaint(BadPhone, v.badPhone) +
      Complaint(BadEmail, v.badEmail)
  {
    var found: seq<Problem> := [];
    Report(found, NoFirstName, v, v.noFirstName);
    found := found + Flag(NoFirstName, v);
    Report(found, NoLastName, v, v.noLastName);
    found := found + Flag(NoLastName, v);
    Report(found, NoSpecialization, v, v.noSpecialization);
    found := found + Flag(NoSpecialization, v);
    Report(found, BadPhone, v, v.badPhone);
    found := found + Flag(BadPhone, v);
    Report(found, BadEmail, v, v.badEmail);
    assert [] + Flag(NoFirstName, v) == Flag(NoFirstName, v);
  }

  /** The result of the validation block. */
  datatype Validation =
    | Missing(key: Key)                         // an `f[key]` raised `KeyError`
    | Checked(errors: seq<string>, phone: string)

  /**
   * The validation block: the first absent field raises; otherwise
   * `errors` holds the message of every failed check, in order, and
   * `phone` is the normalised phone.
   */
  method Validate(f: Form) returns (r: Validation)
    ensures r.Missing? <==> MissingKey(f).Some?
    ensures r.Missing? ==> r.key == MissingKey(f).value
    ensures r.Checked? ==> Present(f) && r.errors == Messages(FailedChecks(f))
    ensures r.Checked? ==> r.phone == PhoneOf(f)
  {
    var errors: seq<string> := [];
    if FirstName !in f.fields {
      return Missing(FirstName);
    }
    errors := errors + Complaint(NoFirstName, f.fields[FirstName] == "");
    if LastName !in f.fields {
      return Missing(LastName);
    }
    errors := errors + Complaint(NoLastName, f.fields[LastName] == "");
    if Specialization !in f.fields {
      return Missing(Specialization);
    }
    errors := errors + Complaint(NoSpecialization, f.fields[Specialization] == Placeholder);

    if Phone !in f.fields {
      return Missing(Phone);
    }
    var phone := NormalizePhone(f.fields[Phone]);
    errors := errors + Complaint(BadPhone, !PhoneMatches(phone));

    if Email !in f.fields {
      return Missing(Email);
    }
    errors := errors + Complaint(BadEmail, !EmailMatches(f.fields[Email]));
    MessagesOfFound(Judge(f));
    r := Checked(errors, phone);
  }

  /** Every field was submitted and no check rejects the form. */
  predicate Valid(f: Form) {
    Present(f) && FailedChecks(f) == []
  }

  /**
   * A submission that passes validation, stated with the languages of the
   * two patterns rather than their matchers.
   */
  ghost predicate Accepted(f: Form) {
    && Present(f)
    && f.fields[FirstName] != "" && f.fields[LastName] != ""
    && f.fields[Specialization] != Placeholder
    && PhoneShape(PhoneOf(f))
    && EmailShape(f.fields[Email])
  }

  /** The handler reports no error exactly for the accepted submissions. */
  lemma ValidIff(f: Form)
    ensures Valid(f) <==> Accepted(f)
  {
    if Present(f) {
      var v := Judge(f);
      assert v == AllPass <==>
        !v.noFirstName && !v.noLastName && !v.noSpecialization && !v.badPhone && !v.badEmail;
    }
  }

  /**
   * Unlike `app.py`, an empty specialisation passes: only the placeholder
   * is rejected.
   */
  lemma EmptySpecializationPasses(f: Form)
    requires Present(f) && f.fields[Specialization] == ""
    ensures !Fails(NoSpecialization, f)
  {
  }

  /** The fields the `record` dict reads with `f[key]` that validation did not, in order. */
  const RecordKeys: seq<Key> := [MentorStatus, Institute, Street, City, PostalCode, NumStudents]

  /** Every field of `RecordKeys` was submitted and the count is an integer. */
  predicate Readable(f: Form) {
    && MentorStatus in f.fields && Institute in f.fields && Street in f.fields
    && City in f.fields && PostalCode in f.fields && NumStudents in f.fields
    && ParseInt(f.fields[NumStudents]).Some?
  }

  /**
   * The `record` dict, its entries evaluated in order: the texts as
   * submitted, `int(f["num_students"])`, the optional fields with "" as
   * default, the feedback points joined with "; ", the normalised phone.
   * The first absent field raises `KeyError`; a count `int()` rejects
   * raises `ValueError`.
   */
  function BuildRecord(f: Form, now: string, phone: string): (r: Result<Columns.Record, PyError>)
    requires Present(f)
    ensures r.Ok? <==> Readable(f)
    ensures r.Err? && r.error.KeyError? ==> r.error.key in RecordKeys && r.error.key !in f.fields
    ensures r.Ok? ==> r.value.submittedAt == now && r.value.phone == phone
  {
    if MentorStatus !in f.fields then Err(KeyError(MentorStatus))
    else if Institute !in f.fields then Err(KeyError(Institute))
    else if Street !in f.fields then Err(KeyError(Street))
    else if City !in f.fields then Err(KeyError(City))
    else if PostalCode !in f.fields then Err(KeyError(PostalCode))
    else if NumStudents !in f.fields then Err(KeyError(NumStudents))
    else
      match ParseInt(f.fields[NumStudents])
      case None => Err(ValueError)
      case Some(n) =>
        Ok(Columns.Record(
          submittedAt := now,
          firstName := f.fields[FirstName],
          lastName := f.fields[LastName],
          mentorStatus := f.fields[MentorStatus],
          institute := f.fields[Institute],
          specialization := f.fields[Specialization],
          street := f.fields[Street],
          city := f.fields[City],
          postalCode := f.fields[PostalCode],
          numStudents := n,
          continueMentoring := GetOr(f, ContinueMentoring, ""),
          specialRequests := GetOr(f, SpecialRequests, ""),
          feedbackPoints := Join("; ", f.feedbackPoints),
          feedbackText := GetOr(f, FeedbackText, ""),
          phone := phone,
          email := f.fields[Email]))
  }

  /** A `KeyError` names the first absent field in the order the dict reads them. */
  lemma RecordKeyError(f: Form, now: string, phone: string)
    requires Present(f)
    ensures var r := BuildRecord(f, now, phone);
      (r.Err? && r.error.KeyError?) <==> FirstMissing(f, RecordKeys).Some?
    ensures var r := BuildRecord(f, now, phone);
      r.Err? && r.error.KeyError? ==> Some(r.error.key) == FirstMissing(f, RecordKeys)
  {
    FirstMissingCons(f, NumStudents, []);
    FirstMissingCons(f, PostalCode, [NumStudents]);
    FirstMissingCons(f, City, [PostalCode, NumStudents]);
    FirstMissingCons(f, Street, [City, PostalCode, NumStudents]);
    FirstMissingCons(f, Institute, [Street, City, PostalCode, NumStudents]);
    FirstMissingCons(f, MentorStatus, [Institute, Street, City, PostalCode, NumStudents]);
    assert [NumStudents] == [NumStudents] + [];
  }

  /**
   * The count is stored as the integer the form spells, whatever its
   * value, as long as `int()` accepts that many digits.
   */
  lemma CountRoundTrip(f: Form, now: string, phone: string, n: int)
    requires Present(f) && MentorStatus in f.fields && Institute in f.fields
    requires Street in f.fields && City in f.fields && PostalCode in f.fields
    requires GetOr(f, NumStudents, "") == Decimal(n) && |Digits(Abs(n))| <= MaxStrDigits
    ensures BuildRecord(f, now, phone).Ok?
    ensures BuildRecord(f, now, phone).value.numStudents == n
  {
    ParseDecimal(n);
  }

  /** Unlike `app.py`, the count is not limited to 1 or 2: "7" is stored as 7. */
  lemma CountNotLimited(f: Form, now: string, phone: string)
    requires Present(f) && MentorStatus in f.fields && Institute in f.fields
    requires Street in f.fields && City in f.fields && PostalCode in f.fields
    requires GetOr(f, NumStudents, "") == "7"
    ensures BuildRecord(f, now, phone).Ok?
    ensures BuildRecord(f, now, phone).value.numStudents == 7
  {
    assert Decimal(7) == "7";
    CountRoundTrip(f, now, phone, 7);
  }

  /** An empty count makes `int()` raise. */
  lemma EmptyCountRaises(f: Form, now: string, phone: string)
    requires Present(f) && MentorStatus in f.fields && Institute in f.fields
    requires Street in f.fields && City in f.fields && PostalCode in f.fields
    requires GetOr(f, NumStudents, "x") == ""
    ensures BuildRecord(f, now, phone) == Err(ValueError)
  {
  }

  /**
   * A count wrapped in a separator that `strip()` would remove, such as
   * U+001C, makes `int()` raise.
   */
  lemma SeparatorCountRaises(f: Form, now: string, phone: string)
    requires Present(f) && MentorStatus in f.fields && Institute in f.fields
    requires Street in f.fields && City in f.fields && PostalCode in f.fields
    requires GetOr(f, NumStudents, "") == "\U{1C}7"
    ensures BuildRecord(f, now, phone) == Err(ValueError)
  {
    ParseSeparatorExamples();
  }

  /** A count of more than `MaxStrDigits` digits makes `int()` raise. */
  lemma LongCountRaises(f: Form, now: string, phone: string, n: int)
    requires Present(f) && MentorStatus in f.fields && Institute in f.fields
    requires Street in f.fields && City in f.fields && PostalCode in f.fields
    requires GetOr(f, NumStudents, "") == Decimal(n) && |Digits(Abs(n))| > MaxStrDigits
    ensures BuildRecord(f, now, phone) == Err(ValueError)
  {
    TooManyDigits(n);
  }

  /**
   * The texts are stored exactly as submitted: a first name of spaces
   * passes validation and is saved with its spaces.
   */
  lemma BlankNameStoredAsIs(f: Form, now: string, phone: string)
    requires Present(f) && Readable(f) && f.fields[FirstName] == "  "
    ensures !Fails(NoFirstName, f)
    ensures BuildRecord(f, now, phone).value.firstName == "  "
  {
  }

  /** The record of a valid submission carries values that passed every check. */
  lemma StoredRecordChecked(f: Form, now: string)
    requires Valid(f) && Readable(f)
    ensures var r := BuildRecord(f, now, PhoneOf(f)).value;
      && r.firstName != "" && r.lastName != "" && r.specialization != Placeholder
      && PhoneMatches(r.phone) && EmailMatches(r.email)
  {
    var v := Judge(f);
    NoProblemIff(v);
    assert !v.noFirstName && !v.noLastName && !v.noSpecialization && !v.badPhone && !v.badEmail;
  }

  /** What the handler answers. */
  datatype Outcome =
    | Rejected(errors: seq<string>)  // every error flashed, nothing saved
    | Saved                          // the success message
    | SaveFailed                     // the "could not save" message
    | Raised(error: PyError)         // the exception escapes the handler, nothing saved

  const SavedMessage: string := "✅ הטופס נשלח ונשמר בהצלחה!"
  const SaveFailedMessage: string := "❌ שגיאה בשמירה לגיליון."

  /** The flashed messages with their category; an escaping exception flashes nothing. */
  function Flashes(o: Outcome): (r: seq<(string, string)>)
    ensures o.Rejected? ==> |r| == |o.errors|
    ensures o.Rejected? ==> forall i :: 0 <= i < |r| ==> r[i] == (o.errors[i], "error")
    ensures o.SaveFailed? ==> r == [(SaveFailedMessage, "error")]
    ensures o.Raised? ==> r == []
    ensures (exists i :: 0 <= i < |r| && r[i].1 == "success") <==> o.Saved?
  {
    match o
    case Rejected(errors) => seq(|errors|, i requires 0 <= i < |errors| => (errors[i], "error"))
    case Saved =>
      var r := [(SavedMessage, "success")];
      assert r[0].1 == "success";
      r
    case SaveFailed => [(SaveFailedMessage, "error")]
    case Raised(_) => []
  }

  /**
   * One POST: a missing field or a count that is not an integer raises
   * before the sheet is touched; an invalid form is rejected; otherwise
   * the record is saved when every remote call succeeds. `net.open` is
   * `get_worksheet()`, and `now` the timestamp.
   */
  method Submit(f: Form, now: string, ws: Worksheet, net: Responses) returns (outcome: Outcome)
    modifies ws
    ensures MissingKey(f).Some? ==> outcome == Raised(KeyError(MissingKey(f).value))
    ensures Present(f) && FailedChecks(f) != [] ==> outcome == Rejected(Messages(FailedChecks(f)))
    ensures Valid(f) && !Readable(f) ==> outcome == Raised(BuildRecord(f, now, PhoneOf(f)).error)
    ensures outcome.Rejected? || outcome.Raised? ==> ws.rows == old(ws.rows)
    ensures outcome == Saved <==> Valid(f) && Readable(f) && SaveSucceeds(old(ws.rows), net)
    ensures outcome == Saved ==>
      Valid(f) && Readable(f) &&
      ws.rows == Repaired(old(ws.rows)) + [Columns.Row(BuildRecord(f, now, PhoneOf(f)).value)]
    ensures Valid(f) && Readable(f) && outcome != Saved ==> outcome == SaveFailed
    ensures outcome == SaveFailed ==>
      ws.rows == old(ws.rows) || ws.rows == [] || ws.rows == Repaired(old(ws.rows))
  {
    var checked := Validate(f);
    if checked.Missing? {
      return Raised(KeyError(checked.key));
    }
    if checked.errors != [] {
      return Rejected(checked.errors);
    }
    var record := BuildRecord(f, now, checked.phone);
    if record.Err? {
      return Raised(record.error);
    }
    var ok := SaveRow(ws, net, Columns.Row(record.value));
    outcome := if ok then Saved else SaveFailed;
  }
}
