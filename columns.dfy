/**
 * The submission record and the sheet row built from it: the sixteen
 * columns of `COLUMNS_ORDER`, the record dict keyed by those headers, and
 * `[record[col] for col in COLUMNS_ORDER]`.
 */
module Columns {
  import opened Wrappers

  /** The sixteen columns of the sheet. */
  datatype Column =
    | SubmittedAt | FirstName | LastName | MentorStatus | Institute | Specialization
    | Street | City | PostalCode | NumStudents | ContinueMentoring | SpecialRequests
    | FeedbackPoints | FeedbackText | Phone | Email

  /**
   * The header text of a column. The same text is the column's key in the
   * `record` dict, so a key of the dict stands for its column.
   */
  function Header(c: Column): string {
    match c
    case SubmittedAt => "תאריך שליחה"
    case FirstName => "שם פרטי"
    case LastName => "שם משפחה"
    case MentorStatus => "סטטוס מדריך"
    case Institute => "מוסד"
    case Specialization => "תחום התמחות"
    case Street => "רחוב"
    case City => "עיר"
    case PostalCode => "מיקוד"
    case NumStudents => "מספר סטודנטים שניתן לקלוט (1 או 2)"
    case ContinueMentoring => "מעוניין להמשיך"
    case SpecialRequests => "בקשות מיוחדות"
    case FeedbackPoints => "חוות דעת - נקודות"
    case FeedbackText => "חוות דעת - טקסט חופשי"
    case Phone => "טלפון"
    case Email => "אימייל"
  }

  /** `COLUMNS_ORDER`: the columns from left to right. */
  const ColumnsOrder: seq<Column> := [
    SubmittedAt, FirstName, LastName, MentorStatus, Institute, Specialization,
    Street, City, PostalCode, NumStudents, ContinueMentoring, SpecialRequests,
    FeedbackPoints, FeedbackText, Phone, Email
  ]

  /** A value written to one cell: a string, or the student count as a number. */
  datatype Cell = Text(text: string) | Number(value: int)

  /** The values of one submission, one per column. */
  datatype Record = Record(
    submittedAt: string,
    firstName: string,
    lastName: string,
    mentorStatus: string,
    institute: string,
    specialization: string,
    street: string,
    city: string,
    postalCode: string,
    numStudents: int,
    continueMentoring: string,
    specialRequests: string,
    feedbackPoints: string,
    feedbackText: string,
    phone: string,
    email: string)

  /** The `record` dict literal of the handlers: column to value. */
  function Fields(r: Record): (m: map<Column, Cell>)
    ensures forall i :: 0 <= i < |ColumnsOrder| ==> ColumnsOrder[i] in m
  {
    map[
      SubmittedAt := Text(r.submittedAt),
      FirstName := Text(r.firstName),
      LastName := Text(r.lastName),
      MentorStatus := Text(r.mentorStatus),
      Institute := Text(r.institute),
      Specialization := Text(r.specialization),
      Street := Text(r.street),
      City := Text(r.city),
      PostalCode := Text(r.postalCode),
      NumStudents := Number(r.numStudents),
      ContinueMentoring := Text(r.continueMentoring),
      SpecialRequests := Text(r.specialRequests),
      FeedbackPoints := Text(r.feedbackPoints),
      FeedbackText := Text(r.feedbackText),
      Phone := Text(r.phone),
      Email := Text(r.email)
    ]
  }

  /**
   * No two columns share a header text, so no key of the dict overwrites
   * another and the header row names every column apart.
   */
  lemma HeadersDistinct()
    ensures forall i, j :: 0 <= i < j < |ColumnsOrder| ==> Header(ColumnsOrder[i]) != Header(ColumnsOrder[j])
  {
  }

  /**
   * The dict has exactly the sixteen columns of `COLUMNS_ORDER` as keys,
   * each once, so the row comprehension never meets a missing key.
   */
  lemma FieldsKeys(r: Record)
    ensures Fields(r).Keys == set c | c in ColumnsOrder
    ensures |Fields(r)| == |ColumnsOrder| == 16
  {
    var keys := set c | c in ColumnsOrder;
    assert Fields(r).Keys == keys;
    DistinctCard(ColumnsOrder);
  }

  /** A sequence without repetitions has as many distinct elements as entries. */
  lemma {:induction false} DistinctCard<T>(s: seq<T>)
    requires forall i, j :: 0 <= i < j < |s| ==> s[i] != s[j]
    ensures |set c | c in s| == |s|
  {
    if s != [] {
      var rest := s[1..];
      DistinctCard(rest);
      assert (set c | c in s) == (set c | c in rest) + {s[0]};
      assert s[0] !in rest by {
        forall k | 0 <= k < |rest|
          ensures rest[k] != s[0]
        {
          assert rest[k] == s[k + 1];
        }
      }
    }
  }

  /** `[record[col] for col in COLUMNS_ORDER]` */
  function Row(r: Record): (row: seq<Cell>)
    ensures |row| == |ColumnsOrder|
  {
    var fields := Fields(r);
    seq(|ColumnsOrder|, i requires 0 <= i < |ColumnsOrder| => fields[ColumnsOrder[i]])
  }

  /**
   * Each cell of the row is the record value its header names: the row is
   * in `COLUMNS_ORDER` whatever the order of the dict literal.
   */
  lemma RowPositions(r: Record)
    ensures Row(r) == [
      Text(r.submittedAt), Text(r.firstName), Text(r.lastName), Text(r.mentorStatus),
      Text(r.institute), Text(r.specialization), Text(r.street), Text(r.city),
      Text(r.postalCode), Number(r.numStudents), Text(r.continueMentoring),
      Text(r.specialRequests), Text(r.feedbackPoints), Text(r.feedbackText),
      Text(r.phone), Text(r.email)]
  {
  }

  /** Reads a sheet row back into a record, when it has the row's shape. */
  function RecordOfRow(row: seq<Cell>): Option<Record> {
    if |row| != 16 || !row[9].Number? then None
    else if exists k :: 0 <= k < 16 && k != 9 && !row[k].Text? then None
    else Some(Record(
      row[0].text, row[1].text, row[2].text, row[3].text, row[4].text,
      row[5].text, row[6].text, row[7].text, row[8].text, row[9].value,
      row[10].text, row[11].text, row[12].text, row[13].text, row[14].text,
      row[15].text))
  }

  /** No value is lost in the row: reading it back gives the record. */
  lemma RowRoundTrip(r: Record)
    ensures RecordOfRow(Row(r)) == Some(r)
  {
    RowPositions(r);
  }
}
