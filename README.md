# Mentor mapping survey — a Dafny model of the submission handler

The repository is a small Flask web form. Mentors use it to register for
student placements. On `POST /`, the form is validated, turned into a
16-column record and appended as one row to the first worksheet of a
Google Sheets spreadsheet. The sheet gets a header row first if its
first row is not the header.

There are two copies of the handler, and this project models each
separately:

- `app.py` (module `MentorSurvey`) reads every field with
  `f.get(key)`. It checks eight required fields, the phone, the email
  and the student count. It collects every error message in order, and
  it stores stripped texts.
- `mentor-mapping/app.py` (module `MentorMapping`) reads with `f[key]`.
  A missing field therefore raises `KeyError`, which escapes the
  handler. It checks only the first and last name, the specialisation,
  the phone and the email. It stores the texts as submitted, and stores
  whatever integer `int(f["num_students"])` yields.

Shared modules:

- `PyText` gives Python's `str.isspace`, `str.strip`, `replace(c, "")`,
  `"; ".join` and `split` on `seq<char>`.
- `PyInt` gives CPython's `int()` on a string, as CPython 3.9.14 and
  3.10.7 onward do it: the Unicode decimal digits of Unicode 13.0, the
  whitespace `int()` skips (not the same set as `strip()`), PEP 515
  underscores and the limit of 4300 digits. It also gives the decimal
  digits `\d` matches.
- `Patterns` holds the two regular expressions as hand-written
  predicates. Next to each is a reference description of the language
  it matches, with a lemma proving the two agree.
- `Forms` is the submitted form.
- `Columns` is `COLUMNS_ORDER`, the record dict and the row built from
  it.
- `Sheet` is the worksheet: a class whose `rows` field the remote calls
  update in place. It also holds `ensure_header` and the `try` block
  that saves a row.

Validation is imperative, as in the source: each
`if cond: errors.append(msg)` becomes `errors := errors +
Complaint(p, cond)`. `Validate` is proved against `FailedChecks`, which
lists, check by check, the problems found. Lemmas prove that this list
holds exactly the failing checks, in check order, and that it is empty
exactly for the submissions the reference predicates accept.

Behaviours of the code that are easy to miss:

- In `app.py`, an empty specialisation is rejected as well as the
  placeholder. An absent specialisation passes.
- Required fields are tested before stripping, so a value made only of
  spaces passes and is stored empty (`app.py`) or with its spaces
  (`mentor-mapping/app.py`).
- `$` in both patterns also matches before one final newline.
- `mentor-mapping/app.py` does not limit the student count to 1 or 2.
  Its `int()` still raises `ValueError` for a count wrapped in one of the
  separators U+001C..U+001F, which `strip()` would remove, and for a
  count of more than 4300 digits.
- A successful `ws.clear()` followed by a failed header write leaves the
  sheet empty. The save is all-or-nothing only for the data row.

## Model

| member | source | states |
|---|---|---|
| PyText.Strip | app.py:153 | the result has no whitespace at either end |
| PyText.StripSpec | app.py:153 | `strip()` removes only whitespace, only from the two ends, and keeps the middle intact |
| PyText.StripTrimmed | app.py:173-187 | a string without surrounding whitespace is left unchanged by `strip()` |
| PyText.StripIdempotent | app.py:153 | stripping twice equals stripping once |
| PyText.RemoveChar | app.py:148 | `replace(c, "")` leaves no `c` in the result |
| PyText.RemoveCharCounts | app.py:148 | `replace(c, "")` drops every `c` and keeps every other character with its count |
| PyText.RemoveCharAppend | app.py:148 | `replace(c, "")` distributes over concatenation, so the kept characters stay in order |
| PyText.Join | app.py:184 | `"; ".join` of no points is "" and of one point is that point; `SplitJoin` undoes it |
| PyText.SplitJoin | app.py:184 | splitting the `"; "`-joined feedback points gives back the points when none contains ';' |
| PyInt.DigitValue | app.py:149 | the value of a Unicode decimal digit is below 10 |
| PyInt.DigitsRead | app.py:162 | the decimal spelling of a natural number is well-formed digits that spell that number |
| PyInt.SkipLeadingSpec | mentor-mapping/app.py:68 | `int()` drops only whitespace from the front, up to the first other character |
| PyInt.SkipTrailingSpec | mentor-mapping/app.py:68 | `int()` drops only whitespace from the back, down to the last other character |
| PyInt.ParseInt | mentor-mapping/app.py:68 | `int()` of a string that is empty or all whitespace raises; a string it accepts holds a decimal digit |
| PyInt.ParseSpaceExamples | mentor-mapping/app.py:68 | `int()` skips ASCII whitespace and non-ASCII whitespace such as U+00A0 and U+3000 around the number |
| PyInt.ParseSeparatorExamples | mentor-mapping/app.py:68 | `int()` raises on a number preceded by U+001C or followed by U+001F |
| PyInt.ParseDecimal | mentor-mapping/app.py:68 | `int(str(n)) == n` for every integer of at most 4300 digits, negative ones included |
| PyInt.TooManyDigits | mentor-mapping/app.py:68 | `int(str(n))` raises for an integer of more than 4300 digits |
| Patterns.PhoneMatches | app.py:149 | a phone the matcher accepts has 9 to 11 characters and starts with "5" or "05" |
| Patterns.PhoneMatchesIff | app.py:149 | the phone matcher accepts exactly "5" or "05" followed by eight decimal digits, optionally followed by one final newline |
| Patterns.NormalizePhone | app.py:147-148 | the normalised phone has no '-' and no space, and holds every other character of the raw input as often as the input does |
| Patterns.NormalizePhoneIdempotent | app.py:148 | normalising twice equals normalising once |
| Patterns.NormalizePhoneAppend | app.py:148 | normalisation distributes over concatenation, so the kept characters keep their order |
| Patterns.NormalizeGroups | app.py:148 | dash- or space-separated digit groups are glued, e.g. "050-123-4567" becomes "0501234567" |
| Patterns.EmailMatches | app.py:154 | an email the matcher accepts has at least five characters, one of them '@' |
| Patterns.EmailMatchesIff | app.py:154 | the email matcher accepts exactly an '@'-free local part, one '@', an '@'-free host, '.', and an '@'-free top-level part, each non-empty |
| Patterns.PhoneAcceptExamples | app.py:149 | "0501234567", "501234567" and "0501234567\n" are accepted |
| Patterns.PhoneUnicodeDigitExample | app.py:149 | an Arabic-Indic digit is accepted as `\d` |
| Patterns.PhoneRejectExamples | app.py:149 | "1234567890" and a nine-digit "050123456" are rejected |
| Patterns.EmailAcceptedExample | app.py:154 | "a@b.c" is accepted |
| Patterns.EmailMissingPartExamples | app.py:154 | "abc", "a@b" and "@b.c" are rejected |
| Patterns.EmailMalformedExamples | app.py:154 | two '@', an empty host and an empty top-level part are rejected |
| Forms.Get | app.py:129 | `f.get(key)` is `None` exactly when the field was not submitted |
| Forms.GetOr | app.py:147 | `f.get(key, default)` is the submitted value when there is one, and the default otherwise |
| Forms.Filled | app.py:129 | `not f.get(key)` is false exactly when the field was submitted and is not empty |
| Forms.NamesDistinct | app.py:129-158 | two keys share a field name only when they are the same key |
| Forms.FirstMissingSpec | mentor-mapping/app.py:46-54 | reading `f[k]` key by key raises on none exactly when all keys are present, and otherwise on an absent key with every earlier key present |
| Columns.HeadersDistinct | app.py:60-65 | no two columns of `COLUMNS_ORDER` share a header text |
| Columns.Fields | app.py:171-188 | every column of `COLUMNS_ORDER` is a key of the record dict, so the row comprehension never raises `KeyError` |
| Columns.FieldsKeys | app.py:171-188 | the record dict has exactly the sixteen columns of `COLUMNS_ORDER` as keys |
| Columns.Row | app.py:194 | the row has one cell per entry of `COLUMNS_ORDER` |
| Columns.RowPositions | app.py:194 | cell i of the row is the record value of column i, whatever the order of the dict literal |
| Columns.RowRoundTrip | mentor-mapping/app.py:79 | reading the row back gives the record, so no value is lost or misplaced |
| Sheet.HeaderRow | app.py:118 | the header row holds the header text of each column of `COLUMNS_ORDER`, in order |
| Sheet.Worksheet.constructor | app.py:107 | a worksheet starts with the given rows |
| Sheet.Worksheet.GetAllValues | app.py:115 | `get_all_values()` returns the rows, or raises |
| Sheet.Worksheet.Clear | app.py:117 | `clear()` empties the sheet, or raises and changes nothing |
| Sheet.Worksheet.AppendRow | app.py:118 | `append_row` adds the row at the end, or raises and changes nothing |
| Sheet.EnsureHeader | app.py:110-118 | succeeds exactly when the read succeeds and either the header is in place or clear and header write succeed; on success the sheet is the repaired sheet; the states left by each failure |
| Sheet.SaveRow | app.py:191-199 | the save succeeds exactly when every remote call does; then the row follows the repaired sheet; otherwise no data row is added |
| Sheet.Repaired | mentor-mapping/app.py:35-39 | after the repair the first row is the header; a sheet that already starts with it is kept |
| Sheet.RepairIdempotent | mentor-mapping/app.py:35-39 | repairing twice equals repairing once |
| Sheet.RepairKeepsGoodSheet | mentor-mapping/app.py:35-39 | the repair leaves the sheet unchanged exactly when it already starts with the header |
| Sheet.RepairThenAppend | app.py:116-118 | a sheet without the header becomes `[header, row]` after the repair and one append: two rows |
| MentorSurvey.MessagesDistinct | app.py:129-160 | different checks flash different messages |
| MentorSurvey.Judge | app.py:146-155 | the phone check fails exactly when the normalised phone is outside the pattern's language, and the email check exactly when the stripped email is |
| MentorSurvey.FailedChecks | app.py:126-164 | no problem is found exactly when every check passes |
| MentorSurvey.FailedChecksSpec | app.py:126-160 | the problems found are exactly the failing checks, in check order, each once |
| MentorSurvey.NoProblemIff | app.py:126-160 | no problem is found exactly when every check passes |
| MentorSurvey.MessagesOfFound | app.py:126-160 | the messages of the problems found are the checks' complaints appended one after another |
| MentorSurvey.ParseCount | app.py:158-162 | an accepted count "1" or "2" parses to 1 or 2 |
| MentorSurvey.CountValue | app.py:162 | `int(num_students_raw)` of an accepted count is its value, 1 or 2 |
| MentorSurvey.Validate | app.py:125-162 | `errors` is the messages of every failed check, in order; the count is parsed exactly when it is "1" or "2" |
| MentorSurvey.AcceptedIff | app.py:125-162 | no error is reported exactly when the seven fields are filled, the specialisation is neither "" nor the placeholder, and the phone and email are in the languages of their patterns, and the count is "1" or "2" |
| MentorSurvey.PassedFormats | app.py:149-160 | a form without errors passes the phone, email and count checks |
| MentorSurvey.BuildRecord | app.py:170-188 | the record holds the timestamp, the count, and a phone without '-' or space |
| MentorSurvey.RecordTrimmed | app.py:173-187 | every free-text value of the record has no whitespace at either end |
| MentorSurvey.Stored | app.py:170-188 | a stored record has a count of 1 or 2 and a phone and email that pass their patterns |
| MentorSurvey.FeedbackRoundTrip | app.py:184 | the stored feedback points split back into the checked boxes |
| MentorSurvey.BlankNameStoredEmpty | app.py:129-173 | a first name of spaces passes validation and is stored empty |
| MentorSurvey.RecordIsStored | app.py:161-188 | for a valid form, the count from validation builds the stored record |
| MentorSurvey.Flashes | app.py:164-199 | a rejection flashes each message, in order, as an error; a failed save flashes the save-failed message as an error; only a save flashes success |
| MentorSurvey.Submit | app.py:124-201 | an invalid form is rejected with all its messages and the sheet untouched; a valid one is saved, after the repaired sheet, exactly when every remote call succeeds; otherwise the save-failed outcome |
| MentorMapping.MessagesDistinct | mentor-mapping/app.py:46-55 | different checks flash different messages |
| MentorMapping.MissingKey | mentor-mapping/app.py:46-54 | some read raises exactly when a field validation reads was not submitted, and the one named is absent |
| MentorMapping.MissingKeyIsFirst | mentor-mapping/app.py:46-54 | the key that raises is the first absent one in reading order |
| MentorMapping.Judge | mentor-mapping/app.py:50-55 | the phone check fails exactly when the normalised phone is outside the pattern's language, and the email check exactly when the unstripped email is |
| MentorMapping.FailedChecks | mentor-mapping/app.py:45-57 | no problem is found exactly when every check passes |
| MentorMapping.FailedChecksSpec | mentor-mapping/app.py:45-55 | the problems found are exactly the failing checks, in check order, each once |
| MentorMapping.NoProblemIff | mentor-mapping/app.py:45-55 | no problem is found exactly when every check passes |
| MentorMapping.MessagesOfFound | mentor-mapping/app.py:45-55 | the messages of the problems found are the checks' complaints appended one after another |
| MentorMapping.Validate | mentor-mapping/app.py:44-55 | a missing field raises `KeyError` for the first absent key; otherwise `errors` is the messages of every failed check, in order, and the phone is normalised |
| MentorMapping.ValidIff | mentor-mapping/app.py:44-55 | no error is reported exactly when the fields are present, the names are non-empty, the specialisation is not the placeholder, and the phone and unstripped email are in the languages of their patterns |
| MentorMapping.EmptySpecializationPasses | mentor-mapping/app.py:48 | an empty specialisation passes |
| MentorMapping.BuildRecord | mentor-mapping/app.py:61-74 | the record is built exactly when its fields are present and the count is an integer; a `KeyError` names an absent field the dict reads; the record holds the timestamp and the phone |
| MentorMapping.RecordKeyError | mentor-mapping/app.py:62-73 | the record raises `KeyError` exactly when a field it reads is absent, and names the first absent one in reading order |
| MentorMapping.CountRoundTrip | mentor-mapping/app.py:68 | the count is stored as the integer the form spells, whatever its value, when it has at most 4300 digits |
| MentorMapping.CountNotLimited | mentor-mapping/app.py:68 | a count of "7" is stored as 7 |
| MentorMapping.EmptyCountRaises | mentor-mapping/app.py:68 | an empty count raises `ValueError` |
| MentorMapping.SeparatorCountRaises | mentor-mapping/app.py:68 | a count of "\x1c7" raises `ValueError`, although `strip()` would turn it into "7" |
| MentorMapping.LongCountRaises | mentor-mapping/app.py:68 | a count of more than 4300 digits raises `ValueError` |
| MentorMapping.BlankNameStoredAsIs | mentor-mapping/app.py:46-64 | a first name of spaces passes validation and is stored with its spaces |
| MentorMapping.StoredRecordChecked | mentor-mapping/app.py:46-74 | the record of a valid form has non-empty names, a specialisation other than the placeholder, and a phone and email that pass their patterns |
| MentorMapping.Flashes | mentor-mapping/app.py:57-82 | a rejection flashes each message, in order, as an error; a failed save flashes the save-failed message as an error; an escaping exception flashes nothing; only a save flashes success |
| MentorMapping.Submit | mentor-mapping/app.py:43-85 | a missing field or a non-integer count raises with the sheet untouched; an invalid form is rejected with all its messages; a valid, readable one is saved, after the repaired sheet, exactly when every remote call succeeds |

## Left out

- Flask itself is not modelled: routing, `redirect`, `url_for`, `render_template` and the GET page. The outcome datatypes and `Flashes` stand for the flashed messages. An exception that escapes `mentor-mapping/app.py` becomes Flask's error page, which is not modelled.
- `get_worksheet` is one remote answer, `Responses.open`. It reads environment variables or files, parses the credentials, authorises and opens the spreadsheet.
- Every Google Sheets call is represented by whether it succeeds. The network, authentication and Sheets' own cell formatting are not modelled. Cells hold text or the number `int` produced, not Sheets' displayed strings.
- The timestamp `datetime.now(tz).strftime(...)` with the Asia/Jerusalem zone is a string parameter `now`, because it depends on the clock and the time-zone database.
- The `print` of the exception is not modelled.
- The maintenance-mode hook at the top of `app.py` is not modelled. It is static HTML behind an environment variable, and as written it uses `app` before it is defined.
- Concurrent requests are not modelled, including two submissions interleaving `clear()` and `append_row`.
- `\d` and `int()` use the decimal-digit table of Unicode 13.0, the version of CPython 3.9 and 3.10. Digits added in later Unicode versions are not included.
- `int()` refuses more than 4300 digits, as CPython does from 3.9.14 and 3.10.7 on. Older interpreters, which have no such limit, are not modelled.
- `str(n)` also raises for an integer of more than 4300 digits. The handlers never call it: `Decimal` only spells a number in decimal for the lemmas about `int()`.
- Form fields that the handlers never read are not part of `Form`.
- `SPECIALIZATIONS` only feeds the rendered page and is not modelled.
- Sheet.SaveRow: on failure the contract says only that the sheet is unchanged, empty or repaired without the row. It does not say which failing call led to which of those states. Sheet.EnsureHeader states that per call.
- MentorSurvey.Submit: on a failed save, the contract gives the same three possible sheets as Sheet.SaveRow.
- MentorMapping.Submit: on a failed save, the contract gives the same three possible sheets as Sheet.SaveRow.
