/**
 * The submitted form (`request.form`, a multi-dict) and the two ways the
 * handlers read it: `f.get(key[, default])` and `f[key]`.
 */
module Forms {
  import opened Wrappers

  /** The single-valued fields the handlers read. */
  datatype Key =
    | FirstName | LastName | MentorStatus | Institute | Specialization
    | Street | City | PostalCode | NumStudents | ContinueMentoring
    | SpecialRequests | FeedbackText | Phone | Email

  /** The name of the field in the submitted form. */
  function Name(k: Key): string {
    match k
    case FirstName => "first_name"
    case LastName => "last_name"
    case MentorStatus => "mentor_status"
    case Institute => "institute"
    case Specialization => "specialization"
    case Street => "street"
    case City => "city"
    case PostalCode => "postal_code"
    case NumStudents => "num_students"
    case ContinueMentoring => "continue_mentoring"
    case SpecialRequests => "special_requests"
    case FeedbackText => "mentor_feedback_text"
    case Phone => "phone"
    case Email => "email"
  }

  /** Fields are told apart by their names, so a key stands for its name. */
  lemma NamesDistinct(j: Key, k: Key)
    ensures Name(j) == Name(k) <==> j == k
  {
  }

  /**
   * The form as the handlers see it: the first value of every field that
   * was submitted, and every value of the multi-valued
   * `mentor_feedback_points` field (`f.getlist("mentor_feedback_points")`).
   * Fields the handlers never read are not part of it.
   */
  datatype Form = Form(fields: map<Key, string>, feedbackPoints: seq<string>)

  /** `f.get(key)`: `None` when the field was not submitted. */
  function Get(f: Form, key: Key): (r: Option<string>)
    ensures r.Some? <==> key in f.fields
  {
    if key in f.fields then Some(f.fields[key]) else None
  }

  /** `f.get(key, default)` */
  function GetOr(f: Form, key: Key, default: string): (r: string)
    ensures Get(f, key).Some? ==> r == Get(f, key).value
    ensures Get(f, key).None? ==> r == default
  {
    if key in f.fields then f.fields[key] else default
  }

  /** `not f.get(key)` is false: the field was submitted and is not empty. */
  predicate Filled(f: Form, key: Key)
    ensures Filled(f, key) <==> Get(f, key).Some? && Get(f, key).value != ""
  {
    key in f.fields && f.fields[key] != ""
  }

  /**
   * Reading `f[k]` for every `k` of `keys` in turn: the key of the first
   * read that raises `KeyError`, if any.
   */
  function FirstMissing(f: Form, keys: seq<Key>): Option<Key> {
    if keys == [] then None
    else if keys[0] !in f.fields then Some(keys[0])
    else FirstMissing(f, keys[1..])
  }

  /**
   * No read raises exactly when every key was submitted; otherwise the key
   * named is absent and every key read before it is present.
   */
  lemma {:induction false} FirstMissingSpec(f: Form, keys: seq<Key>)
    ensures var r := FirstMissing(f, keys);
      && (r.None? <==> forall k :: k in keys ==> k in f.fields)
      && (r.Some? ==> r.value !in f.fields)
      && (r.Some? ==> exists i :: 0 <= i < |keys| && keys[i] == r.value &&
                                 (forall j :: 0 <= j < i ==> keys[j] in f.fields))
  {
    if keys != [] && keys[0] in f.fields {
      var rest := keys[1..];
      FirstMissingSpec(f, rest);
      assert keys == [keys[0]] + rest;
      var r := FirstMissing(f, rest);
      if r.Some? {
        var i :| 0 <= i < |rest| && rest[i] == r.value && (forall j :: 0 <= j < i ==> rest[j] in f.fields);
        assert keys[i + 1] == r.value;
        assert forall j :: 0 <= j < i + 1 ==> keys[j] in f.fields by {
          forall j | 0 <= j < i + 1
            ensures keys[j] in f.fields
          {
            if j > 0 {
              assert keys[j] == rest[j - 1];
            }
          }
        }
      }
    }
  }

  /** Reading `k` first, then `keys`. */
  lemma FirstMissingCons(f: Form, k: Key, keys: seq<Key>)
    ensures FirstMissing(f, [k] + keys) == if k !in f.fields then Some(k) else FirstMissing(f, keys)
  {
    assert ([k] + keys)[1..] == keys;
  }
}
