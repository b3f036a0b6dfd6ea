/**
 * The Python 3 `str` operations the form handler relies on:
 * `str.isspace`, `str.strip`, `str.replace(c, "")`, `sep.join(parts)` and
 * `s.split(sep)`.
 */
module PyText {

  /** `c.isspace()`: the characters `str.strip()` removes by default. */
  predicate IsSpace(c: char) {
    || ('\t' <= c <= '\r')
    || ('\U{1C}' <= c <= '\U{1F}')
    || c == ' ' || c == '\U{85}' || c == '\U{A0}' || c == '\U{1680}'
    || ('\U{2000}' <= c <= '\U{200A}')
    || c == '\U{2028}' || c == '\U{2029}' || c == '\U{202F}' || c == '\U{205F}'
    || c == '\U{3000}'
  }

  /** Neither end of `s` is whitespace: what `strip()` leaves behind. */
  predicate Trimmed(s: string) {
    s == [] || (!IsSpace(s[0]) && !IsSpace(s[|s| - 1]))
  }

  /** How many whitespace characters `s` starts with. */
  function LeadingSpace(s: string): (k: nat)
    ensures k <= |s|
    ensures forall i :: 0 <= i < k ==> IsSpace(s[i])
    ensures k == |s| || !IsSpace(s[k])
  {
    if |s| > 0 && IsSpace(s[0]) then 1 + LeadingSpace(s[1..]) else 0
  }

  /** How many whitespace characters `s` ends with. */
  function TrailingSpace(s: string): (k: nat)
    ensures k <= |s|
    ensures forall i :: |s| - k <= i < |s| ==> IsSpace(s[i])
    ensures k == |s| || !IsSpace(s[|s| - 1 - k])
  {
    if |s| > 0 && IsSpace(s[|s| - 1]) then 1 + TrailingSpace(s[..|s| - 1]) else 0
  }

  /** `s.strip()`: the leading whitespace goes, then the trailing whitespace of the rest. */
  function Strip(s: string): (r: string)
    ensures Trimmed(r)
  {
    var k := LeadingSpace(s);
    var t := TrailingSpace(s[k..]);
    assert k + t == |s| || s[|s| - 1 - t] == s[k..][|s| - k - 1 - t];
    s[k..|s| - t]
  }

  /**
   * What `strip()` does: `s` is `k` whitespace characters, then the result,
   * then more whitespace, and the result neither starts nor ends with
   * whitespace.
   */
  lemma StripSpec(s: string)
    ensures var r, k := Strip(s), LeadingSpace(s);
      && k + |r| <= |s|
      && r == s[k..k + |r|]
      && (forall i :: 0 <= i < k ==> IsSpace(s[i]))
      && (forall i :: k + |r| <= i < |s| ==> IsSpace(s[i]))
  {
    var k := LeadingSpace(s);
    var rest := s[k..];
    var t := TrailingSpace(rest);
    var r := Strip(s);
    assert r == s[k..|s| - t];
    assert |r| == |s| - t - k;
    forall i | |s| - t <= i < |s|
      ensures IsSpace(s[i])
    {
      assert s[i] == rest[i - k];
    }
  }

  /** A string that is already trimmed is left alone by `strip()`. */
  lemma StripTrimmed(s: string)
    requires Trimmed(s)
    ensures Strip(s) == s
  {
    assert LeadingSpace(s) == 0;
    assert s[0..] == s;
    assert TrailingSpace(s) == 0;
  }

  /** `strip()` is idempotent. */
  lemma StripIdempotent(s: string)
    ensures Strip(Strip(s)) == Strip(s)
  {
    StripTrimmed(Strip(s));
  }

  /** `s.replace(c, "")` for a one-character `c`: every `c` is deleted. */
  function RemoveChar(s: string, c: char): (r: string)
    ensures c !in r
  {
    if s == [] then []
    else (if s[0] == c then [] else [s[0]]) + RemoveChar(s[1..], c)
  }

  /** Every character other than `c` is kept, as often as it occurs. */
  lemma {:induction false} RemoveCharCounts(s: string, c: char)
    ensures forall d :: d != c ==> multiset(RemoveChar(s, c))[d] == multiset(s)[d]
  {
    if s != [] {
      assert s == [s[0]] + s[1..];
      RemoveCharCounts(s[1..], c);
    }
  }

  /** Deleting `c` keeps the order of everything else: it works piecewise. */
  lemma {:induction false} RemoveCharAppend(a: string, b: string, c: char)
    ensures RemoveChar(a + b, c) == RemoveChar(a, c) + RemoveChar(b, c)
  {
    if a != [] {
      assert (a + b)[1..] == a[1..] + b;
      RemoveCharAppend(a[1..], b, c);
    } else {
      assert a + b == b;
    }
  }

  /** A string without `c` is left alone. */
  lemma {:induction false} RemoveCharAbsent(s: string, c: char)
    requires c !in s
    ensures RemoveChar(s, c) == s
  {
    if s != [] {
      RemoveCharAbsent(s[1..], c);
    }
  }

  /** `sep.join(parts)` */
  function Join(sep: string, parts: seq<string>): (r: string)
    ensures parts == [] ==> r == ""
    ensures |parts| == 1 ==> r == parts[0]
  {
    if parts == [] then ""
    else if |parts| == 1 then parts[0]
    else parts[0] + sep + Join(sep, parts[1..])
  }

  /** Does `sep` occur in `s` at position `i`? */
  predicate OccursAt(s: string, sep: string, i: nat) {
    i + |sep| <= |s| && s[i..i + |sep|] == sep
  }

  /** The first position at or after `from` where `sep` occurs in `s`. */
  function Find(s: string, sep: string, from: nat): (r: int)
    requires |sep| > 0 && from <= |s|
    ensures r == -1 || from <= r <= |s| - |sep|
    ensures r >= 0 ==> OccursAt(s, sep, r)
    ensures forall i :: from <= i && (r < 0 || i < r) ==> !OccursAt(s, sep, i)
    decreases |s| - from
  {
    if from + |sep| > |s| then -1
    else if s[from..from + |sep|] == sep then from
    else Find(s, sep, from + 1)
  }

  /** `s.split(sep)` for a non-empty separator. */
  function Split(s: string, sep: string): (r: seq<string>)
    requires |sep| > 0
    ensures |r| > 0
    decreases |s|
  {
    var i := Find(s, sep, 0);
    if i < 0 then [s] else [s[..i]] + Split(s[i + |sep|..], sep)
  }

  /**
   * Joining is undone by splitting, when no piece contains the separator's
   * first character: each joined piece stays recoverable.
   */
  lemma {:induction false} SplitJoin(sep: string, parts: seq<string>)
    requires |sep| > 0 && parts != []
    requires forall k :: 0 <= k < |parts| ==> sep[0] !in parts[k]
    ensures Split(Join(sep, parts), sep) == parts
  {
    var s := Join(sep, parts);
    var p := parts[0];
    if |parts| == 1 {
      NoOccurrence(s, sep, 0);
    } else {
      var rest := Join(sep, parts[1..]);
      assert s == p + sep + rest;
      forall i | 0 <= i < |p|
        ensures !OccursAt(s, sep, i)
      {
        assert s[i] == p[i];
      }
      assert OccursAt(s, sep, |p|) by {
        assert s[|p|..|p| + |sep|] == sep;
      }
      assert Find(s, sep, 0) == |p| by {
        FindFirst(s, sep, 0, |p|);
      }
      assert s[..|p|] == p;
      assert s[|p| + |sep|..] == rest;
      SplitJoin(sep, parts[1..]);
    }
  }

  /** `Find` returns the first occurrence when none comes earlier. */
  lemma {:induction false} FindFirst(s: string, sep: string, from: nat, at: nat)
    requires |sep| > 0 && from <= at && OccursAt(s, sep, at)
    requires forall i :: from <= i < at ==> !OccursAt(s, sep, i)
    ensures Find(s, sep, from) == at
    decreases at - from
  {
    if from < at {
      FindFirst(s, sep, from + 1, at);
    }
  }

  /** A string without the separator's first character never contains it. */
  lemma {:induction false} NoOccurrence(s: string, sep: string, from: nat)
    requires |sep| > 0 && from <= |s| && sep[0] !in s
    ensures Find(s, sep, from) == -1
    decreases |s| - from
  {
    if from + |sep| <= |s| {
      assert s[from..from + |sep|][0] == s[from];
      NoOccurrence(s, sep, from + 1);
    }
  }
}
