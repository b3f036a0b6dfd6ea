/**
 * The two regular expressions of the form handler, written out as string
 * predicates with Python `re.match` semantics: `^` anchors at the start,
 * `$` matches at the end of the string or just before one final "\n",
 * `\d` is any Unicode decimal digit and `[^@]` is any character but '@'
 * (newline included).
 */
module Patterns {
  import opened Wrappers
  import opened PyText
  import opened PyInt

  predicate AllDigits(s: string) {
    forall i :: 0 <= i < |s| ==> IsDecimalDigit(s[i])
  }

  /** `0?5\d{8}` matching all of `t`. */
  predicate PhoneBody(t: string) {
    || (|t| == 9 && t[0] == '5' && AllDigits(t[1..]))
    || (|t| == 10 && t[0] == '0' && t[1] == '5' && AllDigits(t[2..]))
  }

  /** `re.match(r"^(0?5\d{8})$", s)` succeeds. */
  predicate PhoneMatches(s: string)
    ensures PhoneMatches(s) ==> 9 <= |s| <= 11 && (s[0] == '5' || s[..2] == "05")
  {
    || PhoneBody(s)
    || (|s| > 0 && s[|s| - 1] == '\n' && PhoneBody(s[..|s| - 1]))
  }

  /** The strings the phone pattern denotes. */
  ghost predicate PhoneShape(s: string) {
    exists d :: |d| == 8 && AllDigits(d) &&
      (s == "5" + d || s == "05" + d || s == "5" + d + "\n" || s == "05" + d + "\n")
  }

  /**
   * A phone is accepted iff it is "5" or "05" followed by eight decimal
   * digits, optionally followed by one newline.
   */
  lemma PhoneMatchesIff(s: string)
    ensures PhoneMatches(s) <==> PhoneShape(s)
  {
    if PhoneMatches(s) {
      var t := if PhoneBody(s) then s else s[..|s| - 1];
      var d := t[|t| - 8..];
      assert t[1..] == d || t[2..] == d;
      if |t| == 9 {
        assert t == "5" + d;
      } else {
        assert t == "05" + d;
      }
      assert s == t || s == t + "\n";
    }
    if PhoneShape(s) {
      var d :| |d| == 8 && AllDigits(d) &&
        (s == "5" + d || s == "05" + d || s == "5" + d + "\n" || s == "05" + d + "\n");
      if s == "5" + d {
        assert s[1..] == d;
      } else if s == "05" + d {
        assert s[2..] == d;
      } else if s == "5" + d + "\n" {
        assert s[..|s| - 1] == "5" + d && (s[..|s| - 1])[1..] == d;
      } else {
        assert s[..|s| - 1] == "05" + d && (s[..|s| - 1])[2..] == d;
      }
    }
  }

  /** `phone.replace("-", "").replace(" ", "")` */
  function NormalizePhone(raw: string): (phone: string)
    ensures '-' !in phone && ' ' !in phone
    ensures forall c :: c != '-' && c != ' ' ==> multiset(phone)[c] == multiset(raw)[c]
  {
    var dashless := RemoveChar(raw, '-');
    var phone := RemoveChar(dashless, ' ');
    RemoveCharCounts(raw, '-');
    RemoveCharCounts(dashless, ' ');
    assert multiset(phone)['-'] == multiset(dashless)['-'] == 0;
    phone
  }

  /** Normalising twice is normalising once. */
  lemma NormalizePhoneIdempotent(raw: string)
    ensures NormalizePhone(NormalizePhone(raw)) == NormalizePhone(raw)
  {
    var p := NormalizePhone(raw);
    RemoveCharAbsent(p, '-');
    RemoveCharAbsent(p, ' ');
  }

  /** Normalisation works piece by piece, so the kept characters stay in order. */
  lemma NormalizePhoneAppend(a: string, b: string)
    ensures NormalizePhone(a + b) == NormalizePhone(a) + NormalizePhone(b)
  {
    RemoveCharAppend(a, b, '-');
    RemoveCharAppend(RemoveChar(a, '-'), RemoveChar(b, '-'), ' ');
  }

  /** The first position of `c` in `s`, if any. */
  function IndexOf(s: string, c: char): (r: Option<nat>)
    ensures r.None? <==> c !in s
    ensures r.Some? ==> r.value < |s| && s[r.value] == c && c !in s[..r.value]
  {
    if s == [] then None
    else if s[0] == c then Some(0)
    else
      match IndexOf(s[1..], c)
      case None => None
      case Some(i) =>
        assert s[..i + 1] == [s[0]] + s[1..][..i];
        Some(i + 1)
  }

  /** `[^@]+@[^@]+\.[^@]+` matching all of `t`. */
  predicate EmailBody(t: string) {
    match IndexOf(t, '@')
    case None => false
    case Some(at) =>
      var domain := t[at + 1..];
      && 0 < at
      && '@' !in domain
      && |domain| >= 3
      && '.' in domain[1..|domain| - 1]
  }

  /** `re.match(r"^[^@]+@[^@]+\.[^@]+$", s)` succeeds. */
  predicate EmailMatches(s: string)
    ensures EmailMatches(s) ==> |s| >= 5 && '@' in s
  {
    || EmailBody(s)
    || (|s| > 0 && s[|s| - 1] == '\n' && EmailBody(s[..|s| - 1]))
  }

  /** `[^@]+` */
  predicate NoAtRun(t: string) {
    |t| > 0 && '@' !in t
  }

  /** The strings the email pattern denotes. */
  ghost predicate EmailShape(s: string) {
    exists local, host, tld :: NoAtRun(local) && NoAtRun(host) && NoAtRun(tld) &&
      s == local + "@" + host + "." + tld
  }

  /**
   * An email is accepted iff it is a non-empty '@'-free part, one '@', and
   * an '@'-free domain with a '.' that has a character on each side. The
   * "before a final newline" reading of `$` adds nothing here: `[^@]` also
   * matches "\n".
   */
  lemma EmailMatchesIff(s: string)
    ensures EmailMatches(s) <==> EmailShape(s)
  {
    if EmailBody(s) {
      EmailBodyShape(s);
    } else if EmailMatches(s) {
      var t := s[..|s| - 1];
      assert s == t + "\n";
      EmailBodyShape(t);
      ShapeNewline(t);
    }
    if EmailShape(s) {
      EmailShapeBody(s);
    }
  }

  /** A final newline joins the top-level domain: `[^@]` matches it. */
  lemma ShapeNewline(t: string)
    requires EmailShape(t)
    ensures EmailShape(t + "\n")
  {
    var local, host, tld :| NoAtRun(local) && NoAtRun(host) && NoAtRun(tld) &&
      t == local + "@" + host + "." + tld;
    var front := local + "@" + host + ".";
    assert t == front + tld;
    assert (front + tld) + "\n" == front + (tld + "\n");
    assert NoAtRun(tld + "\n");
  }

  lemma EmailBodyShape(t: string)
    requires EmailBody(t)
    ensures EmailShape(t)
  {
    var at := IndexOf(t, '@').value;
    var local, domain := t[..at], t[at + 1..];
    SplitAround(t, at);
    assert t == local + "@" + domain;
    var host, tld := DomainParts(domain);
    Address(local, host, tld);
    assert NoAtRun(local);
  }

  /** An '@'-free domain with an inner '.' is a host, a '.', and a top-level part. */
  lemma DomainParts(domain: string) returns (host: string, tld: string)
    requires '@' !in domain && |domain| >= 3 && '.' in domain[1..|domain| - 1]
    ensures NoAtRun(host) && NoAtRun(tld) && domain == host + "." + tld
  {
    var inner := domain[1..|domain| - 1];
    var j := IndexOf(inner, '.').value + 1;
    assert domain[j] == inner[j - 1];
    host, tld := domain[..j], domain[j + 1..];
    SplitAround(domain, j);
    assert '@' !in host && '@' !in tld;
  }

  /** `s` is what comes before position `i`, the element there, and the rest. */
  lemma SplitAround(s: string, i: nat)
    requires i < |s|
    ensures s == s[..i] + [s[i]] + s[i + 1..]
  {
  }

  /** The two ways of grouping an address. */
  lemma Address(local: string, host: string, tld: string)
    ensures local + "@" + (host + "." + tld) == local + "@" + host + "." + tld
  {
  }

  lemma EmailShapeBody(s: string)
    requires EmailShape(s)
    ensures EmailBody(s)
  {
    var local, host, tld :| NoAtRun(local) && NoAtRun(host) && NoAtRun(tld) &&
      s == local + "@" + host + "." + tld;
    var domain := host + "." + tld;
    assert s == local + ['@'] + domain;
    IndexOfJoin(local, '@', domain);
    assert s[|local| + 1..] == domain;
    assert '@' !in domain;
    var inner := domain[1..|domain| - 1];
    assert inner[|host| - 1] == '.';
  }

  /** `c` first occurs right after a prefix without it. */
  lemma IndexOfJoin(a: string, c: char, b: string)
    requires c !in a
    ensures IndexOf(a + [c] + b, c) == Some(|a|)
  {
    var s := a + [c] + b;
    assert s[|a|] == c;
    var i := IndexOf(s, c).value;
    assert forall k :: 0 <= k < |a| ==> s[k] == a[k];
    forall k | 0 <= k < i
      ensures s[k] != c
    {
      assert s[..i][k] == s[k];
    }
  }

  /** A string without dashes and spaces is already normal. */
  lemma NormalizeClean(x: string)
    requires '-' !in x && ' ' !in x
    ensures NormalizePhone(x) == x
  {
    RemoveCharAbsent(x, '-');
    RemoveCharAbsent(x, ' ');
  }

  /** A lone dash or space disappears. */
  lemma NormalizeSeparator(sep: char)
    requires sep in "- "
    ensures NormalizePhone([sep]) == []
  {
    assert [sep][1..] == [];
    if sep == '-' {
      assert RemoveChar([sep], '-') == [];
    } else {
      assert RemoveChar([sep], '-') == [sep];
      assert RemoveChar([sep], ' ') == [];
    }
  }

  /**
   * Dash- or space-separated groups are glued together, as in
   * "050-123-4567" becoming "0501234567".
   */
  lemma NormalizeGroups(a: string, sep1: char, b: string, sep2: char, c: string)
    requires sep1 in "- " && sep2 in "- "
    requires '-' !in a && ' ' !in a && '-' !in b && ' ' !in b && '-' !in c && ' ' !in c
    ensures NormalizePhone(a + [sep1] + b + [sep2] + c) == a + b + c
  {
    NormalizeClean(a);
    NormalizeGlue(a, sep1, b);
    NormalizeGlue(a + [sep1] + b, sep2, c);
  }

  /** A separator followed by a clean group contributes just the group. */
  lemma NormalizeGlue(x: string, sep: char, y: string)
    requires sep in "- " && '-' !in y && ' ' !in y
    ensures NormalizePhone(x + [sep] + y) == NormalizePhone(x) + y
  {
    NormalizeSeparator(sep);
    NormalizeClean(y);
    NormalizePhoneAppend(x + [sep], y);
    NormalizePhoneAppend(x, [sep]);
  }

  /** Accepted phones: with and without the leading zero, and a final newline. */
  lemma PhoneAcceptExamples()
    ensures PhoneMatches("0501234567") && PhoneMatches("501234567")
    ensures PhoneMatches("0501234567\n")
  {
    assert "0501234567"[2..] == "01234567";
    assert "501234567"[1..] == "01234567";
    assert "0501234567\n"[..10] == "0501234567";
  }

  /** `\d` accepts a non-ASCII decimal digit (here ARABIC-INDIC DIGIT ONE). */
  lemma PhoneUnicodeDigitExample()
    ensures PhoneMatches("05\U{0661}2345678")
  {
    assert DigitValue('\U{0661}') == Some(1);
    assert "05\U{0661}2345678"[2..] == "\U{0661}2345678";
  }

  /** Rejected phones: a wrong prefix, and one digit short. */
  lemma PhoneRejectExamples()
    ensures !PhoneMatches("1234567890") && !PhoneMatches("050123456")
  {
  }

  /** A well-formed address passes. */
  lemma EmailAcceptedExample()
    ensures EmailMatches("a@b.c")
  {
    assert IndexOf("a@b.c", '@') == Some(1);
    assert "a@b.c"[2..] == "b.c" && "b.c"[1..2] == ".";
  }

  /** No '@', or nothing after it but a host. */
  lemma EmailMissingPartExamples()
    ensures !EmailMatches("abc") && !EmailMatches("a@b") && !EmailMatches("@b.c")
  {
    assert IndexOf("a@b", '@') == Some(1);
    assert IndexOf("@b.c", '@') == Some(0);
  }

  /** A second '@', or a dot with nothing on one side. */
  lemma EmailMalformedExamples()
    ensures !EmailMatches("a@@b.c") && !EmailMatches("a@.c") && !EmailMatches("a@b.")
  {
    assert IndexOf("a@@b.c", '@') == Some(1);
    assert IndexOf("a@.c", '@') == Some(1);
    assert IndexOf("a@b.", '@') == Some(1);
  }

}
