/** The e-mail check of src/utils/validation.js (repeated verbatim inside the
    login and registration components): the anchored regular expression
    `^[^\s@]+@[^\s@]+\.[^\s@]+$`. It is stated once declaratively, as a split
    of the string into three runs around an `@` and a `.`, characterised
    structurally, and implemented by a single left-to-right scan. */
module EmailFormat {
  import opened JsText

  /** A character of the class `[^\s@]`. */
  predicate IsAddressChar(c: char)
  {
    !IsWhitespace(c) && c != '@'
  }

  /** One match of `[^\s@]+`. */
  predicate IsPart(p: string)
  {
    |p| > 0 && forall k | 0 <= k < |p| :: IsAddressChar(p[k])
  }

  /** The regular expression matches `s` with its `@` at index `a` and its
      literal `.` at index `d`. */
  predicate SplitsAt(s: string, a: int, d: int)
  {
    && 0 <= a < d < |s|
    && s[a] == '@' && s[d] == '.'
    && IsPart(s[..a]) && IsPart(s[a + 1..d]) && IsPart(s[d + 1..])
  }

  /** `emailRegex.test(s)`: some choice of the `@` and of the `.` matches. */
  predicate IsEmailAddress(s: string)
  {
    exists a, d | 0 <= a < |s| && 0 <= d < |s| :: SplitsAt(s, a, d)
  }

  // The structural view of the same language.

  ghost predicate NoWhitespace(s: string)
  {
    forall k | 0 <= k < |s| :: !IsWhitespace(s[k])
  }

  /** `a` is the one and only index of `@` in `s`. */
  ghost predicate OnlyAtSignAt(s: string, a: int)
  {
    0 <= a < |s| && forall k | 0 <= k < |s| :: s[k] == '@' <==> k == a
  }

  /** A `.` at `d` with at least one character between it and the `@` at `a`,
      and at least one character after it. */
  ghost predicate DotInDomain(s: string, a: int, d: int)
  {
    0 <= a && a + 2 <= d <= |s| - 2 && s[d] == '.'
  }

  /** No whitespace anywhere, exactly one `@`, not at the start, and some `.`
      that is neither the first nor the last character after the `@`. */
  ghost predicate HasEmailShape(s: string)
  {
    NoWhitespace(s) && exists a, d :: 0 < a && OnlyAtSignAt(s, a) && DotInDomain(s, a, d)
  }

  lemma SplitHasShape(s: string, a: int, d: int)
    requires SplitsAt(s, a, d)
    ensures NoWhitespace(s) && 0 < a && OnlyAtSignAt(s, a) && DotInDomain(s, a, d)
  {
    forall k | 0 <= k < |s|
      ensures !IsWhitespace(s[k]) && (s[k] == '@' <==> k == a)
    {
      if k < a {
        assert s[k] == s[..a][k];
      } else if a < k < d {
        assert s[k] == s[a + 1..d][k - a - 1];
      } else if d < k {
        assert s[k] == s[d + 1..][k - d - 1];
      }
    }
  }

  lemma ShapeSplits(s: string, a: int, d: int)
    requires NoWhitespace(s) && 0 < a && OnlyAtSignAt(s, a) && DotInDomain(s, a, d)
    ensures SplitsAt(s, a, d)
  {
    assert forall k | 0 <= k < a :: s[..a][k] == s[k];
    var d1, d2 := s[a + 1..d], s[d + 1..];
    assert forall k | 0 <= k < |d1| :: d1[k] == s[a + 1 + k];
    assert forall k | 0 <= k < |d2| :: d2[k] == s[d + 1 + k];
  }

  /** The regular expression accepts exactly the strings of e-mail shape. */
  lemma EmailShapeIff(s: string)
    ensures IsEmailAddress(s) <==> HasEmailShape(s)
  {
    if IsEmailAddress(s) {
      var a, d :| 0 <= a < |s| && 0 <= d < |s| && SplitsAt(s, a, d);
      SplitHasShape(s, a, d);
    }
    if HasEmailShape(s) {
      var a, d :| 0 < a && OnlyAtSignAt(s, a) && DotInDomain(s, a, d);
      ShapeSplits(s, a, d);
    }
  }

  /** `local@d1.d2` is accepted whenever the three runs are. */
  lemma ComposedIsEmail(local: string, d1: string, d2: string)
    requires IsPart(local) && IsPart(d1) && IsPart(d2)
    ensures IsEmailAddress(local + "@" + d1 + "." + d2)
  {
    var s := local + "@" + d1 + "." + d2;
    var a, d := |local|, |local| + 1 + |d1|;
    assert s[..a] == local;
    assert s[a + 1..d] == d1;
    assert s[d + 1..] == d2;
    assert SplitsAt(s, a, d);
  }

  /** Every accepted string is `local@d1.d2` for three runs of `[^\s@]+`. */
  lemma EmailDecomposes(s: string) returns (local: string, d1: string, d2: string)
    requires IsEmailAddress(s)
    ensures IsPart(local) && IsPart(d1) && IsPart(d2)
    ensures s == local + "@" + d1 + "." + d2
  {
    var a, d :| 0 <= a < |s| && 0 <= d < |s| && SplitsAt(s, a, d);
    local, d1, d2 := s[..a], s[a + 1..d], s[d + 1..];
    assert s == s[..a] + [s[a]] + s[a + 1..d] + [s[d]] + s[d + 1..];
  }

  /** A whitespace character anywhere, leading and trailing spaces included,
      makes the string invalid. */
  lemma WhitespaceRejected(s: string, k: int)
    requires 0 <= k < |s| && IsWhitespace(s[k])
    ensures !IsEmailAddress(s)
  {
    EmailShapeIff(s);
  }

  /** A string without `@` is invalid. */
  lemma NoAtSignRejected(s: string)
    requires forall k | 0 <= k < |s| :: s[k] != '@'
    ensures !IsEmailAddress(s)
  {
    EmailShapeIff(s);
  }

  /** A string with two or more `@` is invalid. */
  lemma TwoAtSignsRejected(s: string, i: int, j: int)
    requires 0 <= i < j < |s| && s[i] == '@' && s[j] == '@'
    ensures !IsEmailAddress(s)
  {
    EmailShapeIff(s);
  }

  /** Every accepted string has at least five characters; so the empty
      string, and any blank string, is rejected. */
  lemma AcceptedLength(s: string)
    ensures IsEmailAddress(s) ==> |s| >= 5 && !IsBlank(s)
  {
    EmailShapeIff(s);
  }

  /** The shortest accepted form, and a domain with several dots: some dot
      after the `@` that is neither the domain's first nor its last
      character is enough. */
  lemma AcceptedExamples()
    ensures IsEmailAddress("a@b.c")
    ensures IsEmailAddress("a@b.c.d")
    ensures IsEmailAddress("a@b..c")
  {
    assert SplitsAt("a@b.c", 1, 3);
    assert SplitsAt("a@b.c.d", 1, 3);
    assert SplitsAt("a@b..c", 1, 3);
  }

  /** A dot right after the `@`, or a dot at the very end, is not enough. */
  lemma RejectedExamples()
    ensures !IsEmailAddress("")
    ensures !IsEmailAddress("a@.com")
    ensures !IsEmailAddress("a@b.")
  {
    var s1, s2 := "a@.com", "a@b.";
    EmailShapeIff(s1);
    EmailShapeIff(s2);
    assert s1[1] == '@' && s1[3] == 'c' && s1[4] == 'o';
    assert s2[1] == '@';
  }

  /** A left-to-right scan that gives the same verdict as the regular
      expression on every string. */
  method ValidateEmail(email: string) returns (ok: bool)
    ensures ok == IsEmailAddress(email)
  {
    EmailShapeIff(email);
    var at := -1;
    var dotSeen := false;
    ghost var dot := 0;
    var i := 0;
    while i < |email|
      invariant 0 <= i <= |email|
      invariant forall k | 0 <= k < i :: !IsWhitespace(email[k])
      invariant -1 <= at < i && at != 0
      invariant forall k | 0 <= k < i :: email[k] == '@' <==> k == at
      invariant dotSeen ==> 0 < at && DotInDomain(email, at, dot)
      invariant !dotSeen && 0 <= at ==> forall k | at + 2 <= k < i && k <= |email| - 2 :: email[k] != '.'
    {
      var c := email[i];
      if IsWhitespace(c) {
        return false;
      }
      if c == '@' {
        if at != -1 {
          assert email[at] == '@';
          return false;
        }
        if i == 0 {
          return false;
        }
        at := i;
      } else if c == '.' && at != -1 && at + 2 <= i <= |email| - 2 {
        dotSeen, dot := true, i;
      }
      i := i + 1;
    }
    ok := at != -1 && dotSeen;
  }
}
