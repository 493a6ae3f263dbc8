/**
 * Rules shared by the dialog forms: clearing one field's error message when
 * that field is edited, and the loose e-mail check `/\S+@\S+\.\S+/.test(s)`.
 */
module FormRules {
  import opened Optional
  import opened Text

  // ---------------------------------------------------------------------
  // Per-field error messages

  /** The form shows an error for `field`: there is a message and it is not empty. */
  predicate ShowsError<F(==)>(errors: map<F, string>, field: F) {
    field in errors && errors[field] != ""
  }

  /** `if (errors[field]) setErrors({...errors, [field]: ''})`: only that field's message is cleared. */
  function ClearFieldError<F(==, !new)>(errors: map<F, string>, field: F): (r: map<F, string>)
    ensures !ShowsError(r, field)
    ensures r.Keys == errors.Keys
    ensures forall g :: g in errors && g != field ==> r[g] == errors[g]
  {
    if ShowsError(errors, field) then errors[field := ""] else errors
  }

  /** No message shown means nothing to report. */
  predicate NoErrors<F(==)>(errors: map<F, string>) {
    errors == map[]
  }

  // ---------------------------------------------------------------------
  // The e-mail pattern

  ghost predicate NonSpaceRun(t: string) {
    |t| >= 1 && forall k :: 0 <= k < |t| ==> !IsSpace(t[k])
  }

  /** `s[i..j]` is matched by `\S+@\S+\.\S+` with the '@' at `at` and the '.' at `dot`. */
  ghost predicate PatternAt(s: string, i: int, at: int, dot: int, j: int) {
    && 0 <= i < at < dot < j <= |s|
    && s[at] == '@' && s[dot] == '.'
    && NonSpaceRun(s[i..at]) && NonSpaceRun(s[at + 1..dot]) && NonSpaceRun(s[dot + 1..j])
  }

  /** The regular expression is unanchored: some substring matches it. */
  ghost predicate PatternOccurs(s: string) {
    exists i, at, dot, j :: PatternAt(s, i, at, dot, j)
  }

  /** No white-space character in `s[lo..hi]`. */
  predicate NoSpaceIn(s: string, lo: int, hi: int)
    requires 0 <= lo <= hi <= |s|
  {
    forall k | lo <= k < hi :: !IsSpace(s[k])
  }

  /**
   * The check the forms run, at a given '@' and '.': a non-space character just before the '@',
   * a non-empty run of non-space characters between them, and a non-space character after the '.'.
   */
  predicate CheckAt(s: string, at: int, dot: int)
    requires 1 <= at < |s| && at + 2 <= dot < |s| - 1
  {
    && s[at] == '@' && s[dot] == '.'
    && !IsSpace(s[at - 1]) && !IsSpace(s[dot + 1])
    && NoSpaceIn(s, at + 1, dot)
  }

  predicate EmailLooksValid(s: string) {
    exists at, dot | 1 <= at < |s| && at + 2 <= dot < |s| - 1 :: CheckAt(s, at, dot)
  }

  /** A witness of the check is a match of the regular expression. */
  lemma CheckFindsMatch(s: string, at: int, dot: int)
    requires 1 <= at < |s| && at + 2 <= dot < |s| - 1
    requires CheckAt(s, at, dot)
    ensures PatternAt(s, at - 1, at, dot, dot + 2)
  {
    assert NonSpaceRun(s[at - 1..at]);
    assert NonSpaceRun(s[at + 1..dot]);
    assert NonSpaceRun(s[dot + 1..dot + 2]);
  }

  /** A match of the regular expression is a witness of the check. */
  lemma MatchSatisfiesCheck(s: string, i: int, at: int, dot: int, j: int)
    requires PatternAt(s, i, at, dot, j)
    ensures 1 <= at < |s| && at + 2 <= dot < |s| - 1
    ensures CheckAt(s, at, dot)
  {
    assert s[i..at][at - 1 - i] == s[at - 1];
    assert s[dot + 1..j][0] == s[dot + 1];
    forall k | at + 1 <= k < dot ensures !IsSpace(s[k]) {
      assert s[at + 1..dot][k - at - 1] == s[k];
    }
  }

  lemma CheckImpliesPattern(s: string)
    requires EmailLooksValid(s)
    ensures PatternOccurs(s)
  {
    var at, dot :| 1 <= at < |s| && at + 2 <= dot < |s| - 1 && CheckAt(s, at, dot);
    CheckFindsMatch(s, at, dot);
    assert PatternAt(s, at - 1, at, dot, dot + 2);
  }

  lemma PatternImpliesCheck(s: string)
    requires PatternOccurs(s)
    ensures EmailLooksValid(s)
  {
    var i, at, dot, j :| PatternAt(s, i, at, dot, j);
    MatchSatisfiesCheck(s, i, at, dot, j);
  }

  /** The check accepts exactly the strings in which the regular expression finds a match. */
  lemma EmailCheckIsPattern(s: string)
    ensures EmailLooksValid(s) <==> PatternOccurs(s)
  {
    if EmailLooksValid(s) {
      CheckImpliesPattern(s);
    }
    if PatternOccurs(s) {
      PatternImpliesCheck(s);
    }
  }

  /** The pattern is loose: 'a@b.c' passes, while 'a@b' and '@b.c' do not. */
  lemma EmailExamples()
    ensures EmailLooksValid("a@b.c")
    ensures !EmailLooksValid("a@b")
    ensures !EmailLooksValid("@b.c")
  {
    var good := "a@b.c";
    assert good[1] == '@' && good[3] == '.' && !IsSpace(good[0]) && !IsSpace(good[4]);
    assert NoSpaceIn(good, 2, 3);
    assert CheckAt(good, 1, 3);
  }

  // ---------------------------------------------------------------------
  // The name, e-mail and role rules of the user forms

  const NameRequired := "Name is required"
  const EmailRequired := "Email is required"
  const InvalidEmailFormat := "Invalid email format"
  const RoleRequired := "Role is required"

  /**
   * The e-mail rule: a blank address is reported as missing, and only a non-blank one is
   * matched against the pattern. The match runs on the address as typed, not trimmed.
   */
  function EmailError(email: string): (r: Option<string>)
    ensures r == Some(EmailRequired) <==> IsBlank(email)
    ensures r == Some(InvalidEmailFormat) <==> !IsBlank(email) && !EmailLooksValid(email)
    ensures r.None? <==> !IsBlank(email) && EmailLooksValid(email)
  {
    if IsBlank(email) then Some(EmailRequired)
    else if !EmailLooksValid(email) then Some(InvalidEmailFormat)
    else None
  }

  /** An address is accepted exactly when the pattern finds a match in it: a match is never blank. */
  lemma EmailAccepted(email: string)
    ensures EmailError(email).None? <==> PatternOccurs(email)
  {
    EmailCheckIsPattern(email);
    BlankIffAllSpace(email);
    if PatternOccurs(email) {
      var i, at, dot, j :| PatternAt(email, i, at, dot, j);
      assert email[i..at][0] == email[i];
      assert !IsSpace(email[i]);
    }
  }
}
