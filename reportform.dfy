/** What the two report forms share: the eight text fields, the test that all
    of them are filled in, and the e-mail shape check
    `/^[^\s@]+@[^\s@]+\.[^\s@]+$/`. */
module ReportForm {
  import opened JsText
  import opened Store

  datatype Fields = Fields(
    itemName: string,
    description: string,
    location: string,
    date: string,
    reporterName: string,
    sapId: string,
    course: string,
    contactEmail: string)

  const EmptyFields := Fields("", "", "", "", "", "", "", "")

  const InvalidEmailMessage := "Please enter a valid email address!"

  /** `!x` of a string holds only of the empty string, so white space alone
      counts as filled in. */
  predicate AllFilled(f: Fields) {
    && f.itemName != "" && f.description != "" && f.location != "" && f.date != ""
    && f.reporterName != "" && f.sapId != "" && f.course != "" && f.contactEmail != ""
  }

  /** The eight form fields an item document carries. */
  function FieldsOf(it: Item): Fields {
    Fields(it.itemName, it.description, it.location, it.date,
           it.reporterName, it.sapId, it.course, it.contactEmail)
  }

  // ---------------------------------------------------------------------------
  // The e-mail regular expression

  /** `[^\s@]` */
  predicate IsAtomChar(c: char) {
    c != '@' && !IsWhitespace(c)
  }

  /** `[^\s@]+` */
  predicate IsAtom(s: string) {
    |s| > 0 && forall k :: 0 <= k < |s| ==> IsAtomChar(s[k])
  }

  /** What the regular expression accepts, read off its structure: a run of
      non-white, non-`@` characters, an `@`, another such run, a `.`, and a
      third run, filling the whole string. */
  ghost predicate MatchesEmailRegex(s: string) {
    exists i, j :: 0 < i < j < |s| && EmailSplit(s, i, j)
  }

  ghost predicate EmailSplit(s: string, i: int, j: int)
    requires 0 < i < j < |s|
  {
    IsAtom(s[..i]) && s[i] == '@' && IsAtom(s[i + 1..j]) && s[j] == '.' && IsAtom(s[j + 1..])
  }

  /** Position of the first `c` in `s`, or `|s|` when there is none. */
  function IndexOf(s: string, c: char): (r: nat)
    ensures r <= |s|
    ensures r < |s| ==> s[r] == c
    ensures forall k :: 0 <= k < r ==> s[k] != c
  {
    if s == [] then 0 else if s[0] == c then 0 else 1 + IndexOf(s[1..], c)
  }

  /** The check as a string test: a non-empty local part before the first `@`,
      no white space and no second `@`, and a domain holding a `.` that is
      neither its first nor its last character. */
  predicate IsValidEmail(s: string) {
    var i := IndexOf(s, '@');
    && 0 < i < |s|
    && IsAtom(s[..i])
    && IsAtom(s[i + 1..])
    && exists k :: i + 1 < k < |s| - 1 && s[k] == '.'
  }

  /** The string test accepts exactly what the regular expression accepts. */
  lemma EmailCheckIsRegex(s: string)
    ensures IsValidEmail(s) <==> MatchesEmailRegex(s)
  {
    if IsValidEmail(s) {
      CheckMatchesRegex(s);
    }
    if MatchesEmailRegex(s) {
      RegexPassesCheck(s);
    }
  }

  lemma CheckMatchesRegex(s: string)
    requires IsValidEmail(s)
    ensures MatchesEmailRegex(s)
  {
    var i := IndexOf(s, '@');
    var j :| i + 1 < j < |s| - 1 && s[j] == '.';
    assert s[i + 1..j] == s[i + 1..][..j - i - 1];
    assert s[j + 1..] == s[i + 1..][j - i..];
    assert EmailSplit(s, i, j);
  }

  lemma RegexPassesCheck(s: string)
    requires MatchesEmailRegex(s)
    ensures IsValidEmail(s)
  {
    var i, j :| 0 < i < j < |s| && EmailSplit(s, i, j);
    assert forall k :: 0 <= k < i ==> s[..i][k] == s[k];
    assert IndexOf(s, '@') == i;
    assert s[i + 1..] == s[i + 1..j] + [s[j]] + s[j + 1..];
    DottedAtom(s[i + 1..j], s[j + 1..]);
  }

  /** Two runs joined by a `.` are one run. */
  lemma DottedAtom(a: string, b: string)
    requires IsAtom(a) && IsAtom(b)
    ensures IsAtom(a + ['.'] + b)
  {
    var d := a + ['.'] + b;
    forall k | 0 <= k < |d| ensures IsAtomChar(d[k]) {
      if k < |a| {
        assert d[k] == a[k];
      } else if k > |a| {
        assert d[k] == b[k - |a| - 1];
      }
    }
  }

  /** A valid address holds exactly one `@`, which is preceded by something. */
  lemma ValidEmailHasOneAt(s: string)
    requires IsValidEmail(s)
    ensures var i := IndexOf(s, '@');
      0 < i < |s| && s[i] == '@' && forall k :: 0 <= k < |s| && s[k] == '@' ==> k == i
  {
    var i := IndexOf(s, '@');
    forall k | i < k < |s| ensures s[k] != '@' {
      assert s[i + 1..][k - i - 1] == s[k];
    }
  }
}
