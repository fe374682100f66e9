/** The e-mail shape check of the entry form: the regular expression
    `^[^\s@]+@[^\s@]+\.[^\s@]+$`. `EmailLanguage` is the set of strings
    the expression describes, written as a split into its three runs;
    `IsEmail` is a matcher that locates the '@' and then checks the two
    sides. They are proved to agree on every string. */
module EmailShape {
  import opened Wrappers
  import opened Text

  /** A character of the class `[^\s@]`. */
  predicate Plain(c: char) {
    !IsSpace(c) && c != '@'
  }

  predicate AllPlain(s: string) {
    forall i :: 0 <= i < |s| ==> Plain(s[i])
  }

  /** A run `[^\s@]+`. */
  predicate Run(s: string) {
    |s| > 0 && AllPlain(s)
  }

  /** `s` splits at '@' position `i` and '.' position `j` into three
      runs. */
  predicate SplitsAt(s: string, i: nat, j: nat) {
    && 0 < i && i + 1 < j && j + 1 < |s|
    && s[i] == '@' && s[j] == '.'
    && Run(s[..i]) && Run(s[i + 1..j]) && Run(s[j + 1..])
  }

  /** The strings the expression matches: a run, '@', a run, '.', a run. */
  ghost predicate EmailLanguage(s: string) {
    exists i: nat, j: nat :: SplitsAt(s, i, j)
  }

  /** The part after '@': plain characters only, with a '.' that has at
      least one character on each side. */
  predicate DomainOk(d: string) {
    AllPlain(d) && exists j | 1 <= j < |d| - 1 :: d[j] == '.'
  }

  /** The matcher. */
  function IsEmail(s: string): bool {
    match IndexOf(s, '@')
    case None => false
    case Some(i) => 0 < i && AllPlain(s[..i]) && DomainOk(s[i + 1..])
  }

  lemma MatcherSound(s: string)
    requires IsEmail(s)
    ensures EmailLanguage(s)
  {
    var i := IndexOf(s, '@').value;
    var d := s[i + 1..];
    var k :| 1 <= k < |d| - 1 && d[k] == '.';
    var j := i + 1 + k;
    assert s[i + 1..j] == d[..k];
    assert s[j + 1..] == d[k + 1..];
    assert SplitsAt(s, i, j);
  }

  /** In a split, the '@' is the first one. */
  lemma SplitAtIsFirst(s: string, i: nat, j: nat)
    requires SplitsAt(s, i, j)
    ensures IndexOf(s, '@') == Some(i)
  {
    assert s[i] == '@';
    assert forall k :: 0 <= k < i ==> s[k] == s[..i][k];
  }

  lemma MatcherComplete(s: string, i: nat, j: nat)
    requires SplitsAt(s, i, j)
    ensures IsEmail(s)
  {
    SplitAtIsFirst(s, i, j);
    var d := s[i + 1..];
    var a, b := s[i + 1..j], s[j + 1..];
    assert d == a + [s[j]] + b;
    assert forall k :: 0 <= k < |a| ==> d[k] == a[k];
    assert forall k :: |a| < k < |d| ==> d[k] == b[k - |a| - 1];
    assert d[j - i - 1] == '.';
  }

  /** The matcher accepts exactly the strings of the expression. */
  lemma IsEmailIffLanguage(s: string)
    ensures IsEmail(s) <==> EmailLanguage(s)
  {
    if IsEmail(s) {
      MatcherSound(s);
    }
    if EmailLanguage(s) {
      var i: nat, j: nat :| SplitsAt(s, i, j);
      MatcherComplete(s, i, j);
    }
  }

  /** An accepted address is never blank: it holds an '@'. */
  lemma AcceptedNotBlank(s: string)
    requires EmailLanguage(s)
    ensures !AllSpace(s)
  {
    var i: nat, j: nat :| SplitsAt(s, i, j);
    assert s[i] == '@';
  }

  /** Every accepted address contains exactly one '@'. */
  lemma AcceptedHasOneAt(s: string)
    requires EmailLanguage(s)
    ensures Count(s, '@') == 1
  {
    var i: nat, j: nat :| SplitsAt(s, i, j);
    var a, b, c := s[..i], s[i + 1..j], s[j + 1..];
    assert s == a + ([s[i]] + (b + ([s[j]] + c)));
    CountAbsent(a, '@');
    CountAbsent(b, '@');
    CountAbsent(c, '@');
    CountAppend(a, [s[i]] + (b + ([s[j]] + c)), '@');
    CountAppend([s[i]], b + ([s[j]] + c), '@');
    CountAppend(b, [s[j]] + c, '@');
    CountAppend([s[j]], c, '@');
  }

  /** A typical address is accepted. */
  lemma AcceptsTypicalAddress()
    ensures IsEmail("fan@rays.com")
  {
    var s := "fan@rays.com";
    assert SplitsAt(s, 3, 8) by {
      assert s[..3] == "fan" && s[4..8] == "rays" && s[9..] == "com";
    }
    MatcherComplete(s, 3, 8);
  }

  /** The check runs on the untrimmed value: a leading space rejects an
      otherwise valid address. */
  lemma RejectsLeadingSpace()
    ensures !IsEmail(" fan@rays.com")
  {
    var s := " fan@rays.com";
    assert IndexOf(s, '@') == Some(4) by {
      assert s[4] == '@' && '@' !in s[..4];
    }
    assert s[..4][0] == ' ';
  }

  /** The last run after '.' may not be empty. */
  lemma RejectsMissingTopLevel()
    ensures !IsEmail("fan@rays.")
  {
    var s := "fan@rays.";
    assert IndexOf(s, '@') == Some(3) by {
      assert s[3] == '@' && '@' !in s[..3];
    }
    var d := s[4..];
    assert d == "rays.";
    assert forall j :: 1 <= j < |d| - 1 ==> d[j] != '.';
  }
}
