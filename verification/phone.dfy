/** The phone shape check of the entry form: the regular expression
    `^\(?([0-9]{3})\)?[-. ]?([0-9]{3})[-. ]?([0-9]{4})$`. A matching
    string is described by its parts (`PhoneParts`); `Assemble` writes the
    parts out and `Parse` reads them back. Because every optional piece is
    a non-digit and every required piece starts with a digit, a string has
    at most one reading, and parsing and assembling are inverse. */
module PhoneShape {
  import opened Wrappers
  import opened Text

  /** The class `[-. ]`. */
  predicate IsSeparator(c: char) {
    c == '-' || c == '.' || c == ' '
  }

  /** One reading of a phone number against the expression. */
  datatype PhoneParts = PhoneParts(
    open: bool,            // the optional '('
    area: string,          // [0-9]{3}
    close: bool,           // the optional ')'
    sep1: Option<char>,    // the first optional [-. ]
    exchange: string,      // [0-9]{3}
    sep2: Option<char>,    // the second optional [-. ]
    line: string)          // [0-9]{4}

  predicate WellFormed(p: PhoneParts) {
    && |p.area| == 3 && AllDigits(p.area)
    && |p.exchange| == 3 && AllDigits(p.exchange)
    && |p.line| == 4 && AllDigits(p.line)
    && (p.sep1.Some? ==> IsSeparator(p.sep1.value))
    && (p.sep2.Some? ==> IsSeparator(p.sep2.value))
  }

  function Optional(present: bool, c: char): string {
    if present then [c] else []
  }

  function OptionalSep(sep: Option<char>): string {
    match sep
    case None => []
    case Some(c) => [c]
  }

  /** The string a reading stands for. */
  function Assemble(p: PhoneParts): string {
    Optional(p.open, '(') + (p.area + (Optional(p.close, ')') + (OptionalSep(p.sep1)
      + (p.exchange + (OptionalSep(p.sep2) + p.line)))))
  }

  /** The strings the expression matches. */
  ghost predicate PhoneLanguage(s: string) {
    exists p :: WellFormed(p) && Assemble(p) == s
  }

  /** Takes the optional character `c` off the front of `s`. */
  function TakeChar(s: string, c: char): (r: (bool, string))
    ensures Optional(r.0, c) + r.1 == s
    ensures !r.0 ==> r.1 == [] || r.1[0] != c
  {
    if |s| > 0 && s[0] == c then (true, s[1..]) else (false, s)
  }

  /** Takes an optional separator off the front of `s`. */
  function TakeSep(s: string): (r: (Option<char>, string))
    ensures OptionalSep(r.0) + r.1 == s
    ensures r.0.Some? ==> IsSeparator(r.0.value)
    ensures r.0.None? ==> r.1 == [] || !IsSeparator(r.1[0])
  {
    if |s| > 0 && IsSeparator(s[0]) then (Some(s[0]), s[1..]) else (None, s)
  }

  /** Takes exactly `n` digits off the front of `s`. */
  function TakeDigits(s: string, n: nat): (r: Option<(string, string)>)
    ensures r.Some? ==> |r.value.0| == n && AllDigits(r.value.0) && r.value.0 + r.value.1 == s
    ensures r.None? ==> |s| < n || !AllDigits(s[..n])
  {
    if |s| >= n && AllDigits(s[..n]) then Some((s[..n], s[n..])) else None
  }

  /** Reads a phone number left to right, taking each optional piece when
      the next character fits it. */
  function Parse(s: string): (r: Option<PhoneParts>)
    ensures r.Some? ==> WellFormed(r.value) && Assemble(r.value) == s
  {
    var (open, s1) := TakeChar(s, '(');
    match TakeDigits(s1, 3)
    case None => None
    case Some(areaRest) =>
      var (close, s3) := TakeChar(areaRest.1, ')');
      var (sep1, s4) := TakeSep(s3);
      match TakeDigits(s4, 3)
      case None => None
      case Some(exchangeRest) =>
        var (sep2, s6) := TakeSep(exchangeRest.1);
        if |s6| == 4 && AllDigits(s6) then
          Some(PhoneParts(open, areaRest.0, close, sep1, exchangeRest.0, sep2, s6))
        else None
  }

  /** The matcher of the entry form. */
  predicate IsPhone(s: string) {
    Parse(s).Some?
  }

  lemma TakeCharAssembled(b: bool, c: char, rest: string)
    requires !b ==> rest == [] || rest[0] != c
    ensures TakeChar(Optional(b, c) + rest, c) == (b, rest)
  {
    if b {
      assert (Optional(b, c) + rest)[1..] == rest;
    } else {
      assert Optional(b, c) + rest == rest;
    }
  }

  lemma TakeSepAssembled(sep: Option<char>, rest: string)
    requires sep.Some? ==> IsSeparator(sep.value)
    requires sep.None? ==> rest == [] || !IsSeparator(rest[0])
    ensures TakeSep(OptionalSep(sep) + rest) == (sep, rest)
  {
    if sep.Some? {
      assert (OptionalSep(sep) + rest)[1..] == rest;
    } else {
      assert OptionalSep(sep) + rest == rest;
    }
  }

  lemma TakeDigitsAssembled(x: string, rest: string)
    requires AllDigits(x)
    ensures TakeDigits(x + rest, |x|) == Some((x, rest))
  {
    assert (x + rest)[..|x|] == x;
    assert (x + rest)[|x|..] == rest;
  }

  /** Parsing a written-out reading gives that reading back. */
  lemma ParseAssemble(p: PhoneParts)
    requires WellFormed(p)
    ensures Parse(Assemble(p)) == Some(p)
  {
    var tail6 := OptionalSep(p.sep2) + p.line;
    var tail5 := p.exchange + tail6;
    var tail4 := OptionalSep(p.sep1) + tail5;
    var tail3 := Optional(p.close, ')') + tail4;
    var tail2 := p.area + tail3;
    assert Assemble(p) == Optional(p.open, '(') + tail2;
    assert tail2[0] == p.area[0];
    TakeCharAssembled(p.open, '(', tail2);
    TakeDigitsAssembled(p.area, tail3);
    assert tail4 == [] || tail4[0] == (if p.sep1.Some? then p.sep1.value else p.exchange[0]);
    TakeCharAssembled(p.close, ')', tail4);
    assert tail5[0] == p.exchange[0];
    TakeSepAssembled(p.sep1, tail5);
    TakeDigitsAssembled(p.exchange, tail6);
    assert !IsSeparator(p.line[0]);
    TakeSepAssembled(p.sep2, p.line);
  }

  /** `IsPhone` accepts exactly the strings of the expression. */
  lemma IsPhoneIffLanguage(s: string)
    ensures IsPhone(s) <==> PhoneLanguage(s)
  {
    if PhoneLanguage(s) {
      var p :| WellFormed(p) && Assemble(p) == s;
      ParseAssemble(p);
    }
  }

  /** An accepted phone number is never blank: it holds a digit. */
  lemma AcceptedNotBlank(s: string)
    requires PhoneLanguage(s)
    ensures !AllSpace(s)
  {
    var p :| WellFormed(p) && Assemble(p) == s;
    var k := |Optional(p.open, '(')|;
    assert s[k] == p.area[0];
    assert IsDigit(s[k]);
  }

  /** Every accepted phone number holds exactly ten digits. */
  lemma AcceptedHasTenDigits(p: PhoneParts)
    requires WellFormed(p)
    ensures DigitCount(Assemble(p)) == 10
  {
    var o1, o2, o3, o4 := Optional(p.open, '('), Optional(p.close, ')'), OptionalSep(p.sep1), OptionalSep(p.sep2);
    DigitCountNoDigits(o1);
    DigitCountNoDigits(o2);
    DigitCountNoDigits(o3);
    DigitCountNoDigits(o4);
    DigitCountAllDigits(p.area);
    DigitCountAllDigits(p.exchange);
    DigitCountAllDigits(p.line);
    var t6 := o4 + p.line;
    var t5 := p.exchange + t6;
    var t4 := o3 + t5;
    var t3 := o2 + t4;
    var t2 := p.area + t3;
    DigitCountAppend(o4, p.line);
    DigitCountAppend(p.exchange, t6);
    DigitCountAppend(o3, t5);
    DigitCountAppend(o2, t4);
    DigitCountAppend(p.area, t3);
    DigitCountAppend(o1, t2);
  }

  /** The form's placeholder is accepted, with every optional piece present. */
  lemma PlaceholderAccepted()
    ensures Parse("(555) 123-4567") == Some(PhoneParts(true, "555", true, Some(' '), "123", Some('-'), "4567"))
  {
    var p := PhoneParts(true, "555", true, Some(' '), "123", Some('-'), "4567");
    assert Assemble(p) == "(555) 123-4567";
    ParseAssemble(p);
  }

  /** A seven-digit number and an eleven-digit number are refused. */
  lemma ShortAndLongRefused()
    ensures !IsPhone("555-1234")
    ensures !IsPhone("555-123-45678")
  {
    assert "555-1234"[..3] == "555" && "555-1234"[3..] == "-1234";
    assert "-1234"[1..] == "1234" && "1234"[..3] == "123" && "1234"[3..] == "4";
    assert "555-123-45678"[..3] == "555" && "555-123-45678"[3..] == "-123-45678";
    assert "-123-45678"[1..] == "123-45678";
    assert "123-45678"[..3] == "123" && "123-45678"[3..] == "-45678";
    assert "-45678"[1..] == "45678";
  }
}
