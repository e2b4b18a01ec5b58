/** The name rule of the form: NAME_REGEX (src/App.js:14) and the three-way
    decision of validateName (src/App.js:16-39), without its state update. */
module NameRules {
  import opened JsString

  const RequiredMessage: string := "This field is required"
  const InvalidCharactersMessage: string := "Invalid characters detected"

  /** The character class [A-Za-zÀ-ÖØ-öø-ÿ-' ]: ASCII letters, U+00C0-U+00D6,
      U+00D8-U+00F6, U+00F8-U+00FF, hyphen, apostrophe and space.
      U+00D7 (multiplication sign) and U+00F7 (division sign) fall outside. */
  predicate InNameClass(c: char)
    ensures InNameClass(c) ==> c <= '\U{00FF}'
  {
    ('A' <= c <= 'Z') || ('a' <= c <= 'z')
    || ('\U{00C0}' <= c <= '\U{00D6}') || ('\U{00D8}' <= c <= '\U{00F6}')
    || ('\U{00F8}' <= c <= '\U{00FF}')
    || c == '-' || c == '\'' || c == ' '
  }

  ghost predicate AllInNameClass(s: string) {
    forall k :: 0 <= k < |s| ==> InNameClass(s[k])
  }

  /** NAME_REGEX.test(s) for /^[class]+$/, following the pattern's shape:
      one character of the class, then either the end or another match.
      The anchored "one or more" pattern accepts exactly the non-empty
      strings made of class characters. */
  predicate MatchesNameRegex(s: string)
    ensures MatchesNameRegex(s) <==> |s| > 0 && AllInNameClass(s)
  {
    assert forall k :: 1 <= k < |s| ==> s[1..][k - 1] == s[k];
    |s| > 0 && InNameClass(s[0]) && (|s| == 1 || MatchesNameRegex(s[1..]))
  }

  /** Outcome of validating one field: whether it passed, and the error text
      for its slot ("" when it passed). */
  datatype Validation = Validation(valid: bool, message: string)

  /** validateName's decision for one value. The other field never enters it. */
  function Validate(value: string): (v: Validation)
    ensures v.valid <==> v.message == ""
    ensures v.message == RequiredMessage <==> AllTrimmable(value)
    ensures v.message == InvalidCharactersMessage <==>
              !AllTrimmable(value) && exists k :: 0 <= k < |value| && !InNameClass(value[k])
    ensures v.valid <==> !AllTrimmable(value) && AllInNameClass(value)
  {
    if Trim(value) == [] then Validation(false, RequiredMessage)
    else if !MatchesNameRegex(value) then Validation(false, InvalidCharactersMessage)
    else Validation(true, "")
  }

  /** The only whitespace the class admits is the plain space, so a valid name
      has no tab, line break, no-break space or other blank anywhere. */
  lemma ValidNameBlanksAreSpaces(value: string, k: int)
    requires Validate(value).valid
    requires 0 <= k < |value| && IsTrimmable(value[k])
    ensures value[k] == ' '
  {
  }

  /** Trimming a valid value leaves a valid value (what submit shows is built
      from trimmed values). */
  lemma {:induction false} TrimmedValidStaysValid(value: string)
    requires Validate(value).valid
    ensures Validate(Trim(value)).valid
  {
    var r := Trim(value);
    var i, j :| TrimSplit(value, i, j) && r == value[i..j];
    forall k | 0 <= k < |r| ensures InNameClass(r[k]) {
      assert r[k] == value[i + k];
    }
    assert !AllTrimmable(r) by {
      assert !IsTrimmable(r[0]);
    }
  }

  /** The class admits names with no letter at all: a lone hyphen or
      apostrophe, or one surrounded by spaces, passes. */
  lemma PunctuationOnlyAccepted()
    ensures Validate("-").valid && Validate("'").valid && Validate(" - ").valid
  {
    assert !IsTrimmable(" - "[1]);
  }
}
