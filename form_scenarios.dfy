/** Event sequences from src/App.test.js, replayed on a freshly mounted
    NameForm, with what the test expects stated as postconditions. */
module FormScenarios {
  import opened JsString
  import opened NameRules
  import opened NameForm

  /** Change then blur one field of a fresh form: its error span appears
      exactly when the value fails the rule, carrying the rule's message. */
  method TypeThenBlurFirst(value: string) returns (shown: bool, error: string)
    ensures shown <==> !Validate(value).valid
    ensures error == Validate(value).message
  {
    var form := new NameForm();
    form.ChangeFirst(value);
    form.BlurFirst();
    shown := form.ShowFirstError();
    error := form.firstNameError;
  }

  /** The same for the last-name field. */
  method TypeThenBlurLast(value: string) returns (shown: bool, error: string)
    ensures shown <==> !Validate(value).valid
    ensures error == Validate(value).message
  {
    var form := new NameForm();
    form.ChangeLast(value);
    form.BlurLast();
    shown := form.ShowLastError();
    error := form.lastNameError;
  }

  /** Fill both fields of a fresh form and submit: the full name is shown
      exactly when both pass, and then it is the two trimmed values joined. */
  method FillAndSubmit(first: string, last: string) returns (shown: bool, display: string, prevented: bool)
    ensures prevented
    ensures shown <==> Validate(first).valid && Validate(last).valid
    ensures shown ==> display == Trim(first) + " " + Trim(last)
    ensures !shown ==> display == ""
  {
    var form := new NameForm();
    form.ChangeFirst(first);
    form.ChangeLast(last);
    prevented := form.Submit();
    shown := form.ShowFullName();
    display := form.fullName;
  }

  /** Typing into the first field and clearing it shows no error until the
      field is left; leaving it then shows "This field is required". */
  method ClearThenBlur() returns (shownBeforeBlur: bool, shownAfterBlur: bool, error: string)
    ensures !shownBeforeBlur
    ensures shownAfterBlur && error == RequiredMessage
  {
    var form := new NameForm();
    form.ChangeFirst("John");
    form.ChangeFirst("");
    shownBeforeBlur := form.ShowFirstError();
    form.BlurFirst();
    shownAfterBlur := form.ShowFirstError();
    error := form.firstNameError;
  }

  /** Submitting an empty form shows no full name and marks both fields
      as required. */
  method SubmitEmpty() returns (shown: bool, firstError: string, lastError: string)
    ensures !shown
    ensures firstError == RequiredMessage && lastError == RequiredMessage
  {
    var form := new NameForm();
    form.ChangeFirst("");
    form.ChangeLast("");
    var _ := form.Submit();
    shown := form.ShowFullName();
    firstError, lastError := form.firstNameError, form.lastNameError;
  }

  /** Two plain names submitted on a fresh form are displayed exactly as
      typed, joined by one space. */
  method SubmitPlainNames(first: string, last: string) returns (display: string)
    requires PlainName(first) && PlainName(last)
    ensures display == first + " " + last
  {
    AcceptedName(first);
    AcceptedName(last);
    var shown, prevented;
    shown, display, prevented := FillAndSubmit(first, last);
  }

  /** "John" and "Doe" submitted display "John Doe". */
  method SubmitJohnDoe() returns (display: string)
    ensures display == "John Doe"
  {
    display := SubmitPlainNames("John", "Doe");
  }

  /** "Mary-Jane" and "O'Connor" submitted display "Mary-Jane O'Connor". */
  method SubmitMaryJaneOConnor() returns (display: string)
    ensures display == "Mary-Jane O'Connor"
  {
    display := SubmitPlainNames("Mary-Jane", "O'Connor");
  }

  /** Submit, retype the first name, submit again on the same form: the
      second submit decides on the new text alone, whatever the first one
      displayed. */
  method ResubmitAfterChange(first: string, last: string, retyped: string)
    returns (firstDisplay: string, secondShown: bool, firstError: string)
    ensures firstDisplay ==
              if Validate(first).valid && Validate(last).valid then Trim(first) + " " + Trim(last) else ""
    ensures secondShown <==> Validate(retyped).valid && Validate(last).valid
    ensures firstError == Validate(retyped).message
  {
    var form := new NameForm();
    form.ChangeFirst(first);
    form.ChangeLast(last);
    var _ := form.Submit();
    firstDisplay := form.fullName;
    form.ChangeFirst(retyped);
    var _ := form.Submit();
    secondShown := form.ShowFullName();
    firstError := form.firstNameError;
  }

  /** Two plain names are displayed; then a first name with a character
      that is neither in the class nor blank replaces the first one, and the
      next submit removes the display and reports invalid characters. */
  method ResubmitWithBadCharacter(first: string, last: string, retyped: string, k: int)
    returns (firstDisplay: string, secondShown: bool, firstError: string)
    requires PlainName(first) && PlainName(last)
    requires 0 <= k < |retyped| && !InNameClass(retyped[k]) && !IsTrimmable(retyped[k])
    ensures firstDisplay == first + " " + last
    ensures !secondShown
    ensures firstError == InvalidCharactersMessage
  {
    AcceptedName(first);
    AcceptedName(last);
    RejectedForCharacter(retyped, k);
    firstDisplay, secondShown, firstError := ResubmitAfterChange(first, last, retyped);
  }

  /** "John Doe" is displayed, then "John123" replaces "John" and the next
      submit removes the display and reports invalid characters. */
  method ResubmitInvalid() returns (firstDisplay: string, secondShown: bool, firstError: string)
    ensures firstDisplay == "John Doe"
    ensures !secondShown
    ensures firstError == InvalidCharactersMessage
  {
    firstDisplay, secondShown, firstError := ResubmitWithBadCharacter("John", "Doe", "John123", 4);
  }

  /** A value with a character that is neither in the class nor blank (a
      digit, '@', '!', '#', '$', '%') fails with "Invalid characters
      detected", wherever that character stands. */
  lemma RejectedForCharacter(s: string, k: int)
    requires 0 <= k < |s| && !InNameClass(s[k]) && !IsTrimmable(s[k])
    ensures Validate(s).message == InvalidCharactersMessage
  {
  }

  /** A non-empty name made only of ASCII letters, hyphens and apostrophes,
      like every valid name in src/App.test.js. */
  predicate PlainName(s: string) {
    |s| > 0
    && forall k :: 0 <= k < |s| ==> ('A' <= s[k] <= 'Z') || ('a' <= s[k] <= 'z') || s[k] == '-' || s[k] == '\''
  }

  /** A plain name passes the rule and is its own trim. */
  lemma AcceptedName(s: string)
    requires PlainName(s)
    ensures Validate(s).valid && Trim(s) == s
  {
    TrimKeepsTrimmedString(s);
  }
}
