/** The name-form component of src/App.js: its six state slots, the change,
    blur and submit handlers, and the guards that decide what is rendered. */
module NameForm {
  import opened JsString
  import opened NameRules

  /** The `type` argument of validateName: which error slot it writes. */
  datatype Field = First | Last

  /** The `touched` state object { first, last }. */
  datatype Touched = Touched(first: bool, last: bool)

  /** The full name submit stores: `${firstName.trim()} ${lastName.trim()}`. */
  function JoinFullName(first: string, last: string): (r: string)
    ensures Trim(first) != [] && Trim(last) != [] ==> Trim(r) == r
  {
    var f, l := Trim(first), Trim(last);
    if f != [] && l != [] then
      TrimmedEndsKept(first);
      TrimmedEndsKept(last);
      assert (f + " " + l)[0] == f[0] && (f + " " + l)[|f| + |l|] == l[|l| - 1];
      TrimKeepsTrimmedString(f + " " + l);
      f + " " + l
    else
      f + " " + l
  }

  /** What a full name built from two valid fields looks like: it passes the
      name rule itself and has nothing left to trim. */
  ghost predicate IsDisplayableFullName(s: string) {
    Validate(s).valid && Trim(s) == s
  }

  /** A field's error slot as the handlers keep it: empty until the field is
      touched, and from then on the verdict on the field's current text. */
  ghost predicate ErrorTracks(touched: bool, text: string, error: string) {
    if touched then error == Validate(text).message else error == ""
  }

  /** Joining two valid fields gives a non-empty, displayable full name. */
  lemma {:induction false} JoinedValidNamesDisplayable(first: string, last: string)
    requires Validate(first).valid && Validate(last).valid
    ensures JoinFullName(first, last) != ""
    ensures IsDisplayableFullName(JoinFullName(first, last))
  {
    TrimmedValidStaysValid(first);
    TrimmedValidStaysValid(last);
    JoinStaysInClass(Trim(first), Trim(last));
  }

  /** A non-empty trim result starts and ends with a non-trimmable character. */
  lemma TrimmedEndsKept(s: string)
    requires Trim(s) != []
    ensures !IsTrimmable(Trim(s)[0]) && !IsTrimmable(Trim(s)[|Trim(s)| - 1])
  {
    var r := Trim(s);
    var i, j :| TrimSplit(s, i, j) && r == s[i..j];
    assert r[0] == s[i] && r[|r| - 1] == s[j - 1];
  }

  /** Two runs of class characters joined by a space stay in the class. */
  lemma JoinStaysInClass(f: string, l: string)
    requires AllInNameClass(f) && AllInNameClass(l)
    ensures AllInNameClass(f + " " + l)
  {
    var n := f + " " + l;
    forall k | 0 <= k < |n| ensures InNameClass(n[k]) {
      if k < |f| {
        assert n[k] == f[k];
      } else if k > |f| {
        assert n[k] == l[k - |f| - 1];
      }
    }
  }

  class NameForm {
    var firstName: string
    var lastName: string
    var fullName: string
    var touched: Touched
    var firstNameError: string
    var lastNameError: string

    /** What every handler preserves: each error slot follows ErrorTracks and
        the stored full name, if any, is displayable. */
    ghost predicate Valid()
      reads this
    {
      ErrorTracks(touched.first, firstName, firstNameError)
      && ErrorTracks(touched.last, lastName, lastNameError)
      && (fullName == "" || IsDisplayableFullName(fullName))
    }

    /** Mount: every useState starts empty or false. */
    constructor ()
      ensures Valid()
      ensures firstName == "" && lastName == "" && fullName == ""
      ensures touched == Touched(false, false)
      ensures firstNameError == "" && lastNameError == ""
    {
      firstName, lastName, fullName := "", "", "";
      touched := Touched(false, false);
      firstNameError, lastNameError := "", "";
    }

    /** validateName: writes the verdict on `value` into the slot of `field`
        and returns whether it passed. Nothing else changes. */
    method ValidateName(value: string, field: Field) returns (ok: bool)
      modifies this`firstNameError, this`lastNameError
      ensures ok == Validate(value).valid
      ensures field == First ==>
                firstNameError == Validate(value).message && lastNameError == old(lastNameError)
      ensures field == Last ==>
                lastNameError == Validate(value).message && firstNameError == old(firstNameError)
    {
      var v := Validate(value);
      if field == First {
        firstNameError := v.message;
      } else {
        lastNameError := v.message;
      }
      ok := v.valid;
    }

    /** onChange of the first-name input: store the text; re-validate it only
        once the field has been touched. */
    method ChangeFirst(value: string)
      requires Valid()
      modifies this`firstName, this`firstNameError, this`lastNameError
      ensures Valid()
      ensures firstName == value
      ensures firstNameError == (if touched.first then Validate(value).message else old(firstNameError))
      ensures lastNameError == old(lastNameError)
    {
      firstName := value;
      if touched.first {
        var _ := ValidateName(value, First);
      }
    }

    /** onChange of the last-name input. */
    method ChangeLast(value: string)
      requires Valid()
      modifies this`lastName, this`firstNameError, this`lastNameError
      ensures Valid()
      ensures lastName == value
      ensures lastNameError == (if touched.last then Validate(value).message else old(lastNameError))
      ensures firstNameError == old(firstNameError)
    {
      lastName := value;
      if touched.last {
        var _ := ValidateName(value, Last);
      }
    }

    /** onBlur of the first-name input: mark it touched, validate its text. */
    method BlurFirst()
      requires Valid()
      modifies this`touched, this`firstNameError, this`lastNameError
      ensures Valid()
      ensures touched == old(touched).(first := true)
      ensures firstNameError == Validate(firstName).message
      ensures lastNameError == old(lastNameError)
    {
      touched := touched.(first := true);
      var _ := ValidateName(firstName, First);
      assert ErrorTracks(touched.last, lastName, lastNameError);
    }

    /** onBlur of the last-name input. */
    method BlurLast()
      requires Valid()
      modifies this`touched, this`firstNameError, this`lastNameError
      ensures Valid()
      ensures touched == old(touched).(last := true)
      ensures lastNameError == Validate(lastName).message
      ensures firstNameError == old(firstNameError)
    {
      touched := touched.(last := true);
      var _ := ValidateName(lastName, Last);
      assert ErrorTracks(touched.first, firstName, firstNameError);
    }

    /** handleSubmit: always prevents the default action, touches both
        fields, validates first then last, and stores the joined full name
        when both pass, clearing it otherwise. */
    method Submit() returns (defaultPrevented: bool)
      requires Valid()
      modifies this`touched, this`firstNameError, this`lastNameError, this`fullName
      ensures Valid()
      ensures defaultPrevented
      ensures touched == Touched(true, true)
      ensures firstNameError == Validate(firstName).message
      ensures lastNameError == Validate(lastName).message
      ensures fullName ==
                if Validate(firstName).valid && Validate(lastName).valid
                then JoinFullName(firstName, lastName) else ""
      ensures fullName != "" <==> Validate(firstName).valid && Validate(lastName).valid
      ensures fullName != "" ==> firstNameError == "" && lastNameError == ""
    {
      defaultPrevented := true;
      touched := Touched(true, true);
      var firstOk := ValidateName(firstName, First);
      var lastOk := ValidateName(lastName, Last);
      assert ErrorTracks(touched.first, firstName, firstNameError);
      assert ErrorTracks(touched.last, lastName, lastNameError);
      if firstOk && lastOk {
        JoinedValidNamesDisplayable(firstName, lastName);
        fullName := JoinFullName(firstName, lastName);
      } else {
        fullName := "";
      }
    }

    /** Render guard of the first-name error span: touched and non-empty
        error, which in a valid state means touched and failing the rule. */
    function ShowFirstError(): (shown: bool)
      reads this
      ensures Valid() ==> (shown <==> touched.first && !Validate(firstName).valid)
    {
      touched.first && firstNameError != ""
    }

    /** Render guard of the last-name error span. */
    function ShowLastError(): (shown: bool)
      reads this
      ensures Valid() ==> (shown <==> touched.last && !Validate(lastName).valid)
    {
      touched.last && lastNameError != ""
    }

    /** aria-invalid of the first-name input. It ignores the touched flag, yet
        in a valid state it agrees with the error span. */
    function FirstAriaInvalid(): (invalid: bool)
      reads this
      ensures Valid() ==> (invalid <==> ShowFirstError())
    {
      firstNameError != ""
    }

    /** aria-invalid of the last-name input. */
    function LastAriaInvalid(): (invalid: bool)
      reads this
      ensures Valid() ==> (invalid <==> ShowLastError())
    {
      lastNameError != ""
    }

    /** Render guard of the full-name display: a non-empty full name, which in
        a valid state is always a displayable one. */
    function ShowFullName(): (shown: bool)
      reads this
      ensures Valid() && shown ==> IsDisplayableFullName(fullName)
    {
      fullName != ""
    }
  }
}
