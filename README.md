# Name form — a Dafny model

This project models the name-entry form component of `src/App.js`. The
component keeps six pieces of state: the first and last name texts, the
submitted full name, a `touched` flag per field, and one error message per
field. Its handlers are:

- **change**: stores the typed text, and re-validates it once the field is touched;
- **blur**: marks the field touched and validates its current text;
- **submit**: always prevents the default action, touches both fields,
  validates both, and stores `trim(first) + " " + trim(last)` when both
  pass, or clears the full name otherwise.

The validation rule is shared by both fields. A value whose `trim()` is empty
is "This field is required". Otherwise a value with a character outside
`[A-Za-zÀ-ÖØ-öø-ÿ-' ]` is "Invalid characters detected". Otherwise it is valid
and the error is cleared.

Files and modules:

- `js_string.dfy`, module `JsString`: `String.prototype.trim` as section
  22.1.3.32 of ECMA-262 (2024) defines it. The characters it strips are
  WhiteSpace (section 12.2) and LineTerminator (section 12.3). The module
  proves that Trim's cut is the unique one and that Trim is idempotent.
- `name_rules.dfy`, module `NameRules`: the character class of `NAME_REGEX`,
  the anchored `+` match, and the pure function `Validate`. `Validate`'s
  contract gives each of its three outcomes in terms of the characters of
  the value alone.
- `name_form.dfy`, module `NameForm`: the class `NameForm`, with the six
  state slots as fields. Each handler is a method with a field-by-field
  frame: the text or touched slots it sets, plus both error slots, because
  it calls `validateName`, whose frame is the two error slots. Each handler's
  postconditions then say which error slot keeps its old value. The render
  guards are functions. The invariant
  `Valid()` holds in every state a handler leaves behind:
  - an untouched field's error is `""`;
  - a touched field's error is `Validate` of its current text;
  - a stored full name passes the rule itself and has nothing left to trim.
- `form_scenarios.dfy`, module `FormScenarios`: event sequences from
  `src/App.test.js`, replayed on a fresh form. What the tests expect is
  stated as postconditions. Some of them hold for all inputs, for example
  change-then-blur or fill-then-submit.

React's `useState` setters are plain field assignments. Each event runs to
completion and is rendered before the next one arrives, so every handler
reads the latest committed state. `e.preventDefault()` is the `Submit`
method's out-parameter `defaultPrevented`.

## Model

| member | source | states |
|---|---|---|
| JsString.Trim | src/App.js:17 | `value.trim()` is empty exactly when every character is WhiteSpace or LineTerminator. It is no longer than the input. It is a slice of the input with only trimmable characters cut from both ends, and a non-empty result starts and ends with a non-trimmable character. |
| JsString.TrimUnique | src/App.js:17 | Any cut of the string that leaves only trimmable characters outside and non-trimmable characters at both ends is the cut `trim()` makes. |
| JsString.TrimIdempotent | src/App.js:54 | Trimming an already trimmed value changes nothing. |
| JsString.TrimKeepsTrimmedString | src/App.js:54 | A string that starts and ends with non-trimmable characters is its own trim. |
| NameRules.InNameClass | src/App.js:14 | The class `[A-Za-zÀ-ÖØ-öø-ÿ-' ]`: every character in it is at most U+00FF, so nothing beyond Latin-1 is a name character. |
| NameRules.MatchesNameRegex | src/App.js:14 | `/^[A-Za-zÀ-ÖØ-öø-ÿ-' ]+$/.test(s)` holds exactly for the non-empty strings whose every character is in the class. |
| NameRules.Validate | src/App.js:16-39 | The three outcomes of validateName. "This field is required" exactly when the value is all whitespace. "Invalid characters detected" exactly when it is not all whitespace and some character is outside the class. Valid, with the error cleared to "", exactly when it is not all whitespace and every character is in the class. The verdict depends on this value only. |
| NameRules.ValidNameBlanksAreSpaces | src/App.js:14 | The only whitespace a valid name can hold is U+0020. A tab, a line break or a no-break space anywhere makes the value invalid. |
| NameRules.TrimmedValidStaysValid | src/App.js:49-54 | The trim of a valid value is itself valid. |
| NameRules.PunctuationOnlyAccepted | src/App.js:14 | A lone "-", a lone "'" and " - " are all accepted as names. |
| NameForm.JoinFullName | src/App.js:54 | `${first.trim()} ${last.trim()}`: when both trims are non-empty, the joined name has nothing left to trim. |
| NameForm.JoinedValidNamesDisplayable | src/App.js:53-54 | When both values are valid, `${first.trim()} ${last.trim()}` is non-empty, passes the name rule itself, and has nothing left to trim. |
| NameForm.NameForm.constructor | src/App.js:6-11 | On mount all texts and errors are "", both touched flags are false, and the invariant holds. |
| NameForm.NameForm.ValidateName | src/App.js:16-39 | Writes `Validate(value).message` into the named field's slot, leaves the other slot as it was, and returns `Validate(value).valid`. Its frame is the two error slots only. |
| NameForm.NameForm.ChangeFirst | src/App.js:73-78 | The first-name text becomes the new value. Its error is recomputed from the new value if the field is touched, and kept otherwise. The last-name error is unchanged. The frame leaves the touched flags, the last name and the full name alone. The invariant is preserved. |
| NameForm.NameForm.ChangeLast | src/App.js:100-105 | The same for the last-name input. |
| NameForm.NameForm.BlurFirst | src/App.js:79-82 | Only `touched.first` is set, so no flag is reset. The first-name error becomes `Validate(firstName).message`. The last-name error and every text are unchanged. The invariant is preserved. |
| NameForm.NameForm.BlurLast | src/App.js:106-109 | The same for the last-name input. |
| NameForm.NameForm.Submit | src/App.js:41-58 | The default action is always prevented. Both flags become true and both errors are recomputed. The full name is `trim(first) + " " + trim(last)` when both fields validate, and "" otherwise, whatever it was before. A non-empty full name implies both errors are "". The texts are unchanged. The invariant is preserved. |
| NameForm.NameForm.ShowFirstError | src/App.js:86 | The first-name error span is rendered exactly when the field is touched and its current text fails the rule. |
| NameForm.NameForm.ShowLastError | src/App.js:113 | The same for the last-name error span. |
| NameForm.NameForm.FirstAriaInvalid | src/App.js:84 | `aria-invalid` ignores the touched flag, yet in every reachable state it agrees with the error span. |
| NameForm.NameForm.LastAriaInvalid | src/App.js:111 | The same for the last-name input. |
| NameForm.NameForm.ShowFullName | src/App.js:128 | The full-name display is rendered only for a non-empty full name, which in every reachable state passes the name rule and is trimmed. |
| FormScenarios.TypeThenBlurFirst | src/App.test.js:61-84 | Change then blur on a fresh form. The first-name error span shows exactly when the value fails, with the rule's message. |
| FormScenarios.TypeThenBlurLast | src/App.test.js:61-84 | The same for the last-name field. |
| FormScenarios.FillAndSubmit | src/App.test.js:86-135 | Fill both fields of a fresh form and submit. The default is prevented. The full name shows exactly when both values pass, and it is then the two trimmed values joined by one space. |
| FormScenarios.ClearThenBlur | src/App.js:73-82 | Typing "John" then clearing it shows no error. Leaving the field then shows "This field is required". |
| FormScenarios.SubmitEmpty | src/App.test.js:9-25 | Submitting two empty fields shows no full name, and both fields report "This field is required". |
| FormScenarios.SubmitPlainNames | src/App.test.js:112-135 | Two non-empty names of ASCII letters, hyphens and apostrophes, submitted on a fresh form, display exactly `first + " " + last`. |
| FormScenarios.SubmitJohnDoe | src/App.test.js:162-181 | "John" and "Doe" display "John Doe". |
| FormScenarios.SubmitMaryJaneOConnor | src/App.test.js:120-134 | "Mary-Jane" and "O'Connor" display "Mary-Jane O'Connor". |
| FormScenarios.ResubmitAfterChange | src/App.test.js:101-109 | On a form that was already submitted, retyping the first name and submitting again decides on the new text alone. The error shows the new verdict. |
| FormScenarios.ResubmitWithBadCharacter | src/App.js:49-57 | After two such names were displayed, retyping the first name with any character that is neither in the class nor blank, and submitting again, removes the display and reports invalid characters. |
| FormScenarios.ResubmitInvalid | src/App.js:53-57 | After "John Doe" was displayed, retyping "John123" and submitting removes the display and reports invalid characters. |
| FormScenarios.RejectedForCharacter | src/App.test.js:33-45 | A value holding, at any position, a character that is neither in the class nor blank (a digit, `@`, `!`, `#`, `$`, `%`) fails with "Invalid characters detected". |
| FormScenarios.AcceptedName | src/App.test.js:27-31 | A non-empty value of ASCII letters, hyphens and apostrophes is valid and is its own trim. |

## Left out

- JSX markup, the stylesheet import, labels, placeholders and `data-testid` attributes: presentation only. The guards that decide whether the error spans and the full-name display are rendered are modelled as functions.
- React's `useState` scheduling, batching and re-rendering, and DOM event objects. Each handler is one method that runs to completion. `preventDefault` is a returned boolean.
- The text of the full-name display ("Full Name: " followed by the name) is not modelled. The model stores and checks the name itself.
- The two tests titled "checks if the form submission does not reload the page" expect 0 and 1 calls of a mocked `preventDefault` (src/App.test.js:205 and :233). Both results depend on how the test library builds the submit event, so neither is modelled. The model states that the component's own handler always prevents the default action.
- UTF-16: `NAME_REGEX` has no `u` flag, so it tests UTF-16 code units, while a Dafny `char` is a Unicode scalar value. This makes no difference to the verdict. A character outside the BMP is rejected either way, because neither of its surrogate halves is in the class. Every character `trim()` strips lies in the BMP.
- Unpaired surrogates: a DOMString can hold a lone surrogate code unit, which a Dafny `char` cannot represent. `trim()` would keep it, since it is not whitespace, and `NAME_REGEX` would reject it as an invalid character. Such values are outside the model.
- The set of Zs (space-separator) characters is taken from current Unicode: U+0020, U+00A0, U+1680, U+2000-U+200A, U+202F, U+205F and U+3000.
