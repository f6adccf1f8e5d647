/** The Twitter username validator of the organization directory and the
    model field that uses it (directory/twitter.py).

    The validator makes one decision over one string: longer than the limit
    is a length error; otherwise, not matching `^[A-Za-z_]+$` is a
    character-set error; otherwise the name is accepted. Django's
    `ValidationError` is modelled as the two error alternatives of `Verdict`,
    each carrying the message the source builds.
 */
module Twitter {
  import NamePattern
  import Decimal

  /** The longest username the validator accepts, and the width of the
      database column the field declares. */
  const MaxTwitterNameLen: nat := 15

  datatype Verdict =
    | Ok
    | TooLong(message: string)
    | BadChars(message: string)

  /** The opening sentence shared by both error messages, quoting the value. */
  function BaseError(value: string): (m: string) {
    "\"" + value + "\" is not a valid Twitter username."
  }

  function TooLongMessage(value: string): (m: string) {
    BaseError(value) + " A username cannot be longer than "
    + Decimal.FromNat(MaxTwitterNameLen) + " characters."
  }

  /** The wording claims digits are allowed; the pattern rejects them. */
  function BadCharsMessage(value: string): (m: string) {
    BaseError(value)
    + " A username can only contain alphanumeric characters (letters "
    + "A-Z, numbers 0-9) with the exception of underscores."
  }

  /** `validate_twitter_name`: the length test runs first, then the pattern. */
  function Validate(value: string): (r: Verdict)
    ensures r.TooLong? <==> |value| > MaxTwitterNameLen
    ensures r.Ok? <==> |value| <= MaxTwitterNameLen && NamePattern.Matches(value)
    ensures r.TooLong? ==> r.message == TooLongMessage(value)
    ensures r.BadChars? ==> r.message == BadCharsMessage(value)
  {
    if |value| > MaxTwitterNameLen then TooLong(TooLongMessage(value))
    else if !NamePattern.Match(value) then BadChars(BadCharsMessage(value))
    else Ok
  }

  /** The accepted set, character by character: at most 15 characters, and
      either a non-empty run of `[A-Za-z_]` or such a run followed by a
      single newline. */
  lemma AcceptedSet(value: string)
    ensures Validate(value).Ok? <==>
      |value| <= MaxTwitterNameLen &&
      ((|value| >= 1 && NamePattern.AllNameChars(value)) ||
       (|value| >= 2 && NamePattern.AllNameChars(value[..|value| - 1])
        && value[|value| - 1] == '\n'))
  {
    NamePattern.MatchShape(value);
  }

  /** Too long is reported whatever the characters are: the length check
      comes before the character check. */
  lemma LengthCheckFirst(value: string)
    requires |value| > MaxTwitterNameLen
    ensures Validate(value) == TooLong(TooLongMessage(value))
  {
  }

  /** Every non-empty name of at most 15 class characters is accepted. */
  lemma AcceptsNames(value: string)
    requires 1 <= |value| <= MaxTwitterNameLen
    requires NamePattern.AllNameChars(value)
    ensures Validate(value) == Ok
  {
    AcceptedSet(value);
  }

  /** A short enough value with a character outside `[A-Za-z_]` is a
      character-set error, unless that character is a final newline. */
  lemma RejectsForeignChar(value: string, i: nat)
    requires |value| <= MaxTwitterNameLen
    requires i < |value| && !NamePattern.IsNameChar(value[i])
    requires !(i + 1 == |value| && value[i] == '\n')
    ensures Validate(value) == BadChars(BadCharsMessage(value))
  {
    AcceptedSet(value);
    if |value| >= 2 && value[|value| - 1] == '\n' {
      assert value[..|value| - 1][i] == value[i];
    }
  }

  /** Digits are rejected, although the message lists "numbers 0-9". */
  lemma RejectsDigits(value: string, i: nat)
    requires |value| <= MaxTwitterNameLen
    requires i < |value| && Decimal.IsDigit(value[i])
    ensures Validate(value) == BadChars(BadCharsMessage(value))
  {
    RejectsForeignChar(value, i);
  }

  /** `+` needs one character, so the empty string fails the pattern, not
      the length test. */
  lemma RejectsEmpty()
    ensures Validate("") == BadChars(BadCharsMessage(""))
  {
    AcceptedSet("");
  }

  /** `$` also matches before one final newline, so a name with a newline
      appended is accepted while it fits; two newlines are not. */
  lemma AcceptsTrailingNewline(w: string)
    requires 1 <= |w| < MaxTwitterNameLen
    requires NamePattern.AllNameChars(w)
    ensures Validate(w + "\n") == Ok
    ensures |w| + 2 <= MaxTwitterNameLen ==>
      Validate(w + "\n\n") == BadChars(BadCharsMessage(w + "\n\n"))
    ensures Validate("abc\n") == Ok
  {
    NamePattern.TrailingNewline(w);
    NamePattern.TrailingNewline("abc");
  }

  /** At the limit: 15 class characters pass; one more character of any
      kind is a length error. */
  lemma LengthBoundary(w: string, c: char)
    requires |w| == MaxTwitterNameLen && NamePattern.AllNameChars(w)
    ensures Validate(w) == Ok
    ensures Validate(w + [c]) == TooLong(TooLongMessage(w + [c]))
  {
    AcceptsNames(w);
  }

  /** The cases the project's test suite pins down. */
  lemma SuiteCases()
    ensures Validate("$").BadChars?
    ensures Validate("reallyreallyreallyreallylongusername").TooLong?
    ensures Validate("toolness") == Ok
    ensures Validate("t") == Ok
    ensures Validate("super_burger") == Ok
  {
    RejectsForeignChar("$", 0);
    AcceptsNames("toolness");
    AcceptsNames("t");
    AcceptsNames("super_burger");
  }

  /** Both error messages open with the same sentence, which quotes the
      offending value verbatim; the limit in the length message reads back
      as the limit; and the two messages differ, so the violated rule can be told
      from the message. */
  lemma ErrorMessages(value: string)
    ensures BaseError(value) <= TooLongMessage(value)
    ensures BaseError(value) <= BadCharsMessage(value)
    ensures BaseError(value)[1..|value| + 1] == value
    ensures Decimal.FromNat(MaxTwitterNameLen) == "15"
    ensures Decimal.ToNat(Decimal.FromNat(MaxTwitterNameLen)) == MaxTwitterNameLen
    ensures TooLongMessage(value) != BadCharsMessage(value)
  {
    assert |Decimal.FromNat(MaxTwitterNameLen)| == 2;
    assert |TooLongMessage(value)| < |BadCharsMessage(value)|;
    Decimal.RoundTrip(MaxTwitterNameLen);
  }

  /** The validators a field can carry; the directory uses one. */
  datatype Validator = TwitterNameValidator

  /** The parts of a Django `CharField` the directory configures. */
  datatype CharField = CharField(maxLength: nat, validators: seq<Validator>)

  function RunValidator(v: Validator, value: string): (r: Verdict) {
    match v
    case TwitterNameValidator => Validate(value)
  }

  predicate PassesValidators(f: CharField, value: string) {
    forall i :: 0 <= i < |f.validators| ==> RunValidator(f.validators[i], value).Ok?
  }

  /** `TwitterNameField`: a character field whose column width and whose
      validator both use the same limit. */
  function TwitterNameField(): (f: CharField)
    ensures f.maxLength == MaxTwitterNameLen
    ensures f.validators == [TwitterNameValidator]
    ensures forall value :: PassesValidators(f, value) ==> |value| <= f.maxLength
  {
    var f := CharField(MaxTwitterNameLen, [TwitterNameValidator]);
    assert forall value :: PassesValidators(f, value) ==> Validate(value).Ok? by {
      forall value | PassesValidators(f, value)
        ensures Validate(value).Ok?
      {
        assert RunValidator(f.validators[0], value).Ok?;
      }
    }
    f
  }

  /** The column width is exactly the validator's limit: nothing longer
      passes, and a name of that full width does. */
  lemma FieldAgreesWithValidator()
    ensures TwitterNameField().maxLength == MaxTwitterNameLen
    ensures forall value :: PassesValidators(TwitterNameField(), value) ==>
      |value| <= MaxTwitterNameLen
    ensures PassesValidators(TwitterNameField(), "abcdefghijklmno")
    ensures |"abcdefghijklmno"| == MaxTwitterNameLen
  {
    AcceptsNames("abcdefghijklmno");
  }
}
