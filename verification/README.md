# Twitter username validation in the Hive organization directory

The directory stores an optional Twitter handle for each member. The
`TwitterNameField` model field (directory/twitter.py) passes
`validate_twitter_name` as its validator. When Django runs that field's
validators, for example in a form or a full model validation, the handle is
checked by `validate_twitter_name`. The validator makes one decision over
one string, in this order:

1. If the value is longer than `MAX_TWITTER_NAME_LEN` (15), the validator
   raises a length error.
2. Otherwise, if `re.match('^[A-Za-z_]+$', value)` fails, it raises a
   character-set error.
3. Otherwise it returns normally.

Both error messages begin with `"<value>" is not a valid Twitter username.`.

This project models those rules in three Dafny modules:

- `NamePattern` (name_pattern.dfy) models the regular expression. It gives
  a declarative reading, `Matches`: some non-empty prefix of class
  characters ends at a position where `$` can match. It also gives an
  executable test, `Match`, which finds the greedy run of class characters
  and then tests `$`. Their contracts show that the two agree on every
  string.
- `Decimal` (decimal.dfy) models the `%d` rendering of the limit inside
  the length message, together with the reading that turns it back into
  the number.
- `Twitter` (twitter.dfy) holds the limit, the validator `Validate`, which
  returns `Ok | TooLong(message) | BadChars(message)`, the two messages,
  the field, and lemmas that describe the set of accepted values.

The model follows the code as written, including these behaviours:

- The length check runs first. A value that is both too long and full of
  bad characters is reported as `TooLong`.
- `""` is a `BadChars` error, because `+` needs at least one character.
- Digits are rejected, although the message says "numbers 0-9" are
  allowed.
- Without the MULTILINE flag, Python's `$` also matches just before a
  final newline. So `"abc\n"` (four characters) is accepted, while a name
  followed by two newlines is not.

The general contract (accept at most 15 characters that match
`^[A-Za-z_]+$`) agrees with the code once "matches" is read with Python's
`re.match` semantics. The trailing-newline case is the part that a literal
reading of the pattern would miss.

## Model

| member | source | states |
|---|---|---|
| NamePattern.GreedyRun | directory/twitter.py:12 | The greedy `[A-Za-z_]+` run stays within the string and contains only class characters. The character after the run, if there is one, is outside the class. |
| NamePattern.RunIsLongest | directory/twitter.py:12 | No prefix made only of class characters is longer than the greedy run. |
| NamePattern.MatchesOnlyAtRunEnd | directory/twitter.py:12 | A match of `^[A-Za-z_]+$` exists exactly when the greedy run is non-empty and `$` can match where it ends. Backtracking never finds another match. |
| NamePattern.Match | directory/twitter.py:12 | The executable pattern test returns true exactly when `re.match` would find a match, as defined declaratively. |
| NamePattern.MatchShape | directory/twitter.py:12 | A string matches exactly when it is a non-empty run of `[A-Za-z_]`, or such a run followed by one newline. |
| NamePattern.TrailingNewline | directory/twitter.py:12 | A name plus one `\n` matches. A name plus two newlines does not match, and neither does a lone `\n`. |
| Decimal.FromNat | directory/twitter.py:10-11 | `%d` renders a number as a non-empty string of digits. The first digit is `0` only when the number is zero, and the string has one digit exactly when the number is below 10. |
| Decimal.RoundTrip | directory/twitter.py:10-11 | Reading the `%d` rendering back gives the original number. |
| Twitter.Validate | directory/twitter.py:7-17 | The result is `TooLong` exactly when the value has more than 15 characters. It is `Ok` exactly when the value fits and matches the pattern. Each error carries its own message. |
| Twitter.AcceptedSet | directory/twitter.py:9-17 | A value is accepted exactly when it has at most 15 characters and is either a non-empty run of `[A-Za-z_]` or such a run followed by one newline. |
| Twitter.LengthCheckFirst | directory/twitter.py:9-11 | Any value longer than 15 characters is a length error, whatever characters it contains. |
| Twitter.AcceptsNames | directory/twitter.py:9-17 | Every non-empty value of at most 15 characters drawn from `A-Z`, `a-z` and `_` is accepted. |
| Twitter.RejectsForeignChar | directory/twitter.py:12-17 | A value of at most 15 characters with a character outside `[A-Za-z_]` is a character-set error. A final newline is the one exception. |
| Twitter.RejectsDigits | directory/twitter.py:12-16 | A digit anywhere in a value of at most 15 characters causes a character-set error, although the message lists digits as allowed. |
| Twitter.RejectsEmpty | directory/twitter.py:12 | The empty string is a character-set error, not a length error. |
| Twitter.AcceptsTrailingNewline | directory/twitter.py:12 | A valid name of at most 14 characters followed by one `\n` is accepted, and `"abc\n"` is accepted. With two newlines the value is a character-set error, provided it still has at most 15 characters. |
| Twitter.LengthBoundary | directory/twitter.py:5-11 | A name of exactly 15 valid characters is accepted. Adding any 16th character makes it a length error. |
| Twitter.SuiteCases | directory/tests.py:188-197 | `'$'` is a character-set error and `'reallyreallyreallyreallylongusername'` is a length error. `'toolness'`, `'t'` and `'super_burger'` are accepted. |
| Twitter.ErrorMessages | directory/twitter.py:8-16 | Both messages start with the shared sentence, and that sentence quotes the value verbatim. The limit appears as `15` and reads back as the limit. The two messages differ, so they show which rule failed. |
| Twitter.TwitterNameField | directory/twitter.py:19-26 | The field's `max_length` is the 15-character limit, and its `validators` argument is exactly `[validate_twitter_name]`. Any value that passes that validator fits within `max_length`. |
| Twitter.FieldAgreesWithValidator | directory/twitter.py:5-23 | The field's `max_length` is `MAX_TWITTER_NAME_LEN`, and it is exactly the validator's limit. No value longer than that passes, and a valid name of exactly that length does. |

## Left out

- Django's `ValidationError` is not modelled as an exception. Its effect is the `TooLong` and `BadChars` alternatives of `Verdict`.
- Django's framework code is not part of this model. That includes the `CharField` base class, its implicit `MaxLengthValidator`, the way `run_validators` collects errors, and the skipping of validators on blank input. The field is modelled only by its `max_length` and its validator list.
- The `*args` and `**kwargs` that `TwitterNameField` passes on to `CharField` are not modelled. Passing a second `max_length` or `validators` would be a Python call error, and it does not change the configured limit.
- Twitter.Validate: length is counted in Unicode scalar values, Dafny's `char`. The source is Python 2 code, where `len(value)` counts UTF-16 code units for a `unicode` value on a narrow build, and counts bytes for a byte `str`. For non-ASCII values the two counts can differ, so the split between `TooLong` and `BadChars` can differ too. For example, eight U+1F600 characters are 16 code units, or 32 UTF-8 bytes, so the source reports the length error, while the model reports `BadChars`. The accepted set is the same either way, because every accepted character is ASCII. Lone surrogates, which a narrow build can hold, are not modelled.
- Only a string value is modelled. `'%s' % value` for a non-string value, such as a tuple, is not covered.
- The rest of the repository is not part of this model. That covers the schema migration, URL routing, views, content-channel helpers, organization age checks, membership signals and the seed command. None of it is Twitter-name logic, and most of it sits behind the web framework and the database.
