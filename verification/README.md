# tgate-action message logic in Dafny

A model of the GitHub Action `index.js` that reports a CI job to Telegram. It covers the
pure logic between the action's inputs and the `sendMessage` request:

- **Input validation** (`Inputs`): `getInput` is a map from input names to strings (a
  missing name reads as `""`). `checkFieldValidity` throws exactly on a falsy field.
  `parseAndValidateInputs` checks `token` before `to`. The event, actor, repository and
  workflow are all read from the `status` input.
- **Links** (`Links`): `generateLink` lower-cases the event, looks it up in the fixed
  `mappings` object and builds `https://github.com/<repo>/<segment>/`. Like any JavaScript
  object lookup, it also sees `Object.prototype`: the lower-case names `constructor` and
  `__proto__` give the texts of those members, and every other unknown name gives `undefined`.
- **Replacement** (`Replace`): `allReplace` applies one global regular-expression replacement
  per key, in enumeration order. `AllReplace` is the reference definition and
  `AllReplaceLoop` / `ReplaceGlobal` are the loop and the scan as the code performs them.
- **Composition** (`Composer`): the `icons` lookup, the three `replacers` and the
  multi-line template. The `.` key is the regular-expression wildcard. So after the `_` and
  `-` passes, every character other than a line terminator becomes `\.`, and the
  `toUpperCase` / `toLowerCase` calls that follow change nothing. `EscapeSpec` describes
  the escape one character at a time, and the lemmas connect it to the three passes.
- **Request** (`Telegram`): the ordered parameter list of `sendTextMessage`. Parameter
  names are an enumeration, and `ParamName.Wire` gives each one's query-string text. The list starts
  with `chat_id`, then holds the optional names whose own argument is truthy, in a fixed
  order, each valued with `thread_id`, and ends with `text`.
- **Wiring** (`Action`): `run`, where `encodeURI` is a function parameter.

JavaScript strings are sequences of UTF-16 code units. The model's strings are sequences of
Unicode scalar values. The one place this matters is the `.` pattern: it matches each code
unit of a character outside the Basic Multilingual Plane separately. `Replace.MatchesIn`
counts that.

The escape replaces every occurrence of each of the keys `_`, `-` and `.`. No `parse_mode`
parameter is sent. The flag parameters carry the thread id as their value.

## Model

| member | source | states |
|---|---|---|
| `JsValues.OrFalse` | index.js:61-62 | an input with its fallback to `false` is truthy exactly when the input is non-empty, and then its text is the input; otherwise it is `false` |
| `JsValues.InheritedText` | index.js:94 | an object-literal lookup finds an inherited text exactly for the `Object.prototype` member names |
| `JsValues.PropertyText` | index.js:94-95 | `${obj[key]}` is the own value when present, else the inherited member's text, else `undefined` |
| `AsciiCase.LowerChar` | index.js:94 | ASCII lower-casing maps `A`-`Z` to `a`-`z` (code point + 32), leaves every other character alone, and never yields an upper-case letter |
| `AsciiCase.UpperChar` | index.js:130 | ASCII upper-casing maps `a`-`z` to `A`-`Z` (code point - 32) and leaves every other character alone |
| `AsciiCase.Lower` | index.js:94 | `toLowerCase` keeps the length and lower-cases each character in place |
| `AsciiCase.Upper` | index.js:130 | `toUpperCase` keeps the length and upper-cases each character in place |
| `AsciiCase.LowerFixedIff` | index.js:131-132 | lower-casing is the identity exactly on strings with no upper-case ASCII letter |
| `AsciiCase.UpperFixedIff` | index.js:130 | upper-casing is the identity exactly on strings with no lower-case ASCII letter |
| `AsciiCase.LowerForgetsCase` | index.js:94 | lower-casing is idempotent and undoes a prior upper-casing |
| `Replace.KeyPattern` | index.js:107 | `new RegExp(key)` for a one-character key is the wildcard exactly for `.`, and otherwise matches that character |
| `Replace.MatchesIn` | index.js:107 | a literal matches its own character once and any other not at all; the wildcard misses line terminators and matches every other character once per UTF-16 code unit |
| `Replace.ReplaceChar` | index.js:107 | an unmatched character is kept; a matched one becomes one copy of the replacement per match |
| `Replace.ReplaceAllAppend` | index.js:107 | a global replacement distributes over concatenation |
| `Replace.ReplaceAll` | index.js:107 | a pattern absent from the string leaves it unchanged; when the replacement holds no match, none is left in the result, so every occurrence is replaced |
| `Replace.ReplaceGlobal` | index.js:107 | the left-to-right scan that emits the replacement for each match computes the global replacement |
| `Replace.AllReplace` | index.js:105-110 | keys apply in order: the last key's replacement acts on the output of all earlier passes, and no keys leave the string as it is |
| `Replace.AllReplaceAppend` | index.js:105-110 | the whole sequence of passes distributes over concatenation |
| `Replace.AllReplaceNoMatch` | index.js:105-110 | keys whose patterns do not occur leave the string unchanged |
| `Replace.AllReplaceLoop` | index.js:105-110 | the `for...in` loop that reassigns `str` after each key computes `allReplace` |
| `Composer.ReplacersOnChar` | index.js:128-130 | the three passes turn `_` and `-` into `\.\.`, a line terminator into itself, and any other character into one `\.` per code unit |
| `Composer.ReplacersIsSpec` | index.js:128-132 | the three passes over a whole string equal the character-by-character escape |
| `Composer.Escape` | index.js:130-132 | `allReplace(x, replacers)` is the character-by-character escape |
| `Composer.EscapeIsPairs` | index.js:128-132 | without line terminators, the escape is nothing but repeated `\.` pairs |
| `Composer.EscapeLength` | index.js:128-132 | without line terminators, the escape's length is 2 x (UTF-16 length + number of `_` + number of `-`) |
| `Composer.EscapeEqualIff` | index.js:128-130 | two line-terminator-free strings escape to the same text exactly when they have the same weight, so the event's letters are lost |
| `Composer.EscapeAlphabet` | index.js:128-132 | only `\`, `.` and line terminators occur in the escape |
| `Composer.EscapeCaseInvariant` | index.js:130-132 | upper- or lower-casing the escape leaves it unchanged |
| `Composer.Compose` | index.js:122-138 | the message is icon, ` *`, escaped event, `*`, then the `was made at`, `by` and `check here [workflow](link)` lines, with four-space indents, the case mapping having no effect, and workflow and link verbatim |
| `Composer.ComposeIcon` | index.js:123-134 | the message opens with the status's icon, or with `undefined` for a status that is neither a key nor an `Object.prototype` name |
| `Links.GenerateLink` | index.js:84-97 | the link is `https://github.com/`, the repository, `/`, the segment, `/`, and the repository and segment can be read back out of it |
| `Links.TableSegments` | index.js:85-94 | each table event name finds its own entry: `issues`, `pulls`, `commits` or `projects` |
| `Links.LinkDeterminesRepository` | index.js:95 | for a fixed event, different repositories give different links |
| `Links.LinkCaseInsensitive` | index.js:94 | events that agree after lower-casing give the same link |
| `Links.LinkIgnoresUpperCasing` | index.js:94 | upper- or lower-casing the event does not change the link |
| `Links.SharedSegments` | index.js:85-92 | `issue_comment`/`issues` share `issues`, `pull_request`/`pull_request_review_comment` share `pulls`, `push` gives `commits`, `project_card` gives `projects` |
| `Links.SegmentKnownIff` | index.js:85-95 | the segment is one of the four pages exactly when the lower-cased event is in the table, and `undefined` for an unknown non-`Object.prototype` name |
| `Inputs.GetInput` | index.js:58-67 | an input reads as its given value, or `""` when it was not given |
| `Inputs.CheckFieldValidity` | index.js:9-13 | the check fails exactly when the field is falsy, with the given message |
| `Inputs.ParseAndValidateInputs` | index.js:55-76 | validation fails exactly when the token or destination is empty, with one of the two messages; on success it returns the inputs by name, with the flags truthy exactly when non-empty |
| `Inputs.TokenCheckedFirst` | index.js:69-70 | an empty token reports `Token is not valid` even when `to` is empty too; otherwise an empty `to` reports `to address is not valid` |
| `Inputs.InputsAliasStatus` | index.js:63-67 | event, actor, repository and workflow all equal status, whatever an `event` input says |
| `Telegram.AppendFn` | index.js:32-36 | `appendFn` adds one parameter exactly when its argument is truthy, named as given and valued with the thread id |
| `Telegram.SendTextMessage` | index.js:24-42 | the request goes to the bot's `sendMessage` endpoint and has 2 to 5 parameters, `chat_id` first and `text` last |
| `Telegram.OptionalParams` | index.js:32-42 | between `chat_id` and `text` come exactly the optional names whose argument is truthy, in their fixed order, each valued with the thread id |
| `Telegram.ParamOrder` | index.js:38-42 | the optional names appear in strictly increasing fixed order, and `text` appears only at the end |
| `Telegram.ParamPresentIff` | index.js:32-40 | each optional parameter is present exactly when its own argument is truthy |
| `Telegram.DefaultArguments` | index.js:24 | with the default `null` thread and `false` flags, only `chat_id` and `text` are sent |
| `Telegram.FlagCarriesThreadId` | index.js:34 | with an empty thread id and `disable_notification` set, that parameter is sent with an empty value |
| `Action.Run` | index.js:141-152 | `run` fails exactly when validation fails, with its message; otherwise it sends to the token's endpoint with `chat_id` = `to` first and the encoded message as `text` last |
| `Action.MissingTokenAborts` | index.js:144-147 | an empty token aborts with `Token is not valid` before any request is built |
| `Action.MessageFromStatus` | index.js:144-149 | the sent text is the encoded template filled from the `status` input alone: its icon, its escape three times, and itself as workflow and as link event and repository |
| `Action.RunOptionalParams` | index.js:146-151 | the flag parameters are sent exactly when their inputs are non-empty (so `false` as text still sets them), and all optional parameters carry the `thread_id` input |

## Left out

- Sending the request (`axios.get`) and the `Logger.error` catch path are not modelled. They are network I/O, and `Logger` is not defined in the file. The request is not awaited, so the `try` could not catch a failed delivery anyway.
- `@actions/core` is not modelled: `getInput`'s whitespace trimming and `required` option, `setFailed`, and the `run().catch` wrapper. Inputs are a map of already-read values, and a failure is an `Err` result carrying the thrown message.
- `URLSearchParams` parsing and serialisation are not modelled. The request is an endpoint plus an abstract ordered list of (name, value) pairs, whose first entry is `chat_id`. The real constructor parses the whole URL string as a query string, so its first name is the URL prefix ending in `chat_id`; the model does not reproduce this.
- `encodeURI` is not modelled: `Action.Run` takes the encoding as a function parameter.
- `AsciiCase.Lower` and `AsciiCase.Upper` map only ASCII letters; full Unicode case mapping is not modelled. On escaped text this changes nothing (`Composer.EscapeCaseInvariant`). In `generateLink` it matters only for event names with non-ASCII letters.
- `Replace.MatchesIn` covers only one-character regular expressions: a literal non-syntax character, or `.`. General regular expressions, and `$` patterns in replacement texts, are not modelled. The replacers in `composer` use neither.
- `Replace.AllReplace` takes the keys in `for...in` enumeration order. The rule that integer-like keys are enumerated first is not modelled, since none of `composer`'s keys is integer-like.
- `JsValues.InheritedText` gives native functions the text V8 prints (`function NAME() { [native code] }`). The language standard fixes only the name inside that text.
