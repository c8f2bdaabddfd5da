# Remodel intake bot: the survey wizard and its helpers

This project models the core of a Telegram bot that collects information about a finished remodeling project.

- **The survey wizard.** The wizard scene in `lib/bot.js` asks one chat user eight questions in a fixed order. They cover the client's name, the room, the city and state, the client's goal, the work done, the materials, the special features and a Google Drive link. The wizard keeps a cursor and a record of answers in the session. Step 1 empties the record. Steps 2 to 8 each store the previous answer under a fixed key and ask the next question. An answer that is exactly the skip button's label is stored as `"Not specified"`. Any other text is stored verbatim. The last step rejects a missing or empty message.
- **The helpers.** `lib/utils.js` has three helpers. One checks a Drive link by substring. One builds the notification sent to the administrator. The third is a folder check that always succeeds.

Modules:

- `Wrappers` (`wrappers.dfy`): `Option`, used for a message that may carry no text.
- `DriveUtils` (`drive_utils.dfy`): `lib/utils.js`, as pure functions and lemmas. JavaScript's `includes` and `trim` are written out in full. `trim` removes ECMAScript's WhiteSpace and LineTerminator characters.
- `Survey` (`survey.dfy`): the wizard scene of `lib/bot.js` as the class `Wizard`. It has a `cursor` field and a `data` map field, and one `Step` method that runs the step at the cursor. The ghost field `answers` holds the texts received since step 1. `Valid()` ties `data` to `RecordOf(answers)`, the pure specification of the record, and the lemmas about `RecordOf` give the record's shape.

Behaviour of the code worth knowing:

- The skip test is exact string equality with `'Skip this question ⏭️'`. There is no `/skip` keyword, no case-folding and no trimming.
- A skipped answer is stored as the string `"Not specified"`, not as an absent value. So a user who types `Not specified` produces the same record as one who presses the skip button (`Survey.Recorded`).
- There is no cancellation.
- Only the first seven questions offer the skip button. The Drive-link question removes the keyboard.

A detail of `createAdminNotification`: `trim()` runs on the whole message, not on each value. So trailing whitespace of the Drive link disappears. When the link is empty or blank, the last line ends in `Drive:` with no space (`DriveUtils.SummaryLines`, `DriveUtils.NotificationLines`). A key missing from the record shows as the text `undefined`, as a JavaScript template shows `undefined` (`DriveUtils.Field`).

## Model

| member | source | states |
|---|---|---|
| `DriveUtils.Includes` | lib/utils.js:3 | the result is true exactly when the pattern occurs as a contiguous block somewhere in the text |
| `DriveUtils.ValidateDriveLink` | lib/utils.js:2-4 | a link is accepted if and only if `drive.google.com` occurs in it as a contiguous substring |
| `DriveUtils.PaddedLinkStillValid` | lib/utils.js:3 | if a link is accepted, then so is any text that contains it, with any prefix and any suffix |
| `DriveUtils.LookAlikeHostAccepted` | lib/utils.js:2-4 | the position of the host is not checked: `https://drive.google.com.example.net/x` is accepted |
| `DriveUtils.CheckDriveFolderStructure` | lib/utils.js:22-25 | every link passes the folder-structure check |
| `DriveUtils.TrimStart` | lib/utils.js:18 | the result is the suffix of the input left after removing the leading whitespace; only whitespace was removed, and the result does not start with whitespace |
| `DriveUtils.TrimEnd` | lib/utils.js:18 | the result is a prefix of the input; everything removed is whitespace, and the result does not end with whitespace |
| `DriveUtils.Trim` | lib/utils.js:18 | the result is a contiguous block of the input; everything before and after it is whitespace, and neither end of the result is whitespace |
| `DriveUtils.TrimEndDropsWhitespace` | lib/utils.js:17-18 | whitespace appended to a text (the template's closing line break and spaces) is removed again by trimming its end |
| `DriveUtils.TrimEndStopsAt` | lib/utils.js:17-18 | trimming the end never removes anything to the left of a non-whitespace character, such as the colon of a label |
| `DriveUtils.TrimFramedLines` | lib/utils.js:8-18 | trimming lines framed by a leading line break and a trailing break with spaces leaves the lines. Only the trailing whitespace of the last line's value is lost |
| `DriveUtils.TemplateTrimmed` | lib/utils.js:8-18 | the trimmed template is exactly the summary lines joined by line breaks |
| `DriveUtils.CreateAdminNotification` | lib/utils.js:7-19 | the notification starts with `📢 New Project Submitted!`, has no whitespace at either end, and is the header and the eight labelled lines joined by line breaks |
| `DriveUtils.NotificationLines` | lib/utils.js:9-17 | when no field value contains a line break, the notification has exactly nine lines. The first is the header. Then come Client, Room, Location, Goal, Work done, Materials and Features, each with its label and then its field's text verbatim (`Work done:` takes `what_done`). The last is the Drive line |
| `DriveUtils.DriveLineVerbatim` | lib/utils.js:17 | a non-empty Drive link that does not end in whitespace appears verbatim after `📂 Drive: ` |
| `Survey.KeyboardFor` | lib/bot.js:137-155 | the skip button is offered exactly with the first seven questions; the Drive-link question removes the keyboard |
| `Survey.Recorded` | lib/bot.js:31-35 | `"Not specified"` is stored exactly when the answer is the skip label or the text `Not specified` itself. An answer is changed exactly when it equals the skip label exactly, so variants with other case or spacing are stored verbatim |
| `Survey.RecordOfKeys` | lib/bot.js:30-158 | after n answers the record holds exactly the first n keys of `client_name`, `room_type`, `location`, `goal`, `what_done`, `materials`, `features`, and no other key |
| `Survey.RecordOfValues` | lib/bot.js:30-158 | the key of the i-th question holds the i-th answer, or `"Not specified"` if that answer was the skip label |
| `Survey.RecordOfExtends` | lib/bot.js:30-158 | a further answer adds only its own key, which was absent before, and leaves every earlier entry unchanged |
| `Survey.Wizard.constructor` | lib/bot.js:13-17 | a session entering the scene starts at the first step; whatever the state held before is still there until step 1 runs |
| `Survey.Wizard.Step` | lib/bot.js:16-163 | Step 1 empties the record, asks the first question with the skip button and moves the cursor to 1. Steps 2 to 8 store the answer (or the sentinel) under the previous question's key and change no other key. They ask the next question and advance the cursor by exactly one. At the last step, a missing or empty message replies `Please provide a valid Google Drive link.` and leaves cursor and record unchanged. After every step the record holds exactly the keys asked so far |

## Left out

- Telegraf wiring: creating the bot, the session middleware, `ctx.reply`, Markdown parse mode and keyboard objects. A reply is a `Reply` value (the question's index and text, and the keyboard kind) and is not sent anywhere.
- Survey.Wizard.Step: the rest of the final step after lib/bot.js:163 is not part of this model. A non-empty text at the last step yields `LinkReceived(text)`. The contract says nothing about the cursor or the record in that case.
- Survey.Wizard.Step: steps 2 to 8 read the message's text without checking that there is one. The model requires a text there instead of modelling JavaScript's `undefined`. The empty text is allowed and stored as it is.
- Survey.Wizard.constructor: the scene-entry logic belongs to the Telegraf library and is not part of this model. The constructor only places the cursor at the first step.
- DriveUtils.Template: the template literal is written as its nine lines joined by line breaks. It has a leading line break and ends with a line break and two spaces. This is the same text as the literal, with its lines named.
- Strings are sequences of Unicode scalar values, while JavaScript strings are UTF-16 code units. Lone surrogates are not modelled. For well-formed text, substring tests and whitespace trimming give the same results either way.
- `lib/googleSheets.js` is not part of this model: it is Google API authentication, spreadsheet calls and the current date.
- `main.py` and the files under `api/` are not part of this model: they are polling, webhook and HTTP plumbing, background threads and media downloads.
- Logging is not modelled.
