# Login form controller

A model of the single-screen login form in `App.js`: two text fields
(username, password), a Login control that trims both inputs, reports a
missing field at once or, after a simulated delay, compares the trimmed pair
with the hard-coded credentials `admin` / `1234`, and a dialog that shows the
outcome with an accent colour and an icon derived from the message text.

The project has four modules:

- `Text` (`Text.dfy`) covers the two JavaScript string built-ins the screen
  relies on. `Trim` is `String.prototype.trim`, which strips the WhiteSpace and
  LineTerminator code points of ECMA-262 (sections 12.2 and 12.3). Those are
  TAB, VT, FF, ZWNBSP, the Unicode "Zs" space separators, LF, CR, LS and PS.
  `Includes` is `String.prototype.includes`.
- `Feedback` (`Feedback.dfy`) holds the three messages, `getModalColor` as
  `ModalColor` and the icon choice as `ModalIcon`. It also has an explicit
  outcome tag (`Outcome`) against which the text-derived classification is
  proved.
- `LoginFlow` (`LoginFlow.dfy`) describes the screen's state as a value
  (`Form`) and each handler as a transition. The delayed check of
  `handleLogin` is split in two. `Submit` runs when Login is pressed and either
  shows the missing-fields dialog or starts loading and captures the trimmed
  pair. `TimerFires` runs the timer callback on the captured pair. `Step` and
  `Run` replay any sequence of user and timer events. `Valid` is the invariant
  every event keeps: the screen is loading exactly while a callback is
  pending.
- `App` (`App.dfy`) holds the component itself. The class `LoginScreen` has
  the five state variables (`username`, `password`, `message`,
  `modalVisible`, `isLoading`) and the scheduled callback (`pending`). Its
  handlers assign those fields step by step. Each handler is proved to
  produce exactly the `LoginFlow` transition and to keep `Valid`.

The UI disables the Login and Clear controls and the text fields while
`isLoading` (App.js:149, 168, 177, 188). So `!isLoading` is a precondition of
`Submit`, `Reset` and the edits. In `Step`, an event on a disabled control
changes nothing. The handler itself has no re-entrancy guard. The event
`PressLogin` stands both for the Login button (App.js:175) and for the
password field's return key (App.js:167), which call the same handler.

`closeModal` (App.js:60-62) only hides the dialog: `message` keeps its last
text, which is rendered only while the dialog is visible. `Close` leaves
`message` unchanged accordingly.

## Model

| member | source | states |
|---|---|---|
| Text.Trim | App.js:30-31 | the trimmed text sits inside the input with only white space around it, neither starts nor ends with white space, and is empty exactly when the input is all white space |
| Text.TrimPadded | App.js:30-31 | trimming `pre + w + post` with white `pre`/`post` gives back exactly `w` when `w` has no white space at its ends, so padding is removed and nothing else |
| Text.TrimUnpadded | App.js:30-31 | text with no white space at either end is not changed by trimming |
| Text.TrimIdempotent | App.js:30-31 | trimming an already trimmed value changes nothing |
| Text.Includes | App.js:109-110 | the empty string is included in every text, an occurrence at any index makes the result true, and nothing longer than the text is included in it (`String.prototype.includes` as used at App.js:109-110 and 231) |
| Text.IncludesIsScan | App.js:109-110 | the search for an occurrence agrees on every input with a left-to-right scan (a prefix, or found in the rest) |
| Feedback.ModalColor | App.js:108-112 | green exactly when the message contains "Login Successful"; orange exactly when it does not but contains "Please fill"; red for everything else (total, three-way, in that priority) |
| Feedback.ModalIcon | App.js:231 | the check mark exactly when the message contains "Login Successful", "!" otherwise |
| Feedback.IconAgreesWithColor | App.js:225-231 | the icon is the check mark exactly when the accent is the success green |
| Feedback.MessageOf | App.js:35-52 | every outcome's message is one of the three messages the form sets |
| Feedback.ClassifiesMessages | App.js:108-112 | re-deriving colour and icon from each of the three messages gives that outcome's colour and icon, and the three colours are distinct |
| Feedback.SuccessClassified | App.js:46 | the success message is classified green with the check mark |
| Feedback.MissingFieldsClassified | App.js:35 | the missing-fields message is classified orange with "!" |
| Feedback.WrongPasswordClassified | App.js:52 | the wrong-password message is classified red with "!" |
| LoginFlow.EditUsername | App.js:145 | typing replaces the username and changes nothing else |
| LoginFlow.EditPassword | App.js:163 | typing replaces the password and changes nothing else |
| LoginFlow.Submit | App.js:28-43 | if either input is all white space, only the message (the missing-fields text) and the dialog (shown) change: no loading, no callback, fields as typed; otherwise only loading starts and the trimmed pair is captured, with message and dialog untouched |
| LoginFlow.TimerFires | App.js:43-56 | the dialog is shown, loading ends and no callback remains; the message is the success one exactly when the captured pair is "admin"/"1234"; success empties both fields; failure shows the wrong-password message and keeps the fields as typed |
| LoginFlow.Close | App.js:60-62 | the dialog is hidden and nothing else changes |
| LoginFlow.Reset | App.js:65-68 | both fields become empty and nothing else changes |
| LoginFlow.Step | App.js:145-251 | while loading, typing, Login and Clear change nothing; a timer event with no callback scheduled changes nothing; loading starts only on a Login press and ends only when the timer elapses |
| LoginFlow.Run | App.js:21-68 | no events leave the screen as it is, and a sequence of events without a Login press never starts loading |
| LoginFlow.CloseIdempotent | App.js:60-62 | closing twice is the same as closing once |
| LoginFlow.InitialValid | App.js:21-25 | the mounted screen (empty texts, flags down) satisfies the invariant |
| LoginFlow.StepKeepsValid | App.js:28-68 | every event keeps the invariant: loading exactly while a callback is pending, a pending pair trimmed and non-empty, the message one of the form's own |
| LoginFlow.RunKeepsValid | App.js:21-68 | any sequence of events keeps the invariant |
| LoginFlow.DialogClassified | App.js:203-241 | after any sequence of events from mount, a visible dialog shows one of the three outcomes' messages and its colour and icon are that outcome's |
| LoginFlow.SubmitThenTimer | App.js:28-57 | a submit with both inputs non-blank, followed by its callback, succeeds exactly when the trimmed inputs are "admin" and "1234"; success empties both fields; failure keeps them untrimmed; loading ends and the dialog shows either way |
| LoginFlow.PaddedAdminLogsIn | App.js:30-45 | "admin"/"1234" with any surrounding white space (such as "  admin " / " 1234") is captured as the exact pair and logs in |
| LoginFlow.WrongCaseRefused | App.js:45 | "Admin"/"1234" is captured as typed and refused: the match is case-sensitive |
| App.LoginScreen.constructor | App.js:21-25 | the fields start empty, both flags false, no callback scheduled |
| App.LoginScreen.SetUsername | App.js:145 | the field update is `EditUsername` and keeps the invariant |
| App.LoginScreen.SetPassword | App.js:163 | the field update is `EditPassword` and keeps the invariant |
| App.LoginScreen.HandleLogin | App.js:28-43 | the in-place updates produce exactly `Submit` of the old state and keep the invariant |
| App.LoginScreen.TimerCallback | App.js:43-56 | the in-place updates produce exactly `TimerFires` of the old state and keep the invariant |
| App.LoginScreen.CloseModal | App.js:60-62 | the update is `Close` of the old state and keeps the invariant |
| App.LoginScreen.ResetForm | App.js:65-68 | the update is `Reset` of the old state and keeps the invariant |

## Left out

- Rendering and styles are not modelled: the layout views, the modal's JSX and `StyleSheet.create` (App.js:114-262, 265-404). They are toolkit calls with no decision logic.
- `scaleSize` and `responsiveStyles` (App.js:71-105) are not modelled. They are floating-point layout arithmetic over the window size from `Dimensions.get` (App.js:17), a value of the runtime.
- The 800 ms delay is not modelled as time. Only the order is kept: the callback is the separate transition `TimerFires`, enabled while a callback is pending.
- A second submit while one is pending cannot happen in the model. The controls are disabled while loading, and `!isLoading` is a precondition. Two racing timers are therefore not modelled.
- React's batching of state updates and re-rendering are not modelled. Each setter is a direct field assignment.
- `Platform.OS` branching (App.js:117) and the unused `Alert` import (App.js:14) are not modelled. They affect no state.
- `Step` lets the user type, press Login or press Clear while the dialog is visible. In the app the full-screen `Modal` (App.js:204-260) covers the form, so those events cannot happen then. The proved properties hold for these extra event sequences too.
- JavaScript strings are sequences of UTF-16 code units and may hold lone surrogates, which a Dafny `char` cannot. `Trim` and `Includes` match `String.prototype.trim` and `String.prototype.includes` on well-formed text only.
- The "Zs" space separators are listed as of current Unicode. Older JavaScript engines that still count U+180E as white space are not modelled.
