# Arix tree session controller, in Dafny

The `App` component of this 3D Christmas-tree page keeps a small amount of
session state next to its scene: the chat transcript with the "Arix
Concierge", the text box, a waiting flag shown while a reply is awaited, the
tree configuration handed to the renderer, and the tree's morph status
(assembled `TREE_SHAPE` or `SCATTERED`). Three handlers change it:

- the text box's `onChange` replaces the typed text;
- `toggleMorph` flips the morph status;
- `handleSendMessage` trims the text box, drops blank input, appends the user
  turn, sends the concierge the trimmed text with the earlier transcript
  (role `assistant` renamed `model`), appends the reply, redraws two tuning
  values and applies a case-insensitive keyword rule: "scatter" or
  "disperse" scatters the tree, otherwise "shape", "form" or "tree"
  assembles it, otherwise the status stays.

The model:

- `Types.dfy` — `ChatMessage`, `MorphStatus`, `TreeConfig` and the initial
  configuration (light intensity 1.5, rotation speed 0.2, glow colour
  `#D4AF37`, ornament density 80).
- `Strings.dfy` — ASCII models of JavaScript's `trim`, `toLowerCase` and
  `includes`, each tied to an independent characterisation (whitespace
  padding, per-character lowering, occurrence at an index).
- `Concierge.dfy` — the history mapping and the request handed to the
  concierge; the concierge itself is outside the model and its reply is a
  parameter.
- `Morph.dfy` — the toggle and the keyword rule, proved against
  occurrence-based predicates, with worked cases.
- `App.dfy` — class `Session` with the component's five state variables;
  `BeginSend` and `FinishSend` are the two halves of `handleSendMessage`
  around the awaited call, `Submit` runs both. `Valid()` is the settled
  invariant: no reply pending, user and assistant turns alternating, every
  user turn trimmed and non-empty.

The keyword rule runs on the trimmed text, as the code does. Matching is
by plain substring, so "information" assembles the tree and so does
"street".

## Model

| member | source | states |
|---|---|---|
| `Strings.Trim` | App.tsx:37-39 | the trimmed text has no whitespace at either end |
| `Strings.TrimEmptyIffBlank` | App.tsx:37-39 | the trimmed text is empty exactly when the input is all whitespace, so the handler's early return fires exactly on blank input |
| `Strings.TrimPadded` | App.tsx:37-39 | the input is the trimmed text padded with whitespace on both sides: trimming removes only leading and trailing whitespace and keeps the middle intact |
| `Strings.TrimmedIsFixed` | App.tsx:39 | trimming text that is already trimmed returns it unchanged |
| `Strings.TrimIdempotent` | App.tsx:39 | trimming twice is trimming once |
| `Strings.ToLower` | App.tsx:60-62 | lowering keeps the length, leaves no capital letter, lowers each capital by 32 code points and keeps every other character |
| `Strings.ToLowerIdempotent` | App.tsx:60-62 | lowering twice is lowering once |
| `Strings.Includes` | App.tsx:60-62 | `includes` as a left-to-right scan; it succeeds exactly when the word occurs at some index of the text, the empty word included |
| `Strings.AbsentAfterLowering` | App.tsx:60-62 | a small letter that no character of the text lowers to (the letter is absent in both cases) is absent from the lowered text |
| `Strings.NoOccurrenceWithoutChar` | App.tsx:60-62 | a word containing a character the text lacks occurs nowhere in the text |
| `Strings.NoOccurrenceWithoutPair` | App.tsx:60-62 | a word with two neighbouring letters that never stand side by side in the lowered text occurs nowhere in it |
| `Concierge.ToHistory` | App.tsx:44-47 | the history has one entry per transcript turn, in order; each keeps its text as a single part; the role is `user` exactly when the turn's role is `user`, otherwise `model` |
| `Concierge.HistoryLossless` | App.tsx:44-47 | every history entry reads back as the exact turn it came from, so no text or speaker is lost |
| `Concierge.ToHistoryAppend` | App.tsx:41-47 | the history of a longer transcript extends the history of the shorter one, so the history sent before the new user turn is the new history minus that turn's entry |
| `Morph.Flip` | App.tsx:29-33 | toggling always changes the status (`TREE_SHAPE` to `SCATTERED` and back) |
| `Morph.FlipTwice` | App.tsx:29-33 | toggling twice restores the status |
| `Morph.Classify` | App.tsx:60-64 | the rule, written as the source writes it, forces `SCATTERED` exactly when the lowered text contains "scatter" or "disperse"; it forces `TREE_SHAPE` exactly when it contains no scatter word but "shape", "form" or "tree"; it forces nothing exactly when it contains none of the five |
| `Morph.Next` | App.tsx:60-64 | after an exchange the status is `SCATTERED` whenever a scatter word appears, whatever the prior status and even beside a shape word; otherwise `TREE_SHAPE` when a shape word appears; otherwise the prior status |
| `Morph.NextIgnoresCase` | App.tsx:60-62 | lowering the text first does not change the resulting status |
| `Morph.NoScatterWord` | App.tsx:60 | text lacking a letter of "scatter" and a letter of "disperse", in both cases, asks for no scatter |
| `Morph.NoShapeWord` | App.tsx:62 | text lacking a letter of each of "shape", "form" and "tree", in both cases, asks for no shape |
| `Morph.ExampleFormTheTree` | App.tsx:62-63 | "Please form the tree now" assembles a scattered tree |
| `Morph.ExampleScatterTheLights` | App.tsx:60-61 | "scatter the lights" scatters an assembled tree |
| `Morph.ExampleScatterBeatsTree` | App.tsx:60-63 | "Scatter this tree" scatters: the scatter test comes first |
| `Morph.ExampleSubstrings` | App.tsx:62-63 | "information" and "street" assemble the tree, as substring matches of "form" and "tree" |
| `Morph.ExampleNoKeyword` | App.tsx:60-64 | "Happy holidays!" leaves any status unchanged |
| `Morph.ExampleMerryChristmas` | App.tsx:60-64 | "Merry Christmas!" leaves any status unchanged, although it holds every letter of "scatter" and of "tree" |
| `App.AskKeepsShape` | App.tsx:39-41 | appending a trimmed, non-empty user turn to a settled transcript leaves one unanswered user turn after it |
| `App.AnswerSettles` | App.tsx:52 | appending the reply to a transcript with one unanswered user turn settles it: turns alternate again |
| `App.Retune` | App.tsx:54-58 | given two draws of `Math.random()` in [0, 1), the light intensity lands in [1.5, 2.5), the rotation speed in [0.2, 0.5), and the glow colour and ornament density are kept |
| `App.Session.constructor` | App.tsx:12-16 | the session starts with no turns, an empty text box, no reply pending, the initial configuration and the assembled tree, and is settled |
| `App.Session.SetInput` | App.tsx:171-172 | typing replaces the text box's content and nothing else |
| `App.Session.ToggleMorph` | App.tsx:29-33 | the status is flipped and no other field changes |
| `App.Session.BeginSend` | App.tsx:36-47 | input that trims to nothing (by `Strings.TrimEmptyIffBlank`, blank input) changes nothing, not even the text box; otherwise the box is emptied, the trimmed text is appended as a user turn, the waiting flag is raised and the request holds the trimmed text and the history of the transcript before that turn; a settled session becomes one waiting for a reply |
| `App.Session.FinishSend` | App.tsx:51-64 | the waiting flag is lowered, the reply is appended as an assistant turn, the tuning is redrawn and the status follows the keyword rule on the user text of the request `BeginSend` returned, not on the reply; a waiting session becomes settled |
| `App.Session.Submit` | App.tsx:35-65 | input that trims to nothing changes no field; otherwise the transcript grows by exactly the user turn and then the reply, the earlier turns unchanged, the box is empty, no reply is pending, glow colour and density are kept, the status follows the keyword rule, and the history sent excludes the new user turn; a settled session stays settled |

## Left out

- The concierge call (`getResponse`, App.tsx:49) lives in a service file that is not part of this model: whatever string it resolves to is the `reply` parameter, so a reply the service composes itself (an apology, say) is appended like any other. If the call rejects, the handler has no `catch`: it still builds the history (lines 44-47) and stops at the `await` on line 49, so its last state change is line 42: the user turn stays, `isTyping` stays true and no reply is appended, which is the state `App.Session.BeginSend` leaves; the model has no separate rejection path.
- `App.Retune`: the half-open ranges [1.5, 2.5) and [0.2, 0.5) hold for the model's exact reals, not for the source's doubles. `Math.random()` returns a double in [0, 1), but the sums at App.tsx:56-57 are rounded: 1.5 + (1 − 2⁻⁵²) rounds to exactly 2.5, so in the source the light intensity lies in [1.5, 2.5]. The model takes the two draws as parameters and does not model rounding.
- Overlapping submissions: the send button is not disabled while a reply is pending, and the history is built from the `messages` captured when the handler was created. The model treats one submission as atomic, so the captured transcript is the current one; interleavings of two pending submissions are not modelled.
- React's batching of state updates is not modelled: each `set…` call is an assignment in program order.
- `Strings.Trim` and `Strings.ToLower` cover ASCII only: JavaScript's `trim` also removes Unicode spaces and line terminators, and `toLowerCase` folds non-ASCII letters.
- Rendering: the 3D scene, camera, lights, post-processing, layout, `scrollToBottom` and the status label are display only.
- `ConciergeTone` and every constant other than the initial tree configuration are unused by the session logic.

The keyword rule runs on `userMsg`, the trimmed text (App.tsx:39, 60-62), and the model applies it to that text; since no keyword contains whitespace, the raw input would give the same outcome.
