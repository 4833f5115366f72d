# Hand-sign chat component: gesture selection and component state

This project models the part of the student web app's `Home` component
(`src/App.js`) that can be reasoned about without the camera, the hand-landmark
model or the network:

- **Best-gesture selection.** The gesture estimator returns candidate letters
  with confidence scores. The component keeps one of them with
  `reduce((prev, current) => prev.score > current.score ? prev : current, gestures[0])`.
  Module `Gestures` models this fold and proves three things about the winner. It
  is an element of the list. It scores at least as much as every element. It is
  the *last* element with the maximal score, as defined independently by
  `LastMaxIndex`, which scans from the right.
- **Component state.** The component holds the text being composed, the chat
  history, the last detected letter and the camera switch. Module `Chat` gives
  each handler as a transition on a `State` value: incoming socket message, send
  button, reset button, camera button, typing, and one detection cycle. It also
  gives `Run`, which applies a sequence of such events. Module `Component` holds
  the class `Home`, whose fields are the four state hooks. Its methods update
  those fields in place, and each one is proved to perform the matching `Chat`
  transition.
- **Trimming.** The send button posts only when `inputText.trim()` is non-empty.
  Module `Whitespace` models `trim` over the ECMAScript white-space and
  line-terminator code points. It proves that the trimmed text is empty exactly
  when every character is white space.

The camera's readiness, the detected hands and the estimator are inputs to a
detection cycle. The estimator is a function from a hand's landmarks and the
minimum confidence (6.5) to an optional list of candidates; `None` stands for a
result without a `gestures` list. Scores are `real` and are only compared.

On a tie the later element wins: the step at src/App.js:108 keeps the
accumulator only when its score is strictly greater (`Gestures.TieGoesToLater`).

The send handler's effect depends on the WebSocket's connection state, which is
an input (`Chat.Socket`). The student line is appended before the socket is used.
While the socket is still connecting, `send` throws, so the handler never clears
the input. On a closing or closed socket, `send` discards the text without
throwing, and the input is cleared.

## Model

| member | source | states |
|---|---|---|
| `Gestures.Fold` | src/App.js:107-110 | the fold from an accumulator returns the accumulator or an element of the list, and scores at least as much as the accumulator and every element |
| `Gestures.LastMaxIndex` | src/App.js:107-110 | the right-to-left reference scan returns the index of the last element of maximal score |
| `Gestures.LastMaxUnique` | src/App.js:107-110 | at most one index is the last maximal one |
| `Gestures.FoldPicksLastMax` | src/App.js:107-110 | from any accumulator, the fold ends on the accumulator if it beats the last maximum strictly, and on the last maximum otherwise |
| `Gestures.SelectBest` | src/App.js:106-110 | the selected gesture of a non-empty list is an element, has a score no element exceeds, and is the element at the last maximal index |
| `Gestures.TieGoesToLater` | src/App.js:108 | when two elements share the maximal score, the selection is at or after the later one |
| `Gestures.TieExample` | src/App.js:108 | two letters tied at 7.0: the second is selected |
| `Whitespace.TrimStart` | src/App.js:137 | leading trim leaves a suffix that does not start with white space, and everything dropped is white space |
| `Whitespace.TrimEnd` | src/App.js:137 | trailing trim leaves a prefix that does not end with white space, and everything dropped is white space |
| `Whitespace.TrimEmptyIffBlank` | src/App.js:137 | the trimmed text is empty exactly when every character is white space |
| `Chat.SendSpec` | src/App.js:136-147 | a blank input transmits nothing and changes nothing; otherwise exactly `"Student: " + text` (untrimmed) is appended, the input is kept when the socket is connecting (`send` throws) and emptied otherwise, the text is transmitted only on an open socket, and the rest is unchanged |
| `Chat.SendTwice` | src/App.js:136-147 | after a send that did not throw the input is blank, so sending again changes nothing |
| `Chat.SendWhileConnecting` | src/App.js:136-146 | while the socket is connecting a non-blank input is kept, so two clicks append the student line twice |
| `Chat.ReceiveSpec` | src/App.js:40-42 | an incoming message appends exactly `"Teacher: " + data`, keeps the earlier entries and leaves the other state unchanged |
| `Chat.ResetSpec` | src/App.js:132-134 | reset empties the input only and is idempotent |
| `Chat.ToggleSpec` | src/App.js:128-130 | the camera switch alternates between "on" and "off", and two presses restore the state |
| `Chat.DetectSpec` | src/App.js:60-117 | a cycle changes nothing when the video is not ready, no hand is seen, or there are no candidates; otherwise a named best candidate of the first hand is shown and appended to the input; history and camera never change |
| `Chat.DetectUsesFirstHandOnly` | src/App.js:71-103 | hands after the first have no influence on a cycle |
| `Chat.ApplyHistory` | src/App.js:40-147 | any single event keeps the history or appends one teacher or student line; events other than receive and send keep it |
| `Chat.RunHistory` | src/App.js:40-147 | over any sequence of events the history is append-only, grows by at most one entry per event, and every new entry is a teacher or student line |
| `Chat.RunQuiet` | src/App.js:40-147 | events without receives and sends leave the history exactly as it was |
| `Chat.ApplyValid` | src/App.js:30-33 | every event keeps the camera switch at "on" or "off" and any shown letter non-empty |
| `Chat.RunValid` | src/App.js:30-33 | every state reached from a valid one is valid |
| `Chat.ApplyCamera` | src/App.js:128-130 | only a camera press moves the switch, and it flips it |
| `Chat.RunCamera` | src/App.js:128-130 | after any events, the camera is as it was after an even number of presses and flipped after an odd number |
| `Component.Home.constructor` | src/App.js:30-33 | at mount the camera is "on", nothing is detected, the input is empty and the history is empty |
| `Component.Home.OnMessage` | src/App.js:40-42 | the history becomes the old history plus `"Teacher: " + data`; nothing else changes |
| `Component.Home.Detect` | src/App.js:60-121 | performs `Chat.Detect` in place; no change when the video is not ready or no hand is seen; otherwise either nothing changes or a non-empty name is shown and appended to the input |
| `Component.Home.TurnOffCamera` | src/App.js:128-130 | performs `Chat.Toggle` in place: "on" becomes "off" and anything else becomes "on" |
| `Component.Home.ResetInput` | src/App.js:132-134 | performs `Chat.Reset` in place: the input becomes empty, nothing else changes |
| `Component.Home.EditInput` | src/App.js:217 | performs `Chat.Edit` in place: the input becomes the typed value |
| `Component.Home.SendMessage` | src/App.js:136-148 | performs `Chat.Send` in place and returns what the socket transmits: a non-blank input is appended as the student's line; the input is kept on a connecting socket and cleared otherwise; the untrimmed text is transmitted only on an open socket |

## Left out

- Webcam frame sizing, canvas sizing and `drawHand` (src/App.js:62-69, 119-120): drawing on the page. The video's readiness is an input (`webcamMounted`, `readyState`).
- Whether the webcam is mounted is not derived from `camState`. Turning the camera off unmounts the webcam and so stops detection, but that link goes through the page's rendering. The model takes the mounted flag as an input.
- `handpose.load` and `net.estimateHands` (src/App.js:54, 71): an external neural network. The detected hands are an input sequence.
- The gesture estimator, the 26 letter descriptors and the way the 6.5 threshold filters candidates (src/App.js:74-103): library code that is not part of this model, with floating-point scoring. The estimator is a function parameter, and the threshold is only passed to it.
- The one-second `setInterval` loop (src/App.js:55-57): cycles run on a timer and may overlap while the estimator is pending. The model applies cycles one at a time, in the order given to `Chat.Run`.
- WebSocket creation and `close` (src/App.js:37, 46-50): network plumbing. The socket's connection state is an input to `send`, and what it transmits is the value `SendMessage` returns. The model assumes the socket reference is always set after mount (line 142). An exception thrown by `send` is modelled only as the handler stopping early; the error reaching React is not modelled.
- Rendering, the Chakra components and `console.log` (src/App.js:104, 150-241): presentation. Only the input box's `onChange` (line 217) is modelled, as `EditInput`.
- `Whitespace.IsWhitespace` uses the Unicode space separators as of Unicode 15. A later Unicode version that adds space separators would make JavaScript's `trim` remove characters that this set does not.
