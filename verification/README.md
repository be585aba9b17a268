# Image submission form: a Dafny model

This project models the submission workflow of the `ImageForm` component of an
image-recognition front end. A user picks an image and may tick an "invert"
checkbox. On submit the form asks for confirmation and posts the image to a
recognition service. It shows the answer (prediction, accuracy, processing
time) and appends the submission to a history kept in browser storage under
the key `imageHistory`.

The model is functional. The form state is an immutable record
(`ImageForm.Form`: selected file, invert flag, `loading`, shown result). The
history store is a value (`History.Stored`). Each handler is a pure function
from the old form and store to a new form and store plus a trace of observable
effects: dialogs, the request, and console output. The file-input handler's
trace is empty, because its one effect, the preview image, is not modelled.
The outside world enters as parameters:

- the answer to the confirmation dialog;
- the outcome of the request (`FetchFails`, `NotOk(statusText)`, `BodyUnreadable`, `OkBody(data)`);
- whether storage accepts the history write.

Submitting is asynchronous in the source. The handler opens the dialog and
returns with `loading` set. The continuation later uses the file and flag that
the handler captured. So `BeginSubmit` yields that snapshot, and `Resolve`
applies it to the form as it is by then. `HandleSubmit` composes the two.
`Session.Run` handles a sequence of user events one after another. The
session lemmas compare a run with reference definitions that read only the
events and the starting form.

Files:

- `wrappers.dfy`: `Option` and `Result`.
- `history.dfy`: the stored value, reading it, `SaveToHistory`, repeated appends.
- `image_form.dfy`: form state, file change, checkbox toggle, and submit.
- `session.dfy`: event sequences and their properties.

The model follows the code as written:

- A malformed stored history is not treated as empty. The parse at line 33
  throws. The `try` at line 65 catches it, the error is only logged, and the
  entry is lost. `Session.RunKeepsCorruptStore` shows that such a store is never
  repaired or extended afterwards.
- A failed history write is not passed back to anyone. It is caught and logged,
  and the recognition result set at line 85 stays shown.
- There is no last-submission-wins guard. The only protection against
  overlapping submissions is the submit button, which is disabled while
  `loading` is set (line 156).
- The submission state is the `loading` flag plus the pending snapshot. A
  submit without a file shows an error dialog and clears `loading`.

## Model

| member | source | states |
|---|---|---|
| History.Load | src/components/ImageForm/index.tsx:32-33 | an absent or empty stored value reads as the empty list; only a malformed value makes the read throw |
| History.SaveToHistory | src/components/ImageForm/index.tsx:27-36 | the append succeeds exactly when the old list is readable and the write is accepted; reading back gives the old list in order with the entry last; an absent or empty value yields just `[entry]`; a malformed value throws rather than being taken for empty |
| History.SaveEachKeepsCallOrder | src/components/ImageForm/index.tsx:27-36 | appends made one after another on a readable store, with every write accepted, all succeed, and a read then gives the old list followed by every appended entry in call order |
| History.FreshStoreHoldsExactlyTheAppends | src/components/ImageForm/index.tsx:32-35 | after N appends to an empty store a read yields exactly those N entries in call order |
| ImageForm.HandleFileChange | src/components/ImageForm/index.tsx:17-25 | a non-empty choice selects its first file; an empty choice keeps the previous selection; a selection is never cleared; nothing but the selection changes, and nothing observable happens besides the (unmodelled) preview |
| ImageForm.ToggleInvert | src/components/ImageForm/index.tsx:122-125 | each checkbox change flips the flag, writes the new value to the console, and changes nothing else |
| ImageForm.BeginSubmit | src/components/ImageForm/index.tsx:38-58 | without a file: the no-image dialog, `loading` cleared, no continuation; with a file: the confirmation dialog, `loading` set, the current file and flag captured; the history and the form's fields are not touched |
| ImageForm.Resolve | src/components/ImageForm/index.tsx:59-99 | `loading` ends false; one request exactly when confirmed, carrying the captured file and flag as "true"/"false"; declining changes nothing else; after the request comes exactly one further effect, or none when the entry is recorded; a non-OK status raises a dialog with "Error: " and the status text; a throwing request or body is only logged; the result is shown exactly on an OK answer; the history gains exactly the new entry, placed last, exactly when the answer is OK, the write is accepted and the old list is readable, and is otherwise left unchanged; a failed append is logged while the result stays shown |
| ImageForm.ResolveCommutesWithToggle | src/components/ImageForm/index.tsx:59-91 | a checkbox change arriving while a request is in flight gives the same form and history whether handled before or after the continuation, and the continuation's own effects are the same, because it uses the captured flag |
| ImageForm.ResolveCommutesWithFileChange | src/components/ImageForm/index.tsx:59-91 | a file choice arriving while a request is in flight gives the same form and history whether handled before or after the continuation, and the continuation's own effects are the same, because it uses the captured file |
| ImageForm.HandleSubmit | src/components/ImageForm/index.tsx:38-100 | without a file only the no-image dialog appears and nothing else changes; a request is sent, once, exactly when a file is selected and the dialog is confirmed; the shown result changes only on an OK answer; the history grows by exactly one entry `{file name, invert, data}` on a recorded OK answer and is otherwise unchanged; `loading` ends false |
| Session.RunEndsIdle | src/components/ImageForm/index.tsx:38-100 | after any sequence of events handled to completion, no submission is left in flight |
| Session.RunInvertParity | src/components/ImageForm/index.tsx:122-125 | the flag after a run is the starting flag flipped once per checkbox change |
| Session.FreshFormInvertParity | src/components/ImageForm/index.tsx:8-8 | on a freshly rendered form the flag is set exactly when the checkbox has been changed an odd number of times |
| Session.RunFileIsLastChosen | src/components/ImageForm/index.tsx:17-24 | the selection after a run is the first file of the last non-empty choice, or the starting selection if there was none |
| Session.RunRequestsPerConfirmation | src/components/ImageForm/index.tsx:59-73 | from any starting form, including a freshly rendered one, a run sends exactly one request per submission confirmed while a file is selected, and none for declined submissions or submissions without a file |
| Session.RunWithoutFileIsInert | src/components/ImageForm/index.tsx:42-51 | if no file is ever chosen, a run sends no request and leaves the history and the shown result unchanged |
| Session.RunShowsLatestResult | src/components/ImageForm/index.tsx:83-85 | from any starting form, the shown result is that of the last submission made with a file selected that was confirmed and answered OK, whether or not its history write succeeded, or the starting result if there was none |
| Session.RunHistoryIsChronological | src/components/ImageForm/index.tsx:83-91 | a readable history ends as itself followed by one entry per confirmed, OK and written submission made with a file selected, in submission order, each carrying the file name and flag current at that moment |
| Session.RunHistoryGrowth | src/components/ImageForm/index.tsx:83-91 | from any starting form with a readable history, the history grows by exactly the number of submissions made with a file selected that were confirmed, answered OK and written |
| Session.RunKeepsCorruptStore | src/components/ImageForm/index.tsx:32-34 | a malformed stored history stays exactly as it is through any run: it is neither repaired nor extended |
| Session.CatScenario | src/components/ImageForm/index.tsx:83-91 | choosing "cat.png", ticking the checkbox and submitting, with the service answering `{cat, 97.5, 120ms}`, records exactly `{cat.png, true, {cat, 97.5, 120ms}}`, shows that answer and sends one request |

## Left out

- Rendering: the JSX, CSS classes and the green/red colouring of accuracies above 50 are presentation only (lines 102-193).
- The image preview: `URL.createObjectURL` is a browser call with no logic (lines 22-23).
- Dialog content: each dialog becomes an effect in the trace, and the confirmation dialog becomes a boolean answer. The Spanish titles and button labels are not modelled. The non-OK dialog keeps its "Error: " text.
- The network: `fetch`, `FormData` and the fixed endpoint URL become the `NetOutcome` parameter. The request's fields are kept: `invert` as the text "true"/"false", and the image.
- Serialization: the stored JSON is assumed to round-trip. A stored array whose elements are not entries is not modelled. Any stored value the parser rejects, or that parses to something other than an array, is `Corrupt`.
- Storage failures other than a refused write, such as reading throwing, are not modelled. A refused write is the `writeOk` parameter.
- `accuracy` is a floating-point number in the source and a `real` here. Nothing in the core computes with it.
- Overlapping submissions: the asynchronous interleaving of two in-flight submissions is concurrency. A session handles each event to completion. File and checkbox changes made during a request are handled before or after it; the two commutation lemmas show that the form, the history and the continuation's own effects are the same either way, so only the interleaving of the trace differs.
- Response bodies: an OK response body is assumed to be a recognition. The source casts the parsed body without checking it (line 84): a `null` body clears the shown result (the panel at line 171 hides) and is stored as `response: null`; a body lacking the fields is shown and stored as it is.
- Settling: every request and every dialog is assumed to settle. The source sets no timeout and passes no abort signal to the request (lines 67-73), so a request or confirmation that never settles would leave `loading` set and the submit button disabled (line 156); `Session.RunEndsIdle` holds only for events handled to completion.
- A file input whose file list is null is modelled as an empty choice.
- The second `setLoading(true)` at line 66 and the `finally` at line 95 are not visible between events; only the final `loading` value is modelled.
- The navigation button, routing (`App.tsx`) and the history view: `src/components/History` is not part of this model.
