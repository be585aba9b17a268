/**
  The image form's state and its three event handlers: choosing files,
  toggling the invert checkbox, and submitting.

  The outside world enters as parameters: the answer to the confirmation
  dialog, the outcome of the request to the recognition service, and the
  storage's answer to the history write. What the handlers do to the outside
  world (dialogs, the request, console output) is returned as a trace of
  effects.

  Submitting is asynchronous in the source: the handler shows the
  confirmation dialog and returns with `loading` set, and a continuation runs
  once the dialog is answered. The continuation works on the file and flag
  captured when the handler ran, so the model splits submitting into
  `BeginSubmit`, which yields that snapshot, and `Resolve`, which applies it
  to whatever the form holds by then.
*/
module ImageForm {
  import opened Wrappers
  import opened History

  /** A chosen file: its name and its bytes, which are sent unread. */
  datatype FileRef = FileRef(name: string, content: seq<bv8>)

  /** The form's state: the selected file, the invert flag, whether a
      submission is in flight (which disables the submit button), and the
      recognition result on display. */
  datatype Form = Form(file: Option<FileRef>, invert: bool, loading: bool, shown: Option<Recognition>)

  /** The form as first rendered. */
  const Initial: Form := Form(None, false, false, None)

  /** The form together with the history store it appends to. */
  datatype World = World(form: Form, store: Stored)

  /** Errors that the submit continuation catches and only logs. */
  datatype Failure = NetworkFailure | BodyFailure | HistoryFailure(cause: HistoryError)

  /** What a handler does that the outside world can observe. */
  datatype Effect =
    | NoImageAlert                                // error dialog: an image must be uploaded
    | ConfirmPrompt                               // the yes/no confirmation dialog
    | Request(invertField: string, image: FileRef) // the multipart POST to the service
    | StatusAlert(text: string)                   // error dialog for a non-OK response
    | ErrorLogged(failure: Failure)               // an error written to the console
    | InvertLogged(value: bool)                   // the checkbox handler's console line

  /** How the request ends: it throws, it answers with a non-OK status, its
      body cannot be parsed, or it answers OK with a recognition. */
  datatype NetOutcome =
    | FetchFails
    | NotOk(statusText: string)
    | BodyUnreadable
    | OkBody(data: Recognition)

  /** A handler's resulting world and the effects it had, in order. */
  datatype Step = Step(world: World, effects: seq<Effect>)

  /** The file and invert flag the submit handler captured for its continuation. */
  datatype Pending = Pending(file: FileRef, invert: bool)

  /** The synchronous part of submitting, and the snapshot its continuation
      will use when a confirmation dialog was opened. */
  datatype Started = Started(step: Step, pending: Option<Pending>)

  /** A boolean as a template literal renders it. */
  function BoolText(b: bool): string
  {
    if b then "true" else "false"
  }

  /** The number of requests sent in a trace of effects. */
  function Requests(effects: seq<Effect>): nat
    decreases |effects|
  {
    if |effects| == 0 then 0
    else (if effects[0].Request? then 1 else 0) + Requests(effects[1..])
  }

  lemma {:induction false} RequestsOfConcat(a: seq<Effect>, b: seq<Effect>)
    ensures Requests(a + b) == Requests(a) + Requests(b)
    decreases |a|
  {
    if |a| > 0 {
      assert (a + b)[1..] == a[1..] + b;
      RequestsOfConcat(a[1..], b);
    } else {
      assert a + b == b;
    }
  }

  /** File-input change: the first chosen file replaces the selection, and an
      empty choice keeps the previous one. Its only other effect, a new
      preview image, is not modelled, so the trace is empty. */
  function HandleFileChange(w: World, files: seq<FileRef>): (r: Step)
    ensures |files| > 0 ==> r.world.form.file == Some(files[0])
    ensures |files| == 0 ==> r.world.form.file == w.form.file
    // a selection, once made, is never cleared
    ensures w.form.file.Some? ==> r.world.form.file.Some?
    // only the selection changes
    ensures r.world.(form := r.world.form.(file := w.form.file)) == w
    ensures r.effects == []
  {
    if |files| > 0 then Step(w.(form := w.form.(file := Some(files[0]))), []) else Step(w, [])
  }

  /** Checkbox change: the flag flips, the new value is written to the
      console, and nothing else changes. */
  function ToggleInvert(w: World): (r: Step)
    ensures r.world.form.invert != w.form.invert
    ensures r.world.(form := r.world.form.(invert := w.form.invert)) == w
    // the console line shows the flag's new value
    ensures r.effects == [InvertLogged(!w.form.invert)]
  {
    Step(w.(form := w.form.(invert := !w.form.invert)), [InvertLogged(!w.form.invert)])
  }

  /** The synchronous part of the submit handler. Without a file it raises the
      no-image dialog and stops; with one it opens the confirmation dialog,
      leaves `loading` set, and captures the file and flag. */
  function BeginSubmit(w: World): (r: Started)
    ensures r.step.world.store == w.store
    ensures r.step.world.form.(loading := w.form.loading) == w.form
    ensures r.pending.Some? <==> w.form.file.Some?
    ensures w.form.file.None? ==> !r.step.world.form.loading && r.step.effects == [NoImageAlert]
    ensures w.form.file.Some? ==>
              && r.step.world.form.loading
              && r.step.effects == [ConfirmPrompt]
              && r.pending == Some(Pending(w.form.file.value, w.form.invert))
  {
    var busy := w.form.(loading := true);
    match w.form.file
    case None => Started(Step(World(busy.(loading := false), w.store), [NoImageAlert]), None)
    case Some(file) => Started(Step(World(busy, w.store), [ConfirmPrompt]), Some(Pending(file, w.form.invert)))
  }

  /** Whether the outside world lets a submission through to the history:
      the dialog is confirmed, the service answers OK and the write is accepted. */
  predicate Accepted(confirmed: bool, net: NetOutcome, writeOk: bool)
  {
    confirmed && net.OkBody? && writeOk
  }

  /** Whether a submission ends with an entry appended to the history in `s`:
      the outside world accepts it and the stored list can be read. */
  predicate Records(s: Stored, confirmed: bool, net: NetOutcome, writeOk: bool)
  {
    Accepted(confirmed, net, writeOk) && !s.Corrupt?
  }

  /** The continuation that runs once the confirmation dialog is answered,
      applied to the world as it is by then, with the captured snapshot `p`. */
  function Resolve(w: World, p: Pending, confirmed: bool, net: NetOutcome, writeOk: bool): (r: Step)
    // every path ends with the button enabled again
    ensures !r.world.form.loading
    // the selection and the flag are never touched
    ensures r.world.form.file == w.form.file && r.world.form.invert == w.form.invert
    // one request exactly when confirmed, carrying the captured file and flag
    ensures Requests(r.effects) == (if confirmed then 1 else 0)
    ensures confirmed ==> r.effects[0] == Request(BoolText(p.invert), p.file)
    // after the request comes one dialog or log line, unless the entry was recorded
    ensures confirmed ==> |r.effects| == (if Records(w.store, confirmed, net, writeOk) then 1 else 2)
    // declining does nothing beyond re-enabling the button
    ensures !confirmed ==> r.effects == [] && r.world == w.(form := w.form.(loading := false))
    // a non-OK response raises an error dialog with its status text
    ensures confirmed && net.NotOk? ==> r.effects[1] == StatusAlert("Error: " + net.statusText)
    // a throwing request or body is only logged
    ensures confirmed && net.FetchFails? ==> r.effects[1] == ErrorLogged(NetworkFailure)
    ensures confirmed && net.BodyUnreadable? ==> r.effects[1] == ErrorLogged(BodyFailure)
    // the result is shown exactly when the service answered OK
    ensures confirmed && net.OkBody? ==> r.world.form.shown == Some(net.data)
    ensures !(confirmed && net.OkBody?) ==> r.world.form.shown == w.form.shown
    // the history gains exactly the new entry, placed last, or is left alone
    ensures Records(w.store, confirmed, net, writeOk) ==>
              Load(r.world.store) == Ok(Load(w.store).value + [Entry(p.file.name, p.invert, net.data)])
    ensures !Records(w.store, confirmed, net, writeOk) ==> r.world.store == w.store
    // a failed append is logged, and the result stays shown
    ensures confirmed && net.OkBody? && !Records(w.store, confirmed, net, writeOk) ==>
              r.effects[1] == ErrorLogged(HistoryFailure(if w.store.Corrupt? then ParseFailure else WriteFailure))
  {
    var idle := w.form.(loading := false);
    if !confirmed then Step(w.(form := idle), [])
    else
      var sent := [Request(BoolText(p.invert), p.file)];
      match net
      case FetchFails =>
        RequestsOfConcat(sent, [ErrorLogged(NetworkFailure)]);
        Step(w.(form := idle), sent + [ErrorLogged(NetworkFailure)])
      case NotOk(statusText) =>
        RequestsOfConcat(sent, [StatusAlert("Error: " + statusText)]);
        Step(w.(form := idle), sent + [StatusAlert("Error: " + statusText)])
      case BodyUnreadable =>
        RequestsOfConcat(sent, [ErrorLogged(BodyFailure)]);
        Step(w.(form := idle), sent + [ErrorLogged(BodyFailure)])
      case OkBody(data) =>
        var showing := idle.(shown := Some(data));
        match SaveToHistory(w.store, Entry(p.file.name, p.invert, data), writeOk)
        case Ok(s) => Step(World(showing, s), sent)
        case Err(e) =>
          RequestsOfConcat(sent, [ErrorLogged(HistoryFailure(e))]);
          Step(World(showing, w.store), sent + [ErrorLogged(HistoryFailure(e))])
  }

  /** The continuation reads only its captured snapshot, so a checkbox change
      made while the request is in flight has the same outcome whether it
      comes before or after the continuation; only the trace order differs. */
  lemma ResolveCommutesWithToggle(w: World, p: Pending, confirmed: bool, net: NetOutcome, writeOk: bool)
    ensures Resolve(ToggleInvert(w).world, p, confirmed, net, writeOk).world
         == ToggleInvert(Resolve(w, p, confirmed, net, writeOk).world).world
    // the continuation's own effects do not depend on the change either
    ensures Resolve(ToggleInvert(w).world, p, confirmed, net, writeOk).effects
         == Resolve(w, p, confirmed, net, writeOk).effects
  {
  }

  /** Likewise for a file choice made while the request is in flight. */
  lemma ResolveCommutesWithFileChange(w: World, files: seq<FileRef>, p: Pending, confirmed: bool, net: NetOutcome, writeOk: bool)
    ensures Resolve(HandleFileChange(w, files).world, p, confirmed, net, writeOk).world
         == HandleFileChange(Resolve(w, p, confirmed, net, writeOk).world, files).world
    ensures Resolve(HandleFileChange(w, files).world, p, confirmed, net, writeOk).effects
         == Resolve(w, p, confirmed, net, writeOk).effects
  {
  }

  /** The whole submission: the handler, then its continuation on the world
      the handler left, with no other event in between. */
  function HandleSubmit(w: World, confirmed: bool, net: NetOutcome, writeOk: bool): (r: Step)
    ensures !r.world.form.loading
    ensures r.world.form.file == w.form.file && r.world.form.invert == w.form.invert
    // no file: the no-image dialog, and nothing else happens
    ensures w.form.file.None? ==>
              r.effects == [NoImageAlert] && r.world == w.(form := w.form.(loading := false))
    // a request is sent, exactly once, iff there is a file and the dialog is confirmed
    ensures Requests(r.effects) == (if w.form.file.Some? && confirmed then 1 else 0)
    ensures w.form.file.Some? && confirmed ==>
              Request(BoolText(w.form.invert), w.form.file.value) in r.effects
    // the shown result changes only on an OK response
    ensures w.form.file.Some? && confirmed && net.OkBody? ==> r.world.form.shown == Some(net.data)
    ensures !(w.form.file.Some? && confirmed && net.OkBody?) ==> r.world.form.shown == w.form.shown
    // the history grows by the one new entry on a recorded OK response, and is otherwise unchanged
    ensures w.form.file.Some? && Records(w.store, confirmed, net, writeOk) ==>
              Load(r.world.store) ==
              Ok(Load(w.store).value + [Entry(w.form.file.value.name, w.form.invert, net.data)])
    ensures !(w.form.file.Some? && Records(w.store, confirmed, net, writeOk)) ==> r.world.store == w.store
  {
    var started := BeginSubmit(w);
    match started.pending
    case None => started.step
    case Some(p) =>
      var rest := Resolve(started.step.world, p, confirmed, net, writeOk);
      RequestsOfConcat(started.step.effects, rest.effects);
      Step(rest.world, started.step.effects + rest.effects)
  }
}
