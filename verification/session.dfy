/**
  A session with the image form: a sequence of user events, each handled to
  completion before the next. A second submission cannot start while one is
  in flight, because the submit button is disabled. File and checkbox changes
  can arrive while a request is in flight, but the continuation reads only
  the file and flag it captured, so handling them before or after it gives
  the same form and history (`ResolveCommutesWithToggle`,
  `ResolveCommutesWithFileChange`); only the order of the trace differs.

  The lemmas compare a run with reference definitions that follow only the
  events and the starting form: which file and flag are current, which
  submissions were confirmed, and which were answered OK and written.
*/
module Session {
  import opened Wrappers
  import opened History
  import opened ImageForm

  /** A user event, with the outside world's answers for a submission. */
  datatype Event =
    | FilesChosen(files: seq<FileRef>)
    | InvertToggled
    | Submitted(confirmed: bool, net: NetOutcome, writeOk: bool)

  /** One event handled to completion. */
  function Apply(w: World, e: Event): Step
  {
    match e
    case FilesChosen(files) => HandleFileChange(w, files)
    case InvertToggled => ToggleInvert(w)
    case Submitted(confirmed, net, writeOk) => HandleSubmit(w, confirmed, net, writeOk)
  }

  /** The events handled in order; the effects are concatenated in order. */
  function Run(w: World, events: seq<Event>): Step
    decreases |events|
  {
    if |events| == 0 then Step(w, [])
    else
      var first := Apply(w, events[0]);
      var rest := Run(first.world, events[1..]);
      Step(rest.world, first.effects + rest.effects)
  }

  // ---------------------------------------------------------------------
  // Reference definitions, read off the events and the starting form

  /** How many times the checkbox was changed. */
  function Toggles(events: seq<Event>): nat
    decreases |events|
  {
    if |events| == 0 then 0
    else (if events[0].InvertToggled? then 1 else 0) + Toggles(events[1..])
  }

  /** The selection after event `e`, given the selection `file` before it. */
  function Chosen(e: Event, file: Option<FileRef>): Option<FileRef>
  {
    if e.FilesChosen? && |e.files| > 0 then Some(e.files[0]) else file
  }

  /** The first file of the last non-empty choice, or `file` if there was none. */
  function LastChosen(events: seq<Event>, file: Option<FileRef>): Option<FileRef>
    decreases |events|
  {
    if |events| == 0 then file
    else LastChosen(events[1..], Chosen(events[0], file))
  }

  /** Whether every file choice among the events was empty. */
  predicate ChoosesNoFile(events: seq<Event>)
  {
    forall i :: 0 <= i < |events| && events[i].FilesChosen? ==> |events[i].files| == 0
  }

  /** How many submissions were confirmed while a file was selected, starting
      from the selection `file`. */
  function Confirmed(events: seq<Event>, file: Option<FileRef>): nat
    decreases |events|
  {
    if |events| == 0 then 0
    else
      var e := events[0];
      (if e.Submitted? && e.confirmed && file.Some? then 1 else 0) + Confirmed(events[1..], Chosen(e, file))
  }

  /** Whether an event is a submission that the dialog, the service and the
      storage all let through. Unlike `Records`, this does not look at the
      store: the lemmas that use it assume a readable store, which every
      run keeps readable. */
  predicate Succeeds(e: Event)
  {
    e.Submitted? && Accepted(e.confirmed, e.net, e.writeOk)
  }

  /** How many submissions, made while a file was selected, were confirmed,
      answered OK and written. */
  function Successes(events: seq<Event>, file: Option<FileRef>): nat
    decreases |events|
  {
    if |events| == 0 then 0
    else (if Succeeds(events[0]) && file.Some? then 1 else 0) + Successes(events[1..], Chosen(events[0], file))
  }

  /** The recognition of the last submission, made while a file was selected,
      that was confirmed and answered OK, or `shown` if there was none. */
  function LatestResult(events: seq<Event>, file: Option<FileRef>, shown: Option<Recognition>): Option<Recognition>
    decreases |events|
  {
    if |events| == 0 then shown
    else
      var e := events[0];
      var next := if e.Submitted? && e.confirmed && e.net.OkBody? && file.Some? then Some(e.net.data) else shown;
      LatestResult(events[1..], Chosen(e, file), next)
  }

  /** The entries the history should gain, in submission order: one per
      confirmed submission, made while a file was selected, answered OK and
      written, carrying the file name and flag current at that moment. */
  function Recorded(events: seq<Event>, file: Option<FileRef>, invert: bool): seq<Entry>
    decreases |events|
  {
    if |events| == 0 then []
    else
      match events[0]
      case FilesChosen(_) =>
        Recorded(events[1..], Chosen(events[0], file), invert)
      case InvertToggled =>
        Recorded(events[1..], file, !invert)
      case Submitted(_, net, _) =>
        (if file.Some? && Succeeds(events[0]) then [Entry(file.value.name, invert, net.data)] else [])
        + Recorded(events[1..], file, invert)
  }

  // ---------------------------------------------------------------------
  // Properties of runs

  /** Once every event has been handled, no submission is in flight. */
  lemma {:induction false} RunEndsIdle(w: World, events: seq<Event>)
    ensures !w.form.loading ==> !Run(w, events).world.form.loading
    decreases |events|
  {
    if |events| > 0 {
      RunEndsIdle(Apply(w, events[0]).world, events[1..]);
    }
  }

  /** The flag starts as given and each checkbox change flips it. */
  lemma {:induction false} RunInvertParity(w: World, events: seq<Event>)
    ensures Run(w, events).world.form.invert == (w.form.invert != (Toggles(events) % 2 == 1))
    decreases |events|
  {
    if |events| > 0 {
      RunInvertParity(Apply(w, events[0]).world, events[1..]);
    }
  }

  /** On a freshly rendered form the flag is set exactly when the checkbox
      has been changed an odd number of times. */
  lemma FreshFormInvertParity(store: Stored, events: seq<Event>)
    ensures Run(World(Initial, store), events).world.form.invert == (Toggles(events) % 2 == 1)
  {
    RunInvertParity(World(Initial, store), events);
  }

  /** The selection is the first file of the last non-empty choice. */
  lemma {:induction false} RunFileIsLastChosen(w: World, events: seq<Event>)
    ensures Run(w, events).world.form.file == LastChosen(events, w.form.file)
    decreases |events|
  {
    if |events| > 0 {
      RunFileIsLastChosen(Apply(w, events[0]).world, events[1..]);
    }
  }

  /** Exactly one request is sent per submission confirmed while a file is
      selected, and none otherwise. */
  lemma {:induction false} RunRequestsPerConfirmation(w: World, events: seq<Event>)
    ensures Requests(Run(w, events).effects) == Confirmed(events, w.form.file)
    decreases |events|
  {
    if |events| > 0 {
      var first := Apply(w, events[0]);
      RunRequestsPerConfirmation(first.world, events[1..]);
      RequestsOfConcat(first.effects, Run(first.world, events[1..]).effects);
    }
  }

  /** Without any file ever chosen, no request is sent, and neither the
      history nor the shown result changes. */
  lemma {:induction false} RunWithoutFileIsInert(w: World, events: seq<Event>)
    requires w.form.file.None?
    requires ChoosesNoFile(events)
    ensures Requests(Run(w, events).effects) == 0
    ensures Run(w, events).world.store == w.store
    ensures Run(w, events).world.form.shown == w.form.shown
    decreases |events|
  {
    if |events| > 0 {
      var first := Apply(w, events[0]);
      assert ChoosesNoFile(events[1..]) by {
        forall i | 0 <= i < |events[1..]| && events[1..][i].FilesChosen?
          ensures |events[1..][i].files| == 0
        {
          assert events[1..][i] == events[i + 1];
        }
      }
      RunWithoutFileIsInert(first.world, events[1..]);
      RequestsOfConcat(first.effects, Run(first.world, events[1..]).effects);
    }
  }

  /** The shown result is that of the last submission, made while a file was
      selected, that was confirmed and answered OK, whether or not its history
      write succeeded. */
  lemma {:induction false} RunShowsLatestResult(w: World, events: seq<Event>)
    ensures Run(w, events).world.form.shown == LatestResult(events, w.form.file, w.form.shown)
    decreases |events|
  {
    if |events| > 0 {
      RunShowsLatestResult(Apply(w, events[0]).world, events[1..]);
    }
  }

  /** The history is append-only: a readable history ends as itself followed
      by exactly the recorded entries, in submission order. */
  lemma {:induction false} RunHistoryIsChronological(w: World, events: seq<Event>)
    requires !w.store.Corrupt?
    ensures Load(Run(w, events).world.store) == Ok(Load(w.store).value + Recorded(events, w.form.file, w.form.invert))
    decreases |events|
  {
    var h := Load(w.store).value;
    if |events| == 0 {
      assert h + [] == h;
    } else {
      var first := Apply(w, events[0]);
      var f := first.world.form;
      assert !first.world.store.Corrupt?;
      RunHistoryIsChronological(first.world, events[1..]);
      var later := Recorded(events[1..], f.file, f.invert);
      match events[0]
      case FilesChosen(files) =>
      case InvertToggled =>
      case Submitted(_, net, _) =>
        var added := if w.form.file.Some? && Succeeds(events[0]) then [Entry(w.form.file.value.name, w.form.invert, net.data)] else [];
        assert Load(first.world.store).value == h + added;
        assert h + (added + later) == (h + added) + later;
    }
  }

  /** One recorded entry per successful submission made while a file was selected. */
  lemma {:induction false} RecordedCountsSuccesses(events: seq<Event>, file: Option<FileRef>, invert: bool)
    ensures |Recorded(events, file, invert)| == Successes(events, file)
    decreases |events|
  {
    if |events| > 0 {
      match events[0]
      case FilesChosen(_) =>
        RecordedCountsSuccesses(events[1..], Chosen(events[0], file), invert);
      case InvertToggled =>
        RecordedCountsSuccesses(events[1..], file, !invert);
      case Submitted(_, _, _) =>
        RecordedCountsSuccesses(events[1..], file, invert);
    }
  }

  /** A readable history grows by exactly the number of submissions, made
      while a file was selected, that were confirmed, answered OK and written. */
  lemma RunHistoryGrowth(w: World, events: seq<Event>)
    requires !w.store.Corrupt?
    ensures Load(Run(w, events).world.store).Ok?
    ensures |Load(Run(w, events).world.store).value| == |Load(w.store).value| + Successes(events, w.form.file)
  {
    RunHistoryIsChronological(w, events);
    RecordedCountsSuccesses(events, w.form.file, w.form.invert);
  }

  /** A malformed stored history is never repaired nor extended. */
  lemma {:induction false} RunKeepsCorruptStore(w: World, events: seq<Event>)
    ensures w.store.Corrupt? ==> Run(w, events).world.store == w.store
    decreases |events|
  {
    if |events| > 0 {
      RunKeepsCorruptStore(Apply(w, events[0]).world, events[1..]);
    }
  }

  /** Choosing "cat.png", ticking the checkbox and submitting, with the
      service recognising a cat, records exactly that submission. */
  lemma CatScenario(cat: FileRef)
    requires cat.name == "cat.png"
    ensures
      var answer := Recognition("cat", 97.5, "120ms");
      var events := [FilesChosen([cat]), InvertToggled, Submitted(true, OkBody(answer), true)];
      var final := Run(World(Initial, Absent), events);
      && Load(final.world.store) == Ok([Entry("cat.png", true, answer)])
      && final.world.form.shown == Some(answer)
      && Requests(final.effects) == 1
  {
    var answer := Recognition("cat", 97.5, "120ms");
    var e0, e1, e2 := FilesChosen([cat]), InvertToggled, Submitted(true, OkBody(answer), true);
    var events := [e0, e1, e2];
    var w0 := World(Initial, Absent);
    var s0 := Apply(w0, e0);
    var s1 := Apply(s0.world, e1);
    var s2 := Apply(s1.world, e2);
    assert s1.world.form == Form(Some(cat), true, false, None);
    assert s2.world.form.shown == Some(answer);
    assert Load(s2.world.store) == Ok([Entry("cat.png", true, answer)]);
    assert Requests(s2.effects) == 1;
    assert events[1..] == [e1, e2] && events[1..][1..] == [e2] && events[1..][1..][1..] == [];
    var r2 := Run(s1.world, [e2]);
    assert [e2][1..] == [];
    assert Run(s2.world, []) == Step(s2.world, []);
    assert r2.world == s2.world && r2.effects == s2.effects + [];
    var r1 := Run(s0.world, [e1, e2]);
    assert [e1, e2][1..] == [e2];
    assert r1.world == s2.world && r1.effects == s1.effects + r2.effects;
    RequestsOfConcat(s1.effects, r2.effects);
    var r0 := Run(w0, events);
    assert r0.world == s2.world && r0.effects == s0.effects + r1.effects;
    RequestsOfConcat(s0.effects, r1.effects);
  }
}
