/**
  The recognition history that the image form keeps in browser storage under
  the key "imageHistory": one serialized array of entries, read, extended by
  one entry and written back whole on every successful recognition.

  Serialization is assumed to round-trip, so a value this store wrote is
  modelled by the entries it holds. What a read can find there is told apart
  only as far as the form's code tells it apart.
*/
module History {
  import opened Wrappers

  /** What the recognition service answers: prediction, accuracy (a
      percentage) and the human-readable processing time. */
  datatype Recognition = Recognition(prediction: string, accuracy: real, processTime: string)

  /** One remembered submission: the file's name, the invert flag that was
      sent, and the service's answer. */
  datatype Entry = Entry(filename: string, invert: bool, response: Recognition)

  /** The raw value under the history key. */
  datatype Stored =
    | Absent                        // nothing was ever written
    | Blank                         // the empty string, which is falsy and never parsed
    | Saved(entries: seq<Entry>)    // an array this store wrote
    | Corrupt                       // text the parser rejects, or a parsed value that is not an array

  /** Why an append threw: the stored value could not be read back as a list,
      or the storage refused the write. */
  datatype HistoryError = ParseFailure | WriteFailure

  /** The list a read of the stored value yields, or the parse failure it throws. */
  function Load(s: Stored): (r: Result<seq<Entry>, HistoryError>)
    ensures r.Err? <==> s.Corrupt?
    ensures r.Err? ==> r.error == ParseFailure
    ensures s.Absent? || s.Blank? ==> r == Ok([])
  {
    match s
    case Absent => Ok([])
    case Blank => Ok([])
    case Saved(es) => Ok(es)
    case Corrupt => Err(ParseFailure)
  }

  /** Appends `entry` to the stored list and writes the list back. `writeOk`
      is the storage's answer to the write (false: it threw, e.g. over quota). */
  function SaveToHistory(s: Stored, entry: Entry, writeOk: bool): (r: Result<Stored, HistoryError>)
    // it succeeds exactly when the old list can be read and the write is accepted
    ensures r.Ok? <==> Load(s).Ok? && writeOk
    // reading back what was written gives the old list, in order, with the entry last
    ensures r.Ok? ==> Load(r.value) == Ok(Load(s).value + [entry])
    // an absent or empty value is an empty list, so the first append stores just the entry
    ensures (s.Absent? || s.Blank?) && writeOk ==> r.Ok? && Load(r.value) == Ok([entry])
    // a malformed value is not taken for an empty list: the append throws
    ensures s.Corrupt? ==> r == Err(ParseFailure)
    ensures Load(s).Ok? && !writeOk ==> r == Err(WriteFailure)
  {
    match Load(s)
    case Err(e) => Err(e)
    case Ok(es) =>
      assert es == [] ==> es + [entry] == [entry];
      if writeOk then Ok(Saved(es + [entry])) else Err(WriteFailure)
  }

  /** The store after `SaveToHistory` is called once per entry of `es`, in
      order, with every write accepted; the first failure stops the sequence. */
  function SaveEach(s: Stored, es: seq<Entry>): Result<Stored, HistoryError>
    decreases |es|
  {
    if |es| == 0 then Ok(s)
    else
      match SaveToHistory(s, es[0], true)
      case Err(e) => Err(e)
      case Ok(s') => SaveEach(s', es[1..])
  }

  /** Appends made one after another are all kept, in call order. */
  lemma {:induction false} SaveEachKeepsCallOrder(s: Stored, es: seq<Entry>)
    ensures Load(s).Ok? ==> SaveEach(s, es).Ok? && Load(SaveEach(s, es).value) == Ok(Load(s).value + es)
    decreases |es|
  {
    if |es| == 0 {
      if Load(s).Ok? {
        assert Load(s).value + es == Load(s).value;
      }
    } else if Load(s).Ok? {
      var s' := SaveToHistory(s, es[0], true).value;
      SaveEachKeepsCallOrder(s', es[1..]);
      assert Load(s).value + es == (Load(s).value + [es[0]]) + es[1..];
    }
  }

  /** After N appends to an empty store a read yields exactly those N entries. */
  lemma FreshStoreHoldsExactlyTheAppends(es: seq<Entry>)
    ensures SaveEach(Absent, es).Ok?
    ensures Load(SaveEach(Absent, es).value) == Ok(es)
  {
    SaveEachKeepsCallOrder(Absent, es);
    assert [] + es == es;
  }
}
