/** The announced-code set as it is kept between runs: a single record
    holding the codes as a sorted list. */
module StateStore {
  import opened StringOrder

  /** What the state file holds when a run starts: no file, content that
      does not parse, or a record with its list of codes. */
  datatype StoredState = Missing | Corrupt | Record(codes: seq<string>)

  /** `load_state`: the codes of a readable record; an absent or unreadable
      file reads as the empty set instead of failing. */
  function Load(f: StoredState): (codes: set<string>)
    ensures f.Record? ==> forall c :: c in codes <==> c in f.codes
    ensures !f.Record? ==> codes == {}
  {
    if f.Record? then set c | c in f.codes else {}
  }

  /** `save_state`: the record written for a set of codes, its list sorted. */
  function Saved(codes: set<string>): (f: StoredState)
    ensures f.Record? && StrictlyAscending(f.codes) && |f.codes| == |codes|
    ensures forall c :: c in f.codes <==> c in codes
  {
    Record(SortSet(codes))
  }

  /** Writing a set and reading it back gives the same set. */
  lemma LoadSaved(codes: set<string>)
    ensures Load(Saved(codes)) == codes
  {
  }

  /** Two sets are saved as the same record only if they are equal. */
  lemma SavedInjective(a: set<string>, b: set<string>)
    requires Saved(a) == Saved(b)
    ensures a == b
  {
    LoadSaved(a);
    LoadSaved(b);
  }

  /** The state file, overwritten as a whole by each save. */
  class StateFile {
    var stored: StoredState

    constructor (initial: StoredState)
      ensures stored == initial
    {
      stored := initial;
    }

    method LoadState() returns (codes: set<string>)
      ensures codes == Load(stored)
    {
      codes := Load(stored);
    }

    method SaveState(codes: set<string>)
      modifies this
      ensures stored == Saved(codes)
    {
      stored := Saved(codes);
    }
  }
}
