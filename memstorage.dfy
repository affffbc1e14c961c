/** The in-memory backend (`storage.MemStorageData`): two maps assigned in place, and an
    optional JSON file that `SaveData` overwrites and `LoadData` restores from.

    The file is modelled by what it holds (`FileState`): nothing, something unreadable, a
    document that does not parse, or the snapshot of a store written by `SaveData`. */
module MemStorage {
  import opened Wrappers
  import opened Models
  import opened Store
  import opened Strings

  datatype FileState = Absent | Unreadable | Corrupt | Saved(snapshot: Store)

  /** How the file system answers one `SaveData`: the open succeeds or fails, and then the
      write succeeds or fails. */
  datatype SaveFault = SaveOk | OpenFails | WriteFails

  datatype StorageError =
    | FileNotSpecified   // "MEM file is not specified"
    | OpenError
    | WriteError
    | ReadError
    | UnmarshalError

  /** The outcome of `SaveData` on a store: the error and the file afterwards. */
  function SaveSpec(st: Store, path: string, fault: SaveFault, file: FileState): (r: (Option<StorageError>, FileState))
    ensures r.0.None? <==> path != "" && fault == SaveOk
    ensures r.0.None? ==> r.1 == Saved(st)
    ensures path == "" || fault == OpenFails ==> r.1 == file
  {
    if path == "" then (Some(FileNotSpecified), file)
    else match fault
      case OpenFails => (Some(OpenError), file)
      // the file was opened with O_TRUNC, so a failed write leaves a broken document
      case WriteFails => (Some(WriteError), Corrupt)
      case SaveOk => (None, Saved(st))
  }

  /** The outcome of `LoadData` on a store: the error and the store afterwards. */
  function LoadSpec(st: Store, path: string, file: FileState): (r: (Option<StorageError>, Store))
    ensures path == "" ==> r == (Some(FileNotSpecified), st)
    ensures path != "" && file == Absent ==> r == (None, st)
    ensures r.0.Some? ==> r.1 == st
    ensures r.0.None? && file.Saved? ==> r.1 == file.snapshot
  {
    if path == "" then (Some(FileNotSpecified), st)
    else match file
      case Absent => (None, st)
      case Unreadable => (Some(ReadError), st)
      case Corrupt => (Some(UnmarshalError), st)
      case Saved(snap) => (None, snap)
  }

  /** Whatever the store held before, loading what a successful save wrote gives back the
      saved store. */
  lemma SaveLoadRoundTrip(st: Store, other: Store, path: string, file: FileState)
    requires path != ""
    ensures LoadSpec(other, path, SaveSpec(st, path, SaveOk, file).1) == (None, st)
  {
  }

  /** A failed save never produces a file that loads as something else: loading after it
      fails, or finds the file it had before. */
  lemma FailedSaveLoadsNothingNew(st: Store, other: Store, path: string, fault: SaveFault, file: FileState)
    requires fault != SaveOk
    ensures var (_, after) := SaveSpec(st, path, fault, file);
      after == file || LoadSpec(other, path, after).0.Some?
  {
  }

  class MemStorageData {
    var gauge: map<string, real>
    var counter: map<string, int64>
    const fileToSave: string
    const isSyncSave: bool
    /** What the file at `fileToSave` holds. */
    var file: FileState

    function State(): Store
      reads this
    {
      Store(gauge, counter)
    }

    /** `NewMemStorage(path, isSyncSave)`: both maps empty. */
    constructor (path: string, isSyncSave: bool, file: FileState)
      ensures State() == Empty
      ensures fileToSave == path && this.isSyncSave == isSyncSave && this.file == file
    {
      gauge := map[];
      counter := map[];
      fileToSave := path;
      this.isSyncSave := isSyncSave;
      this.file := file;
    }

    /** `GetGauge`: the stored value and true, or 0 and false when the name is absent. */
    function GetGauge(name: string): (r: (real, bool))
      reads this
      ensures r.1 <==> name in gauge
      ensures r.1 ==> r.0 == gauge[name]
      ensures !r.1 ==> r.0 == 0.0
    {
      if name in gauge then (gauge[name], true) else (0.0, false)
    }

    /** `GetCounter`: the stored value and true, or 0 and false when the name is absent. */
    function GetCounter(name: string): (r: (int64, bool))
      reads this
      ensures r.1 <==> name in counter
      ensures r.1 ==> r.0 == counter[name]
      ensures !r.1 ==> r.0 == 0
    {
      if name in counter then (counter[name], true) else (0, false)
    }

    method SaveData(fault: SaveFault) returns (err: Option<StorageError>)
      modifies this
      ensures (err, file) == SaveSpec(old(State()), fileToSave, fault, old(file))
      ensures State() == old(State())
    {
      if fileToSave == "" {
        return Some(FileNotSpecified);
      }
      if fault == OpenFails {
        return Some(OpenError);
      }
      file := Corrupt;  // O_TRUNC
      if fault == WriteFails {
        return Some(WriteError);
      }
      file := Saved(Store(gauge, counter));
      return None;
    }

    method LoadData() returns (err: Option<StorageError>)
      modifies this
      ensures (err, State()) == LoadSpec(old(State()), fileToSave, old(file))
      ensures file == old(file)
    {
      if fileToSave == "" {
        return Some(FileNotSpecified);
      }
      match file {
        case Absent => return None;
        case Unreadable => return Some(ReadError);
        case Corrupt => return Some(UnmarshalError);
        case Saved(snap) =>
          gauge := snap.gauges;
          counter := snap.counters;
          return None;
      }
    }

    /** `UpdateGauge`: sets one gauge; with sync save on, the file is rewritten and a save
        failure only logged. */
    method UpdateGauge(name: string, value: real, fault: SaveFault)
      modifies this
      ensures gauge == old(gauge)[name := value] && counter == old(counter)
      ensures GetGauge(name) == (value, true)
      ensures forall n :: n != name ==> GetGauge(n) == old(GetGauge(n))
      ensures isSyncSave ==> file == SaveSpec(State(), fileToSave, fault, old(file)).1
      ensures !isSyncSave ==> file == old(file)
    {
      gauge := gauge[name := value];
      if isSyncSave {
        var err := SaveData(fault);
      }
    }

    /** `UpdateCounter`: replaces one counter total with the given value (no addition). */
    method UpdateCounter(name: string, value: int64, fault: SaveFault)
      modifies this
      ensures counter == old(counter)[name := value] && gauge == old(gauge)
      ensures GetCounter(name) == (value, true)
      ensures forall n :: n != name ==> GetCounter(n) == old(GetCounter(n))
      ensures isSyncSave ==> file == SaveSpec(State(), fileToSave, fault, old(file)).1
      ensures !isSyncSave ==> file == old(file)
    {
      counter := counter[name := value];
      if isSyncSave {
        var err := SaveData(fault);
      }
    }

    /** `GetKeyGauge`: every stored gauge name exactly once. */
    method GetKeyGauge() returns (keys: seq<string>)
      ensures (set k | k in keys) == gauge.Keys
      ensures NoDuplicates(keys) && |keys| == |gauge|
    {
      keys := MapKeys(gauge);
    }

    /** `GetKeyCounter`: every stored counter name exactly once. */
    method GetKeyCounter() returns (keys: seq<string>)
      ensures (set k | k in keys) == counter.Keys
      ensures NoDuplicates(keys) && |keys| == |counter|
    {
      keys := MapKeys(counter);
    }

    /** `BatchUpdate`: records applied in order, both kinds replacing; records without a
        value and of unknown type skipped; the file is not written; never an error. */
    method BatchUpdate(ms: seq<Metrics>) returns (err: Option<StorageError>)
      modifies this
      ensures err == None
      ensures State() == ApplyBatchReplace(old(State()), ms)
      ensures file == old(file)
    {
      var i := 0;
      while i < |ms|
        invariant 0 <= i <= |ms|
        invariant State() == ApplyBatchReplace(old(State()), ms[..i])
        invariant file == old(file)
      {
        var m := ms[i];
        assert ms[..i + 1][..i] == ms[..i];
        if m.mtype == GaugeType {
          if m.value.Some? {
            gauge := gauge[m.id := m.value.value];
          }
        } else if m.mtype == CounterType {
          if m.delta.Some? {
            counter := counter[m.id := m.delta.value];
          }
        }
        i := i + 1;
      }
      assert ms[..|ms|] == ms;
      return None;
    }
  }
}
