/** `JsonFileStateStore` of `src/runpod_state.rs`: loading and saving one
    `StateRecord` at a path, with the same validation on both sides, and the
    save sequence "write a temporary sibling, remove the old file, rename".

    The file system is a map from paths to documents, held by a
    `FileSystem` object whose ghost `history` records the map after every
    change, so that what a crash between two steps would leave behind can be
    stated. JSON text is not modelled: `Encode` wraps the record in a
    document and `Decode` unwraps it, so the round trip holds by
    construction; `Malformed` stands for any file serde cannot read. */
module StateStore {
  import opened Wrappers
  import opened Ints
  import Text
  import opened PodState

  /** A path as its parent directory and its final component; a path such
      as `/` or `..` has no final component. */
  datatype Path = Path(dir: string, fileName: Option<string>)

  /** The temporary sibling of `save`: `.<file name>.tmp` in the same
      directory, `.runpod_state.tmp` when the path has no file name. */
  function TempPath(p: Path): (t: Path)
    ensures t.dir == p.dir && t != p
    ensures t.fileName == Some("." + p.fileName.GetOr("runpod_state") + ".tmp")
  {
    var t := Path(p.dir, Some("." + p.fileName.GetOr("runpod_state") + ".tmp"));
    assert p.fileName.Some? ==> |t.fileName.value| == |p.fileName.value| + 5;
    t
  }

  /** The contents of a file: an encoded record, or bytes serde rejects. */
  datatype Document = Encoded(record: StateRecord) | Malformed

  type Files = map<Path, Document>

  function Encode(r: StateRecord): Document {
    Encoded(r)
  }

  datatype StoreError = Io | Serde | InvalidState(message: string)

  function Decode(d: Document): (r: Result<StateRecord, StoreError>)
    ensures r.Ok? <==> d.Encoded?
    ensures r.Err? ==> r.error == Serde
  {
    match d
    case Encoded(rec) => Ok(rec)
    case Malformed => Err(Serde)
  }

  /** serde's round trip, which holds of the abstraction by construction. */
  lemma DecodeEncode(r: StateRecord)
    ensures Decode(Encode(r)) == Ok(r)
  {
  }

  /** What `load` and `save` accept: the current format version and a
      logical name with at least one non-whitespace character. */
  predicate IsValidRecord(r: StateRecord) {
    r.formatVersion == STATE_FORMAT_VERSION
    && exists i :: 0 <= i < |r.podName| && !Text.IsWhitespace(r.podName[i])
  }

  /** The validation of `load` and `save`: the version is checked first,
      then `pod_name.trim().is_empty()`. Only the message for a wrong
      version differs between the two. */
  function Validate(r: StateRecord, versionMessage: string): (e: Option<StoreError>)
    ensures e.None? <==> IsValidRecord(r)
    ensures r.formatVersion != STATE_FORMAT_VERSION ==> e == Some(InvalidState(versionMessage))
    ensures r.formatVersion == STATE_FORMAT_VERSION && !IsValidRecord(r) ==>
              e == Some(InvalidState("pod_name is empty"))
  {
    if r.formatVersion != STATE_FORMAT_VERSION then Some(InvalidState(versionMessage))
    else
      Text.TrimEmptyIffWhitespace(r.podName);
      if Text.Trim(r.podName) == [] then Some(InvalidState("pod_name is empty")) else None
  }

  const LOAD_VERSION_MESSAGE := "unsupported state format version"
  const SAVE_VERSION_MESSAGE := "wrong state format version"

  /** `JsonFileStateStore`: the path it persists to. */
  datatype JsonFileStateStore = JsonFileStateStore(path: Path)

  /** `load`: no file is "no state yet"; otherwise the file must decode and
      validate. */
  function Load(files: Files, store: JsonFileStateStore): (r: Result<Option<StateRecord>, StoreError>)
    ensures store.path !in files ==> r == Ok(None)
    ensures r == Ok(None) ==> store.path !in files
    ensures r.Ok? && r.value.Some? ==>
              store.path in files && files[store.path] == Encode(r.value.value) && IsValidRecord(r.value.value)
    ensures store.path in files && files[store.path].Encoded? && IsValidRecord(files[store.path].record) ==>
              r == Ok(Some(files[store.path].record))
    ensures store.path in files && files[store.path] == Malformed ==> r == Err(Serde)
    ensures store.path in files && files[store.path].Encoded?
            && files[store.path].record.formatVersion != STATE_FORMAT_VERSION ==>
              r == Err(InvalidState(LOAD_VERSION_MESSAGE))
  {
    if store.path !in files then Ok(None)
    else
      match Decode(files[store.path])
      case Err(e) => Err(e)
      case Ok(rec) =>
        match Validate(rec, LOAD_VERSION_MESSAGE)
        case Some(e) => Err(e)
        case None => Ok(Some(rec))
  }

  /** Which step of `save`, if any, fails with an I/O error. A failed
      `remove_file` is ignored by the code. */
  datatype IoFault =
    | NoFault
    | ParentDirFails   // create_dir_all
    | TempCreateFails  // File::create of the temporary file
    | TempWriteFails   // write_all or sync_all, leaving a partial temporary file
    | RemoveFails      // remove_file of the old file, ignored
    | RenameFails      // rename of the temporary file

  /** The file maps that a valid `save` goes through, one per change it
      makes, in order. */
  function SaveTrace(files: Files, store: JsonFileStateStore, r: StateRecord, fault: IoFault): seq<Files> {
    var tmp := TempPath(store.path);
    match fault
    case ParentDirFails => []
    case TempCreateFails => []
    case TempWriteFails => [files[tmp := Malformed]]
    case _ =>
      var written := files[tmp := Encode(r)];
      [written] + ReplaceTrace(written, store.path, tmp, fault)
  }

  /** The maps after the removal of the old file, if it exists and the
      removal succeeds, and after the rename, unless it fails. */
  function ReplaceTrace(written: Files, p: Path, tmp: Path, fault: IoFault): seq<Files>
    requires tmp in written
  {
    var removes := p in written && fault != RemoveFails;
    var removed := if removes then written - {p} else written;
    (if removes then [removed] else [])
    + (if fault == RenameFails then [] else [(removed - {tmp})[p := written[tmp]]])
  }

  /** The file map a successful `save` leaves: the record at the path, no
      temporary file, every other file as it was. */
  function Saved(files: Files, store: JsonFileStateStore, r: StateRecord): Files {
    (files - {TempPath(store.path)})[store.path := Encode(r)]
  }

  /** Renaming the temporary file over the path, after removing the path
      or not, gives the same map. */
  lemma RenameIntoPlace(files: Files, tmp: Path, p: Path, d: Document, removes: bool)
    requires tmp != p
    ensures var w := files[tmp := d];
            var r := if removes then w - {p} else w;
            (r - {tmp})[p := r[tmp]] == (files - {tmp})[p := d]
  {
  }

  /** The file system, as a map the save sequence updates. */
  class FileSystem {
    var files: Files
    /** Every map `files` has held, the first one included. */
    ghost var history: seq<Files>

    ghost predicate Valid()
      reads this
    {
      |history| > 0 && history[|history| - 1] == files
    }

    constructor (initial: Files)
      ensures Valid() && files == initial && history == [initial]
    {
      files := initial;
      history := [initial];
    }

    predicate Exists(p: Path)
      reads this
    {
      p in files
    }

    /** Write `d` at `p`, creating or replacing the file. */
    method Write(p: Path, d: Document)
      requires Valid()
      modifies this
      ensures Valid()
      ensures files == old(files)[p := d] && history == old(history) + [files]
    {
      files := files[p := d];
      history := history + [files];
    }

    method Remove(p: Path)
      requires Valid() && p in files
      modifies this
      ensures Valid()
      ensures files == old(files) - {p} && history == old(history) + [files]
    {
      files := files - {p};
      history := history + [files];
    }

    /** `rename(from, to)`, replacing any file at `to`. */
    method Rename(from: Path, to: Path)
      requires Valid() && from in files && from != to
      modifies this
      ensures Valid()
      ensures files == (old(files) - {from})[to := old(files)[from]] && history == old(history) + [files]
    {
      var d := files[from];
      files := (files - {from})[to := d];
      history := history + [files];
    }
  }

  /** `save`: validate, then write the temporary file, remove the old file
      if one exists, and rename the temporary file into place. A validation
      failure touches no file. */
  method Save(fs: FileSystem, store: JsonFileStateStore, r: StateRecord, fault: IoFault)
    returns (result: Result<(), StoreError>)
    requires fs.Valid()
    modifies fs
    ensures fs.Valid()
    ensures !IsValidRecord(r) ==>
              result == Err(Validate(r, SAVE_VERSION_MESSAGE).value)
              && fs.files == old(fs.files) && fs.history == old(fs.history)
    ensures IsValidRecord(r) ==>
              fs.history == old(fs.history) + SaveTrace(old(fs.files), store, r, fault)
    ensures IsValidRecord(r) ==>
              (result.Ok? <==> fault == NoFault || fault == RemoveFails)
              && (result.Err? ==> result.error == Io)
    ensures result.Ok? ==> fs.files == Saved(old(fs.files), store, r)
  {
    var invalid := Validate(r, SAVE_VERSION_MESSAGE);
    if invalid.Some? {
      return Err(invalid.value);
    }
    result := WriteAndReplace(fs, store, r, fault);
  }

  /** The file steps of `save`, for a record that passed validation. */
  method WriteAndReplace(fs: FileSystem, store: JsonFileStateStore, r: StateRecord, fault: IoFault)
    returns (result: Result<(), StoreError>)
    requires fs.Valid()
    modifies fs
    ensures fs.Valid()
    ensures fs.history == old(fs.history) + SaveTrace(old(fs.files), store, r, fault)
    ensures result.Ok? <==> fault == NoFault || fault == RemoveFails
    ensures result.Err? ==> result.error == Io
    ensures result.Ok? ==> fs.files == Saved(old(fs.files), store, r)
  {
    if fault == ParentDirFails {
      return Err(Io);
    }
    var tmp := TempPath(store.path);
    if fault == TempCreateFails {
      return Err(Io);
    }
    if fault == TempWriteFails {
      fs.Write(tmp, Malformed);
      return Err(Io);
    }
    fs.Write(tmp, Encode(r));
    ghost var written := fs.files;
    assert SaveTrace(old(fs.files), store, r, fault) == [written] + ReplaceTrace(written, store.path, tmp, fault);
    ghost var h := fs.history;
    result := Replace(fs, store.path, tmp, fault);
    assert fs.history == h + ReplaceTrace(written, store.path, tmp, fault);
    if result.Ok? {
      RenameIntoPlace(old(fs.files), tmp, store.path, Encode(r), store.path in written && fault != RemoveFails);
    }
  }

  /** The last two steps of `save`: remove the old file if there is one,
      then rename the temporary file into place; a failed removal is
      ignored. */
  method Replace(fs: FileSystem, p: Path, tmp: Path, fault: IoFault) returns (result: Result<(), StoreError>)
    requires fs.Valid() && tmp in fs.files && tmp != p
    modifies fs
    ensures fs.Valid()
    ensures fs.history == old(fs.history) + ReplaceTrace(old(fs.files), p, tmp, fault)
    ensures result.Ok? <==> fault != RenameFails
    ensures result.Err? ==> result.error == Io
    ensures result.Ok? ==>
              var removed := if p in old(fs.files) && fault != RemoveFails then old(fs.files) - {p} else old(fs.files);
              fs.files == (removed - {tmp})[p := old(fs.files)[tmp]]
  {
    if fs.Exists(p) && fault != RemoveFails {
      fs.Remove(p);
    }
    if fault == RenameFails {
      return Err(Io);
    }
    fs.Rename(tmp, p);
    return Ok(());
  }

  // ---------------------------------------------------------------------
  // Properties of the store
  // ---------------------------------------------------------------------

  /** A successful save is read back by `load`, field for field. */
  lemma SavedThenLoad(files: Files, store: JsonFileStateStore, r: StateRecord)
    requires IsValidRecord(r)
    ensures Load(Saved(files, store, r), store) == Ok(Some(r))
  {
  }

  /** `load` rejects what `save` would reject, and conversely: an encoded
      record loads exactly when it would be saved. */
  lemma LoadRejectsWhatSaveRejects(store: JsonFileStateStore, files: Files, r: StateRecord)
    requires store.path in files && files[store.path] == Encode(r)
    ensures Load(files, store).Ok? <==> Validate(r, SAVE_VERSION_MESSAGE).None?
  {
  }

  /** No step of `save` puts a partial file at the canonical path: after
      every change, `load` sees the old result, no file, or the new record. */
  lemma SaveNeverExposesPartialFile(files: Files, store: JsonFileStateStore, r: StateRecord, fault: IoFault, k: nat)
    requires IsValidRecord(r)
    requires k < |SaveTrace(files, store, r, fault)|
    ensures var l := Load(SaveTrace(files, store, r, fault)[k], store);
            l == Load(files, store) || l == Ok(None) || l == Ok(Some(r))
  {
    var tmp := TempPath(store.path);
    var trace := SaveTrace(files, store, r, fault);
    var f := trace[k];
    if fault == TempWriteFails {
      assert f == files[tmp := Malformed];
    } else {
      assert store.path !in f || (store.path in files && f[store.path] == files[store.path]) || f[store.path] == Encode(r);
    }
  }

  /** The replace is not atomic: the canonical path is absent between the
      removal and the rename, so a crash there, or a failed rename, makes
      `load` report "no state yet" although a valid state was saved
      before. */
  lemma SaveHasMissingFileWindow(files: Files, store: JsonFileStateStore, old_: StateRecord, r: StateRecord)
    requires IsValidRecord(old_) && IsValidRecord(r)
    requires store.path in files && files[store.path] == Encode(old_)
    ensures Load(files, store) == Ok(Some(old_))
    ensures var t := SaveTrace(files, store, r, NoFault); |t| == 3 && Load(t[1], store) == Ok(None)
  {
    var tmp := TempPath(store.path);
    assert files[store.path].Encoded? && files[store.path].record == old_;
    var written := files[tmp := Encode(r)];
    RemovalComesFirst(written, store.path, tmp);
    assert SaveTrace(files, store, r, NoFault) == [written] + ReplaceTrace(written, store.path, tmp, NoFault);
  }

  /** When the path exists, the first map after the written one lacks it. */
  lemma RemovalComesFirst(written: Files, p: Path, tmp: Path)
    requires p in written && tmp in written
    ensures var t := ReplaceTrace(written, p, tmp, NoFault); |t| == 2 && p !in t[0]
  {
  }

  /** A failed rename after the removal leaves no state at all behind. */
  lemma RenameFailureLosesState(files: Files, store: JsonFileStateStore, r: StateRecord)
    requires IsValidRecord(r) && store.path in files
    ensures var t := SaveTrace(files, store, r, RenameFails);
            |t| == 2 && Load(t[1], store) == Ok(None)
  {
    var tmp := TempPath(store.path);
    var written := files[tmp := Encode(r)];
    assert ReplaceTrace(written, store.path, tmp, RenameFails) == [written - {store.path}];
    assert SaveTrace(files, store, r, RenameFails) == [written] + ReplaceTrace(written, store.path, tmp, RenameFails);
  }
}
