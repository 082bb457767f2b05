/** Persistence: the snapshot written to `chad_memory.json`, the rules that
    decide whether a snapshot read back is accepted, and the file store that
    the write-then-rename protocol works on. The JSON encoding itself is not
    modelled: a file holds either a decodable snapshot or something that does
    not decode. */
module Settings {
  import opened Wrappers
  import Reminders

  /** The data format version; a snapshot with any other tag is ignored. */
  const DataVersion: string := "1.0"

  /** Seven days, in seconds: the oldest snapshot still accepted. */
  const MaxAge: int := 60 * 60 * 24 * 7

  const DataFile: string := "chad_memory.json"
  const TempFile: string := "chad_memory.json.tmp"

  datatype Snapshot = Snapshot(timestamp: int, version: string, reminders: seq<Reminders.Reminder>, reminderCounter: int)

  /** What a file holds: a snapshot that decodes, or bytes that do not. */
  datatype FileContent = Encoded(snapshot: Snapshot) | Malformed

  /** The snapshot `saveSettings` takes of the bot's reminders and counter. */
  function Take(now: int, reminders: seq<Reminders.Reminder>, counter: int): Snapshot {
    Snapshot(now, DataVersion, reminders, counter)
  }

  datatype LoadError = ReadFailed | DecodeFailed

  /** How a load ends: an error, one of the two silent rejections, or the
      reminders and counter to install. */
  datatype LoadOutcome =
    | Failed(error: LoadError)
    | Stale
    | VersionMismatch
    | Accepted(reminders: seq<Reminders.Reminder>, reminderCounter: int)

  /** A snapshot is too old when more than seven days lie between its
      timestamp and `now`. */
  predicate TooOld(s: Snapshot, now: int) {
    now - s.timestamp > MaxAge
  }

  /** `loadSettings`' decision for the canonical file's content (None when it
      cannot be read): a missing or undecodable file is an error; a snapshot
      that is too old, or else carries another version, is ignored without
      error; otherwise its reminders and counter are installed. */
  function Load(file: Option<FileContent>, now: int): (o: LoadOutcome)
    ensures file.None? ==> o == Failed(ReadFailed)
    ensures file == Some(Malformed) ==> o == Failed(DecodeFailed)
    ensures o.Failed? <==> (file.None? || file.value.Malformed?)
    ensures o.Stale? <==> file.Some? && file.value.Encoded? && TooOld(file.value.snapshot, now)
    ensures o.VersionMismatch? <==>
              && file.Some? && file.value.Encoded? && !TooOld(file.value.snapshot, now)
              && file.value.snapshot.version != DataVersion
    ensures o.Accepted? <==>
              && file.Some? && file.value.Encoded? && !TooOld(file.value.snapshot, now)
              && file.value.snapshot.version == DataVersion
    ensures o.Accepted? ==> && o.reminders == file.value.snapshot.reminders
                            && o.reminderCounter == file.value.snapshot.reminderCounter
  {
    match file
    case None => Failed(ReadFailed)
    case Some(Malformed) => Failed(DecodeFailed)
    case Some(Encoded(s)) =>
      if TooOld(s, now) then Stale
      else if s.version != DataVersion then VersionMismatch
      else Accepted(s.reminders, s.reminderCounter)
  }

  /** A snapshot exactly seven days old is still accepted; one second more
      and it is ignored. */
  lemma AgeBoundary(s: Snapshot)
    requires s.version == DataVersion
    ensures Load(Some(Encoded(s)), s.timestamp + 604800).Accepted?
    ensures Load(Some(Encoded(s)), s.timestamp + 604801) == Stale
  {
  }

  /** Staleness is decided before the version: a too-old snapshot is stale
      whatever its version tag. */
  lemma StaleBeforeVersion(s: Snapshot, now: int)
    requires TooOld(s, now) && s.version != DataVersion
    ensures Load(Some(Encoded(s)), now) == Stale
  {
  }

  /** A snapshot taken at `t` and read back no more than seven days later
      restores exactly the reminders and counter it was taken of. */
  lemma SaveLoadRoundTrip(t: int, reminders: seq<Reminders.Reminder>, counter: int, now: int)
    requires now <= t + MaxAge
    ensures Load(Some(Encoded(Take(t, reminders, counter))), now) == Accepted(reminders, counter)
  {
  }

  /** The files `saveSettings` and `loadSettings` touch, by name. */
  class FileStore {
    var files: map<string, FileContent>

    constructor (files: map<string, FileContent>)
      ensures this.files == files
    {
      this.files := files;
    }

    /** The content of a file, if it exists. */
    function Read(name: string): (c: Option<FileContent>)
      reads this
      ensures c.Some? <==> name in files
      ensures c.Some? ==> c.value == files[name]
    {
      if name in files then Some(files[name]) else None
    }

    /** `saveSettings`' file protocol: write the snapshot to the temp file,
        then rename it over the canonical file. The outcomes of the two
        system calls are parameters. A failed write changes nothing; a
        failed rename removes the temp file and leaves the canonical file as
        it was; a success leaves the snapshot in the canonical file and no
        temp file behind. */
    method Save(s: Snapshot, writeOk: bool, renameOk: bool) returns (ok: bool)
      modifies this`files
      ensures ok <==> writeOk && renameOk
      ensures !writeOk ==> files == old(files)
      ensures writeOk && !renameOk ==> files == old(files) - {TempFile}
      ensures ok ==> files == (old(files) - {TempFile})[DataFile := Encoded(s)]
      ensures DataFile in old(files) && !ok ==> DataFile in files && files[DataFile] == old(files)[DataFile]
    {
      if !writeOk {
        return false;
      }
      files := files[TempFile := Encoded(s)];
      if !renameOk {
        files := files - {TempFile};
        return false;
      }
      var written := files[TempFile];
      files := (files - {TempFile})[DataFile := written];
      return true;
    }
  }
}
