/** One device: its metadata database and its audio files, and the two ways a recording enters it. */
module Hosts {
  import opened Basics
  import opened Tables
  import opened StoreInvariant
  import opened AudioStore
  import MetadataStore

  datatype Host = Host(db: Db, files: map<string, Bytes>)

  /** What the world supplies for one stored learning: a random session id, and how the disk takes its recording. */
  datatype Draw = Draw(id: SessionId, disk: Disk)

  function FinalKey(utterance: string): string { "ffi-stream-final:" + utterance }

  /** How the phone persists a finished take: create, write the recording, stamp its digest, commit. Each call is its
      own transaction, so a failure leaves what came before it. */
  function CaptureTake(h: Host, s: SessionId, text: string, payload: Bytes, digest: string, now: nat, disk: Disk)
    : (Host, bool)
  {
    var made := CreateSession(h.db, s, Some(text), now);
    if made.Failed? then (h, false) else FillSession(Host(made.db, h.files), s, text, payload, digest, now, disk)
  }

  /** What follows once the session exists. */
  function FillSession(h: Host, s: SessionId, text: string, payload: Bytes, digest: string, now: nat, disk: Disk)
    : (Host, bool)
  {
    var u := UtteranceKey(s);
    var (files, written) := Written(h.files, DEFAULT_USER, u, payload, disk);
    if !written then (Host(h.db, files), false)
    else
      var stamped := SetDigest(h.db, u, digest);
      if stamped.Failed? then (Host(h.db, files), false)
      else
        var committed := CommitSession(stamped.db, s, text, FinalKey(u), now);
        if committed.Failed? then (Host(stamped.db, files), false) else (Host(committed.db, files), true)
  }

  lemma FillIsSound(h: Host, s: SessionId, text: string, payload: Bytes, digest: string, now: nat, disk: Disk)
    requires Valid(h.db)
    ensures Sound(Done(FillSession(h, s, text, payload, digest, now, disk).0.db))
  {
    var u := UtteranceKey(s);
    DigestKeeps(h.db, u, digest);
    var stamped := SetDigest(h.db, u, digest);
    if stamped.Done? { CommitKeeps(stamped.db, s, text, FinalKey(u), now); }
  }

  lemma CaptureIsSound(h: Host, s: SessionId, text: string, payload: Bytes, digest: string, now: nat, disk: Disk)
    requires Valid(h.db)
    ensures Sound(Done(CaptureTake(h, s, text, payload, digest, now, disk).0.db))
  {
    CreateKeeps(h.db, s, Some(text), now);
    var made := CreateSession(h.db, s, Some(text), now);
    if made.Done? { FillIsSound(Host(made.db, h.files), s, text, payload, digest, now, disk); }
  }

  lemma CaptureKeepsValid(h: Host, s: SessionId, text: string, payload: Bytes, digest: string, now: nat, disk: Disk)
    requires Valid(h.db)
    ensures Valid(CaptureTake(h, s, text, payload, digest, now, disk).0.db)
  {
    CaptureIsSound(h, s, text, payload, digest, now, disk);
  }

  function IngestKey(batch: string, digest: string): string { "ingest:" + batch + ":" + digest }

  /** The last two steps of storing: write the recording and stamp its digest. */
  function KeepRecording(h: Host, u: string, payload: Bytes, digest: string, disk: Disk): (Host, bool) {
    var (files, written) := Written(h.files, DEFAULT_USER, u, payload, disk);
    if !written then (Host(h.db, files), false)
    else
      var stamped := SetDigest(h.db, u, digest);
      if stamped.Failed? then (Host(h.db, files), false) else (Host(stamped.db, files), true)
  }

  /** How the PC stores one learning: create, record the correction, commit, write the recording, stamp its digest. */
  function StoreLearning(h: Host, batch: string, l: Learning, s: SessionId, payload: Bytes, now: nat, disk: Disk)
    : (Host, bool)
  {
    var u := UtteranceKey(s);
    var made := CreateSession(h.db, s, Some(l.raw), now);
    if made.Failed? then (h, false)
    else
      var edited := if l.corrected != l.raw then RecordPreedit(made.db, s, l.raw, l.corrected, 0) else made;
      if edited.Failed? then (Host(made.db, h.files), false)
      else
        var committed := CommitSession(edited.db, s, l.corrected, IngestKey(batch, l.digest), now);
        if committed.Failed? then (Host(edited.db, h.files), false)
        else KeepRecording(Host(committed.db, h.files), u, payload, l.digest, disk)
  }

  lemma StoringIsSound(h: Host, batch: string, l: Learning, s: SessionId, payload: Bytes, now: nat, disk: Disk)
    requires Valid(h.db)
    ensures Sound(Done(StoreLearning(h, batch, l, s, payload, now, disk).0.db))
  {
    OpeningIsSound(h.db, l, s, now);
    var made := CreateSession(h.db, s, Some(l.raw), now);
    if made.Done? {
      var edited := if l.corrected != l.raw then RecordPreedit(made.db, s, l.raw, l.corrected, 0) else made;
      if edited.Done? {
        var stored := StoreLearning(h, batch, l, s, payload, now, disk);
        ClosingIsSound(Host(edited.db, h.files), batch, l, s, payload, now, disk, stored.0);
      }
    }
  }

  lemma ClosingIsSound(h: Host, batch: string, l: Learning, s: SessionId, payload: Bytes, now: nat, disk: Disk,
                       after: Host)
    requires Valid(h.db)
    requires var committed := CommitSession(h.db, s, l.corrected, IngestKey(batch, l.digest), now);
             after == if committed.Failed? then h
                      else KeepRecording(Host(committed.db, h.files), UtteranceKey(s), payload, l.digest, disk).0
    ensures Sound(Done(after.db))
  {
    FinishingIsSound(h.db, batch, l, s, now);
    var committed := CommitSession(h.db, s, l.corrected, IngestKey(batch, l.digest), now);
    if committed.Done? {
      KeepingIsSound(Host(committed.db, h.files), UtteranceKey(s), payload, l.digest, disk);
    }
  }

  lemma OpeningIsSound(db: Db, l: Learning, s: SessionId, now: nat)
    requires Valid(db)
    ensures var made := CreateSession(db, s, Some(l.raw), now);
            made.Done? ==> Valid(made.db) && Sound(RecordPreedit(made.db, s, l.raw, l.corrected, 0))
  {
    CreateKeeps(db, s, Some(l.raw), now);
    var made := CreateSession(db, s, Some(l.raw), now);
    if made.Done? { PreeditKeeps(made.db, s, l.raw, l.corrected, 0); }
  }

  lemma FinishingIsSound(db: Db, batch: string, l: Learning, s: SessionId, now: nat)
    requires Valid(db)
    ensures Sound(CommitSession(db, s, l.corrected, IngestKey(batch, l.digest), now))
  {
    CommitKeeps(db, s, l.corrected, IngestKey(batch, l.digest), now);
  }

  lemma KeepingIsSound(h: Host, u: string, payload: Bytes, digest: string, disk: Disk)
    requires Valid(h.db)
    ensures Sound(Done(KeepRecording(h, u, payload, digest, disk).0.db))
  {
    DigestKeeps(h.db, u, digest);
  }

  /** How the PC keeps a dictation of its own: create, write the recording, stamp its digest. The commit comes later. */
  function PersistSession(h: Host, s: SessionId, text: string, payload: Bytes, digest: string, now: nat, disk: Disk)
    : (Host, bool)
  {
    var made := CreateSession(h.db, s, Some(text), now);
    if made.Failed? then (h, false) else KeepRecording(Host(made.db, h.files), UtteranceKey(s), payload, digest, disk)
  }

  lemma PersistingIsSound(h: Host, s: SessionId, text: string, payload: Bytes, digest: string, now: nat, disk: Disk)
    requires Valid(h.db)
    ensures Sound(Done(PersistSession(h, s, text, payload, digest, now, disk).0.db))
  {
    CreateKeeps(h.db, s, Some(text), now);
    var made := CreateSession(h.db, s, Some(text), now);
    if made.Done? { KeepingIsSound(Host(made.db, h.files), UtteranceKey(s), payload, digest, disk); }
  }

  /** `prune_training_data` on one device: the expired sessions' recordings, then their rows. */
  function PrunedHost(h: Host, cutoff: nat): Host {
    Host(PruneTraining(h.db, cutoff), h.files - MetadataStore.AudioOf(h.db, Expired(h.db, cutoff)))
  }
}
