/** The PC half of learning sync: the content-addressed idempotent batch loop. */
module Ingest {
  import opened Basics
  import opened Tables
  import opened AudioStore
  import opened Hosts
  import MetadataStore

  datatype Envelope = Envelope(batch: string, learnings: seq<Learning>, audio: map<string, Bytes>)

  datatype Outcome = Outcome(host: Host, accepted: seq<string>, alreadyHave: seq<string>, ok: bool)

  predicate Complete(env: Envelope) {
    forall l :: l in env.learnings ==> l.digest in env.audio
  }

  function Digests(learnings: seq<Learning>): seq<string> {
    seq(|learnings|, i requires 0 <= i < |learnings| => learnings[i].digest)
  }

  /** The loop after `n` learnings, with one draw for each. A failure stops it. */
  function IngestUpTo(h: Host, env: Envelope, draws: seq<Draw>, now: nat, n: nat): Outcome
    requires Complete(env) && |draws| == |env.learnings| && n <= |draws|
  {
    if n == 0 then Outcome(h, [], [], true)
    else
      var prior := IngestUpTo(h, env, draws, now, n - 1);
      if !prior.ok then prior else Next(prior, env, env.learnings[n - 1], draws[n - 1].id, now, draws[n - 1].disk)
  }

  function Next(prior: Outcome, env: Envelope, l: Learning, s: SessionId, now: nat, disk: Disk): Outcome
    requires l.digest in env.audio
  {
    if HasDigest(prior.host.db, DEFAULT_USER, l.digest) then prior.(alreadyHave := prior.alreadyHave + [l.digest])
    else
      var (host, ok) := StoreLearning(prior.host, env.batch, l, s, env.audio[l.digest], now, disk);
      Outcome(host, if ok then prior.accepted + [l.digest] else prior.accepted, prior.alreadyHave, ok)
  }

  function IngestAll(h: Host, env: Envelope, draws: seq<Draw>, now: nat): Outcome
    requires Complete(env) && |draws| == |env.learnings|
  {
    IngestUpTo(h, env, draws, now, |draws|)
  }

  // ---------------------------------------------------------------- the loop

  datatype Report =
    | Ingested(accepted: seq<string>, alreadyHave: seq<string>)
    | MissingAudio(digests: seq<string>)
    | Failure

  method MissingDigests(env: Envelope) returns (missing: seq<string>)
    ensures forall d :: d in missing <==> exists l :: l in env.learnings && l.digest == d && d !in env.audio
    ensures missing == [] <==> Complete(env)
  {
    missing := [];
    for i := 0 to |env.learnings|
      invariant forall d :: d in missing <==> exists l :: l in env.learnings[..i] && l.digest == d && d !in env.audio
    {
      var l := env.learnings[i];
      assert env.learnings[..i + 1] == env.learnings[..i] + [l];
      assert l in env.learnings[..i + 1];
      if l.digest !in env.audio { missing := missing + [l.digest]; }
    }
    assert env.learnings[..|env.learnings|] == env.learnings;
    if missing != [] { assert missing[0] in missing; }
  }

  method StoreOne(store: MetadataStore.MetadataStore, audio: FileAudioStore, batch: string, l: Learning, s: SessionId,
                  payload: Bytes, now: nat, disk: Disk) returns (ok: bool)
    modifies store, audio
    ensures (Host(store.db, audio.files), ok) ==
            StoreLearning(old(Host(store.db, audio.files)), batch, l, s, payload, now, disk)
  {
    var created := store.CreateSession(s, Some(l.raw), now);
    if created.Some? { return false; }
    if l.corrected != l.raw {
      var edited := store.RecordPreeditChange(s, l.raw, l.corrected, 0);
      if edited.Some? { return false; }
    }
    var committed := store.CommitSession(s, l.corrected, IngestKey(batch, l.digest), now);
    if committed.Some? { return false; }
    var written := audio.WriteSourceAudio(DEFAULT_USER, UtteranceKey(s), payload, disk);
    if written.Err? { return false; }
    var stamped := store.SetAudioDigest(UtteranceKey(s), l.digest);
    return stamped.None?;
  }

  method IngestOne(store: MetadataStore.MetadataStore, audio: FileAudioStore, env: Envelope, l: Learning, s: SessionId,
                   now: nat, disk: Disk, ghost prior: Outcome) returns (isNew: bool, ok: bool)
    requires l.digest in env.audio && prior.host == Host(store.db, audio.files) && prior.ok
    modifies store, audio
    ensures Next(prior, env, l, s, now, disk) ==
            Outcome(Host(store.db, audio.files), if isNew && ok then prior.accepted + [l.digest] else prior.accepted,
                    if isNew then prior.alreadyHave else prior.alreadyHave + [l.digest], ok)
  {
    if HasDigest(store.db, DEFAULT_USER, l.digest) { return false, true; }
    ok := StoreOne(store, audio, env.batch, l, s, env.audio[l.digest], now, disk);
    isNew := true;
  }

  /** `ingest`: a batch that lacks audio is refused up front; otherwise the report and both stores are the loop's. */
  method Ingest(store: MetadataStore.MetadataStore, audio: FileAudioStore, env: Envelope, draws: seq<Draw>, now: nat)
    returns (report: Report)
    requires |draws| == |env.learnings|
    modifies store, audio
    ensures !Complete(env) ==> report.MissingAudio? && store.db == old(store.db) && audio.files == old(audio.files)
    ensures Complete(env) ==>
              var r := IngestAll(old(Host(store.db, audio.files)), env, draws, now);
              && Host(store.db, audio.files) == r.host
              && report == if r.ok then Ingested(r.accepted, r.alreadyHave) else Failure
  {
    var missing := MissingDigests(env);
    if missing != [] { return MissingAudio(missing); }
    var accepted, alreadyHave, ok := IngestLearnings(store, audio, env, draws, now);
    report := if ok then Ingested(accepted, alreadyHave) else Failure;
  }

  method IngestLearnings(store: MetadataStore.MetadataStore, audio: FileAudioStore, env: Envelope, draws: seq<Draw>,
                         now: nat) returns (accepted: seq<string>, alreadyHave: seq<string>, ok: bool)
    requires Complete(env) && |draws| == |env.learnings|
    modifies store, audio
    ensures IngestAll(old(Host(store.db, audio.files)), env, draws, now) ==
            Outcome(Host(store.db, audio.files), accepted, alreadyHave, ok)
  {
    accepted, alreadyHave, ok := [], [], true;
    var i := 0;
    ghost var h := Host(store.db, audio.files);
    while i < |draws| && ok
      invariant 0 <= i <= |draws|
      invariant Outcome(Host(store.db, audio.files), accepted, alreadyHave, ok) == IngestUpTo(h, env, draws, now, i)
    {
      var isNew;
      isNew, ok := IngestOne(store, audio, env, env.learnings[i], draws[i].id, now, draws[i].disk,
                             IngestUpTo(h, env, draws, now, i));
      if !isNew {
        alreadyHave := alreadyHave + [env.learnings[i].digest];
      } else if ok {
        accepted := accepted + [env.learnings[i].digest];
      }
      i := i + 1;
    }
    if !ok { FailureSticks(h, env, draws, now, i, |draws|); }
  }

  lemma {:induction false} FailureSticks(h: Host, env: Envelope, draws: seq<Draw>, now: nat, n: nat, m: nat)
    requires Complete(env) && |draws| == |env.learnings| && n <= m <= |draws| && !IngestUpTo(h, env, draws, now, n).ok
    ensures IngestUpTo(h, env, draws, now, m) == IngestUpTo(h, env, draws, now, n)
  {
    if n < m { FailureSticks(h, env, draws, now, n, m - 1); }
  }

  // ---------------------------------------------------------------- what storing changes

  /** The new session as the next transactions find it. */
  predicate Opened(db: Db, s: SessionId, raw: string) {
    s in db.sessions && db.sessions[s].utterance == UtteranceKey(s) && db.sessions[s].raw == Some(raw) &&
    UtteranceKey(s) in db.utterances && db.utterances[UtteranceKey(s)].raw == Some(raw)
  }

  lemma CreateOpens(db: Db, s: SessionId, raw: string, now: nat)
    requires CreateSession(db, s, Some(raw), now).Done?
    ensures var after := CreateSession(db, s, Some(raw), now).db;
            Opened(after, s, raw) && UtteranceKey(s) !in db.utterances &&
            after.utterances ==
            db.utterances[UtteranceKey(s) := Utterance(DEFAULT_USER, AudioPath(UtteranceKey(s)), None, Some(raw))]
  {
  }

  lemma PreeditLeavesOpen(db: Db, s: SessionId, raw: string, from: string, to: string)
    requires Opened(db, s, raw) && RecordPreedit(db, s, from, to, 0).Done?
    ensures Opened(RecordPreedit(db, s, from, to, 0).db, s, raw)
    ensures RecordPreedit(db, s, from, to, 0).db.utterances == db.utterances
  {
  }

  lemma CommitLeavesUtterances(db: Db, s: SessionId, raw: string, text: string, key: string, now: nat)
    requires Opened(db, s, raw) && CommitSession(db, s, text, key, now).Done?
    ensures CommitSession(db, s, text, key, now).db.utterances == db.utterances
  {
  }

  /** At most one new file, under this key, whatever is in it. */
  predicate Gained(files: map<string, Bytes>, after: map<string, Bytes>, key: string) {
    after == files || (key !in files && key in after && after == files[key := after[key]])
  }

  /** What storing makes of the database before it writes the recording. */
  function Recorded(db: Db, batch: string, l: Learning, s: SessionId, now: nat): Reply {
    var made := CreateSession(db, s, Some(l.raw), now);
    if made.Failed? then made
    else
      var edited := if l.corrected != l.raw then RecordPreedit(made.db, s, l.raw, l.corrected, 0) else made;
      if edited.Failed? then edited else CommitSession(edited.db, s, l.corrected, IngestKey(batch, l.digest), now)
  }

  lemma RecordedThenKept(h: Host, batch: string, l: Learning, s: SessionId, payload: Bytes, now: nat, disk: Disk)
    requires Recorded(h.db, batch, l, s, now).Done?
    ensures StoreLearning(h, batch, l, s, payload, now, disk) ==
            KeepRecording(Host(Recorded(h.db, batch, l, s, now).db, h.files), UtteranceKey(s), payload, l.digest, disk)
  {
  }

  /** On a working disk a new recording is kept and stamped, and nothing else of the database moves. */
  lemma KeepingWorks(h: Host, s: SessionId, payload: Bytes, digest: string)
    requires AudioPath(UtteranceKey(s)) !in h.files && UtteranceKey(s) in h.db.utterances
    ensures var u := UtteranceKey(s);
            var row := h.db.utterances[u].(digest := Some(digest));
            KeepRecording(h, u, payload, digest, Works) ==
            (Host(h.db.(utterances := h.db.utterances[u := row]), h.files[AudioPath(u) := payload]), true)
  {
    StoredPathIsSourceKey(s);
  }

  lemma KeepingAdds(h: Host, s: SessionId, payload: Bytes, digest: string, disk: Disk)
    requires UtteranceKey(s) in h.db.utterances
    ensures var u := UtteranceKey(s);
            var (after, ok) := KeepRecording(h, u, payload, digest, disk);
            if ok then
              AudioPath(u) !in h.files && after.files == h.files[AudioPath(u) := payload] &&
              after.db == h.db.(utterances := h.db.utterances[u := h.db.utterances[u].(digest := Some(digest))])
            else after.db == h.db && Gained(h.files, after.files, AudioPath(u))
  {
    StoredPathIsSourceKey(s);
  }

  lemma RecordingAdds(db: Db, batch: string, l: Learning, s: SessionId, now: nat)
    requires Recorded(db, batch, l, s, now).Done?
    ensures var u := UtteranceKey(s);
            u !in db.utterances && Recorded(db, batch, l, s, now).db.utterances ==
                                   db.utterances[u := Utterance(DEFAULT_USER, AudioPath(u), None, Some(l.raw))]
  {
    CreateOpens(db, s, l.raw, now);
    var made := CreateSession(db, s, Some(l.raw), now);
    var edited := if l.corrected != l.raw then RecordPreedit(made.db, s, l.raw, l.corrected, 0) else made;
    if l.corrected != l.raw { PreeditLeavesOpen(made.db, s, l.raw, l.raw, l.corrected); }
    CommitLeavesUtterances(edited.db, s, l.raw, l.corrected, IngestKey(batch, l.digest), now);
  }

  /** A failure before the recording leaves the files alone and at most the new utterance. */
  lemma StoppedEarly(h: Host, batch: string, l: Learning, s: SessionId, payload: Bytes, now: nat, disk: Disk)
    requires Recorded(h.db, batch, l, s, now).Failed?
    ensures var (after, ok) := StoreLearning(h, batch, l, s, payload, now, disk);
            var u := UtteranceKey(s);
            var row := Utterance(DEFAULT_USER, AudioPath(u), None, Some(l.raw));
            && !ok && after.files == h.files
            && (after.db.utterances == h.db.utterances ||
                (u !in h.db.utterances && after.db.utterances == h.db.utterances[u := row]))
  {
    var made := CreateSession(h.db, s, Some(l.raw), now);
    if made.Done? {
      CreateOpens(h.db, s, l.raw, now);
      if l.corrected != l.raw && RecordPreedit(made.db, s, l.raw, l.corrected, 0).Done? {
        PreeditLeavesOpen(made.db, s, l.raw, l.raw, l.corrected);
      }
    }
  }

  /** One learning adds one utterance row and one file, and changes no other: all of it if it succeeds, and no digest if
      it does not. */
  lemma StoringAdds(h: Host, batch: string, l: Learning, s: SessionId, payload: Bytes, now: nat, disk: Disk)
    ensures var (after, ok) := StoreLearning(h, batch, l, s, payload, now, disk);
            var u := UtteranceKey(s);
            var row := Utterance(DEFAULT_USER, AudioPath(u), None, Some(l.raw));
            if ok then
              u !in h.db.utterances && AudioPath(u) !in h.files && after.files == h.files[AudioPath(u) := payload] &&
              after.db.utterances == h.db.utterances[u := row.(digest := Some(l.digest))]
            else
              && (after.db.utterances == h.db.utterances ||
                  (u !in h.db.utterances && after.db.utterances == h.db.utterances[u := row]))
              && Gained(h.files, after.files, AudioPath(u))
  {
    if Recorded(h.db, batch, l, s, now).Done? {
      RecordingAdds(h.db, batch, l, s, now);
      RecordedThenKept(h, batch, l, s, payload, now, disk);
      KeepingAdds(Host(Recorded(h.db, batch, l, s, now).db, h.files), s, payload, l.digest, disk);
    } else {
      StoppedEarly(h, batch, l, s, payload, now, disk);
    }
  }
}
