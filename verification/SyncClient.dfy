/** The phone half of learning sync: gather the outbox with its audio, and reclaim it once the PC has confirmed. */
module SyncClient {
  import opened Basics
  import opened Tables
  import StoreInvariant
  import opened AudioStore
  import opened Hosts
  import Eviction
  import Ingest
  import MetadataStore

  // ---------------------------------------------------------------- build_batch

  /** The audio attached for these learnings, one payload a digest; `None` when a recording cannot be read. */
  function Attached(files: map<string, Bytes>, learnings: seq<Learning>): Option<map<string, Bytes>> {
    if learnings == [] then Some(map[])
    else
      var prior, l := Attached(files, learnings[..|learnings| - 1]), learnings[|learnings| - 1];
      if prior.None? || l.digest in prior.value then prior
      else if IsObjectKey(l.audioKey) && l.audioKey in files then Some(prior.value[l.digest := files[l.audioKey]])
      else None
  }

  function Built(h: Host, user: string, batch: string): Option<Ingest.Envelope> {
    var o := Outbox(h.db, user);
    var audio := Attached(h.files, o);
    if audio.Some? then Some(Ingest.Envelope(batch, o, audio.value)) else None
  }

  /** Every learning has its recording attached under its digest, and nothing else is attached. */
  predicate Carries(files: map<string, Bytes>, learnings: seq<Learning>, audio: map<string, Bytes>) {
    && (forall l :: l in learnings ==> l.digest in audio)
    && (forall d :: d in audio ==>
          exists l :: l in learnings && l.digest == d && l.audioKey in files && audio[d] == files[l.audioKey])
  }

  method BuildBatch(store: MetadataStore.MetadataStore, audio: FileAudioStore, user: string, batch: string)
    returns (env: Option<Ingest.Envelope>)
    ensures env == Built(Host(store.db, audio.files), user, batch)
    ensures env.Some? ==>
              && env.value.batch == batch && env.value.learnings == Outbox(store.db, user)
              && (forall l :: l in env.value.learnings ==> Eviction.Ships(store.db, user, l))
              && Carries(audio.files, env.value.learnings, env.value.audio)
    ensures env.None? ==>
              exists l :: l in Outbox(store.db, user) && !(IsObjectKey(l.audioKey) && l.audioKey in audio.files)
  {
    var candidates := Outbox(store.db, user);
    var learnings, attached: map<string, Bytes>, i := [], map[], 0;
    while i < |candidates|
      invariant 0 <= i <= |candidates| && learnings == candidates[..i]
      invariant Attached(audio.files, candidates[..i]) == Some(attached)
    {
      var l := candidates[i];
      assert candidates[..i + 1][..i] == candidates[..i];
      if l.digest !in attached {
        var payload := audio.ReadSourcePayloadByKey(l.audioKey);
        if payload.Err? {
          AttachFails(audio.files, candidates, i + 1);
          assert l in candidates;
          return None;
        }
        attached := attached[l.digest := payload.value];
      }
      learnings := learnings + [l];
      i := i + 1;
    }
    assert candidates[..i] == candidates;
    Eviction.OutboxShips(store.db, user);
    AttachedIsComplete(audio.files, candidates);
    return Some(Ingest.Envelope(batch, learnings, attached));
  }

  lemma {:induction false} AttachFails(files: map<string, Bytes>, o: seq<Learning>, n: nat)
    requires n <= |o| && Attached(files, o[..n]).None?
    ensures Attached(files, o).None?
    decreases |o| - n
  {
    if n == |o| {
      assert o[..n] == o;
    } else {
      assert o[..n + 1][..n] == o[..n];
      AttachFails(files, o, n + 1);
    }
  }

  /** A built envelope carries audio for every learning, and only recordings of its learnings under their digests. */
  lemma {:induction false} AttachedIsComplete(files: map<string, Bytes>, o: seq<Learning>)
    requires Attached(files, o).Some?
    ensures Carries(files, o, Attached(files, o).value)
  {
    if o != [] {
      var init, last := o[..|o| - 1], o[|o| - 1];
      assert o == init + [last];
      AttachedIsComplete(files, init);
      var prior, audio := Attached(files, init).value, Attached(files, o).value;
      forall d | d in audio
        ensures exists l :: l in o && l.digest == d && l.audioKey in files && audio[d] == files[l.audioKey]
      {
        if d in prior {
          var l :| l in init && l.digest == d && l.audioKey in files && prior[d] == files[l.audioKey];
          assert l in o;
        } else {
          assert last in o;
        }
      }
    }
  }

  // ---------------------------------------------------------------- confirm_shipped

  /** `mark_synced_and_drop_audio` on one device. */
  function Confirmed(h: Host, id: nat): (Host, bool) {
    var marked := MarkSynced(h.db, id);
    if marked.Failed? then (h, false)
    else
      var c := h.db.candidates[id];
      var key := SourceKey(h.db.sessions[c.session].user, c.utterance);
      if key.Err? then (Host(marked.db, h.files), false) else (Host(marked.db, h.files - {key.value}), true)
  }

  /** The loop after `n` learnings: the first failure ends it. */
  function ConfirmUpTo(h: Host, learnings: seq<Learning>, n: nat): (Host, bool)
    requires n <= |learnings|
  {
    if n == 0 then (h, true)
    else
      var prior := ConfirmUpTo(h, learnings, n - 1);
      if prior.1 then Confirmed(prior.0, learnings[n - 1].candidate) else prior
  }

  lemma ConfirmedKeepsValid(h: Host, id: nat)
    requires StoreInvariant.Valid(h.db)
    ensures StoreInvariant.Valid(Confirmed(h, id).0.db)
  {
    StoreInvariant.StatusKeeps(h.db, id, Synced);
  }

  lemma {:induction false} ConfirmKeepsValid(h: Host, learnings: seq<Learning>, n: nat)
    requires n <= |learnings| && StoreInvariant.Valid(h.db)
    ensures StoreInvariant.Sound(Done(ConfirmUpTo(h, learnings, n).0.db))
  {
    if n > 0 {
      ConfirmKeepsValid(h, learnings, n - 1);
      ConfirmedKeepsValid(ConfirmUpTo(h, learnings, n - 1).0, learnings[n - 1].candidate);
    }
  }

  function Ids(learnings: seq<Learning>): set<nat> { set l | l in learnings :: l.candidate }

  /** The recordings of the listed candidates. */
  function Recordings(db: Db, learnings: seq<Learning>): set<string> {
    set l | l in learnings && l.candidate in db.candidates && db.candidates[l.candidate].session in db.sessions &&
            SourceKey(db.sessions[db.candidates[l.candidate].session].user,
                      db.candidates[l.candidate].utterance).Ok?
      :: SourceKey(db.sessions[db.candidates[l.candidate].session].user, db.candidates[l.candidate].utterance).value
  }

  /** Whether `confirm` finds the candidate, its session, and a key for its recording. */
  predicate Confirmable(db: Db, id: nat) {
    && id in db.candidates && db.candidates[id].session in db.sessions
    && SourceKey(db.sessions[db.candidates[id].session].user, db.candidates[id].utterance).Ok?
  }

  /** The first `n` of the learnings are confirmed: their candidates synced, their recordings gone, all else kept. */
  predicate Reclaimed(h: Host, after: Host, learnings: seq<Learning>, n: nat)
    requires n <= |learnings|
  {
    && (forall l :: l in learnings[..n] ==> Confirmable(h.db, l.candidate))
    && MetadataStore.OnlySynced(h.db, after.db, Ids(learnings[..n]))
    && after.files == h.files - Recordings(h.db, learnings[..n])
  }

  /** It stopped at learning `n`: what came before is confirmed, and this one at most marked. */
  predicate StoppedAt(h: Host, after: Host, learnings: seq<Learning>, n: nat)
    requires n < |learnings|
  {
    && !Confirmable(h.db, learnings[n].candidate)
    && (MetadataStore.OnlySynced(h.db, after.db, Ids(learnings[..n])) ||
        MetadataStore.OnlySynced(h.db, after.db, Ids(learnings[..n + 1])))
    && after.files == h.files - Recordings(h.db, learnings[..n])
  }

  /** Syncing candidates changes neither their recordings nor whether they can be confirmed. */
  lemma SyncingKeepsKeys(before: Db, db: Db, ids: set<nat>, id: nat)
    requires MetadataStore.OnlySynced(before, db, ids)
    ensures Confirmable(before, id) <==> Confirmable(db, id)
    ensures id in before.candidates <==> id in db.candidates
    ensures id in db.candidates ==>
              db.candidates[id].session == before.candidates[id].session &&
              db.candidates[id].utterance == before.candidates[id].utterance && db.sessions == before.sessions
  {
  }

  lemma OneMoreListed(db: Db, learnings: seq<Learning>, n: nat)
    requires 0 < n <= |learnings|
    ensures Ids(learnings[..n]) == Ids(learnings[..n - 1]) + {learnings[n - 1].candidate}
    ensures Confirmable(db, learnings[n - 1].candidate) ==>
              var c := db.candidates[learnings[n - 1].candidate];
              Recordings(db, learnings[..n]) ==
              Recordings(db, learnings[..n - 1]) + {SourceKey(db.sessions[c.session].user, c.utterance).value}
    ensures learnings[..n] == learnings[..n - 1] + [learnings[n - 1]]
  {
    assert learnings[..n] == learnings[..n - 1] + [learnings[n - 1]];
  }

  /** One more learning. */
  lemma ConfirmNext(h: Host, prior: Host, learnings: seq<Learning>, n: nat, r: (Host, bool))
    requires 0 < n <= |learnings| && Reclaimed(h, prior, learnings, n - 1)
    requires r == Confirmed(prior, learnings[n - 1].candidate) && r.1
    ensures Reclaimed(h, r.0, learnings, n)
  {
    var id := learnings[n - 1].candidate;
    OneMoreListed(h.db, learnings, n);
    SyncingKeepsKeys(h.db, prior.db, Ids(learnings[..n - 1]), id);
    MetadataStore.SyncedNext(h.db, prior.db, Ids(learnings[..n - 1]), id);
  }

  lemma ConfirmHalts(h: Host, prior: Host, learnings: seq<Learning>, n: nat, r: (Host, bool))
    requires n < |learnings| && Reclaimed(h, prior, learnings, n)
    requires r == Confirmed(prior, learnings[n].candidate) && !r.1
    ensures StoppedAt(h, r.0, learnings, n)
  {
    var id := learnings[n].candidate;
    OneMoreListed(h.db, learnings, n + 1);
    SyncingKeepsKeys(h.db, prior.db, Ids(learnings[..n]), id);
    if id in h.db.candidates { MetadataStore.SyncedNext(h.db, prior.db, Ids(learnings[..n]), id); }
  }

  /** What confirming the first `n` learnings does: all of them, or up to the first that cannot be confirmed. */
  lemma ConfirmSays(h: Host, learnings: seq<Learning>, n: nat, r: (Host, bool))
    requires n <= |learnings| && r == ConfirmUpTo(h, learnings, n)
    ensures r.1 ==> Reclaimed(h, r.0, learnings, n)
    ensures !r.1 ==> exists m :: 0 <= m < n && StoppedAt(h, r.0, learnings, m)
  {
    if r.1 { ConfirmGoes(h, learnings, n, r); } else { ConfirmStops(h, learnings, n, r); }
  }

  lemma {:induction false} ConfirmGoes(h: Host, learnings: seq<Learning>, n: nat, r: (Host, bool))
    requires n <= |learnings| && r == ConfirmUpTo(h, learnings, n) && r.1
    ensures Reclaimed(h, r.0, learnings, n)
  {
    if n == 0 {
      assert learnings[..0] == [];
    } else {
      var prior := ConfirmUpTo(h, learnings, n - 1);
      ConfirmIs(h, learnings, n, prior, r);
      ConfirmGoes(h, learnings, n - 1, prior);
      ConfirmNext(h, prior.0, learnings, n, r);
    }
  }

  lemma {:induction false} ConfirmStops(h: Host, learnings: seq<Learning>, n: nat, r: (Host, bool))
    requires n <= |learnings| && r == ConfirmUpTo(h, learnings, n) && !r.1
    ensures exists m :: 0 <= m < n && StoppedAt(h, r.0, learnings, m)
  {
    var prior := ConfirmUpTo(h, learnings, n - 1);
    ConfirmIs(h, learnings, n, prior, r);
    if prior.1 {
      ConfirmGoes(h, learnings, n - 1, prior);
      ConfirmHalts(h, prior.0, learnings, n - 1, r);
    } else {
      ConfirmStops(h, learnings, n - 1, prior);
    }
  }

  lemma ConfirmIs(h: Host, learnings: seq<Learning>, n: nat, prior: (Host, bool), r: (Host, bool))
    requires 0 < n <= |learnings| && prior == ConfirmUpTo(h, learnings, n - 1) && r == ConfirmUpTo(h, learnings, n)
    ensures r == if prior.1 then Confirmed(prior.0, learnings[n - 1].candidate) else prior
  {
  }

  /** On a store any commands reached, the candidates that are still there are the ones that can be confirmed. */
  lemma AllConfirmable(db: Db, learnings: seq<Learning>)
    requires StoreInvariant.Sound(Done(db))
    ensures forall l :: l in learnings ==> (Confirmable(db, l.candidate) <==> l.candidate in db.candidates)
  {
    forall l | l in learnings && l.candidate in db.candidates ensures Confirmable(db, l.candidate) {
      StoredPathIsSourceKey(db.candidates[l.candidate].session);
    }
  }

  method ConfirmOne(store: MetadataStore.MetadataStore, audio: FileAudioStore, id: nat) returns (ok: bool)
    modifies store, audio
    ensures (Host(store.db, audio.files), ok) == Confirmed(old(Host(store.db, audio.files)), id)
  {
    var error := store.MarkSyncedAndDropAudio(id, audio);
    ok := error.None?;
  }

  method ConfirmShipped(store: MetadataStore.MetadataStore, audio: FileAudioStore, learnings: seq<Learning>)
    returns (ok: bool)
    modifies store, audio
    ensures (Host(store.db, audio.files), ok) == ConfirmUpTo(old(Host(store.db, audio.files)), learnings, |learnings|)
    ensures ok ==>
              && MetadataStore.OnlySynced(old(store.db), store.db, Ids(learnings))
              && audio.files == old(audio.files) - Recordings(old(store.db), learnings)
              && forall l :: l in learnings ==>
                   l.candidate in store.db.candidates && store.db.candidates[l.candidate].status == Synced
    ensures ok <==> forall l :: l in learnings ==> Confirmable(old(store.db), l.candidate)
    ensures !ok ==> exists n :: 0 <= n < |learnings| &&
                      StoppedAt(old(Host(store.db, audio.files)), Host(store.db, audio.files), learnings, n)
  {
    ok := true;
    var i := 0;
    ghost var h := Host(store.db, audio.files);
    while i < |learnings| && ok
      invariant 0 <= i <= |learnings|
      invariant (Host(store.db, audio.files), ok) == ConfirmUpTo(h, learnings, i)
    {
      ok := ConfirmOne(store, audio, learnings[i].candidate);
      i := i + 1;
    }
    if !ok { StopsAtFirst(h, learnings, i, |learnings|); }
    ConfirmSays(h, learnings, |learnings|, (Host(store.db, audio.files), ok));
    assert learnings[..|learnings|] == learnings;
  }

  lemma {:induction false} StopsAtFirst(h: Host, learnings: seq<Learning>, n: nat, m: nat)
    requires n <= m <= |learnings| && !ConfirmUpTo(h, learnings, n).1
    ensures ConfirmUpTo(h, learnings, m) == ConfirmUpTo(h, learnings, n)
  {
    if n < m { StopsAtFirst(h, learnings, n, m - 1); }
  }
}
