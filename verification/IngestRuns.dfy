/** Whole ingest runs: when a batch is sure to be stored, and two ways one is acknowledged without becoming training
    data. */
module IngestRuns {
  import opened Basics
  import opened Tables
  import opened StoreInvariant
  import opened AudioStore
  import opened Hosts
  import opened Ingest
  import opened IngestLaws
  import StoreLaws

  // ---------------------------------------------------------------- fresh ids stay fresh

  lemma CreatedKeyInjective(s: string, t: string)
    requires CreatedKey(s) == CreatedKey(t)
    ensures s == t
  {
    assert CreatedKey(s)[|"session-created:"|..] == s && CreatedKey(t)[|"session-created:"|..] == t;
  }

  lemma PreeditKeyInjective(s: string, t: string)
    requires PreeditKey(s, 0) == PreeditKey(t, 0)
    ensures s == t
  {
    var key := PreeditKey(s, 0);
    assert Dec(0) == "0";
    assert key == "preedit:" + s + ":" + "0" && key == "preedit:" + t + ":" + "0";
    assert key[|"preedit:"|..|key| - 2] == s && key[|"preedit:"|..|key| - 2] == t;
  }

  /** The session id was never used in this database. */
  predicate Unused(db: Db, s: SessionId) { FreshId(Host(db, map[]), s) }

  lemma CreateLeavesUnused(db: Db, s: SessionId, raw: string, now: nat, t: SessionId)
    requires Unused(db, t) && s != t && CreateSession(db, s, Some(raw), now).Done?
    ensures Unused(CreateSession(db, s, Some(raw), now).db, t)
  {
    CreateLogs(db, s, raw, now, CreatedKey(t));
    CreateLogs(db, s, raw, now, PreeditKey(t, 0));
    assert CreatedKey(s)[0] == 's' && PreeditKey(t, 0)[0] == 'p';
    if CreatedKey(s) == CreatedKey(t) { CreatedKeyInjective(s, t); }
    if UtteranceKey(s) == UtteranceKey(t) { UtteranceKeyInjective(s, t); }
  }

  lemma PreeditLeavesUnused(db: Db, s: SessionId, from: string, to: string, t: SessionId)
    requires Unused(db, t) && s != t && RecordPreedit(db, s, from, to, 0).Done?
    ensures Unused(RecordPreedit(db, s, from, to, 0).db, t)
  {
    if PreeditKey(s, 0) == PreeditKey(t, 0) { PreeditKeyInjective(s, t); }
    assert CreatedKey(t)[0] == 's' && PreeditKey(s, 0)[0] == 'p';
    PreeditLogs(db, s, from, to, CreatedKey(t));
    PreeditLogs(db, s, from, to, PreeditKey(t, 0));
  }

  lemma CommitLeavesUnused(db: Db, s: SessionId, text: string, key: string, now: nat, t: SessionId)
    requires Unused(db, t) && s != t && CommitSession(db, s, text, key, now).Done?
    requires key != CreatedKey(t) && key != PreeditKey(t, 0)
    requires s in db.sessions ==> db.sessions[s].utterance == UtteranceKey(s)
    ensures Unused(CommitSession(db, s, text, key, now).db, t)
  {
    CommitLogs(db, s, text, key, now, CreatedKey(t));
    CommitLogs(db, s, text, key, now, PreeditKey(t, 0));
  }

  lemma RecordingLeavesUnused(db: Db, batch: string, l: Learning, s: SessionId, now: nat, t: SessionId)
    requires Unused(db, t) && s != t && Recorded(db, batch, l, s, now).Done?
    ensures Unused(Recorded(db, batch, l, s, now).db, t)
  {
    IngestKeyApart(batch, l.digest, t);
    var made := CreateSession(db, s, Some(l.raw), now).db;
    CreateLeavesUnused(db, s, l.raw, now, t);
    CreateOpens(db, s, l.raw, now);
    var edited := made;
    if l.corrected != l.raw {
      PreeditLeavesUnused(made, s, l.raw, l.corrected, t);
      PreeditLeavesOpen(made, s, l.raw, l.raw, l.corrected);
      edited := RecordPreedit(made, s, l.raw, l.corrected, 0).db;
    }
    CommitLeavesUnused(edited, s, l.corrected, IngestKey(batch, l.digest), now, t);
  }

  /** Storing one learning under one id leaves every other unused id unused. */
  lemma StoringLeavesFresh(h: Host, batch: string, l: Learning, s: SessionId, payload: Bytes, now: nat, disk: Disk,
                           t: SessionId)
    requires FreshId(h, t) && s != t && Recorded(h.db, batch, l, s, now).Done?
    ensures FreshId(StoreLearning(h, batch, l, s, payload, now, disk).0, t)
  {
    RecordingLeavesUnused(h.db, batch, l, s, now, t);
    var recorded := Host(Recorded(h.db, batch, l, s, now).db, h.files);
    RecordedThenKept(h, batch, l, s, payload, now, disk);
    KeepingLeavesFresh(recorded, s, payload, l.digest, disk, t);
  }

  lemma KeepingLeavesFresh(h: Host, s: SessionId, payload: Bytes, digest: string, disk: Disk, t: SessionId)
    requires FreshId(h, t) && s != t
    ensures FreshId(KeepRecording(h, UtteranceKey(s), payload, digest, disk).0, t)
  {
    OtherFile(s, t);
    StoredPathIsSourceKey(s);
  }

  lemma OtherFile(s: SessionId, t: SessionId)
    requires s != t
    ensures AudioPath(UtteranceKey(s)) != AudioPath(UtteranceKey(t)) && UtteranceKey(s) != UtteranceKey(t)
  {
    StoredPathIsSourceKey(s);
    StoredPathIsSourceKey(t);
    if UtteranceKey(s) == UtteranceKey(t) { UtteranceKeyInjective(s, t); }
    if AudioPath(UtteranceKey(s)) == AudioPath(UtteranceKey(t)) {
      KeysAreInjective(DEFAULT_USER, UtteranceKey(s), DEFAULT_USER, UtteranceKey(t));
    }
  }

  // ---------------------------------------------------------------- a sound batch is stored

  /** The rest of the draws is still to be used. */
  predicate FreshFrom(h: Host, draws: seq<Draw>, n: nat) {
    forall m :: n <= m < |draws| ==> FreshId(h, draws[m].id)
  }

  predicate Distinct(draws: seq<Draw>) {
    forall i, j :: 0 <= i < j < |draws| ==> draws[i].id != draws[j].id
  }

  predicate DiskWorks(draws: seq<Draw>) { WorksFor(draws, |draws|) }

  predicate WorksFor(draws: seq<Draw>, n: nat)
    requires n <= |draws|
  {
    forall i :: 0 <= i < n ==> draws[i].disk.Works?
  }

  /** Distinct session ids never used on this device, and a disk that takes every recording. */
  predicate Draws(h: Host, draws: seq<Draw>) {
    FreshFrom(h, draws, 0) && Distinct(draws) && DiskWorks(draws)
  }

  lemma NextLeavesFresh(prior: Outcome, env: Envelope, l: Learning, now: nat, draws: seq<Draw>, n: nat)
    requires l.digest in env.audio && n < |draws| && FreshFrom(prior.host, draws, n)
    requires Distinct(draws)
    requires Next(prior, env, l, draws[n].id, now, draws[n].disk).ok
    ensures FreshFrom(Next(prior, env, l, draws[n].id, now, draws[n].disk).host, draws, n + 1)
  {
    if !HasDigest(prior.host.db, DEFAULT_USER, l.digest) {
      forall m | n + 1 <= m < |draws|
        ensures FreshId(Next(prior, env, l, draws[n].id, now, draws[n].disk).host, draws[m].id)
      {
        StoringLeavesFresh(prior.host, env.batch, l, draws[n].id, env.audio[l.digest], now, draws[n].disk, draws[m].id);
      }
    }
  }

  lemma NextSucceeds(prior: Outcome, env: Envelope, l: Learning, s: SessionId, now: nat)
    requires l.digest in env.audio && Valid(prior.host.db) && FreshId(prior.host, s) && prior.ok
    requires LedgerBacked(prior.host.db) && ':' !in l.digest
    ensures Next(prior, env, l, s, now, Works).ok && Sound(Done(Next(prior, env, l, s, now, Works).host.db))
  {
    if !HasDigest(prior.host.db, DEFAULT_USER, l.digest) {
      HasDigestIsStored(prior.host.db, l.digest);
      assert KeyBacked(prior.host.db, env.batch, l.digest);
      StoreLaws.CommitOpen(prior.host.db, IngestKey(env.batch, l.digest));
      FreshLearningIsStored(prior.host, env.batch, l, s, env.audio[l.digest], now, Works);
      StoringIsSound(prior.host, env.batch, l, s, env.audio[l.digest], now, Works);
    }
  }

  /** The batch has gone well for `n` learnings. */
  ghost predicate Going(r: Outcome, draws: seq<Draw>, n: nat) {
    match r
    case Outcome(host, _, _, ok) => ok && Valid(host.db) && LedgerBacked(host.db) && FreshFrom(host, draws, n)
  }

  lemma NextGoes(prior: Outcome, env: Envelope, draws: seq<Draw>, now: nat, i: nat, r: Outcome)
    requires Complete(env) && i < |draws| == |env.learnings| && Going(prior, draws, i) && draws[i].disk.Works?
    requires ':' !in env.learnings[i].digest && Distinct(draws)
    requires r == Next(prior, env, env.learnings[i], draws[i].id, now, draws[i].disk)
    ensures Going(r, draws, i + 1)
  {
    NextSucceeds(prior, env, env.learnings[i], draws[i].id, now);
    NextBacked(prior, env, env.learnings[i], draws[i], now, r);
    NextLeavesFresh(prior, env, env.learnings[i], now, draws, i);
  }

  lemma {:induction false} UpToSucceeds(h: Host, env: Envelope, draws: seq<Draw>, now: nat, n: nat, r: Outcome)
    requires Complete(env) && |draws| == |env.learnings| && n <= |draws| && r == IngestUpTo(h, env, draws, now, n)
    requires Valid(h.db) && LedgerBacked(h.db) && FreshFrom(h, draws, 0) && Distinct(draws)
    requires WorksFor(draws, n) && forall l :: l in env.learnings ==> ':' !in l.digest
    ensures Going(r, draws, n)
  {
    if n > 0 {
      var prior := IngestUpTo(h, env, draws, now, n - 1);
      UpToSucceeds(h, env, draws, now, n - 1, prior);
      assert env.learnings[n - 1] in env.learnings;
      NextGoes(prior, env, draws, now, n - 1, r);
    }
  }

  /** On a valid store whose ledger is backed, a complete batch whose recordings the disk takes, under distinct unused
      session ids, always completes: it stores every digest, and each digest that is new becomes one candidate. */
  lemma IngestSucceeds(h: Host, env: Envelope, draws: seq<Draw>, now: nat, r: Outcome)
    requires Complete(env) && |draws| == |env.learnings| && r == IngestAll(h, env, draws, now)
    requires Valid(h.db) && LedgerBacked(h.db) && Draws(h, draws) && forall l :: l in env.learnings ==> ':' !in l.digest
    ensures r.ok && Valid(r.host.db) && LedgerBacked(r.host.db)
    ensures r.accepted == FirstNew(Stored(h.db), Digests(env.learnings))
    ensures |r.host.db.candidates| == |h.db.candidates| + |r.accepted|
  {
    UpToSucceeds(h, env, draws, now, |draws|, r);
    BackedLedgerMakesCandidates(h, env, draws, now, r);
    IngestReport(h, env, draws, now);
  }

  // ---------------------------------------------------------------- spent keys

  /** The ledger knows this learning's commit under the batch. */
  predicate Spent(log: seq<Event>, batch: string, l: Learning) {
    exists e :: e in log && e.key == IngestKey(batch, l.digest) && e.kind == SessionCommitted &&
                e.payload == l.corrected
  }

  lemma SpentStays(log: seq<Event>, after: seq<Event>, batch: string, l: Learning)
    requires Spent(log, batch, l) && log <= after
    ensures Spent(after, batch, l)
  {
    var e :| e in log && e.key == IngestKey(batch, l.digest) && e.kind == SessionCommitted && e.payload == l.corrected;
    assert e in after;
  }

  lemma StoringSpends(h: Host, batch: string, l: Learning, s: SessionId, payload: Bytes, now: nat, disk: Disk)
    requires StoreLearning(h, batch, l, s, payload, now, disk).1
    ensures var after := StoreLearning(h, batch, l, s, payload, now, disk).0.db;
            h.db.log <= after.log && Spent(after.log, batch, l)
  {
    var made := CreateSession(h.db, s, Some(l.raw), now).db;
    var edited := if l.corrected != l.raw then RecordPreedit(made, s, l.raw, l.corrected, 0).db else made;
    var committed := CommitSession(edited, s, l.corrected, IngestKey(batch, l.digest), now).db;
    assert h.db.log <= made.log <= edited.log <= committed.log;
    CommitSpends(edited, batch, l, s, now);
  }

  lemma CommitSpends(db: Db, batch: string, l: Learning, s: SessionId, now: nat)
    requires CommitSession(db, s, l.corrected, IngestKey(batch, l.digest), now).Done?
    ensures Spent(CommitSession(db, s, l.corrected, IngestKey(batch, l.digest), now).db.log, batch, l)
  {
    var after := CommitSession(db, s, l.corrected, IngestKey(batch, l.digest), now).db;
    if after.log != db.log { assert after.log[|db.log|] in after.log; }
  }

  /** The learning's digest was not stored, and no earlier learning of the batch has it. */
  predicate First(have: set<string>, learnings: seq<Learning>, i: nat)
    requires i < |learnings|
  {
    learnings[i].digest !in have && forall j :: 0 <= j < i ==> learnings[j].digest != learnings[i].digest
  }

  /** Of the first `n` learnings, those that were new have their commits in the log. */
  predicate AllSpent(log: seq<Event>, have: set<string>, env: Envelope, n: nat)
    requires n <= |env.learnings|
  {
    forall i :: 0 <= i < n && First(have, env.learnings, i) ==> Spent(log, env.batch, env.learnings[i])
  }

  predicate SpentAt(r: Outcome, have: set<string>, env: Envelope, n: nat)
    requires n <= |env.learnings|
  {
    match r
    case Outcome(host, _, _, _) => AllSpent(host.db.log, have, env, n)
  }

  /** A learning is first of its digest exactly when the loop finds it new. */
  lemma FirstIffNew(prior: Outcome, have: set<string>, env: Envelope, i: nat)
    requires i < |env.learnings| && Reads(prior, have, Digests(env.learnings)[..i])
    ensures First(have, env.learnings, i) <==> !HasDigest(prior.host.db, DEFAULT_USER, env.learnings[i].digest)
  {
    var ds := Digests(env.learnings)[..i];
    HasDigestIsStored(prior.host.db, env.learnings[i].digest);
    assert forall j :: 0 <= j < i ==> ds[j] == env.learnings[j].digest;
  }

  lemma {:induction false} UpToSpends(h: Host, env: Envelope, draws: seq<Draw>, now: nat, n: nat, r: Outcome)
    requires Complete(env) && |draws| == |env.learnings| && n <= |draws|
    requires r == IngestUpTo(h, env, draws, now, n) && r.ok
    ensures SpentAt(r, Stored(h.db), env, n)
  {
    if n > 0 {
      var prior := IngestUpTo(h, env, draws, now, n - 1);
      UpToSpends(h, env, draws, now, n - 1, prior);
      ReadBefore(h, env, draws, now, n, prior);
      NextSpends(prior, Stored(h.db), env, draws, now, n - 1, r);
    }
  }

  lemma NextSpends(prior: Outcome, have: set<string>, env: Envelope, draws: seq<Draw>, now: nat, i: nat, r: Outcome)
    requires Complete(env) && i < |draws| == |env.learnings| && SpentAt(prior, have, env, i)
    requires Reads(prior, have, Digests(env.learnings)[..i])
    requires r == Next(prior, env, env.learnings[i], draws[i].id, now, draws[i].disk) && r.ok
    ensures SpentAt(r, have, env, i + 1)
  {
    FirstIffNew(prior, have, env, i);
    if HasDigest(prior.host.db, DEFAULT_USER, env.learnings[i].digest) {
      NoneSpent(prior.host.db.log, have, env, i);
    } else {
      var l := env.learnings[i];
      StoringSpends(prior.host, env.batch, l, draws[i].id, env.audio[l.digest], now, draws[i].disk);
      SpentGrow(prior.host.db.log, r.host.db.log, have, env, i);
    }
  }

  lemma NoneSpent(log: seq<Event>, have: set<string>, env: Envelope, i: nat)
    requires i < |env.learnings| && AllSpent(log, have, env, i) && !First(have, env.learnings, i)
    ensures AllSpent(log, have, env, i + 1)
  {
  }

  lemma SpentGrow(log: seq<Event>, after: seq<Event>, have: set<string>, env: Envelope, i: nat)
    requires i < |env.learnings| && AllSpent(log, have, env, i)
    requires log <= after && Spent(after, env.batch, env.learnings[i])
    ensures AllSpent(after, have, env, i + 1)
  {
    forall j | 0 <= j < i && First(have, env.learnings, j) ensures Spent(after, env.batch, env.learnings[j]) {
      SpentStays(log, after, env.batch, env.learnings[j]);
    }
  }

  lemma {:induction false} UpToLeavesFresh(h: Host, env: Envelope, draws: seq<Draw>, now: nat, n: nat, r: Outcome,
                                           t: SessionId)
    requires Complete(env) && |draws| == |env.learnings| && n <= |draws|
    requires r == IngestUpTo(h, env, draws, now, n) && r.ok && FreshId(h, t) && forall d :: d in draws ==> d.id != t
    ensures FreshId(r.host, t)
  {
    if n > 0 {
      var l, draw := env.learnings[n - 1], draws[n - 1];
      var prior := IngestUpTo(h, env, draws, now, n - 1);
      UpToLeavesFresh(h, env, draws, now, n - 1, prior, t);
      assert draw in draws;
      NextLeavesOne(prior, env, l, draw, now, t);
    }
  }

  lemma NextLeavesOne(prior: Outcome, env: Envelope, l: Learning, draw: Draw, now: nat, t: SessionId)
    requires l.digest in env.audio && Next(prior, env, l, draw.id, now, draw.disk).ok
    requires FreshId(prior.host, t) && draw.id != t
    ensures FreshId(Next(prior, env, l, draw.id, now, draw.disk).host, t)
  {
    if !HasDigest(prior.host.db, DEFAULT_USER, l.digest) {
      StoringLeavesFresh(prior.host, env.batch, l, draw.id, env.audio[l.digest], now, draw.disk, t);
    }
  }

  // ---------------------------------------------------------------- retention between two deliveries

  /** Every session dates from `now`, and every utterance is some session's. */
  predicate Dated(sessions: map<string, Session>, utterances: map<string, Utterance>, now: nat) {
    && (forall s :: s in sessions ==> SessionTime(sessions[s]) == now)
    && (forall u :: u in utterances ==> Owned(sessions, u))
  }

  predicate Owned(sessions: map<string, Session>, u: string) {
    exists s :: s in sessions && sessions[s].utterance == u
  }

  lemma CreateDates(db: Db, s: SessionId, raw: string, now: nat)
    requires Dated(db.sessions, db.utterances, now) && CreateSession(db, s, Some(raw), now).Done?
    ensures var after := CreateSession(db, s, Some(raw), now).db; Dated(after.sessions, after.utterances, now)
  {
    var after := CreateSession(db, s, Some(raw), now).db;
    forall u | u in after.utterances ensures Owned(after.sessions, u) {
      if u in db.utterances {
        var t :| t in db.sessions && db.sessions[t].utterance == u;
        assert t in after.sessions && after.sessions[t].utterance == u;
      } else {
        assert s in after.sessions && after.sessions[s].utterance == u;
      }
    }
  }

  /** A row rewritten without moving its utterance or its date. */
  lemma RowDates(sessions: map<string, Session>, utterances: map<string, Utterance>, now: nat, s: string, row: Session,
                 after: map<string, Utterance>)
    requires Dated(sessions, utterances, now) && s in sessions && row.utterance == sessions[s].utterance
    requires SessionTime(row) == now && after.Keys == utterances.Keys
    ensures Dated(sessions[s := row], after, now)
  {
    var moved := sessions[s := row];
    forall u | u in after ensures Owned(moved, u) {
      var t :| t in sessions && sessions[t].utterance == u;
      assert t in moved && moved[t].utterance == u;
    }
  }

  lemma StoringDates(h: Host, batch: string, l: Learning, s: SessionId, payload: Bytes, now: nat, disk: Disk)
    requires Dated(h.db.sessions, h.db.utterances, now) && StoreLearning(h, batch, l, s, payload, now, disk).1
    ensures var after := StoreLearning(h, batch, l, s, payload, now, disk).0.db;
            Dated(after.sessions, after.utterances, now)
  {
    CreateDates(h.db, s, l.raw, now);
    var made := CreateSession(h.db, s, Some(l.raw), now).db;
    var edited := if l.corrected != l.raw then RecordPreedit(made, s, l.raw, l.corrected, 0).db else made;
    if l.corrected != l.raw { PreeditDates(made, s, l.raw, l.corrected, now); }
    FinishDates(edited, batch, l, s, now);
  }

  lemma PreeditDates(db: Db, s: string, from: string, to: string, now: nat)
    requires Dated(db.sessions, db.utterances, now) && RecordPreedit(db, s, from, to, 0).Done?
    ensures var after := RecordPreedit(db, s, from, to, 0).db; Dated(after.sessions, after.utterances, now)
  {
    var after := RecordPreedit(db, s, from, to, 0).db;
    if after != db { RowDates(db.sessions, db.utterances, now, s, after.sessions[s], after.utterances); }
  }

  lemma FinishDates(db: Db, batch: string, l: Learning, s: SessionId, now: nat)
    requires Dated(db.sessions, db.utterances, now)
    requires CommitSession(db, s, l.corrected, IngestKey(batch, l.digest), now).Done?
    ensures var after := CommitSession(db, s, l.corrected, IngestKey(batch, l.digest), now).db;
            && Dated(after.sessions, after.utterances, now)
            && var stamped := SetDigest(after, UtteranceKey(s), l.digest);
               stamped.Done? ==> Dated(stamped.db.sessions, stamped.db.utterances, now)
  {
    var key := IngestKey(batch, l.digest);
    var after := CommitSession(db, s, l.corrected, key, now).db;
    if HasKey(db.log, key) {
      CommitInVain(db, s, l.corrected, key, now);
    } else {
      CommitDates(db, s, l.corrected, key, now);
    }
    if SetDigest(after, UtteranceKey(s), l.digest).Done? { StampDates(after, UtteranceKey(s), l.digest, now); }
  }

  lemma CommitDates(db: Db, s: string, text: string, key: string, now: nat)
    requires Dated(db.sessions, db.utterances, now) && s in db.sessions && db.sessions[s].raw.Some?
    ensures var after := CommittedAs(db, s, text, key, now); Dated(after.sessions, after.utterances, now)
  {
    var after := CommittedAs(db, s, text, key, now);
    assert after.utterances.Keys == db.utterances.Keys;
    RowDates(db.sessions, db.utterances, now, s, after.sessions[s], after.utterances);
  }

  lemma StampDates(db: Db, u: string, digest: string, now: nat)
    requires Dated(db.sessions, db.utterances, now) && SetDigest(db, u, digest).Done?
    ensures Dated(SetDigest(db, u, digest).db.sessions, SetDigest(db, u, digest).db.utterances, now)
  {
  }

  predicate DatedAt(r: Outcome, now: nat) {
    match r
    case Outcome(host, _, _, _) => Dated(host.db.sessions, host.db.utterances, now)
  }

  lemma {:induction false} UpToDates(h: Host, env: Envelope, draws: seq<Draw>, now: nat, n: nat, r: Outcome)
    requires Complete(env) && |draws| == |env.learnings| && n <= |draws| && Dated(h.db.sessions, h.db.utterances, now)
    requires r == IngestUpTo(h, env, draws, now, n) && r.ok
    ensures DatedAt(r, now)
  {
    if n > 0 {
      var prior := IngestUpTo(h, env, draws, now, n - 1);
      UpToDates(h, env, draws, now, n - 1, prior);
      NextDates(prior, env, draws, now, n - 1, r);
    }
  }

  lemma NextDates(prior: Outcome, env: Envelope, draws: seq<Draw>, now: nat, i: nat, r: Outcome)
    requires Complete(env) && i < |draws| == |env.learnings|
    requires r == Next(prior, env, env.learnings[i], draws[i].id, now, draws[i].disk) && r.ok
    requires DatedAt(prior, now)
    ensures DatedAt(r, now)
  {
    var l := env.learnings[i];
    if !HasDigest(prior.host.db, DEFAULT_USER, l.digest) {
      StoringDates(prior.host, env.batch, l, draws[i].id, env.audio[l.digest], now, draws[i].disk);
    }
  }

  /** Retention past everything's date leaves the log and nothing else of the sessions. */
  lemma PruneEmpties(db: Db, now: nat, cutoff: nat)
    requires Valid(db) && Dated(db.sessions, db.utterances, now) && now < cutoff
    ensures var after := PruneTraining(db, cutoff);
            after.log == db.log && after.candidates == map[] && Stored(after) == {}
  {
    var after := PruneTraining(db, cutoff);
    assert Expired(db, cutoff) == db.sessions.Keys;
    assert after.candidates == map[];
    forall u | u in db.utterances ensures u !in after.utterances {
      var s :| s in db.sessions && db.sessions[s].utterance == u;
    }
    assert after.utterances == map[];
  }

  lemma PruneLeavesFresh(h: Host, cutoff: nat, t: SessionId)
    requires FreshId(h, t)
    ensures FreshId(PrunedHost(h, cutoff), t)
  {
  }

  // ---------------------------------------------------------------- accepted in vain

  /** Under an unused id and a key spent on this very commit, storing succeeds but leaves the new session open and adds
      no candidate. */
  lemma SpentLearningIsVain(h: Host, batch: string, l: Learning, s: SessionId, payload: Bytes, now: nat)
    requires FreshId(h, s) && Spent(h.db.log, batch, l)
    ensures var (after, ok) := StoreLearning(h, batch, l, s, payload, now, Works);
            && ok && after.db.candidates == h.db.candidates && h.db.log <= after.db.log
            && s in after.db.sessions && after.db.sessions[s].state == Created
  {
    OpensVainly(h.db, batch, l, s, now);
    var made := CreateSession(h.db, s, Some(l.raw), now);
    var edited := if l.corrected != l.raw then RecordPreedit(made.db, s, l.raw, l.corrected, 0) else made;
    SpentCommit(edited.db, batch, l, s, now);
    assert Recorded(h.db, batch, l, s, now) == edited;
    RecordedThenKept(h, batch, l, s, payload, now, Works);
    KeepingWorks(Host(edited.db, h.files), s, payload, l.digest);
  }

  /** The session opens, and its commit is already spent. */
  lemma OpensVainly(db: Db, batch: string, l: Learning, s: SessionId, now: nat)
    requires Unused(db, s) && Spent(db.log, batch, l)
    ensures var made := CreateSession(db, s, Some(l.raw), now);
            made.Done? &&
            var edited := if l.corrected != l.raw then RecordPreedit(made.db, s, l.raw, l.corrected, 0) else made;
            edited.Done? && edited.db.candidates == db.candidates && db.log <= edited.db.log &&
            Opened(edited.db, s, l.raw) && edited.db.sessions[s].state == Created && Spent(edited.db.log, batch, l)
  {
    FreshSession(db, s, l.raw, now);
    var made := CreateSession(db, s, Some(l.raw), now).db;
    StaysCreated(db, s, l.raw, now, l.corrected);
    if l.corrected != l.raw { EditsFreely(db, l, s, now); }
    var edited := if l.corrected != l.raw then RecordPreedit(made, s, l.raw, l.corrected, 0).db else made;
    SpentStays(db.log, edited.log, batch, l);
  }

  lemma EditsFreely(db: Db, l: Learning, s: SessionId, now: nat)
    requires Unused(db, s) && CreateSession(db, s, Some(l.raw), now).Done?
    ensures var edited := RecordPreedit(CreateSession(db, s, Some(l.raw), now).db, s, l.raw, l.corrected, 0);
            edited.Done? && Opened(edited.db, s, l.raw) && edited.db.candidates == db.candidates
  {
    FreshSession(db, s, l.raw, now);
    CreateLogs(db, s, l.raw, now, PreeditKey(s, 0));
    assert CreatedKey(s)[0] == 's' && PreeditKey(s, 0)[0] == 'p';
    FreshPreedit(CreateSession(db, s, Some(l.raw), now).db, s, l.raw, l.corrected);
  }

  lemma SpentCommit(db: Db, batch: string, l: Learning, s: SessionId, now: nat)
    requires Spent(db.log, batch, l)
    ensures CommitSession(db, s, l.corrected, IngestKey(batch, l.digest), now) == Done(db)
  {
  }

  lemma StaysCreated(db: Db, s: SessionId, raw: string, now: nat, corrected: string)
    requires CreateSession(db, s, Some(raw), now).Done?
    ensures var made := CreateSession(db, s, Some(raw), now).db;
            && db.log <= made.log && s in made.sessions && made.sessions[s].state == Created
            && var edited := RecordPreedit(made, s, raw, corrected, 0);
               edited.Done? ==> db.log <= edited.db.log && s in edited.db.sessions &&
                                edited.db.sessions[s].state == Created
  {
    EditedStaysOpen(CreateSession(db, s, Some(raw), now).db, s, raw, corrected);
  }

  lemma EditedStaysOpen(db: Db, s: string, from: string, to: string)
    requires s in db.sessions
    ensures var edited := RecordPreedit(db, s, from, to, 0);
            edited.Done? ==> db.log <= edited.db.log && s in edited.db.sessions &&
                             edited.db.sessions[s].state == db.sessions[s].state
  {
  }

  predicate Vain(start: Host, r: Outcome, draws: seq<Draw>, n: nat) {
    match r
    case Outcome(host, _, _, ok) =>
      ok && host.db.candidates == start.db.candidates && start.db.log <= host.db.log && FreshFrom(host, draws, n)
  }

  lemma {:induction false} UpToVain(h: Host, env: Envelope, draws: seq<Draw>, now: nat, n: nat, r: Outcome)
    requires Complete(env) && |draws| == |env.learnings| && n <= |draws| && r == IngestUpTo(h, env, draws, now, n)
    requires AllSpent(h.db.log, Stored(h.db), env, |env.learnings|) && Draws(h, draws)
    ensures Vain(h, r, draws, n)
  {
    if n > 0 {
      var prior := IngestUpTo(h, env, draws, now, n - 1);
      UpToVain(h, env, draws, now, n - 1, prior);
      ReadBefore(h, env, draws, now, n, prior);
      NextVain(h, prior, Stored(h.db), env, draws, now, n - 1, r);
    }
  }

  lemma NextVain(h: Host, prior: Outcome, have: set<string>, env: Envelope, draws: seq<Draw>, now: nat, i: nat,
                 r: Outcome)
    requires Complete(env) && i < |draws| == |env.learnings| && Vain(h, prior, draws, i) && draws[i].disk.Works?
    requires Reads(prior, have, Digests(env.learnings)[..i]) && AllSpent(h.db.log, have, env, |env.learnings|)
    requires Distinct(draws)
    requires r == Next(prior, env, env.learnings[i], draws[i].id, now, draws[i].disk)
    ensures Vain(h, r, draws, i + 1)
  {
    var l := env.learnings[i];
    if !HasDigest(prior.host.db, DEFAULT_USER, l.digest) {
      FirstIffNew(prior, have, env, i);
      SpentStays(h.db.log, prior.host.db.log, env.batch, l);
      SpentLearningIsVain(prior.host, env.batch, l, draws[i].id, env.audio[l.digest], now);
      NextLeavesFresh(prior, env, l, now, draws, i);
    }
  }

  /** Retention on the PC drops the digests and keeps the ledger. So the run ingest, retention past the batch, the same
      batch again completes twice and accepts every digest twice, and ends without a single training candidate. */
  lemma PrunedReplayIsAcceptedInVain(env: Envelope, draws: seq<Draw>, now: nat, cutoff: nat, again: seq<Draw>,
                                     later: nat, first: Outcome, second: Outcome)
    requires Complete(env) && |draws| == |again| == |env.learnings| && now < cutoff
    requires forall l :: l in env.learnings ==> ':' !in l.digest
    requires Draws(Host(EMPTY, map[]), draws + again)
    requires first == IngestAll(Host(EMPTY, map[]), env, draws, now)
    requires second == IngestAll(PrunedHost(first.host, cutoff), env, again, later)
    ensures first.ok && first.accepted == FirstNew({}, Digests(env.learnings))
    ensures |first.host.db.candidates| == |first.accepted|
    ensures second.ok && second.accepted == first.accepted && second.host.db.candidates == map[]
  {
    var start, pruned := Host(EMPTY, map[]), PrunedHost(first.host, cutoff);
    SplitDraws(start, draws, again);
    EmptyIsBacked();
    IngestSucceeds(start, env, draws, now, first);
    UpToSpends(start, env, draws, now, |draws|, first);
    UpToDates(start, env, draws, now, |draws|, first);
    PruneEmpties(first.host.db, now, cutoff);
    forall j | 0 <= j < |again| ensures FreshId(pruned, again[j].id) {
      NoneIs(draws, again, j);
      UpToLeavesFresh(start, env, draws, now, |draws|, first, again[j].id);
      PruneLeavesFresh(first.host, cutoff, again[j].id);
    }
    UpToVain(pruned, env, again, later, |again|, second);
    IngestReport(pruned, env, again, later);
  }

  lemma SplitDraws(h: Host, draws: seq<Draw>, again: seq<Draw>)
    requires Draws(h, draws + again)
    ensures Draws(h, draws) && Draws(h, again)
  {
    var all := draws + again;
    assert forall i :: 0 <= i < |draws| ==> all[i] == draws[i];
    assert forall i :: 0 <= i < |again| ==> all[|draws| + i] == again[i];
  }

  lemma NoneIs(draws: seq<Draw>, again: seq<Draw>, j: nat)
    requires Distinct(draws + again) && j < |again|
    ensures forall d :: d in draws ==> d.id != again[j].id
  {
    var all := draws + again;
    assert all[|draws| + j] == again[j];
    forall d | d in draws ensures d.id != again[j].id {
      var i :| 0 <= i < |draws| && draws[i] == d;
      assert all[i] == d;
    }
  }

  lemma EmptyIsBacked()
    ensures Valid(EMPTY) && LedgerBacked(EMPTY) && Stored(EMPTY) == {}
  {
    EveryReachableStateIsValid([]);
  }

  // ---------------------------------------------------------------- interrupted between commit and digest

  /** The disk refuses a fresh learning's recording: the candidate is there already, its digest never comes. */
  lemma InterruptedStore(h: Host, batch: string, l: Learning, s: SessionId, payload: Bytes, now: nat, disk: Disk)
    requires FreshId(h, s) && !HasKey(h.db.log, IngestKey(batch, l.digest)) && !disk.Works?
    requires forall i :: i in h.db.candidates ==> h.db.candidates[i].key != IngestKey(batch, l.digest)
    ensures var (after, ok) := StoreLearning(h, batch, l, s, payload, now, disk);
            && !ok && Recorded(h.db, batch, l, s, now) == Done(after.db)
            && Learned(h.db, after.db, l, s, h.db.nextCandidate) && Spent(after.db.log, batch, l)
  {
    FreshIsRecorded(h.db, batch, l, s, now);
    RecordedThenKept(h, batch, l, s, payload, now, disk);
  }

  lemma FreshIsRecorded(db: Db, batch: string, l: Learning, s: SessionId, now: nat)
    requires Unused(db, s) && !HasKey(db.log, IngestKey(batch, l.digest))
    requires forall i :: i in db.candidates ==> db.candidates[i].key != IngestKey(batch, l.digest)
    ensures var recorded := Recorded(db, batch, l, s, now);
            recorded.Done? && Learned(db, recorded.db, l, s, db.nextCandidate) && Spent(recorded.db.log, batch, l)
  {
    FreshCommitted(db, batch, l, s, now);
    var made := CreateSession(db, s, Some(l.raw), now);
    var edited := if l.corrected != l.raw then RecordPreedit(made.db, s, l.raw, l.corrected, 0) else made;
    CommitSpends(edited.db, batch, l, s, now);
  }

  /** A digest is stored with the whole learning or not at all. */
  lemma FailingStoresNothing(h: Host, batch: string, l: Learning, s: SessionId, payload: Bytes, now: nat, disk: Disk)
    requires !StoreLearning(h, batch, l, s, payload, now, disk).1
    ensures Stored(StoreLearning(h, batch, l, s, payload, now, disk).0.db) == Stored(h.db)
  {
    StoringAdds(h, batch, l, s, payload, now, disk);
    var before, after := h.db.utterances, StoreLearning(h, batch, l, s, payload, now, disk).0.db.utterances;
    assert forall u :: u in after && after[u].digest.Some? ==> u in before && after[u] == before[u];
    assert forall u :: u in before ==> u in after && after[u] == before[u];
  }

  /** Every spent key belongs to a stored digest, except perhaps this one. */
  ghost predicate BackedBut(db: Db, batch: string, digest: string) {
    forall b: string, d: string :: ':' !in d && !(b == batch && d == digest) ==> KeyBacked(db, b, d)
  }

  /** A session that stays open, with a recording under this digest. */
  predicate LeftOpen(db: Db, s: SessionId, digest: string) {
    && s in db.sessions && db.sessions[s].state == Created
    && UtteranceKey(s) in db.utterances && db.utterances[UtteranceKey(s)].digest == Some(digest)
  }

  /** The run up to the interruption: what came before is stored, and this learning is still to come. */
  lemma Reached(h: Host, env: Envelope, k: nat, draws: seq<Draw>, now: nat, before: Outcome)
    requires Complete(env) && k < |env.learnings| == |draws| && First(Stored(h.db), env.learnings, k)
    requires Valid(h.db) && LedgerBacked(h.db) && forall l :: l in env.learnings ==> ':' !in l.digest
    requires FreshFrom(h, draws, 0) && Distinct(draws) && WorksFor(draws, k)
    requires before == IngestUpTo(h, env, draws, now, k)
    ensures Going(before, draws, k) && First(Stored(before.host.db), env.learnings, k)
  {
    UpToSucceeds(h, env, draws, now, k, before);
    GoingIsOk(before, draws, k);
    UpToReads(h, env, draws, now, k, before);
    StillFirst(before, Stored(h.db), env, k);
  }

  lemma GoingIsOk(r: Outcome, draws: seq<Draw>, n: nat)
    requires Going(r, draws, n)
    ensures r.ok
  {
  }

  lemma StillFirst(prior: Outcome, have: set<string>, env: Envelope, k: nat)
    requires k < |env.learnings| && Reads(prior, have, Digests(env.learnings)[..k]) && First(have, env.learnings, k)
    ensures First(Stored(prior.host.db), env.learnings, k)
  {
    var ds := Digests(env.learnings)[..k];
    assert forall j :: 0 <= j < k ==> ds[j] == env.learnings[j].digest;
  }

  /** A learning that cannot be stored ends the run. */
  lemma Halted(h: Host, env: Envelope, k: nat, draws: seq<Draw>, now: nat, before: Outcome, last: Outcome)
    requires Complete(env) && k < |env.learnings| == |draws| && before == IngestUpTo(h, env, draws, now, k) && before.ok
    requires last == Next(before, env, env.learnings[k], draws[k].id, now, draws[k].disk) && !last.ok
    ensures IngestAll(h, env, draws, now) == last
  {
    StepsOnce(h, env, draws, now, k, before, IngestUpTo(h, env, draws, now, k + 1));
    FailureSticks(h, env, draws, now, k + 1, |draws|);
  }

  lemma StepsOnce(h: Host, env: Envelope, draws: seq<Draw>, now: nat, k: nat, prior: Outcome, r: Outcome)
    requires Complete(env) && k < |env.learnings| == |draws| && prior.ok
    requires prior == IngestUpTo(h, env, draws, now, k) && r == IngestUpTo(h, env, draws, now, k + 1)
    ensures r == Next(prior, env, env.learnings[k], draws[k].id, now, draws[k].disk)
  {
  }

  lemma NextHalts(prior: Outcome, env: Envelope, l: Learning, draw: Draw, now: nat, after: Host) returns (last: Outcome)
    requires l.digest in env.audio && !HasDigest(prior.host.db, DEFAULT_USER, l.digest)
    requires (after, false) ==
             StoreLearning(prior.host, env.batch, l, draw.id, env.audio[l.digest], now, draw.disk)
    ensures last == Next(prior, env, l, draw.id, now, draw.disk) && !last.ok && last.host == after
  {
    last := Outcome(after, prior.accepted, prior.alreadyHave, false);
  }

  lemma InterruptedOne(h: Host, batch: string, l: Learning, s: SessionId, payload: Bytes, now: nat, disk: Disk)
    requires Valid(h.db) && LedgerBacked(h.db) && FreshId(h, s) && !disk.Works? && ':' !in l.digest
    requires !HasDigest(h.db, DEFAULT_USER, l.digest)
    ensures var (after, ok) := StoreLearning(h, batch, l, s, payload, now, disk);
            && !ok && Sound(Done(after.db)) && Recorded(h.db, batch, l, s, now).Done?
            && Learned(h.db, after.db, l, s, h.db.nextCandidate) && Spent(after.db.log, batch, l)
            && BackedBut(after.db, batch, l.digest) && Stored(after.db) == Stored(h.db)
  {
    HasDigestIsStored(h.db, l.digest);
    assert KeyBacked(h.db, batch, l.digest);
    StoreLaws.CommitOpen(h.db, IngestKey(batch, l.digest));
    InterruptedStore(h, batch, l, s, payload, now, disk);
    StoringIsSound(h, batch, l, s, payload, now, disk);
    FailingStoresNothing(h, batch, l, s, payload, now, disk);
    InterruptedLedger(h, batch, l, s, payload, now, disk);
  }

  lemma InterruptedLedger(h: Host, batch: string, l: Learning, s: SessionId, payload: Bytes, now: nat, disk: Disk)
    requires LedgerBacked(h.db) && ':' !in l.digest && Recorded(h.db, batch, l, s, now).Done?
    requires !StoreLearning(h, batch, l, s, payload, now, disk).1
    ensures BackedBut(StoreLearning(h, batch, l, s, payload, now, disk).0.db, batch, l.digest)
  {
    var after := StoreLearning(h, batch, l, s, payload, now, disk).0.db;
    FailingStoresNothing(h, batch, l, s, payload, now, disk);
    forall b: string, d: string | ':' !in d && !(b == batch && d == l.digest) ensures KeyBacked(after, b, d) {
      assert KeyBacked(h.db, b, d);
      if HasKey(after.log, IngestKey(b, d)) { StoringOtherKeys(h, batch, l, s, payload, now, disk, b, d); }
    }
  }

  // ---------------------------------------------------------------- the same batch again

  /** The second delivery after `n` learnings; the interrupted one is number `k`. */
  ghost predicate Mending(r: Outcome, env: Envelope, k: nat, again: seq<Draw>, n: nat)
    requires k < |env.learnings| == |again|
  {
    match r
    case Outcome(host, _, _, ok) =>
      && ok && Valid(host.db) && FreshFrom(host, again, n)
      && if n <= k
         then BackedBut(host.db, env.batch, env.learnings[k].digest) && Spent(host.db.log, env.batch, env.learnings[k])
         else LedgerBacked(host.db) && LeftOpen(host.db, again[k].id, env.learnings[k].digest)
  }

  lemma NextBefore(prior: Outcome, env: Envelope, k: nat, again: seq<Draw>, now: nat, i: nat, r: Outcome)
    requires Complete(env) && i < k < |env.learnings| == |again| && Mending(prior, env, k, again, i)
    requires Distinct(again) && again[i].disk.Works? && forall l :: l in env.learnings ==> ':' !in l.digest
    requires env.learnings[i].digest != env.learnings[k].digest
    requires r == Next(prior, env, env.learnings[i], again[i].id, now, again[i].disk)
    ensures Mending(r, env, k, again, i + 1)
  {
    var l, payload := env.learnings[i], env.audio[env.learnings[i].digest];
    assert l in env.learnings;
    HasDigestIsStored(prior.host.db, l.digest);
    if !HasDigest(prior.host.db, DEFAULT_USER, l.digest) {
      assert KeyBacked(prior.host.db, env.batch, l.digest);
      StoreLaws.CommitOpen(prior.host.db, IngestKey(env.batch, l.digest));
      FreshLearningIsStored(prior.host, env.batch, l, again[i].id, payload, now, Works);
      StoringIsSound(prior.host, env.batch, l, again[i].id, payload, now, Works);
      StoringSpends(prior.host, env.batch, l, again[i].id, payload, now, Works);
      SpentStays(prior.host.db.log, r.host.db.log, env.batch, env.learnings[k]);
      LedgerAfterOne(prior.host, env.batch, l, again[i].id, payload, now, env.learnings[k].digest);
      NextLeavesFresh(prior, env, l, now, again, i);
    }
  }

  lemma LedgerAfterOne(h: Host, batch: string, l: Learning, s: SessionId, payload: Bytes, now: nat, digest: string)
    requires BackedBut(h.db, batch, digest) && ':' !in l.digest
    requires StoreLearning(h, batch, l, s, payload, now, Works).1
    ensures BackedBut(StoreLearning(h, batch, l, s, payload, now, Works).0.db, batch, digest)
    ensures l.digest == digest ==> LedgerBacked(StoreLearning(h, batch, l, s, payload, now, Works).0.db)
  {
    var after := StoreLearning(h, batch, l, s, payload, now, Works).0.db;
    StoredGrows(h, batch, l, s, payload, now, Works);
    forall b: string, d: string | ':' !in d && (l.digest == digest || !(b == batch && d == digest))
      ensures KeyBacked(after, b, d)
    {
      if !(b == batch && d == digest) { assert KeyBacked(h.db, b, d); }
      if HasKey(after.log, IngestKey(b, d)) { StoringOtherKeys(h, batch, l, s, payload, now, Works, b, d); }
    }
  }

  lemma NextAt(prior: Outcome, env: Envelope, k: nat, again: seq<Draw>, now: nat, r: Outcome)
    requires Complete(env) && k < |env.learnings| == |again| && Mending(prior, env, k, again, k)
    requires Distinct(again) && again[k].disk.Works? && forall l :: l in env.learnings ==> ':' !in l.digest
    requires !HasDigest(prior.host.db, DEFAULT_USER, env.learnings[k].digest)
    requires r == Next(prior, env, env.learnings[k], again[k].id, now, again[k].disk)
    ensures Mending(r, env, k, again, k + 1)
  {
    var l, payload := env.learnings[k], env.audio[env.learnings[k].digest];
    assert l in env.learnings;
    SpentLearningIsVain(prior.host, env.batch, l, again[k].id, payload, now);
    StoringAdds(prior.host, env.batch, l, again[k].id, payload, now, Works);
    StoringIsSound(prior.host, env.batch, l, again[k].id, payload, now, Works);
    LedgerAfterOne(prior.host, env.batch, l, again[k].id, payload, now, l.digest);
    NextLeavesFresh(prior, env, l, now, again, k);
  }

  lemma RecordingLeavesSession(db: Db, batch: string, l: Learning, s: SessionId, now: nat, t: SessionId)
    requires Recorded(db, batch, l, s, now).Done? && s != t && t in db.sessions
    ensures var after := Recorded(db, batch, l, s, now).db; t in after.sessions && after.sessions[t] == db.sessions[t]
  {
  }

  lemma StoringLeavesOpen(h: Host, batch: string, l: Learning, s: SessionId, payload: Bytes, now: nat, t: SessionId,
                          digest: string)
    requires StoreLearning(h, batch, l, s, payload, now, Works).1 && s != t && LeftOpen(h.db, t, digest)
    ensures LeftOpen(StoreLearning(h, batch, l, s, payload, now, Works).0.db, t, digest)
  {
    OtherFile(s, t);
    RecordingLeavesSession(h.db, batch, l, s, now, t);
    RecordedThenKept(h, batch, l, s, payload, now, Works);
    StoringAdds(h, batch, l, s, payload, now, Works);
  }

  lemma NextAfter(prior: Outcome, env: Envelope, k: nat, again: seq<Draw>, now: nat, i: nat, r: Outcome)
    requires Complete(env) && k < i < |env.learnings| == |again| && Mending(prior, env, k, again, i)
    requires Distinct(again) && again[i].disk.Works? && forall l :: l in env.learnings ==> ':' !in l.digest
    requires r == Next(prior, env, env.learnings[i], again[i].id, now, again[i].disk)
    ensures Mending(r, env, k, again, i + 1)
  {
    var l := env.learnings[i];
    assert l in env.learnings;
    NextGoes(prior, env, again, now, i, r);
    if !HasDigest(prior.host.db, DEFAULT_USER, l.digest) {
      StoringLeavesOpen(prior.host, env.batch, l, again[i].id, env.audio[l.digest], now, again[k].id,
        env.learnings[k].digest);
    }
  }

  /** What the second delivery runs on: the interrupted learning is the first of its digest, and the disk works. */
  predicate Redelivery(have: set<string>, env: Envelope, k: nat, again: seq<Draw>)
    requires k < |env.learnings| == |again|
  {
    match env
    case Envelope(_, learnings, _) =>
      Complete(env) && First(have, learnings, k) && Distinct(again) && DiskWorks(again) &&
      forall l :: l in learnings ==> ':' !in l.digest
  }

  lemma {:induction false} UpToMends(h: Host, env: Envelope, k: nat, again: seq<Draw>, now: nat, n: nat, r: Outcome)
    requires k < |env.learnings| == |again| && n <= |again| && Redelivery(Stored(h.db), env, k, again)
    requires Mending(IngestUpTo(h, env, again, now, 0), env, k, again, 0) && r == IngestUpTo(h, env, again, now, n)
    ensures Mending(r, env, k, again, n)
  {
    if n > 0 {
      var prior := IngestUpTo(h, env, again, now, n - 1);
      UpToMends(h, env, k, again, now, n - 1, prior);
      MendingGoesOn(prior, env, k, again, n - 1);
      ReadBefore(h, env, again, now, n, prior);
      NextMends(prior, Stored(h.db), env, k, again, now, n, r);
    }
  }

  lemma MendingGoesOn(r: Outcome, env: Envelope, k: nat, again: seq<Draw>, n: nat)
    requires k < |env.learnings| == |again| && Mending(r, env, k, again, n)
    ensures r.ok
  {
  }

  lemma NextMends(prior: Outcome, have: set<string>, env: Envelope, k: nat, again: seq<Draw>, now: nat, n: nat,
                  r: Outcome)
    requires k < |env.learnings| == |again| && 0 < n <= |again| && Redelivery(have, env, k, again)
    requires Mending(prior, env, k, again, n - 1) && Reads(prior, have, Digests(env.learnings)[..n - 1])
    requires r == Next(prior, env, env.learnings[n - 1], again[n - 1].id, now, again[n - 1].disk)
    ensures Mending(r, env, k, again, n)
  {
    if n - 1 < k {
      NextBefore(prior, env, k, again, now, n - 1, r);
    } else if n - 1 == k {
      FirstIffNew(prior, have, env, k);
      NextAt(prior, env, k, again, now, r);
    } else {
      NextAfter(prior, env, k, again, now, n - 1, r);
    }
  }

  lemma {:induction false} UnloggedButOne(log: seq<Event>, batch: string, digests: seq<string>, digest: string)
    requires NoDuplicates(digests) && HasKey(log, IngestKey(batch, digest))
    requires forall d :: d in digests && d != digest ==> !HasKey(log, IngestKey(batch, d))
    ensures Unlogged(log, batch, digests) == |digests| - if digest in digests then 1 else 0
  {
    if digests != [] {
      var init, last := digests[..|digests| - 1], digests[|digests| - 1];
      assert digests == init + [last];
      UnloggedButOne(log, batch, init, digest);
    }
  }

  /** How many candidates the second delivery adds: one for each digest it accepts, but none for the interrupted one. */
  lemma MendedCount(h: Host, env: Envelope, k: nat, again: seq<Draw>, now: nat, r: Outcome)
    requires Complete(env) && k < |env.learnings| == |again| && First(Stored(h.db), env.learnings, k) && Counted(h.db)
    requires BackedBut(h.db, env.batch, env.learnings[k].digest) && Spent(h.db.log, env.batch, env.learnings[k])
    requires r == IngestAll(h, env, again, now) && r.ok && forall l :: l in env.learnings ==> ':' !in l.digest
    ensures r.accepted == FirstNew(Stored(h.db), Digests(env.learnings)) && env.learnings[k].digest in r.accepted
    ensures |r.host.db.candidates| == |h.db.candidates| + |r.accepted| - 1
  {
    IngestReport(h, env, again, now);
    UpToGrows(h, env, again, now, |again|, r);
    assert Grows(r, h.db.log, |h.db.candidates|, env.batch, "");
    OthersAreUnspent(h.db, env, k, r.accepted);
    UnloggedButOne(h.db.log, env.batch, r.accepted, env.learnings[k].digest);
  }

  lemma OthersAreUnspent(db: Db, env: Envelope, k: nat, accepted: seq<string>)
    requires k < |env.learnings| && First(Stored(db), env.learnings, k)
    requires BackedBut(db, env.batch, env.learnings[k].digest) && forall l :: l in env.learnings ==> ':' !in l.digest
    requires accepted == FirstNew(Stored(db), Digests(env.learnings))
    ensures env.learnings[k].digest in accepted
    ensures forall d :: d in accepted && d != env.learnings[k].digest ==> !HasKey(db.log, IngestKey(env.batch, d))
  {
    var ds := Digests(env.learnings);
    ReportIsPartition(Stored(db), ds);
    assert ds[k] == env.learnings[k].digest;
    forall d | d in accepted && d != env.learnings[k].digest ensures !HasKey(db.log, IngestKey(env.batch, d)) {
      var i :| 0 <= i < |ds| && ds[i] == d;
      assert env.learnings[i] in env.learnings && KeyBacked(db, env.batch, d);
    }
  }

  /** The disk fails between commit and digest of any one learning of a batch, and the same batch comes again: it is
      acknowledged whole now. Every other new learning becomes a candidate, but the interrupted one only gets its
      recording kept, under a second session that stays open; its candidate belongs to the first session. */
  lemma InterruptedReplayIsAcceptedInVain(h: Host, env: Envelope, k: nat, draws: seq<Draw>, now: nat, again: seq<Draw>,
                                          later: nat, before: Outcome, first: Outcome, second: Outcome)
    requires Complete(env) && k < |env.learnings| == |draws| == |again| && First(Stored(h.db), env.learnings, k)
    requires Valid(h.db) && LedgerBacked(h.db) && forall l :: l in env.learnings ==> ':' !in l.digest
    requires FreshFrom(h, draws + again, 0) && Distinct(draws + again) && DiskWorks(again)
    requires WorksFor(draws, k) && !draws[k].disk.Works?
    requires before == IngestUpTo(h, env, draws, now, k) && first == IngestAll(h, env, draws, now)
    requires second == IngestAll(first.host, env, again, later)
    ensures !first.ok
    ensures Learned(before.host.db, first.host.db, env.learnings[k], draws[k].id, before.host.db.nextCandidate)
    ensures second.ok && second.accepted == FirstNew(Stored(first.host.db), Digests(env.learnings))
    ensures env.learnings[k].digest in second.accepted
    ensures |second.host.db.candidates| == |first.host.db.candidates| + |second.accepted| - 1
    ensures LeftOpen(second.host.db, again[k].id, env.learnings[k].digest)
  {
    var l, draw := env.learnings[k], draws[k];
    SplitFresh(h, draws, again);
    Reached(h, env, k, draws, now, before);
    HasDigestIsStored(before.host.db, l.digest);
    assert l in env.learnings;
    InterruptedOne(before.host, env.batch, l, draw.id, env.audio[l.digest], now, draw.disk);
    GoingIsOk(before, draws, k);
    var last := NextHalts(before, env, l, draw, now,
      StoreLearning(before.host, env.batch, l, draw.id, env.audio[l.digest], now, draw.disk).0);
    Halted(h, env, k, draws, now, before, last);
    LeftForAgain(h, env, k, draws, now, again, before, first.host);
    MendingStarts(first.host, env, k, again, IngestUpTo(first.host, env, again, later, 0));
    UpToMends(first.host, env, k, again, later, |again|, second);
    MendingGoesOn(second, env, k, again, |again|);
    MendedCount(first.host, env, k, again, later, second);
  }

  lemma LeftForAgain(h: Host, env: Envelope, k: nat, draws: seq<Draw>, now: nat, again: seq<Draw>, before: Outcome,
                     after: Host)
    requires Complete(env) && k < |env.learnings| == |draws| && before == IngestUpTo(h, env, draws, now, k) && before.ok
    requires FreshFrom(h, again, 0) && Distinct(draws + again)
    requires Recorded(before.host.db, env.batch, env.learnings[k], draws[k].id, now).Done?
    requires after == StoreLearning(before.host, env.batch, env.learnings[k], draws[k].id,
                                    env.audio[env.learnings[k].digest], now, draws[k].disk).0
    ensures FreshFrom(after, again, 0)
  {
    forall j | 0 <= j < |again| ensures FreshId(after, again[j].id) {
      NoneIs(draws, again, j);
      assert draws[k] in draws;
      UpToLeavesFresh(h, env, draws, now, k, before, again[j].id);
      StoringLeavesFresh(before.host, env.batch, env.learnings[k], draws[k].id, env.audio[env.learnings[k].digest], now,
        draws[k].disk, again[j].id);
    }
  }

  lemma MendingStarts(h: Host, env: Envelope, k: nat, again: seq<Draw>, r: Outcome)
    requires k < |env.learnings| == |again| && r == Outcome(h, [], [], true) && Sound(Done(h.db))
    requires BackedBut(h.db, env.batch, env.learnings[k].digest) && Spent(h.db.log, env.batch, env.learnings[k])
    requires FreshFrom(h, again, 0)
    ensures Mending(r, env, k, again, 0)
  {
  }

  lemma SplitFresh(h: Host, draws: seq<Draw>, again: seq<Draw>)
    requires FreshFrom(h, draws + again, 0) && Distinct(draws + again)
    ensures FreshFrom(h, draws, 0) && FreshFrom(h, again, 0) && Distinct(draws) && Distinct(again)
  {
    var all := draws + again;
    assert forall i :: 0 <= i < |draws| ==> all[i] == draws[i];
    assert forall i :: 0 <= i < |again| ==> all[|draws| + i] == again[i];
  }
}
