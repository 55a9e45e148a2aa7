/** What a batch ingest reports, and what it leaves stored, independently of how the loop runs. */
module IngestLaws {
  import opened Basics
  import opened Tables
  import opened AudioStore
  import opened Hosts
  import opened Ingest

  /** The digests this device stores. */
  function Stored(db: Db): set<string> {
    set u | u in db.utterances && db.utterances[u].user == DEFAULT_USER && db.utterances[u].digest.Some?
      :: db.utterances[u].digest.value
  }

  lemma HasDigestIsStored(db: Db, digest: string)
    ensures HasDigest(db, DEFAULT_USER, digest) <==> digest in Stored(db)
  {
    if HasDigest(db, DEFAULT_USER, digest) {
      var u :| u in db.utterances && db.utterances[u].user == DEFAULT_USER && db.utterances[u].digest == Some(digest);
      assert db.utterances[u].digest.value == digest;
    }
  }

  // ---------------------------------------------------------------- the report

  /** The report read without any store: the first occurrence of each digest not stored yet, in order. */
  function FirstNew(have: set<string>, digests: seq<string>): seq<string> {
    if digests == [] then []
    else
      var init, last := digests[..|digests| - 1], digests[|digests| - 1];
      FirstNew(have, init) + if last in have || last in init then [] else [last]
  }

  function Seen(have: set<string>, digests: seq<string>): seq<string> {
    if digests == [] then []
    else
      var init, last := digests[..|digests| - 1], digests[|digests| - 1];
      Seen(have, init) + if last in have || last in init then [last] else []
  }

  predicate NoDuplicates(xs: seq<string>) {
    forall i, j :: 0 <= i < j < |xs| ==> xs[i] != xs[j]
  }

  /** Every digest lands on exactly one side, once; nothing stored before is accepted, and nothing is accepted twice. */
  lemma {:induction false} ReportIsPartition(have: set<string>, digests: seq<string>)
    ensures multiset(FirstNew(have, digests)) + multiset(Seen(have, digests)) == multiset(digests)
    ensures NoDuplicates(FirstNew(have, digests))
    ensures forall d :: d in FirstNew(have, digests) <==> d in digests && d !in have
    ensures forall d :: d in Seen(have, digests) ==> d in digests && (d in have || d in FirstNew(have, digests))
  {
    if digests != [] {
      var init, last := digests[..|digests| - 1], digests[|digests| - 1];
      assert digests == init + [last];
      ReportIsPartition(have, init);
    }
  }

  predicate Reads(r: Outcome, have: set<string>, ds: seq<string>) {
    match r
    case Outcome(host, accepted, alreadyHave, _) =>
      accepted == FirstNew(have, ds) && alreadyHave == Seen(have, ds) && Stored(host.db) == have + set d | d in ds
  }

  lemma NextReads(prior: Outcome, env: Envelope, draws: seq<Draw>, now: nat, i: nat, have: set<string>, r: Outcome)
    requires Complete(env) && i < |draws| == |env.learnings| && Reads(prior, have, Digests(env.learnings)[..i])
    requires r == Next(prior, env, env.learnings[i], draws[i].id, now, draws[i].disk) && r.ok
    ensures Reads(r, have, Digests(env.learnings)[..i + 1])
  {
    var l, ds := env.learnings[i], Digests(env.learnings)[..i];
    PrefixGrows(Digests(env.learnings), i + 1);
    assert (ds + [l.digest])[..i] == ds;
    HasDigestIsStored(prior.host.db, l.digest);
    if !HasDigest(prior.host.db, DEFAULT_USER, l.digest) {
      StoredGrows(prior.host, env.batch, l, draws[i].id, env.audio[l.digest], now, draws[i].disk);
    }
  }

  lemma PrefixGrows(ds: seq<string>, n: nat)
    requires 0 < n <= |ds|
    ensures ds[..n] == ds[..n - 1] + [ds[n - 1]]
  {
  }

  lemma StartReads(r: Outcome, db: Db)
    requires r.host.db == db && r.accepted == [] && r.alreadyHave == []
    ensures Reads(r, Stored(db), [])
  {
  }

  lemma {:induction false} UpToReads(h: Host, env: Envelope, draws: seq<Draw>, now: nat, n: nat, r: Outcome)
    requires Complete(env) && |draws| == |env.learnings| && n <= |draws|
    requires r == IngestUpTo(h, env, draws, now, n) && r.ok
    ensures Reads(r, Stored(h.db), Digests(env.learnings)[..n])
  {
    if n > 0 {
      var prior := IngestUpTo(h, env, draws, now, n - 1);
      UpToReads(h, env, draws, now, n - 1, prior);
      NextReads(prior, env, draws, now, n - 1, Stored(h.db), r);
    } else {
      assert Digests(env.learnings)[..0] == [];
      StartReads(r, h.db);
    }
  }

  lemma ReadBefore(h: Host, env: Envelope, draws: seq<Draw>, now: nat, n: nat, prior: Outcome)
    requires Complete(env) && |draws| == |env.learnings| && 0 < n <= |draws|
    requires prior == IngestUpTo(h, env, draws, now, n - 1) && prior.ok
    ensures Reads(prior, Stored(h.db), Digests(env.learnings)[..n - 1])
  {
    UpToReads(h, env, draws, now, n - 1, prior);
  }

  lemma StoredGrows(h: Host, batch: string, l: Learning, s: SessionId, payload: Bytes, now: nat, disk: Disk)
    requires StoreLearning(h, batch, l, s, payload, now, disk).1
    ensures Stored(StoreLearning(h, batch, l, s, payload, now, disk).0.db) == Stored(h.db) + {l.digest}
  {
    StoringAdds(h, batch, l, s, payload, now, disk);
    var after, u := StoreLearning(h, batch, l, s, payload, now, disk).0.db, UtteranceKey(s);
    assert after.utterances[u].digest.value == l.digest;
    forall d | d in Stored(h.db) ensures d in Stored(after) {
      var v :| v in h.db.utterances && h.db.utterances[v].user == DEFAULT_USER && h.db.utterances[v].digest == Some(d);
      assert after.utterances[v].digest.value == d;
    }
  }

  /** A completed ingest stores every digest of its batch and reports exactly the ones that were new, each once. */
  lemma IngestReport(h: Host, env: Envelope, draws: seq<Draw>, now: nat)
    requires Complete(env) && |draws| == |env.learnings| && IngestAll(h, env, draws, now).ok
    ensures var r, ds := IngestAll(h, env, draws, now), Digests(env.learnings);
            && r.accepted == FirstNew(Stored(h.db), ds) && r.alreadyHave == Seen(Stored(h.db), ds)
            && Stored(r.host.db) == Stored(h.db) + (set d | d in ds)
            && multiset(r.accepted) + multiset(r.alreadyHave) == multiset(ds)
            && NoDuplicates(r.accepted)
  {
    UpToReads(h, env, draws, now, |draws|, IngestAll(h, env, draws, now));
    assert Digests(env.learnings)[..|draws|] == Digests(env.learnings);
    ReportIsPartition(Stored(h.db), Digests(env.learnings));
  }

  /** Once every digest of a batch is stored, ingesting it again, whatever its batch id, succeeds, accepts nothing and
      leaves both stores as they were. */
  lemma {:induction false} ReplayAcceptsNothing(h: Host, env: Envelope, draws: seq<Draw>, now: nat, n: nat)
    requires Complete(env) && |draws| == |env.learnings| && n <= |draws|
    requires forall l :: l in env.learnings ==> l.digest in Stored(h.db)
    ensures IngestUpTo(h, env, draws, now, n) == Outcome(h, [], Digests(env.learnings[..n]), true)
  {
    if n > 0 {
      ReplayAcceptsNothing(h, env, draws, now, n - 1);
      HasDigestIsStored(h.db, env.learnings[n - 1].digest);
      assert Digests(env.learnings[..n]) == Digests(env.learnings[..n - 1]) + [env.learnings[n - 1].digest];
    }
  }

  /** Exactly once: re-ingesting a batch after it completed changes nothing, under any batch id and draws. */
  lemma IngestIsExactlyOnce(h: Host, env: Envelope, draws: seq<Draw>, now: nat, first: Outcome, batch: string,
                            draws': seq<Draw>, now': nat)
    requires Complete(env) && |draws| == |draws'| == |env.learnings|
    requires first == IngestAll(h, env, draws, now) && first.ok
    ensures IngestAll(first.host, env.(batch := batch), draws', now') ==
            Outcome(first.host, [], Digests(env.learnings), true)
  {
    IngestReport(h, env, draws, now);
    var again := env.(batch := batch);
    AllStored(again.learnings, first.host.db);
    ReplayAcceptsNothing(first.host, again, draws', now', |draws'|);
    assert env.learnings[..|draws'|] == env.learnings;
  }

  lemma AllStored(learnings: seq<Learning>, db: Db)
    requires (set d | d in Digests(learnings)) <= Stored(db)
    ensures forall l :: l in learnings ==> l.digest in Stored(db)
  {
    forall l | l in learnings ensures l.digest in Stored(db) {
      var i :| 0 <= i < |learnings| && learnings[i] == l;
      assert Digests(learnings)[i] in Digests(learnings);
    }
  }

  // ---------------------------------------------------------------- one utterance a digest

  predicate UniqueDigests(utterances: map<string, Utterance>) {
    forall u, v :: (u in utterances && v in utterances && utterances[u].user == utterances[v].user &&
                    utterances[u].digest.Some? && utterances[u].digest == utterances[v].digest) ==> u == v
  }

  lemma UniqueAdd(utterances: map<string, Utterance>, u: string, row: Utterance)
    requires UniqueDigests(utterances) && u !in utterances
    requires row.digest.Some? ==>
               forall v :: v in utterances && utterances[v].user == row.user ==> utterances[v].digest != row.digest
    ensures UniqueDigests(utterances[u := row])
  {
  }

  lemma NextStaysUnique(prior: Outcome, env: Envelope, l: Learning, draw: Draw, now: nat)
    requires l.digest in env.audio && UniqueDigests(prior.host.db.utterances)
    ensures UniqueDigests(Next(prior, env, l, draw.id, now, draw.disk).host.db.utterances)
  {
    if !HasDigest(prior.host.db, DEFAULT_USER, l.digest) {
      var u, after := UtteranceKey(draw.id), Next(prior, env, l, draw.id, now, draw.disk).host.db.utterances;
      StoringAdds(prior.host, env.batch, l, draw.id, env.audio[l.digest], now, draw.disk);
      if after != prior.host.db.utterances { UniqueAdd(prior.host.db.utterances, u, after[u]); }
    }
  }

  /** No ingest, completed or not, puts one digest on two utterances. */
  lemma {:induction false} DigestsStayUnique(h: Host, env: Envelope, draws: seq<Draw>, now: nat, n: nat)
    requires Complete(env) && |draws| == |env.learnings| && n <= |draws| && UniqueDigests(h.db.utterances)
    ensures UniqueDigests(IngestUpTo(h, env, draws, now, n).host.db.utterances)
  {
    if n > 0 {
      var l, draw := env.learnings[n - 1], draws[n - 1];
      var prior := IngestUpTo(h, env, draws, now, n - 1);
      DigestsStayUnique(h, env, draws, now, n - 1);
      if prior.ok { NextStaysUnique(prior, env, l, draw, now); }
    }
  }

  // ---------------------------------------------------------------- candidates

  /** How many of these digests have no commit under this batch's key yet. */
  function Unlogged(log: seq<Event>, batch: string, digests: seq<string>): nat {
    if digests == [] then 0
    else
      Unlogged(log, batch, digests[..|digests| - 1]) +
      if HasKey(log, IngestKey(batch, digests[|digests| - 1])) then 0 else 1
  }

  lemma IngestKeyApart(batch: string, digest: string, s: string)
    ensures IngestKey(batch, digest) != CreatedKey(s) && IngestKey(batch, digest) != PreeditKey(s, 0)
  {
    assert IngestKey(batch, digest)[0] == 'i' && CreatedKey(s)[0] == 's' && PreeditKey(s, 0)[0] == 'p';
  }

  lemma IngestKeyInjective(batch: string, d: string, e: string)
    requires IngestKey(batch, d) == IngestKey(batch, e)
    ensures d == e
  {
    var prefix := "ingest:" + batch + ":";
    assert (prefix + d)[|prefix|..] == d && (prefix + e)[|prefix|..] == e;
  }

  lemma KeyAfterOne(log: seq<Event>, e: Event, key: string)
    ensures HasKey(log + [e], key) <==> HasKey(log, key) || e.key == key
  {
    assert (log + [e])[|log|] == e;
    if HasKey(log, key) {
      var f :| f in log && f.key == key;
      assert f in log + [e];
    }
  }

  lemma CreateLogs(db: Db, s: SessionId, raw: string, now: nat, key: string)
    requires CreateSession(db, s, Some(raw), now).Done?
    ensures var after := CreateSession(db, s, Some(raw), now).db;
            && (HasKey(after.log, key) <==> HasKey(db.log, key) || key == CreatedKey(s))
            && after.candidates == db.candidates && after.nextCandidate == db.nextCandidate
  {
    var after := CreateSession(db, s, Some(raw), now).db;
    KeyAfterOne(db.log, after.log[|db.log|], key);
  }

  lemma PreeditLogs(db: Db, s: string, from: string, to: string, key: string)
    requires RecordPreedit(db, s, from, to, 0).Done? && key != PreeditKey(s, 0)
    ensures var after := RecordPreedit(db, s, from, to, 0).db;
            && (HasKey(after.log, key) <==> HasKey(db.log, key))
            && after.candidates == db.candidates && after.nextCandidate == db.nextCandidate
  {
    var after := RecordPreedit(db, s, from, to, 0).db;
    if after.log != db.log { KeyAfterOne(db.log, after.log[|db.log|], key); }
  }

  lemma CommitLogs(db: Db, s: string, text: string, key: string, now: nat, other: string)
    requires CommitSession(db, s, text, key, now).Done?
    ensures var after := CommitSession(db, s, text, key, now).db;
            && (HasKey(after.log, other) <==> HasKey(db.log, other) || other == key)
            && after.nextCandidate == db.nextCandidate + (if HasKey(db.log, key) then 0 else 1)
            && after.candidates.Keys == db.candidates.Keys + (if HasKey(db.log, key) then {} else {db.nextCandidate})
            && (!HasKey(db.log, key) ==>
                  after.candidates[db.nextCandidate].session == s &&
                  after.candidates[db.nextCandidate].transcript == text)
  {
    var after := CommitSession(db, s, text, key, now).db;
    if after.log != db.log { KeyAfterOne(db.log, after.log[|db.log|], other); }
  }

  /** Candidate ids come from the counter. */
  predicate Counted(db: Db) { forall i :: i in db.candidates ==> i < db.nextCandidate }

  lemma OneMore(candidates: map<nat, Candidate>, after: map<nat, Candidate>, n: nat)
    requires n !in candidates && after.Keys == candidates.Keys + {n}
    ensures |after| == |candidates| + 1
  {
    assert |after.Keys| == |candidates.Keys| + 1;
    assert |after| == |after.Keys| && |candidates| == |candidates.Keys|;
  }

  /** One stored learning becomes a candidate unless its key was spent before. */
  lemma StoringLogs(h: Host, batch: string, l: Learning, s: SessionId, payload: Bytes, now: nat, disk: Disk,
                    digest: string)
    requires StoreLearning(h, batch, l, s, payload, now, disk).1 && Counted(h.db)
    ensures var after := StoreLearning(h, batch, l, s, payload, now, disk).0.db;
            && (HasKey(after.log, IngestKey(batch, digest)) <==>
                HasKey(h.db.log, IngestKey(batch, digest)) || digest == l.digest)
            && |after.candidates| == |h.db.candidates| + (if HasKey(h.db.log, IngestKey(batch, l.digest)) then 0 else 1)
            && Counted(after)
  {
    var key, other := IngestKey(batch, l.digest), IngestKey(batch, digest);
    IngestKeyApart(batch, l.digest, s);
    IngestKeyApart(batch, digest, s);
    var made := CreateSession(h.db, s, Some(l.raw), now).db;
    CreateLogs(h.db, s, l.raw, now, key);
    CreateLogs(h.db, s, l.raw, now, other);
    if l.corrected != l.raw {
      PreeditLogs(made, s, l.raw, l.corrected, key);
      PreeditLogs(made, s, l.raw, l.corrected, other);
    }
    var edited := if l.corrected != l.raw then RecordPreedit(made, s, l.raw, l.corrected, 0).db else made;
    CommitLogs(edited, s, l.corrected, key, now, other);
    if key == other { IngestKeyInjective(batch, l.digest, digest); }
    if !HasKey(h.db.log, key) {
      OneMore(edited.candidates, CommitSession(edited, s, l.corrected, key, now).db.candidates, edited.nextCandidate);
    } else {
      CommitInVain(edited, s, l.corrected, key, now);
    }
  }

  /** Against the log `log` and the `count` of candidates at the start of the batch. */
  predicate Grows(r: Outcome, log: seq<Event>, count: nat, batch: string, digest: string) {
    && |r.host.db.candidates| == count + Unlogged(log, batch, r.accepted) && Counted(r.host.db)
    && (HasKey(r.host.db.log, IngestKey(batch, digest)) <==>
        HasKey(log, IngestKey(batch, digest)) || digest in r.accepted)
  }

  lemma NextGrows(prior: Outcome, env: Envelope, l: Learning, s: SessionId, now: nat, disk: Disk, log: seq<Event>,
                  count: nat, digest: string)
    requires l.digest in env.audio && Next(prior, env, l, s, now, disk).ok
    requires HasDigest(prior.host.db, DEFAULT_USER, l.digest) || l.digest !in prior.accepted
    requires Grows(prior, log, count, env.batch, digest) && Grows(prior, log, count, env.batch, l.digest)
    ensures Grows(Next(prior, env, l, s, now, disk), log, count, env.batch, digest)
  {
    if !HasDigest(prior.host.db, DEFAULT_USER, l.digest) {
      StoringLogs(prior.host, env.batch, l, s, env.audio[l.digest], now, disk, digest);
      assert (prior.accepted + [l.digest])[..|prior.accepted|] == prior.accepted;
    }
  }

  lemma AcceptedAreStored(r: Outcome, have: set<string>, ds: seq<string>, digest: string)
    requires Reads(r, have, ds)
    ensures HasDigest(r.host.db, DEFAULT_USER, digest) || digest !in r.accepted
  {
    ReportIsPartition(have, ds);
    HasDigestIsStored(r.host.db, digest);
  }

  ghost predicate GrowsAll(r: Outcome, start: Db, batch: string) {
    match r
    case Outcome(_, _, _, _) => forall digest: string :: Grows(r, start.log, |start.candidates|, batch, digest)
  }

  lemma NextIs(h: Host, env: Envelope, draws: seq<Draw>, now: nat, n: nat, prior: Outcome, r: Outcome)
    requires Complete(env) && 0 < n <= |draws| == |env.learnings|
    requires prior == IngestUpTo(h, env, draws, now, n - 1) && r == IngestUpTo(h, env, draws, now, n) && r.ok
    ensures prior.ok && r == Next(prior, env, env.learnings[n - 1], draws[n - 1].id, now, draws[n - 1].disk)
  {
  }

  lemma {:induction false} UpToGrows(h: Host, env: Envelope, draws: seq<Draw>, now: nat, n: nat, r: Outcome)
    requires Complete(env) && |draws| == |env.learnings| && n <= |draws|
    requires r == IngestUpTo(h, env, draws, now, n) && r.ok && Counted(h.db)
    ensures GrowsAll(r, h.db, env.batch)
  {
    if n > 0 {
      var prior := IngestUpTo(h, env, draws, now, n - 1);
      NextIs(h, env, draws, now, n, prior, r);
      UpToGrows(h, env, draws, now, n - 1, prior);
      ReadBefore(h, env, draws, now, n, prior);
      AllGrow(prior, env, draws, now, n, h.db, r);
    } else {
      StartGrows(r, h.db, env.batch);
    }
  }

  lemma StartGrows(r: Outcome, start: Db, batch: string)
    requires r.host.db == start && r.accepted == [] && Counted(start)
    ensures GrowsAll(r, start, batch)
  {
  }

  lemma AllGrow(prior: Outcome, env: Envelope, draws: seq<Draw>, now: nat, n: nat, start: Db, r: Outcome)
    requires Complete(env) && 0 < n <= |draws| == |env.learnings|
    requires r == Next(prior, env, env.learnings[n - 1], draws[n - 1].id, now, draws[n - 1].disk) && r.ok
    requires Reads(prior, Stored(start), Digests(env.learnings)[..n - 1]) && GrowsAll(prior, start, env.batch)
    ensures GrowsAll(r, start, env.batch)
  {
    var l, draw := env.learnings[n - 1], draws[n - 1];
    AcceptedAreStored(prior, Stored(start), Digests(env.learnings)[..n - 1], l.digest);
    forall digest: string ensures Grows(r, start.log, |start.candidates|, env.batch, digest) {
      NextGrows(prior, env, l, draw.id, now, draw.disk, start.log, |start.candidates|, digest);
    }
  }

  lemma {:induction false} AllUnlogged(log: seq<Event>, batch: string, digests: seq<string>)
    ensures Unlogged(log, batch, digests) <= |digests|
    ensures Unlogged(log, batch, digests) == |digests| <==>
            forall d :: d in digests ==> !HasKey(log, IngestKey(batch, d))
  {
    if digests != [] {
      var init, last := digests[..|digests| - 1], digests[|digests| - 1];
      assert digests == init + [last];
      AllUnlogged(log, batch, init);
    }
  }

  /** A completed ingest adds one candidate row for each digest that is new to the store exactly when none of these was
      ever committed under this batch id before. */
  lemma CandidatesGrowByAcceptedIff(h: Host, env: Envelope, draws: seq<Draw>, now: nat, r: Outcome)
    requires Complete(env) && |draws| == |env.learnings| && r == IngestAll(h, env, draws, now) && r.ok && Counted(h.db)
    ensures var new' := FirstNew(Stored(h.db), Digests(env.learnings));
            && |r.host.db.candidates| <= |h.db.candidates| + |new'|
            && (|r.host.db.candidates| == |h.db.candidates| + |new'| <==>
                forall d :: d in new' ==> !HasKey(h.db.log, IngestKey(env.batch, d)))
  {
    UpToGrows(h, env, draws, now, |draws|, r);
    IngestReport(h, env, draws, now);
    assert Grows(r, h.db.log, |h.db.candidates|, env.batch, "");
    AllUnlogged(h.db.log, env.batch, r.accepted);
  }

  // ---------------------------------------------------------------- the ledger invariant

  /** Every spent ingest key belongs to a stored digest. */
  ghost predicate LedgerBacked(db: Db) {
    forall batch: string, d: string :: ':' !in d ==> KeyBacked(db, batch, d)
  }

  predicate KeyBacked(db: Db, batch: string, d: string) { HasKey(db.log, IngestKey(batch, d)) ==> d in Stored(db) }

  lemma IngestKeysApart(batch: string, d: string, batch': string, e: string)
    requires ':' !in d && ':' !in e && IngestKey(batch, d) == IngestKey(batch', e)
    ensures batch == batch' && d == e
  {
    LastColonSplits("ingest:" + batch, d, "ingest:" + batch', e);
    assert ("ingest:" + batch)[7..] == batch && ("ingest:" + batch')[7..] == batch';
  }

  /** Recording one learning spends its own key and no other, of any batch. */
  lemma RecordedOtherKeys(db: Db, batch: string, l: Learning, s: SessionId, now: nat, batch': string, d: string)
    requires Recorded(db, batch, l, s, now).Done? && ':' !in l.digest && ':' !in d
    requires HasKey(Recorded(db, batch, l, s, now).db.log, IngestKey(batch', d))
    ensures HasKey(db.log, IngestKey(batch', d)) || (batch == batch' && d == l.digest)
  {
    var key, other := IngestKey(batch, l.digest), IngestKey(batch', d);
    IngestKeyApart(batch', d, s);
    var made := CreateSession(db, s, Some(l.raw), now).db;
    CreateLogs(db, s, l.raw, now, other);
    if l.corrected != l.raw { PreeditLogs(made, s, l.raw, l.corrected, other); }
    var edited := if l.corrected != l.raw then RecordPreedit(made, s, l.raw, l.corrected, 0).db else made;
    CommitLogs(edited, s, l.corrected, key, now, other);
    if key == other { IngestKeysApart(batch, l.digest, batch', d); }
  }

  lemma StoringOtherKeys(h: Host, batch: string, l: Learning, s: SessionId, payload: Bytes, now: nat, disk: Disk,
                         batch': string, d: string)
    requires Recorded(h.db, batch, l, s, now).Done? && ':' !in l.digest && ':' !in d
    requires HasKey(StoreLearning(h, batch, l, s, payload, now, disk).0.db.log, IngestKey(batch', d))
    ensures HasKey(h.db.log, IngestKey(batch', d)) || (batch == batch' && d == l.digest)
  {
    RecordedThenKept(h, batch, l, s, payload, now, disk);
    RecordedOtherKeys(h.db, batch, l, s, now, batch', d);
  }

  lemma NextBacked(prior: Outcome, env: Envelope, l: Learning, draw: Draw, now: nat, r: Outcome)
    requires l.digest in env.audio && r == Next(prior, env, l, draw.id, now, draw.disk) && r.ok
    requires LedgerBacked(prior.host.db) && ':' !in l.digest
    ensures LedgerBacked(r.host.db)
  {
    if !HasDigest(prior.host.db, DEFAULT_USER, l.digest) {
      var payload := env.audio[l.digest];
      StoredGrows(prior.host, env.batch, l, draw.id, payload, now, draw.disk);
      forall batch: string, d: string | ':' !in d ensures KeyBacked(r.host.db, batch, d) {
        assert KeyBacked(prior.host.db, batch, d);
        if HasKey(r.host.db.log, IngestKey(batch, d)) {
          StoringOtherKeys(prior.host, env.batch, l, draw.id, payload, now, draw.disk, batch, d);
        }
      }
    }
  }

  /** Completed ingests keep the ledger backed, so on their own every accepted learning becomes a candidate. */
  lemma {:induction false} LedgerStaysBacked(h: Host, env: Envelope, draws: seq<Draw>, now: nat, n: nat, r: Outcome)
    requires Complete(env) && |draws| == |env.learnings| && n <= |draws|
    requires r == IngestUpTo(h, env, draws, now, n) && r.ok
    requires LedgerBacked(h.db) && forall l :: l in env.learnings ==> ':' !in l.digest
    ensures LedgerBacked(r.host.db)
  {
    if n > 0 {
      var l, draw := env.learnings[n - 1], draws[n - 1];
      var prior := IngestUpTo(h, env, draws, now, n - 1);
      LedgerStaysBacked(h, env, draws, now, n - 1, prior);
      assert l in env.learnings;
      NextBacked(prior, env, l, draw, now, r);
    }
  }

  lemma BackedLedgerMakesCandidates(h: Host, env: Envelope, draws: seq<Draw>, now: nat, r: Outcome)
    requires Complete(env) && |draws| == |env.learnings| && r == IngestAll(h, env, draws, now) && r.ok
    requires LedgerBacked(h.db) && Counted(h.db) && forall l :: l in env.learnings ==> ':' !in l.digest
    ensures |r.host.db.candidates| == |h.db.candidates| + |FirstNew(Stored(h.db), Digests(env.learnings))|
    ensures LedgerBacked(r.host.db)
  {
    CandidatesGrowByAcceptedIff(h, env, draws, now, r);
    LedgerStaysBacked(h, env, draws, now, |draws|, r);
    IngestReport(h, env, draws, now);
    AcceptedAreUnspent(h.db, env, r.accepted);
  }

  lemma AcceptedAreUnspent(db: Db, env: Envelope, accepted: seq<string>)
    requires LedgerBacked(db) && accepted == FirstNew(Stored(db), Digests(env.learnings))
    requires forall l :: l in env.learnings ==> ':' !in l.digest
    ensures forall d :: d in accepted ==> !HasKey(db.log, IngestKey(env.batch, d))
  {
    var ds := Digests(env.learnings);
    ReportIsPartition(Stored(db), ds);
    forall d | d in accepted ensures !HasKey(db.log, IngestKey(env.batch, d)) {
      assert d in ds && d !in Stored(db) && KeyBacked(db, env.batch, d);
      var i :| 0 <= i < |ds| && ds[i] == d;
      assert env.learnings[i] in env.learnings;
    }
  }

  lemma CommitInVain(db: Db, s: string, text: string, key: string, now: nat)
    requires CommitSession(db, s, text, key, now).Done? && HasKey(db.log, key)
    ensures CommitSession(db, s, text, key, now).db == db
  {
  }

  // ---------------------------------------------------------------- what a fresh learning becomes

  /** The session id, drawn at random, was never used on this device. */
  predicate FreshId(h: Host, s: SessionId) {
    && !HasKey(h.db.log, CreatedKey(s)) && !HasKey(h.db.log, PreeditKey(s, 0))
    && s !in h.db.sessions && UtteranceKey(s) !in h.db.utterances && (s, 0) !in h.db.edits
    && AudioPath(UtteranceKey(s)) !in h.files
  }

  /** A committed session from raw to corrected, its correction recorded and its one captured candidate `n`. */
  predicate Learned(before: Db, db: Db, l: Learning, s: SessionId, n: nat) {
    && s in db.sessions && db.sessions[s].state == Committed && db.sessions[s].raw == Some(l.raw)
    && db.sessions[s].committedText == Some(l.corrected)
    && n in db.candidates && db.candidates[n].session == s && db.candidates[n].utterance == UtteranceKey(s)
    && db.candidates[n].raw == l.raw && db.candidates[n].corrected == l.corrected
    && db.candidates[n].transcript == l.corrected && db.candidates[n].status == Captured
    && (db.candidates[n].source == AcceptedWithEdit <==> l.corrected != l.raw)
    && db.edits == if l.corrected != l.raw
                   then before.edits[(s, 0) := Edit(PreeditUpdate, l.raw, l.corrected)] else before.edits
  }

  /** Under a fresh session id and an unspent key, storing succeeds, and the learning becomes a committed session with
      its correction recorded, one captured candidate from raw to corrected, and its audio under its digest. */
  lemma FreshLearningIsStored(h: Host, batch: string, l: Learning, s: SessionId, payload: Bytes, now: nat, disk: Disk)
    requires FreshId(h, s) && !HasKey(h.db.log, IngestKey(batch, l.digest)) && disk.Works?
    requires forall i :: i in h.db.candidates ==> h.db.candidates[i].key != IngestKey(batch, l.digest)
    ensures var (after, ok) := StoreLearning(h, batch, l, s, payload, now, disk);
            var u := UtteranceKey(s);
            && ok && Learned(h.db, after.db, l, s, h.db.nextCandidate)
            && u in after.db.utterances && after.db.utterances[u].digest == Some(l.digest)
            && AudioPath(u) in after.files && after.files[AudioPath(u)] == payload
  {
    FreshCommitted(h.db, batch, l, s, now);
    RecordedThenKept(h, batch, l, s, payload, now, disk);
    KeepingWorks(Host(Recorded(h.db, batch, l, s, now).db, h.files), s, payload, l.digest);
  }

  /** Under a fresh session id and on a working disk, a dictation on the PC is kept: an open session saying what was
      heard, and its recording under its digest. */
  lemma FreshDictationIsKept(h: Host, s: SessionId, text: string, payload: Bytes, digest: string, now: nat)
    requires FreshId(h, s)
    ensures var (after, ok) := PersistSession(h, s, text, payload, digest, now, Works);
            var u := UtteranceKey(s);
            && ok && s in after.db.sessions && after.db.sessions[s].raw == Some(text)
            && after.db.sessions[s].state == Created && after.db.candidates == h.db.candidates
            && u in after.db.utterances && after.db.utterances[u].raw == Some(text)
            && after.db.utterances[u].digest == Some(digest)
            && AudioPath(u) in after.files && after.files[AudioPath(u)] == payload
  {
    FreshSession(h.db, s, text, now);
    KeepingWorks(Host(CreateSession(h.db, s, Some(text), now).db, h.files), s, payload, digest);
  }

  /** The three transactions before the audio is written. */
  lemma FreshCommitted(db: Db, batch: string, l: Learning, s: SessionId, now: nat)
    requires FreshId(Host(db, map[]), s) && !HasKey(db.log, IngestKey(batch, l.digest))
    requires forall i :: i in db.candidates ==> db.candidates[i].key != IngestKey(batch, l.digest)
    ensures var made := CreateSession(db, s, Some(l.raw), now);
            made.Done? &&
            var edited := if l.corrected != l.raw then RecordPreedit(made.db, s, l.raw, l.corrected, 0) else made;
            edited.Done? &&
            var committed := CommitSession(edited.db, s, l.corrected, IngestKey(batch, l.digest), now);
            committed.Done? && Learned(db, committed.db, l, s, db.nextCandidate) &&
            UtteranceKey(s) in committed.db.utterances
  {
    var key := IngestKey(batch, l.digest);
    IngestKeyApart(batch, l.digest, s);
    var made := CreateSession(db, s, Some(l.raw), now).db;
    FreshSession(db, s, l.raw, now);
    CreateLogs(db, s, l.raw, now, key);
    CreateLogs(db, s, l.raw, now, PreeditKey(s, 0));
    assert CreatedKey(s)[0] == 's' && PreeditKey(s, 0)[0] == 'p';
    var edited := made;
    if l.corrected != l.raw {
      FreshPreedit(made, s, l.raw, l.corrected);
      PreeditLogs(made, s, l.raw, l.corrected, key);
      edited := RecordPreedit(made, s, l.raw, l.corrected, 0).db;
    }
    FreshCommit(edited, s, l.raw, l.corrected, key, now);
  }

  lemma FreshSession(db: Db, s: SessionId, raw: string, now: nat)
    requires !HasKey(db.log, CreatedKey(s)) && s !in db.sessions && UtteranceKey(s) !in db.utterances
    ensures CreateSession(db, s, Some(raw), now).Done?
    ensures var made := CreateSession(db, s, Some(raw), now).db;
            Opened(made, s, raw) && made.edits == db.edits && made.candidates == db.candidates &&
            made.nextCandidate == db.nextCandidate
  {
  }

  lemma FreshPreedit(db: Db, s: SessionId, raw: string, corrected: string)
    requires Opened(db, s, raw) && !HasKey(db.log, PreeditKey(s, 0)) && (s, 0) !in db.edits
    ensures RecordPreedit(db, s, raw, corrected, 0).Done?
    ensures var edited := RecordPreedit(db, s, raw, corrected, 0).db;
            && Opened(edited, s, raw) && edited.edits == db.edits[(s, 0) := Edit(PreeditUpdate, raw, corrected)]
            && edited.candidates == db.candidates && edited.nextCandidate == db.nextCandidate
  {
  }

  lemma FreshCommit(db: Db, s: SessionId, raw: string, text: string, key: string, now: nat)
    requires Opened(db, s, raw) && !HasKey(db.log, key)
    requires forall i :: i in db.candidates ==> db.candidates[i].key != key
    ensures CommitSession(db, s, text, key, now).Done?
    ensures var after, n := CommitSession(db, s, text, key, now).db, db.nextCandidate;
            && s in after.sessions && after.sessions[s].state == Committed
            && after.sessions[s].committedText == Some(text) && after.sessions[s].raw == Some(raw)
            && n in after.candidates && after.candidates[n].session == s
            && after.candidates[n].utterance == UtteranceKey(s) && after.candidates[n].raw == raw
            && after.candidates[n].corrected == text && after.candidates[n].transcript == text
            && after.candidates[n].status == Captured
            && (after.candidates[n].source == AcceptedWithEdit <==> text != raw)
            && after.edits == db.edits && UtteranceKey(s) in after.utterances
  {
  }
}
