/** Laws over whole runs of the store: replayed commands, recurring keys, privacy deletion. */
module StoreLaws {
  import opened Basics
  import opened Tables
  import opened StoreInvariant

  // ---------------------------------------------------------------- reading the log

  predicate AnyEvent(log: seq<Event>, kind: EventKind, s: string) {
    exists e :: e in log && e.kind == kind && e.aggregate == s
  }

  /** The replay is order-free: committed if any commit, else cancelled if any cancel, else created. */
  lemma {:induction false} ReplayIsOrderFree(log: seq<Event>, s: string)
    ensures Replay(log, s) ==
            if AnyEvent(log, SessionCommitted, s) then Some(Committed)
            else if AnyEvent(log, SessionCancelled, s) then Some(Cancelled)
            else if AnyEvent(log, SessionCreated, s) then Some(Created) else None
  {
    if log != [] {
      var init, e := log[..|log| - 1], log[|log| - 1];
      assert log == init + [e];
      ReplayIsOrderFree(init, s);
      forall kind
        ensures AnyEvent(log, kind, s) <==> AnyEvent(init, kind, s) || (e.kind == kind && e.aggregate == s)
      {
        if AnyEvent(init, kind, s) {
          var f :| f in init && f.kind == kind && f.aggregate == s;
          assert f in log;
        }
        assert e in log;
      }
    }
  }

  function CandidatesFor(candidates: map<nat, Candidate>, n: nat, s: string): set<nat> {
    set i | i in candidates && i < n && candidates[i].session == s
  }

  lemma {:induction false} CountCandidates(candidates: map<nat, Candidate>, n: nat, s: string)
    ensures |CandidatesFor(candidates, n, s)| == |CandidateKeys(candidates, n, s)|
  {
    if n > 0 {
      CountCandidates(candidates, n - 1, s);
      var before, after := CandidatesFor(candidates, n - 1, s), CandidatesFor(candidates, n, s);
      if n - 1 in candidates && candidates[n - 1].session == s {
        assert after == before + {n - 1};
      } else {
        assert after == before;
      }
    } else {
      assert CandidatesFor(candidates, 0, s) == {};
    }
  }

  function HistoryOf(history: map<nat, HistoryRow>, s: string, committed: bool): set<nat> {
    set i | i in history && history[i].session == s && history[i].committed == committed
  }

  // ---------------------------------------------------------------- as many rows as events

  function Image<A, B>(a: set<A>, f: A -> B): set<B> { set x | x in a :: f(x) }

  lemma {:induction false} ImageSize<A, B>(a: set<A>, f: A -> B)
    requires forall x, y :: x in a && y in a && f(x) == f(y) ==> x == y
    ensures |Image(a, f)| == |a|
  {
    var image := Image(a, f);
    if a == {} {
      assert image == {};
    } else {
      var x :| x in a;
      var rest := a - {x};
      ImageSize(rest, f);
      assert f(x) in image;
      assert Image(rest, f) == image - {f(x)};
    }
  }

  function PreeditRows(edits: map<(string, nat), Edit>, s: string): set<(string, nat)> {
    set k | k in edits && k.0 == s && edits[k].kind == PreeditUpdate
  }

  function PreeditEvents(log: seq<Event>, s: string): set<Event> {
    set e | e in log && e.kind == PreeditCorrected && e.aggregate == s
  }

  lemma PreeditKeyOnce(s: string, i: nat, j: nat)
    requires PreeditKey(s, i) == PreeditKey(s, j)
    ensures i == j
  {
    var prefix := "preedit:" + s + ":";
    assert PreeditKey(s, i)[|prefix|..] == Dec(i) && PreeditKey(s, j)[|prefix|..] == Dec(j);
    DecInjective(i, j);
  }

  function RowKeys(edits: map<(string, nat), Edit>, s: string): set<string> {
    set k | k in PreeditRows(edits, s) :: PreeditKey(k.0, k.1)
  }

  function EventKeys(log: seq<Event>, s: string): set<string> { set e | e in PreeditEvents(log, s) :: e.key }

  lemma RowsByKey(edits: map<(string, nat), Edit>, s: string)
    ensures |RowKeys(edits, s)| == |PreeditRows(edits, s)|
  {
    var rows, key := PreeditRows(edits, s), (k: (string, nat)) => PreeditKey(k.0, k.1);
    forall j, k | j in rows && k in rows && key(j) == key(k) ensures j == k { PreeditKeyOnce(s, j.1, k.1); }
    ImageSize(rows, key);
    assert Image(rows, key) == RowKeys(edits, s);
  }

  lemma EventsByKey(log: seq<Event>, s: string)
    requires Increasing(log)
    ensures |EventKeys(log, s)| == |PreeditEvents(log, s)|
  {
    var events, key := PreeditEvents(log, s), (e: Event) => e.key;
    forall e, f | e in events && f in events && key(e) == key(f) ensures e == f { SameKeySameEvent(log, e, f); }
    ImageSize(events, key);
    assert Image(events, key) == EventKeys(log, s);
  }

  /** A session has as many preedit rows as preedit events: both are told apart by their keys, and the keys are the
      same. */
  lemma PreeditsMatch(log: seq<Event>, edits: map<(string, nat), Edit>, live: set<string>, s: string)
    requires EditsReplay(log, edits, live) && Increasing(log) && s in live
    ensures |PreeditRows(edits, s)| == |PreeditEvents(log, s)|
  {
    RowsByKey(edits, s);
    EventsByKey(log, s);
    RowsHaveEvents(log, edits, s);
    EventsHaveRows(log, edits, live, s);
    assert RowKeys(edits, s) == EventKeys(log, s);
  }

  lemma RowsHaveEvents(log: seq<Event>, edits: map<(string, nat), Edit>, s: string)
    requires RowsLogged(log, edits)
    ensures forall k :: k in PreeditRows(edits, s) ==>
              exists e :: e in PreeditEvents(log, s) && e.key == PreeditKey(k.0, k.1)
  {
    forall k | k in PreeditRows(edits, s)
      ensures exists e :: e in PreeditEvents(log, s) && e.key == PreeditKey(k.0, k.1)
    {
      assert HasPreedit(log, k.0, k.1, edits[k].from, edits[k].to);
      var i :| 0 <= i < |log| && IsPreedit(log[i], k.0, k.1, edits[k].from, edits[k].to);
      assert log[i] in PreeditEvents(log, s);
    }
  }

  lemma EventsHaveRows(log: seq<Event>, edits: map<(string, nat), Edit>, live: set<string>, s: string)
    requires EventsRecorded(log, edits, live) && s in live
    ensures forall e :: e in PreeditEvents(log, s) ==>
              exists k :: k in PreeditRows(edits, s) && e.key == PreeditKey(k.0, k.1)
  {
    forall e | e in PreeditEvents(log, s)
      ensures exists k :: k in PreeditRows(edits, s) && e.key == PreeditKey(k.0, k.1)
    {
      var i :| 0 <= i < |log| && log[i] == e;
      assert HasPreeditRow(edits, log[i]);
      var k :| k in edits && k.0 == e.aggregate && e.key == PreeditKey(k.0, k.1) && edits[k].kind == PreeditUpdate;
      assert k in PreeditRows(edits, s);
    }
  }

  /** The tables are a projection of the log, read directly. */
  lemma ProjectionMatchesLog(cmds: seq<Cmd>, s: string)
    requires s in Run(EMPTY, cmds).sessions
    ensures var db := Run(EMPTY, cmds);
            var row := db.sessions[s];
            && row.state == row.sessionState
            && row.state == (if AnyEvent(db.log, SessionCommitted, s) then Committed
                             else if AnyEvent(db.log, SessionCancelled, s) then Cancelled else Created)
            && |set i | i in db.candidates && db.candidates[i].session == s| == |CommitKeys(db.log, s)|
            && |PreeditRows(db.edits, s)| == |PreeditEvents(db.log, s)|
            && |HistoryOf(db.history, s, true)| <= 1
            && |HistoryOf(db.history, s, false)| <= 1
  {
    EveryReachableStateIsValid(cmds);
    ProjectionOf(Run(EMPTY, cmds), s);
  }

  lemma ProjectionOf(db: Db, s: string)
    requires Valid(db) && s in db.sessions
    ensures var row := db.sessions[s];
            && row.state == row.sessionState
            && row.state == (if AnyEvent(db.log, SessionCommitted, s) then Committed
                             else if AnyEvent(db.log, SessionCancelled, s) then Cancelled else Created)
            && |set i | i in db.candidates && db.candidates[i].session == s| == |CommitKeys(db.log, s)|
            && |PreeditRows(db.edits, s)| == |PreeditEvents(db.log, s)|
            && |HistoryOf(db.history, s, true)| <= 1
            && |HistoryOf(db.history, s, false)| <= 1
  {
    ReplayIsOrderFree(db.log, s);
    CountCandidates(db.candidates, db.nextCandidate, s);
    assert (set i | i in db.candidates && db.candidates[i].session == s)
           == CandidatesFor(db.candidates, db.nextCandidate, s);
    OneRowEach(db.history, s, true);
    OneRowEach(db.history, s, false);
    PreeditsMatch(db.log, db.edits, db.sessions.Keys, s);
  }

  lemma OneRowEach(history: map<nat, HistoryRow>, s: string, committed: bool)
    requires OneRowPerKind(history)
    ensures |HistoryOf(history, s, committed)| <= 1
  {
    var rows := HistoryOf(history, s, committed);
    if rows != {} {
      var a :| a in rows;
      assert rows == {a};
    }
  }

  // ---------------------------------------------------------------- replayed commands

  predicate Keyed(cmd: Cmd) {
    cmd.DoPreedit? || cmd.DoCommit? || cmd.DoCancel?
  }

  function KeyOf(cmd: Cmd): string
    requires Keyed(cmd)
  {
    match cmd
    case DoPreedit(s, _, _, index) => PreeditKey(s, index)
    case DoCommit(_, _, key, _) => key
    case DoCancel(_, key, _) => key
  }

  /** What the ledger compares besides the key. */
  function EntryOf(cmd: Cmd): (EventKind, string)
    requires Keyed(cmd)
  {
    match cmd
    case DoPreedit(_, from, to, index) => (PreeditCorrected, PreeditPayload(from, to, index))
    case DoCommit(_, text, _, _) => (SessionCommitted, text)
    case DoCancel(_, _, _) => (SessionCancelled, CANCEL_PAYLOAD)
  }

  predicate HasEntry(log: seq<Event>, key: string, kind: EventKind, payload: string) {
    exists e :: e in log && e.key == key && e.kind == kind && e.payload == payload
  }

  /** A transaction that either found its entry or appended it. */
  lemma Entered(log: seq<Event>, after: seq<Event>, key: string, kind: EventKind, payload: string)
    requires match Lookup(log, key, kind, payload)
             case Duplicate => after == log
             case Conflict => false
             case Fresh => |after| == |log| + 1 && after[|log|].key == key && after[|log|].kind == kind &&
                           after[|log|].payload == payload
    ensures HasEntry(after, key, kind, payload)
  {
    if Lookup(log, key, kind, payload).Fresh? { assert after[|log|] in after; }
  }

  lemma ExecutedIsLogged(db: Db, cmd: Cmd)
    requires Keyed(cmd) && Exec(db, cmd).Done?
    ensures HasEntry(Exec(db, cmd).db.log, KeyOf(cmd), EntryOf(cmd).0, EntryOf(cmd).1)
  {
    Entered(db.log, Exec(db, cmd).db.log, KeyOf(cmd), EntryOf(cmd).0, EntryOf(cmd).1);
  }

  lemma {:induction false} NobodyDead(log: seq<Event>)
    ensures WithoutSessions(log, {}) == log
  {
    if log != [] { NobodyDead(log[..|log| - 1]); }
  }

  lemma LogGrows(db: Db, cmd: Cmd)
    requires !cmd.DoDeleteUser?
    ensures db.log <= After(db, Exec(db, cmd)).log
  {
  }

  lemma DeletingNobody(db: Db, user: string)
    requires SessionsOf(db, user) == {}
    ensures db.log <= After(db, DeleteUser(db, user)).log
  {
    NobodyDead(db.log);
  }

  lemma OnlyDefaultOwns(db: Db, user: string)
    requires Naming(db.sessions, db.utterances) && user != DEFAULT_USER
    ensures SessionsOf(db, user) == {}
  {
  }

  lemma StepGrows(db: Db, cmd: Cmd)
    requires Naming(db.sessions, db.utterances) && cmd != DoDeleteUser(DEFAULT_USER)
    ensures db.log <= After(db, Exec(db, cmd)).log
  {
    if cmd.DoDeleteUser? {
      assert Exec(db, cmd) == DeleteUser(db, cmd.user);
      OnlyDefaultOwns(db, cmd.user);
      DeletingNobody(db, cmd.user);
    } else {
      LogGrows(db, cmd);
    }
  }

  lemma PrefixTransitive(a: seq<Event>, b: seq<Event>, c: seq<Event>)
    requires a <= b && b <= c
    ensures a <= c
  {
  }

  lemma {:induction false} RunGrows(db: Db, cmds: seq<Cmd>)
    requires Valid(db) && DoDeleteUser(DEFAULT_USER) !in cmds
    ensures db.log <= Run(db, cmds).log
  {
    if cmds != [] {
      var init := cmds[..|cmds| - 1];
      RunGrows(db, init);
      RunKeeps(db, init);
      StepGrows(Run(db, init), cmds[|cmds| - 1]);
      PrefixTransitive(db.log, Run(db, init).log, Run(db, cmds).log);
    }
  }

  lemma LedgerDecides(db: Db, e: Event, cmd: Cmd)
    requires Keyed(cmd) && Increasing(db.log) && e in db.log && e.key == KeyOf(cmd)
    ensures Exec(db, cmd) == if (e.kind, e.payload) == EntryOf(cmd) then Done(db) else Failed(IdempotencyConflict)
  {
    forall f | f in db.log && f.key == e.key ensures f == e { SameKeySameEvent(db.log, e, f); }
  }

  lemma ReachableLog(earlier: seq<Cmd>, cmd: Cmd, later: seq<Cmd>)
    requires Exec(Run(EMPTY, earlier), cmd).Done? && DoDeleteUser(DEFAULT_USER) !in later
    ensures var middle := Exec(Run(EMPTY, earlier), cmd).db;
            middle.log <= Run(middle, later).log && Increasing(Run(middle, later).log)
  {
    EveryReachableStateIsValid(earlier);
    CommandKeeps(Run(EMPTY, earlier), cmd, Exec(Run(EMPTY, earlier), cmd));
    RunGrows(Exec(Run(EMPTY, earlier), cmd).db, later);
    RunKeeps(Exec(Run(EMPTY, earlier), cmd).db, later);
  }

  /** Command idempotency over whole runs: however the store ran before and after (training data pruned, other users
      deleted), sending a command that succeeded once again succeeds and changes nothing, and reusing its key for
      another kind of command or another payload is a conflict. */
  lemma ReplayedCommandChangesNothing(earlier: seq<Cmd>, cmd: Cmd, later: seq<Cmd>, other: Cmd)
    requires Keyed(cmd) && Keyed(other) && KeyOf(other) == KeyOf(cmd)
    requires Exec(Run(EMPTY, earlier), cmd).Done?
    requires DoDeleteUser(DEFAULT_USER) !in later
    ensures var db := Run(Exec(Run(EMPTY, earlier), cmd).db, later);
            Exec(db, other) == if EntryOf(other) == EntryOf(cmd) then Done(db) else Failed(IdempotencyConflict)
  {
    var middle := Exec(Run(EMPTY, earlier), cmd).db;
    ExecutedIsLogged(Run(EMPTY, earlier), cmd);
    ReachableLog(earlier, cmd, later);
    var e :| e in middle.log && e.key == KeyOf(cmd) && e.kind == EntryOf(cmd).0 && e.payload == EntryOf(cmd).1;
    LedgerDecides(Run(middle, later), e, other);
  }

  lemma SameKeySameEvent(log: seq<Event>, e: Event, f: Event)
    requires Increasing(log) && e in log && f in log && e.key == f.key
    ensures e == f
  {
    var i :| 0 <= i < |log| && log[i] == e;
    var j :| 0 <= j < |log| && log[j] == f;
    assert !(i < j) && !(j < i);
  }

  /** An arrow at this position. */
  predicate ArrowAt(text: string, p: nat) { p + 2 <= |text| && text[p..p + 2] == "->" }

  /** The ledger compares payload strings, not edits. An edit is told apart from every other edit of its index exactly
      when the only arrow in its printed form is the one printed between its two texts. */
  lemma PayloadTellsApartIff(from: string, to: string, index: nat)
    ensures (forall f: string, t: string :: PreeditPayload(f, t, index) == PreeditPayload(from, to, index) ==>
               f == from && t == to) <==>
            (forall p: nat :: ArrowAt(from + "->" + to, p) ==> p == |from|)
  {
    if forall p: nat :: ArrowAt(from + "->" + to, p) ==> p == |from| {
      forall f: string, t: string | PreeditPayload(f, t, index) == PreeditPayload(from, to, index)
        ensures f == from && t == to
      {
        SamePayload(f, t, from, to, index);
      }
    } else {
      var p: nat :| ArrowAt(from + "->" + to, p) && p != |from|;
      ArrowSplits(from, to, index, p);
    }
  }

  /** Every arrow makes an edit that prints the same. */
  lemma ArrowSplits(from: string, to: string, index: nat, p: nat)
    requires ArrowAt(from + "->" + to, p)
    ensures var text := from + "->" + to;
            PreeditPayload(text[..p], text[p + 2..], index) == PreeditPayload(from, to, index) && |text[..p]| == p
  {
    var text := from + "->" + to;
    assert text == text[..p] + "->" + text[p + 2..];
  }

  lemma SamePayload(f: string, t: string, from: string, to: string, index: nat)
    requires PreeditPayload(f, t, index) == PreeditPayload(from, to, index)
    ensures f + "->" + t == from + "->" + to && ArrowAt(from + "->" + to, |f|)
    ensures |f| == |from| ==> f == from && t == to
  {
    var a, b, tail := f + "->" + t, from + "->" + to, ":" + Dec(index);
    assert PreeditPayload(f, t, index) == a + tail && PreeditPayload(from, to, index) == b + tail;
    assert |a| == |b| && a == (a + tail)[..|a|] && b == (b + tail)[..|a|];
    assert a[|f|..|f| + 2] == "->";
    assert f == a[..|f|] && t == a[|f| + 2..] && from == b[..|from|] && to == b[|from| + 2..];
  }

  /** Two different edits of one index can print alike, and then the second is dropped without an error. */
  lemma DifferentEditsOnePayload(db: Db, s: string, index: nat)
    requires !HasKey(db.log, PreeditKey(s, index)) && s in db.sessions && (s, index) !in db.edits
    ensures var first := RecordPreedit(db, s, "a->b", "c", index);
            first.Done? && RecordPreedit(first.db, s, "a", "b->c", index) == first
  {
    var first := RecordPreedit(db, s, "a->b", "c", index);
    assert "a->b" + "->" + "c" + ":" + Dec(index) == "a" + "->" + "b->c" + ":" + Dec(index);
    assert first.db.log[|db.log|] in first.db.log;
  }

  // ---------------------------------------------------------------- unique indexes

  lemma {:induction false} CandidateKeyListed(candidates: map<nat, Candidate>, n: nat, id: nat)
    requires id < n && id in candidates
    ensures candidates[id].key in CandidateKeys(candidates, n, candidates[id].session)
  {
    if id < n - 1 { CandidateKeyListed(candidates, n - 1, id); }
  }

  lemma {:induction false} CommitKeyLogged(log: seq<Event>, s: string, key: string)
    requires key in CommitKeys(log, s)
    ensures HasKey(log, key)
  {
    var init, e := log[..|log| - 1], log[|log| - 1];
    assert log == init + [e];
    if key in CommitKeys(init, s) {
      CommitKeyLogged(init, s, key);
      var f :| f in init && f.key == key;
      assert f in log;
    } else {
      assert e in log;
    }
  }

  lemma CandidateKeyLogged(db: Db, id: nat)
    requires Rows(db) && Replays(db) && id in db.candidates
    ensures HasKey(db.log, db.candidates[id].key)
  {
    var row := db.candidates[id];
    CandidateKeyListed(db.candidates, db.nextCandidate, id);
    CommitKeyLogged(db.log, row.session, row.key);
  }

  /** The unique index on candidate keys never refuses a commit: it fails for an unknown session, a session without a
      transcript, or a key the ledger knows in another sense, and for nothing else. */
  lemma CommitFailures(earlier: seq<Cmd>, s: string, text: string, key: string, now: nat)
    ensures var db := Run(EMPTY, earlier);
            CommitSession(db, s, text, key, now).Done? <==>
            match Lookup(db.log, key, SessionCommitted, text)
            case Duplicate => true
            case Conflict => false
            case Fresh => s in db.sessions && db.sessions[s].raw.Some?
  {
    EveryReachableStateIsValid(earlier);
    CommitOpen(Run(EMPTY, earlier), key);
  }

  lemma CommitOpen(db: Db, key: string)
    requires Rows(db) && Replays(db)
    ensures HasKey(db.log, key) || forall i :: i in db.candidates ==> db.candidates[i].key != key
  {
    forall i | i in db.candidates ensures HasKey(db.log, db.candidates[i].key) { CandidateKeyLogged(db, i); }
  }

  /** The unique index on edit events refuses a fresh preedit exactly when a correction has taken its index. */
  lemma PreeditFailures(earlier: seq<Cmd>, s: string, from: string, to: string, index: nat)
    requires !HasKey(Run(EMPTY, earlier).log, PreeditKey(s, index)) && s in Run(EMPTY, earlier).sessions
    ensures var db := Run(EMPTY, earlier);
            RecordPreedit(db, s, from, to, index).Failed? <==>
            (s, index) in db.edits && db.edits[(s, index)].kind == PostCommitCorrection
  {
    EveryReachableStateIsValid(earlier);
    var db := Run(EMPTY, earlier);
    if (s, index) in db.edits && db.edits[(s, index)].kind == PreeditUpdate { PreeditRowLogged(db, s, index); }
  }

  lemma PreeditRowLogged(db: Db, s: string, index: nat)
    requires RowsLogged(db.log, db.edits) && (s, index) in db.edits && db.edits[(s, index)].kind == PreeditUpdate
    ensures HasKey(db.log, PreeditKey(s, index))
  {
    var row := db.edits[(s, index)];
    var i :| 0 <= i < |db.log| && IsPreedit(db.log[i], s, index, row.from, row.to);
    assert db.log[i] in db.log;
  }

  /** It happens to every session: a correction takes the next index, and the keyboard's own preedit of that index is
      refused. */
  lemma CorrectionTakesIndex(db: Db, s: string, committed: string, corrected: string, from: string, to: string)
    requires s in db.sessions && corrected != committed
    requires !HasKey(db.log, PreeditKey(s, NextEditIndex(db.edits, s)))
    ensures var amended := AmendCorrection(db, s, committed, corrected);
            amended.Done? && RecordPreedit(amended.db, s, from, to, NextEditIndex(db.edits, s)) == Failed(Constraint)
  {
  }

  /** From the empty store, in two commands. */
  lemma PreeditRefused(s: SessionId, cmds: seq<Cmd>, from: string, to: string)
    requires cmds == [DoCreate(s, Some("x"), 0), DoAmend(s, "x", "y")]
    ensures RecordPreedit(Run(EMPTY, cmds), s, from, to, 1) == Failed(Constraint)
  {
    RunTwo(EMPTY, cmds);
    Opening(s);
    CorrectionTakesIndex(CreateSession(EMPTY, s, Some("x"), 0).db, s, "x", "y", from, to);
  }

  lemma Opening(s: SessionId)
    ensures var made := CreateSession(EMPTY, s, Some("x"), 0);
            && made.Done? && s in made.db.sessions && NextEditIndex(made.db.edits, s) == 1
            && !HasKey(made.db.log, PreeditKey(s, 1))
  {
    var made := CreateSession(EMPTY, s, Some("x"), 0).db;
    assert made.log == [Event(1, SessionCreated, s, "x", CreatedKey(s))];
    assert CreatedKey(s)[0] == 's' && PreeditKey(s, 1)[0] == 'p';
    assert (set k | k in made.edits && k.0 == s :: k.1) == {};
  }

  // ---------------------------------------------------------------- privacy deletion

  lemma {:induction false} OnceGone(db: Db, s: string, cmds: seq<Cmd>)
    requires s !in db.sessions
    requires forall c :: c in cmds && c.DoCreate? ==> c.s != s
    ensures s !in Run(db, cmds).sessions
  {
    if cmds != [] {
      assert cmds[|cmds| - 1] in cmds;
      OnceGone(db, s, cmds[..|cmds| - 1]);
      StaysGone(Run(db, cmds[..|cmds| - 1]), s, cmds[|cmds| - 1]);
    }
  }

  lemma StaysGone(db: Db, s: string, cmd: Cmd)
    requires s !in db.sessions && (cmd.DoCreate? ==> cmd.s != s)
    ensures s !in After(db, Exec(db, cmd)).sessions
  {
  }

  /** A privacy delete also clears the ledger, yet no replayed command can bring a deleted session back. */
  lemma DeletedSessionsStayDeleted(db: Db, s: string, later: seq<Cmd>, cmd: Cmd)
    requires s in db.sessions && db.sessions[s].user == DEFAULT_USER
    requires DeleteUser(db, DEFAULT_USER).Done?
    requires forall c :: c in later && c.DoCreate? ==> c.s != s
    requires Keyed(cmd) && cmd.session == s
    ensures var after := Run(DeleteUser(db, DEFAULT_USER).db, later);
            s !in after.sessions && After(after, Exec(after, cmd)) == after
  {
    OnceGone(DeleteUser(db, DEFAULT_USER).db, s, later);
  }

  lemma StaysMarked(db: Db, user: string, cmd: Cmd)
    requires UserWasDeleted(db.log, user)
    ensures UserWasDeleted(After(db, Exec(db, cmd)).log, user)
  {
    var e :| e in db.log && e.kind == UserDataDeleted && e.aggregate == user;
    if cmd.DoDeleteUser? {
      assert e in After(db, DeleteUser(db, cmd.user)).log;
    } else {
      LogGrows(db, cmd);
      assert e in After(db, Exec(db, cmd)).log;
    }
  }

  /** After a privacy delete the outbox and the manifest feed of that user stay empty in every later state, even for
      sessions captured afterwards. */
  lemma {:induction false} DeletedUserShipsNothing(db: Db, user: string, cmds: seq<Cmd>)
    requires DeleteUser(db, user).Done?
    ensures UserWasDeleted(Run(DeleteUser(db, user).db, cmds).log, user)
    ensures Outbox(Run(DeleteUser(db, user).db, cmds), user) == []
  {
    var start := DeleteUser(db, user).db;
    if cmds == [] {
      assert start.log[|start.log| - 1] in start.log;
    } else {
      DeletedUserShipsNothing(db, user, cmds[..|cmds| - 1]);
      StaysMarked(Run(start, cmds[..|cmds| - 1]), user, cmds[|cmds| - 1]);
    }
  }

  // ---------------------------------------------------------------- leaving the outbox

  /** The candidate is gone or was synced, evicted or rejected. */
  predicate Left(db: Db, id: nat) {
    id < db.nextCandidate && (id in db.candidates ==> db.candidates[id].status != Captured)
  }

  lemma StaysLeft(db: Db, id: nat, cmd: Cmd)
    requires Left(db, id)
    ensures Left(After(db, Exec(db, cmd)), id)
  {
  }

  /** A candidate that left the outbox never comes back, and its id is never given to another one. So a correction made
      after a recording was synced stays on the phone. */
  lemma {:induction false} LeftForGood(db: Db, user: string, id: nat, cmds: seq<Cmd>)
    requires Left(db, id)
    ensures Left(Run(db, cmds), id) && !InOutbox(Run(db, cmds), user, id)
  {
    if cmds != [] {
      LeftForGood(db, user, id, cmds[..|cmds| - 1]);
      StaysLeft(Run(db, cmds[..|cmds| - 1]), id, cmds[|cmds| - 1]);
    }
  }
}
