/** The keys the store makes up for itself never collide with one another, although a privacy delete removes rows from
    the log, and collide with a caller's key exactly when the caller used that very key. */
module RecurringKeys {
  import opened Basics
  import opened Tables
  import opened StoreInvariant

  /** The prefixes the store keeps for events that recur. */
  predicate Reserved(key: string) {
    "tray-config:" <= key || "history-pruned:" <= key || "history-deleted:" <= key || "user-data-deleted:" <= key
  }

  predicate DeletedEntryKey(key: string, live: set<nat>, next: nat) {
    exists id: nat :: id < next && id !in live && key == HistoryDeletedKey(id)
  }

  predicate DeletedUserKey(key: string, user: string, count: nat) {
    exists n: nat :: 1 <= n <= count && key == UserDeletedKey(user, n)
  }

  /** The events whose key a caller chooses. */
  predicate CallerEvent(e: Event) { e.kind == SessionCommitted || e.kind == SessionCancelled }

  /** How each event came by its key; `live` and `next` are the history ids in use and the next one. */
  predicate KeyExplained(e: Event, log: seq<Event>, live: set<nat>, next: nat) {
    match e.kind
    case TrayConfigChanged => e.key == TrayKey(e.id)
    case HistoryPruned => e.key == HistoryPrunedKey(e.id)
    case HistoryEntryDeleted => DeletedEntryKey(e.key, live, next)
    case UserDataDeleted => DeletedUserKey(e.key, e.aggregate, DeletionCount(log, e.aggregate))
    case _ => CallerEvent(e) || !Reserved(e.key)
  }

  predicate KeysExplained(log: seq<Event>, live: set<nat>, next: nat) {
    forall e :: e in log ==> KeyExplained(e, log, live, next)
  }

  predicate Explained(db: Db) {
    KeysExplained(db.log, db.history.Keys, db.nextHistory)
  }

  function Deletions(log: seq<Event>, user: string): set<Event> {
    set e | e in log && e.kind == UserDataDeleted && e.aggregate == user
  }

  lemma SubsetCard<T>(a: set<T>, b: set<T>)
    requires a <= b
    ensures |a| <= |b|
  {
    assert b == a + (b - a);
  }

  lemma DeletionsGrow(log: seq<Event>, after: seq<Event>, user: string)
    requires Deletions(log, user) <= Deletions(after, user)
    ensures DeletionCount(log, user) <= DeletionCount(after, user)
  {
    SubsetCard(Deletions(log, user), Deletions(after, user));
  }

  /** Events keep their explanation when deletions stay counted and freed history ids stay free. */
  lemma StillExplained(e: Event, log: seq<Event>, live: set<nat>, next: nat,
                       after: seq<Event>, live': set<nat>, next': nat)
    requires KeyExplained(e, log, live, next) && next <= next'
    requires forall user :: Deletions(log, user) <= Deletions(after, user)
    requires forall id :: id in live' && id < next ==> id in live
    ensures KeyExplained(e, after, live', next')
  {
    match e.kind
    case HistoryEntryDeleted =>
      var id: nat :| id < next && id !in live && e.key == HistoryDeletedKey(id);
      assert id < next' && id !in live';
    case UserDataDeleted =>
      DeletionsGrow(log, after, e.aggregate);
      var n: nat :| 1 <= n <= DeletionCount(log, e.aggregate) && e.key == UserDeletedKey(e.aggregate, n);
      assert 1 <= n <= DeletionCount(after, e.aggregate);
    case _ =>
  }

  lemma ExplainedAppend(log: seq<Event>, live: set<nat>, next: nat, e: Event, live': set<nat>, next': nat)
    requires KeysExplained(log, live, next) && next <= next'
    requires forall id :: id in live' && id < next ==> id in live
    requires KeyExplained(e, log + [e], live', next')
    ensures KeysExplained(log + [e], live', next')
  {
    forall f | f in log ensures KeyExplained(f, log + [e], live', next') {
      StillExplained(f, log, live, next, log + [e], live', next');
    }
  }

  // ---------------------------------------------------------------- one command

  predicate Steady(db: Db, after: Db) {
    && after.log == db.log && db.nextHistory <= after.nextHistory
    && forall id :: id in after.history && id < db.nextHistory ==> id in db.history
  }

  lemma SteadyKeeps(db: Db, after: Db)
    requires Explained(db) && Steady(db, after)
    ensures Explained(after)
  {
    forall e | e in db.log ensures KeyExplained(e, after.log, after.history.Keys, after.nextHistory) {
      StillExplained(e, db.log, db.history.Keys, db.nextHistory, after.log, after.history.Keys, after.nextHistory);
    }
  }

  lemma SessionKeysPlain(s: string, index: nat)
    ensures !Reserved(CreatedKey(s)) && !Reserved(PreeditKey(s, index))
  {
    assert CreatedKey(s)[0] == 's' && PreeditKey(s, index)[0] == 'p';
    assert "tray-config:"[0] == 't' && "history-pruned:"[0] == 'h' && "history-deleted:"[0] == 'h';
    assert "user-data-deleted:"[0] == 'u';
  }

  predicate OneMoreEvent(db: Db, after: Db) {
    && |after.log| == |db.log| + 1 && after.log[..|db.log|] == db.log && db.nextHistory <= after.nextHistory
    && forall id :: id in after.history && id < db.nextHistory ==> id in db.history
  }

  lemma AppendKeeps(db: Db, after: Db)
    requires Explained(db) && OneMoreEvent(db, after)
    requires KeyExplained(after.log[|db.log|], after.log, after.history.Keys, after.nextHistory)
    ensures Explained(after)
  {
    var e := after.log[|db.log|];
    assert after.log == db.log + [e];
    ExplainedAppend(db.log, db.history.Keys, db.nextHistory, e, after.history.Keys, after.nextHistory);
  }

  lemma SessionCommandExplained(db: Db, cmd: Cmd)
    requires Explained(db) && Exec(db, cmd).Done? && Exec(db, cmd).db.log != db.log
    requires cmd.DoCreate? || cmd.DoPreedit? || cmd.DoCommit? || cmd.DoCancel?
    ensures Explained(Exec(db, cmd).db)
  {
    var after := Exec(db, cmd).db;
    if cmd.DoCreate? { SessionKeysPlain(cmd.s, 0); }
    if cmd.DoPreedit? { SessionKeysPlain(cmd.session, cmd.index); }
    assert OneMoreEvent(db, after);
    AppendKeeps(db, after);
  }

  lemma NextIsAfterLast(log: seq<Event>, last: nat)
    requires LogOrdered(log, last)
    ensures NextEventSequence(log) == last + 1
    ensures forall e :: e in log ==> e.id <= last
  {
    var ids := set e | e in log :: e.id;
    forall e | e in log ensures e.id <= last {
      var i :| 0 <= i < |log| && log[i] == e;
    }
    if log != [] {
      assert log[|log| - 1] in log;
      assert last in ids;
    } else {
      assert ids == {};
    }
  }

  lemma StoreEventExplained(db: Db, cmd: Cmd)
    requires Explained(db) && LogOrdered(db.log, db.lastEventId) && Counters(db)
    requires Exec(db, cmd).Done? && Exec(db, cmd).db.log != db.log
    requires cmd.DoPruneHistory? || cmd.DoDeleteHistory? || cmd.DoTray?
    ensures Explained(Exec(db, cmd).db)
  {
    var after := Exec(db, cmd).db;
    NextIsAfterLast(db.log, db.lastEventId);
    if cmd.DoDeleteHistory? {
      EntryExplained(db, cmd.id);
    } else {
      AppendKeeps(db, after);
    }
  }

  lemma EntryExplained(db: Db, id: nat)
    requires Explained(db) && Counters(db) && DeleteHistory(db, id).Done?
    ensures Explained(DeleteHistory(db, id).db)
  {
    var after := DeleteHistory(db, id).db;
    assert id < after.nextHistory && id !in after.history.Keys;
    AppendKeeps(db, after);
  }

  /** A deletion event counts itself: it carries the count before it plus one. */
  lemma DeletionExplained(log: seq<Event>, kept: seq<Event>, live: set<nat>, next: nat, e: Event, live': set<nat>)
    requires KeysExplained(log, live, next) && live' <= live && e !in log
    requires forall f :: f in kept ==> f in log
    requires forall f :: f in log && f.kind == UserDataDeleted ==> f in kept
    requires e.kind == UserDataDeleted && e.key == UserDeletedKey(e.aggregate, DeletionCount(log, e.aggregate) + 1)
    ensures KeysExplained(kept + [e], live', next)
  {
    var after := kept + [e];
    forall user ensures Deletions(log, user) <= Deletions(after, user) {}
    forall f | f in kept ensures KeyExplained(f, after, live', next) {
      StillExplained(f, log, live, next, after, live', next);
    }
    assert Deletions(after, e.aggregate) == Deletions(log, e.aggregate) + {e};
    assert DeletionCount(after, e.aggregate) == DeletionCount(log, e.aggregate) + 1;
  }

  lemma DeleteUserExplained(db: Db, user: string)
    requires Explained(db) && LogOrdered(db.log, db.lastEventId) && DeleteUser(db, user).Done?
    ensures Explained(DeleteUser(db, user).db)
  {
    var after := DeleteUser(db, user).db;
    var kept := WithoutSessions(db.log, SessionsOf(db, user));
    NextIsAfterLast(db.log, db.lastEventId);
    DeletionExplained(db.log, kept, db.history.Keys, db.nextHistory, after.log[|kept|], after.history.Keys);
  }

  lemma CommandExplained(db: Db, cmd: Cmd, after: Db)
    requires Explained(db) && LogOrdered(db.log, db.lastEventId) && Counters(db) && after == After(db, Exec(db, cmd))
    ensures Explained(after)
  {
    if cmd.DoDeleteUser? {
      assert Exec(db, cmd) == DeleteUser(db, cmd.user);
      if DeleteUser(db, cmd.user).Done? { DeleteUserExplained(db, cmd.user); }
    } else if after.log == db.log {
      QuietIsSteady(db, cmd);
      SteadyKeeps(db, after);
    } else if cmd.DoPruneHistory? || cmd.DoDeleteHistory? || cmd.DoTray? {
      StoreEventExplained(db, cmd);
    } else {
      SessionCommandExplained(db, cmd);
    }
  }

  lemma QuietIsSteady(db: Db, cmd: Cmd)
    requires !cmd.DoDeleteUser? && After(db, Exec(db, cmd)).log == db.log
    ensures Steady(db, After(db, Exec(db, cmd)))
  {
  }

  lemma {:induction false} RunExplained(cmds: seq<Cmd>)
    ensures Explained(Run(EMPTY, cmds))
  {
    if cmds != [] {
      var init := cmds[..|cmds| - 1];
      RunExplained(init);
      EveryReachableStateIsValid(init);
      CommandExplained(Run(EMPTY, init), cmds[|cmds| - 1], Run(EMPTY, cmds));
    }
  }

  // ---------------------------------------------------------------- freshness

  lemma SuffixInjective(prefix: string, a: string, b: string)
    requires prefix + a == prefix + b
    ensures a == b
  {
    assert (prefix + a)[|prefix|..] == a && (prefix + b)[|prefix|..] == b;
  }

  /** No two recurring keys of different kinds agree. */
  lemma KindsApart(key: string)
    ensures !("tray-config:" <= key &&
            ("history-pruned:" <= key || "history-deleted:" <= key || "user-data-deleted:" <= key))
    ensures !("history-pruned:" <= key && ("history-deleted:" <= key || "user-data-deleted:" <= key))
    ensures !("history-deleted:" <= key && "user-data-deleted:" <= key)
  {
    assert "history-pruned:"[8] == 'p' && "history-deleted:"[8] == 'd';
    assert "tray-config:"[0] == 't' && "history-pruned:"[0] == 'h' && "history-deleted:"[0] == 'h';
    assert "user-data-deleted:"[0] == 'u';
  }

  /** A commit or a cancel in the log carries this key. */
  predicate TakenByCaller(log: seq<Event>, key: string) {
    exists e :: e in log && CallerEvent(e) && e.key == key
  }

  lemma TrayTaken(db: Db)
    requires Explained(db) && LogOrdered(db.log, db.lastEventId)
    ensures var key := TrayKey(db.lastEventId + 1); HasKey(db.log, key) <==> TakenByCaller(db.log, key)
  {
    var key := TrayKey(db.lastEventId + 1);
    NextIsAfterLast(db.log, db.lastEventId);
    KindsApart(key);
    forall e | e in db.log && e.key == key ensures CallerEvent(e) {
      if e.kind == TrayConfigChanged {
        SuffixInjective("tray-config:", Dec(e.id), Dec(db.lastEventId + 1));
        DecInjective(e.id, db.lastEventId + 1);
      }
    }
  }

  lemma PruneTaken(db: Db)
    requires Explained(db) && LogOrdered(db.log, db.lastEventId)
    ensures var key := HistoryPrunedKey(db.lastEventId + 1); HasKey(db.log, key) <==> TakenByCaller(db.log, key)
  {
    var key := HistoryPrunedKey(db.lastEventId + 1);
    NextIsAfterLast(db.log, db.lastEventId);
    KindsApart(key);
    forall e | e in db.log && e.key == key ensures CallerEvent(e) {
      if e.kind == HistoryPruned {
        SuffixInjective("history-pruned:", Dec(e.id), Dec(db.lastEventId + 1));
        DecInjective(e.id, db.lastEventId + 1);
      }
    }
  }

  lemma EntryTaken(db: Db, id: nat)
    requires Explained(db) && id in db.history
    ensures HasKey(db.log, HistoryDeletedKey(id)) <==> TakenByCaller(db.log, HistoryDeletedKey(id))
  {
    var key := HistoryDeletedKey(id);
    KindsApart(key);
    forall e | e in db.log && e.key == key ensures CallerEvent(e) {
      if e.kind == HistoryEntryDeleted {
        var old': nat :| old' < db.nextHistory && old' !in db.history && e.key == HistoryDeletedKey(old');
        SuffixInjective("history-deleted:", Dec(old'), Dec(id));
        DecInjective(old', id);
      }
    }
  }

  lemma DeletionTaken(log: seq<Event>, live: set<nat>, next: nat, user: string, e: Event)
    requires KeysExplained(log, live, next) && e in log
    requires e.key == UserDeletedKey(user, DeletionCount(log, user) + 1)
    ensures CallerEvent(e)
  {
    var count := DeletionCount(log, user);
    KindsApart(e.key);
    if e.kind == UserDataDeleted {
      var n: nat :| 1 <= n <= DeletionCount(log, e.aggregate) && e.key == UserDeletedKey(e.aggregate, n);
      DeletionKeysApart(e.aggregate, n, user, count + 1);
    }
  }

  lemma DeletionKeysApart(u: string, n: nat, v: string, m: nat)
    requires UserDeletedKey(u, n) == UserDeletedKey(v, m)
    ensures u == v && n == m
  {
    DecHasNoColon(n);
    DecHasNoColon(m);
    assert UserDeletedKey(u, n) == "user-data-deleted:" + u + ":" + Dec(n);
    LastColonSplits("user-data-deleted:" + u, Dec(n), "user-data-deleted:" + v, Dec(m));
    SuffixInjective("user-data-deleted:", u, v);
    DecInjective(n, m);
  }

  lemma RunIsOrdered(cmds: seq<Cmd>)
    ensures LogOrdered(Run(EMPTY, cmds).log, Run(EMPTY, cmds).lastEventId)
  {
    EveryReachableStateIsValid(cmds);
  }

  /** In every run, whatever keys its callers chose: the sequence `MAX(id) + 1` is the next row id, also after privacy
      deletes, and each event the store makes up a key for is refused exactly when a commit or a cancel in the log
      already carries that key. */
  lemma RecurringEventsCollideIff(cmds: seq<Cmd>, db: Db, name: string, value: string, cutoff: nat, id: nat)
    requires db == Run(EMPTY, cmds)
    ensures NextEventSequence(db.log) == db.lastEventId + 1
    ensures forall e :: e in db.log ==> e.id < NextEventSequence(db.log)
    ensures SetTraySetting(db, name, value).Failed? <==> TakenByCaller(db.log, TrayKey(db.lastEventId + 1))
    ensures PruneHistory(db, cutoff).Failed? <==>
            Stale(db.history, cutoff) != {} &&
            TakenByCaller(db.log, HistoryPrunedKey(db.lastEventId + 1))
    ensures DeleteHistory(db, id).Done? <==> id in db.history && !TakenByCaller(db.log, HistoryDeletedKey(id))
  {
    RunExplained(cmds);
    RunIsOrdered(cmds);
    CollideIff(db, name, value, cutoff, id);
  }

  lemma CollideIff(db: Db, name: string, value: string, cutoff: nat, id: nat)
    requires Explained(db) && LogOrdered(db.log, db.lastEventId)
    ensures NextEventSequence(db.log) == db.lastEventId + 1
    ensures forall e :: e in db.log ==> e.id < NextEventSequence(db.log)
    ensures SetTraySetting(db, name, value).Failed? <==> TakenByCaller(db.log, TrayKey(db.lastEventId + 1))
    ensures PruneHistory(db, cutoff).Failed? <==>
            Stale(db.history, cutoff) != {} &&
            TakenByCaller(db.log, HistoryPrunedKey(db.lastEventId + 1))
    ensures DeleteHistory(db, id).Done? <==> id in db.history && !TakenByCaller(db.log, HistoryDeletedKey(id))
  {
    NextIsAfterLast(db.log, db.lastEventId);
    TrayTaken(db);
    PruneTaken(db);
    if id in db.history { EntryTaken(db, id); }
  }

  /** A privacy delete in every run: its own key is refused exactly when a caller took it for a session the delete
      leaves alone, because the deleted sessions' events go first and free their keys. */
  lemma DeletionKeyTakenIff(cmds: seq<Cmd>, db: Db, user: string)
    requires db == Run(EMPTY, cmds)
    ensures var key := UserDeletedKey(user, DeletionCount(db.log, user) + 1);
            HasKey(Purged(db, user).log, key) <==>
            exists e :: e in db.log && CallerEvent(e) && e.key == key && e.aggregate !in SessionsOf(db, user)
  {
    var key := UserDeletedKey(user, DeletionCount(db.log, user) + 1);
    RunExplained(cmds);
    forall e | e in Purged(db, user).log && e.key == key ensures CallerEvent(e) {
      DeletionTaken(db.log, db.history.Keys, db.nextHistory, user, e);
    }
  }

  /** The fold over commands behind it: a run whose commits and cancels use none of the reserved prefixes never has one
      of these events refused. */
  lemma {:induction false} PlainKeysNeverCollide(cmds: seq<Cmd>, key: string)
    requires Reserved(key) && forall c :: c in cmds && (c.DoCommit? || c.DoCancel?) ==> !Reserved(c.key)
    ensures !TakenByCaller(Run(EMPTY, cmds).log, key)
  {
    if cmds != [] {
      var init, cmd := cmds[..|cmds| - 1], cmds[|cmds| - 1];
      assert cmd in cmds;
      PlainKeysNeverCollide(init, key);
      var before := Run(EMPTY, init);
      forall e | e in After(before, Exec(before, cmd)).log && CallerEvent(e) ensures e in before.log || e.key != key {
        CallerKeys(before, cmd, e);
      }
    }
  }

  /** A caller event new to the log carries the key of its command. */
  lemma CallerKeys(db: Db, cmd: Cmd, e: Event)
    requires e in After(db, Exec(db, cmd)).log && CallerEvent(e)
    ensures e in db.log || ((cmd.DoCommit? || cmd.DoCancel?) && e.key == cmd.key)
  {
  }

  /** It happens: a commit keyed like the coming settings event blocks the settings. */
  lemma ReservedKeyBlocksTheStore(s: SessionId, name: string, value: string)
    ensures var made := CreateSession(EMPTY, s, Some("x"), 0);
            made.Done? && made.db.lastEventId == 1 &&
            var taken := CommitSession(made.db, s, "x", TrayKey(3), 0);
            taken.Done? && SetTraySetting(taken.db, name, value) == Failed(Constraint)
  {
    FirstCommit(s, TrayKey(3));
    var taken := CommitSession(CreateSession(EMPTY, s, Some("x"), 0).db, s, "x", TrayKey(3), 0).db;
    NextIsAfterLast(taken.log, 2);
    assert taken.log[1] in taken.log;
  }

  lemma FirstCommit(s: SessionId, key: string)
    requires key != "" && key[0] == 't'
    ensures var made := CreateSession(EMPTY, s, Some("x"), 0);
            made.Done? && made.db.lastEventId == 1 &&
            var taken := CommitSession(made.db, s, "x", key, 0);
            taken.Done? && taken.db.log == [Event(1, SessionCreated, s, "x", CreatedKey(s)),
                                            Event(2, SessionCommitted, s, "x", key)] && CreatedKey(s) != key
  {
    var made := CreateSession(EMPTY, s, Some("x"), 0).db;
    assert made.log == [Event(1, SessionCreated, s, "x", CreatedKey(s))];
    assert CreatedKey(s)[0] == 's';
    assert !HasKey(made.log, key);
  }
}
