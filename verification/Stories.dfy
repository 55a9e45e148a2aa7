/** What the rows of the store say is what the commands that reached them said: each column is read off the run, command
    by command, without looking at any row. */
module Stories {
  import opened Basics
  import opened Tables
  import opened StoreInvariant

  // ---------------------------------------------------------------- sessions

  /** The columns of a session that a command decides. */
  datatype Told = Told(raw: Option<string>, createdAt: nat, committedAt: Option<nat>, cancelledAt: Option<nat>,
                       committed: Option<string>, preedit: Option<string>)

  /** The session as its commands tell it. `took` says that the command succeeded and was not a repetition. */
  function Tell(before: Option<Told>, cmd: Cmd, s: string, took: bool): Option<Told> {
    if !took then before
    else if cmd.DoCreate? then
      if cmd.s == s then Some(Told(cmd.raw, cmd.now, None, None, None, cmd.raw)) else before
    else if before.None? then None
    else
      match cmd
      case DoPreedit(t, _, to, _) => if t == s then Some(before.value.(preedit := Some(to))) else before
      case DoCommit(t, text, _, now) =>
        if t == s
        then Some(before.value.(committed := Some(text), preedit := Some(text), committedAt := Some(now))) else before
      case DoCancel(t, _, now) =>
        if t == s && before.value.committedAt.None? then Some(before.value.(cancelledAt := Some(now))) else before
      case DoAmend(t, _, corrected) =>
        if t == s then Some(before.value.(committed := Some(corrected), preedit := Some(corrected))) else before
      case _ => before
  }

  /** A command took effect: it succeeded, and it was neither a repetition nor an amendment of a text to itself. */
  predicate Took(db: Db, cmd: Cmd) {
    Exec(db, cmd).Done? &&
    match cmd
    case DoAmend(_, committed, corrected) => committed != corrected
    case DoPreedit(_, _, _, _) => Exec(db, cmd).db.log != db.log
    case DoCommit(_, _, _, _) => Exec(db, cmd).db.log != db.log
    case DoCancel(_, _, _) => Exec(db, cmd).db.log != db.log
    case _ => true
  }

  function Story(cmds: seq<Cmd>, s: string): Option<Told> {
    if cmds == [] then None
    else
      var init, cmd := cmds[..|cmds| - 1], cmds[|cmds| - 1];
      Tell(Story(init, s), cmd, s, Took(Run(EMPTY, init), cmd))
  }

  function Columns(row: Session): Told {
    Told(row.raw, row.createdAt, row.committedAt, row.cancelledAt, row.committedText, row.finalPreedit)
  }

  /** The times of a session tell its state. */
  predicate Dated(sessions: map<string, Session>) {
    forall s :: s in sessions ==>
      sessions[s].state == if sessions[s].committedAt.Some? then Committed
                           else if sessions[s].cancelledAt.Some? then Cancelled else Created
  }

  /** One command moves the columns of every session as it is told. */
  lemma StepTells(db: Db, cmd: Cmd, s: string, after: Db)
    requires Dated(db.sessions) && after == After(db, Exec(db, cmd)) && s in after.sessions
    ensures Tell(if s in db.sessions then Some(Columns(db.sessions[s])) else None, cmd, s, Took(db, cmd))
            == Some(Columns(after.sessions[s]))
    ensures s !in db.sessions ==> cmd.DoCreate? && cmd.s == s && Took(db, cmd)
  {
    if cmd.DoCreate? {
      CreateTells(db, cmd, s, after);
    } else if cmd.DoPreedit? || cmd.DoCommit? || cmd.DoCancel? || cmd.DoAmend? {
      SessionCommandTells(db, cmd, s, after);
    } else {
      RestTells(db, cmd, s, after);
    }
  }

  lemma CreateTells(db: Db, cmd: Cmd, s: string, after: Db)
    requires cmd.DoCreate? && after == After(db, CreateSession(db, cmd.s, cmd.raw, cmd.now)) && s in after.sessions
    ensures Tell(if s in db.sessions then Some(Columns(db.sessions[s])) else None, cmd, s, Took(db, cmd))
            == Some(Columns(after.sessions[s]))
    ensures s !in db.sessions ==> cmd.s == s && Took(db, cmd)
  {
  }

  lemma SessionCommandTells(db: Db, cmd: Cmd, s: string, after: Db)
    requires cmd.DoPreedit? || cmd.DoCommit? || cmd.DoCancel? || cmd.DoAmend?
    requires Dated(db.sessions) && after == After(db, Exec(db, cmd)) && s in after.sessions
    ensures s in db.sessions &&
            Tell(Some(Columns(db.sessions[s])), cmd, s, Took(db, cmd)) == Some(Columns(after.sessions[s]))
  {
    match cmd
    case DoPreedit(t, from, to, index) => PreeditTells(db, t, from, to, index, s);
    case DoCommit(t, text, key, now) => CommitTells(db, t, text, key, now, s);
    case DoCancel(t, key, now) => CancelTells(db, t, key, now, s);
    case DoAmend(t, from, to) => AmendTells(db, t, from, to, s);
  }

  /** The columns `told` of a session, if it is there. */
  predicate Says(sessions: map<string, Session>, s: string, told: Told) {
    s in sessions && Columns(sessions[s]) == told
  }

  lemma PreeditTells(db: Db, t: string, from: string, to: string, index: nat, s: string)
    requires s in After(db, RecordPreedit(db, t, from, to, index)).sessions
    ensures s in db.sessions
    ensures var reply, told := RecordPreedit(db, t, from, to, index), Columns(db.sessions[s]);
            if reply.Done? && reply.db.log != db.log && t == s
            then Says(reply.db.sessions, s, told.(preedit := Some(to))) else Says(After(db, reply).sessions, s, told)
  {
  }

  lemma CommitTells(db: Db, t: string, text: string, key: string, now: nat, s: string)
    requires s in After(db, CommitSession(db, t, text, key, now)).sessions
    ensures s in db.sessions
    ensures var reply, told := CommitSession(db, t, text, key, now), Columns(db.sessions[s]);
            if reply.Done? && reply.db.log != db.log && t == s
            then Says(reply.db.sessions, s,
                      told.(committed := Some(text), preedit := Some(text), committedAt := Some(now)))
            else Says(After(db, reply).sessions, s, told)
  {
    var reply := CommitSession(db, t, text, key, now);
    assert reply.Done? && reply.db.log != db.log ==> reply.db == CommittedAs(db, t, text, key, now);
    assert reply.Done? && reply.db.log == db.log ==> reply.db == db;
  }

  lemma CancelTells(db: Db, t: string, key: string, now: nat, s: string)
    requires Dated(db.sessions) && s in After(db, CancelSession(db, t, key, now)).sessions
    ensures s in db.sessions
    ensures var reply, told := CancelSession(db, t, key, now), Columns(db.sessions[s]);
            if reply.Done? && reply.db.log != db.log && t == s && told.committedAt.None?
            then Says(reply.db.sessions, s, told.(cancelledAt := Some(now)))
            else Says(After(db, reply).sessions, s, told)
  {
  }

  lemma AmendTells(db: Db, t: string, from: string, to: string, s: string)
    requires s in After(db, AmendCorrection(db, t, from, to)).sessions
    ensures s in db.sessions
    ensures var reply, told := AmendCorrection(db, t, from, to), Columns(db.sessions[s]);
            if reply.Done? && from != to && t == s
            then Says(reply.db.sessions, s, told.(committed := Some(to), preedit := Some(to)))
            else Says(After(db, reply).sessions, s, told)
  {
  }

  lemma RestTells(db: Db, cmd: Cmd, s: string, after: Db)
    requires !cmd.DoCreate? && !cmd.DoPreedit? && !cmd.DoCommit? && !cmd.DoCancel? && !cmd.DoAmend?
    requires after == After(db, Exec(db, cmd)) && s in after.sessions
    ensures s in db.sessions && after.sessions[s] == db.sessions[s]
  {
  }

  lemma DatesStay(db: Db, cmd: Cmd, after: Db)
    requires Dated(db.sessions) && after == After(db, Exec(db, cmd))
    ensures Dated(after.sessions)
  {
    if cmd.DoCommit? {
      CommitDates(db, cmd.session, cmd.text, cmd.key, cmd.now);
    } else if cmd.DoCreate? || cmd.DoPreedit? || cmd.DoCancel? || cmd.DoAmend? {
      OthersDate(db, cmd, after);
    } else {
      forall s | s in after.sessions ensures s in db.sessions && after.sessions[s] == db.sessions[s] {
        RestTells(db, cmd, s, after);
      }
    }
  }

  lemma CommitDates(db: Db, t: string, text: string, key: string, now: nat)
    requires Dated(db.sessions)
    ensures Dated(After(db, CommitSession(db, t, text, key, now)).sessions)
  {
  }

  lemma OthersDate(db: Db, cmd: Cmd, after: Db)
    requires cmd.DoCreate? || cmd.DoPreedit? || cmd.DoCancel? || cmd.DoAmend?
    requires Dated(db.sessions) && after == After(db, Exec(db, cmd))
    ensures Dated(after.sessions)
  {
  }

  lemma {:induction false} RunIsDated(cmds: seq<Cmd>)
    ensures Dated(Run(EMPTY, cmds).sessions)
  {
    if cmds != [] {
      var init := cmds[..|cmds| - 1];
      RunIsDated(init);
      DatesStay(Run(EMPTY, init), cmds[|cmds| - 1], Run(EMPTY, cmds));
    }
  }

  /** In every run, every session's transcript, times, committed text and preedit are those of the commands that made
      and changed it. */
  lemma {:induction false} SessionsTellTheRun(cmds: seq<Cmd>, s: string)
    requires s in Run(EMPTY, cmds).sessions
    ensures Story(cmds, s) == Some(Columns(Run(EMPTY, cmds).sessions[s]))
  {
    if cmds != [] {
      var init, cmd := cmds[..|cmds| - 1], cmds[|cmds| - 1];
      RunIsDated(init);
      StepTells(Run(EMPTY, init), cmd, s, Run(EMPTY, cmds));
      if s in Run(EMPTY, init).sessions { SessionsTellTheRun(init, s); }
    }
  }

  // ---------------------------------------------------------------- candidates

  /** The columns of a training candidate that a command decides. */
  datatype Kept = Kept(session: string, raw: string, text: string, source: Source, status: Status, key: string)

  function KeptIn(row: Candidate): Kept {
    Kept(row.session, row.raw, row.transcript, row.source, row.status, row.key)
  }

  /** What a command that took effect does to the candidate `id`. */
  function Retold(before: Kept, cmd: Cmd, id: nat): Kept {
    match cmd
    case DoAmend(s, _, text) =>
      if s == before.session then before.(text := text, source := AcceptedWithEdit) else before
    case DoRetranscribe(i, text) => if i == id then before.(raw := text, text := text) else before
    case DoMarkSynced(i) => if i == id then before.(status := Synced) else before
    case DoEvict(i) => if i == id then before.(status := Evicted) else before
    case DoReject(i) => if i == id then before.(status := Rejected) else before
    case _ => before
  }

  /** The candidate a commit makes of a session: accepted as heard, or with an edit. */
  function Born(told: Option<Told>, s: string, text: string, key: string): Option<Kept> {
    if told.None? || told.value.raw.None? then None
    else
      var raw := told.value.raw.value;
      Some(Kept(s, raw, text, if text == raw then AcceptedWithoutEdit else AcceptedWithEdit, Captured, key))
  }

  /** How many commits took effect: the candidates are numbered by them, from 1. */
  function Commits(cmds: seq<Cmd>): nat {
    if cmds == [] then 0
    else
      var init, cmd := cmds[..|cmds| - 1], cmds[|cmds| - 1];
      Commits(init) + if cmd.DoCommit? && Took(Run(EMPTY, init), cmd) then 1 else 0
  }

  function Candidacy(cmds: seq<Cmd>, id: nat): Option<Kept> {
    if cmds == [] then None
    else
      var init, cmd := cmds[..|cmds| - 1], cmds[|cmds| - 1];
      if !Took(Run(EMPTY, init), cmd) then Candidacy(init, id)
      else if cmd.DoCommit? && id == Commits(init) + 1 then
        Born(Story(init, cmd.session), cmd.session, cmd.text, cmd.key)
      else
        var before := Candidacy(init, id);
        if before.Some? then Some(Retold(before.value, cmd, id)) else None
  }

  /** The two text columns of a candidate are one. */
  predicate Twins(candidates: map<nat, Candidate>) {
    forall i :: i in candidates ==> candidates[i].corrected == candidates[i].transcript
  }

  predicate IsKept(candidates: map<nat, Candidate>, id: nat, kept: Kept) {
    id in candidates && KeptIn(candidates[id]) == kept
  }

  /** What one command does to the candidate `id`. */
  predicate Retells(db: Db, cmd: Cmd, id: nat, after: Db) {
    id in after.candidates ==>
      if id in db.candidates
      then IsKept(after.candidates, id,
                  if Took(db, cmd) then Retold(KeptIn(db.candidates[id]), cmd, id) else KeptIn(db.candidates[id]))
      else cmd.DoCommit? && Took(db, cmd) && id == db.nextCandidate && cmd.session in db.sessions &&
           Some(KeptIn(after.candidates[id])) ==
           Born(Some(Columns(db.sessions[cmd.session])), cmd.session, cmd.text, cmd.key)
  }

  lemma StepRetells(db: Db, cmd: Cmd, id: nat, after: Db)
    requires Twins(db.candidates) && Counters(db) && after == After(db, Exec(db, cmd))
    ensures Retells(db, cmd, id, after)
    ensures after.nextCandidate == db.nextCandidate + if cmd.DoCommit? && Took(db, cmd) then 1 else 0
    ensures Twins(after.candidates)
  {
    if cmd.DoCommit? {
      CommitRetells(db, cmd.session, cmd.text, cmd.key, cmd.now, id);
    } else if cmd.DoAmend? {
      AmendRetells(db, cmd.session, cmd.committed, cmd.corrected, id);
    } else if cmd.DoRetranscribe? {
      RetranscribeRetells(db, cmd.id, cmd.text, id);
    } else if cmd.DoMarkSynced? || cmd.DoEvict? || cmd.DoReject? {
      StatusRetells(db, cmd, id, after);
    } else if cmd.DoPruneTraining? || cmd.DoDeleteUser? {
      DeletionRetells(db, cmd, id, after);
    } else {
      OthersLeave(db, cmd, after);
    }
  }

  lemma CommitRetells(db: Db, s: string, text: string, key: string, now: nat, id: nat)
    requires Twins(db.candidates) && Counters(db)
    ensures var cmd := DoCommit(s, text, key, now);
            var after := After(db, CommitSession(db, s, text, key, now));
            && Retells(db, cmd, id, after) && Twins(after.candidates)
            && after.nextCandidate == db.nextCandidate + if Took(db, cmd) then 1 else 0
  {
  }

  lemma AmendRetells(db: Db, s: string, from: string, to: string, id: nat)
    requires Twins(db.candidates)
    ensures var after := After(db, AmendCorrection(db, s, from, to));
            Retells(db, DoAmend(s, from, to), id, after) && Twins(after.candidates) &&
            after.nextCandidate == db.nextCandidate
  {
  }

  lemma RetranscribeRetells(db: Db, i: nat, text: string, id: nat)
    requires Twins(db.candidates)
    ensures var after := After(db, Retranscribe(db, i, text));
            Retells(db, DoRetranscribe(i, text), id, after) && Twins(after.candidates) &&
            after.nextCandidate == db.nextCandidate
  {
    var after := After(db, Retranscribe(db, i, text));
    if i in db.candidates {
      assert after.candidates == db.candidates[i := db.candidates[i].(raw := text, corrected := text,
                                                                      transcript := text)];
    }
  }

  lemma StatusRetells(db: Db, cmd: Cmd, id: nat, after: Db)
    requires (cmd.DoMarkSynced? || cmd.DoEvict? || cmd.DoReject?) && Twins(db.candidates)
    requires after == After(db, Exec(db, cmd))
    ensures Retells(db, cmd, id, after) && Twins(after.candidates) && after.nextCandidate == db.nextCandidate
  {
    var status := if cmd.DoMarkSynced? then Synced else if cmd.DoEvict? then Evicted else Rejected;
    assert after == db || after == WithStatus(db, cmd.id, status);
    assert after == db ==> !Took(db, cmd) || cmd.id !in db.candidates || after == WithStatus(db, cmd.id, status);
    if cmd.id in db.candidates { StatusMoves(db.candidates, cmd.id, db.candidates[cmd.id].(status := status)); }
  }

  lemma StatusMoves(candidates: map<nat, Candidate>, i: nat, row: Candidate)
    requires Twins(candidates) && i in candidates && row == candidates[i].(status := row.status)
    ensures Twins(candidates[i := row])
    ensures KeptIn(row) == KeptIn(candidates[i]).(status := row.status)
  {
  }

  lemma DeletionRetells(db: Db, cmd: Cmd, id: nat, after: Db)
    requires (cmd.DoPruneTraining? || cmd.DoDeleteUser?) && Twins(db.candidates)
    requires after == After(db, Exec(db, cmd))
    ensures Retells(db, cmd, id, after) && Twins(after.candidates) && after.nextCandidate == db.nextCandidate
  {
  }

  lemma OthersLeave(db: Db, cmd: Cmd, after: Db)
    requires !cmd.DoCommit? && !cmd.DoAmend? && !cmd.DoRetranscribe? && !cmd.DoMarkSynced? && !cmd.DoEvict?
    requires !cmd.DoReject? && !cmd.DoPruneTraining? && !cmd.DoDeleteUser? && after == After(db, Exec(db, cmd))
    ensures after.candidates == db.candidates && after.nextCandidate == db.nextCandidate
  {
  }

  /** In every run, every candidate is the one its commit made, numbered by the commits that took effect: its session,
      the text heard and the text accepted, whether it was edited, its key and its status are those of the commands. */
  lemma {:induction false} CandidatesTellTheRun(cmds: seq<Cmd>, id: nat)
    ensures Twins(Run(EMPTY, cmds).candidates) && Run(EMPTY, cmds).nextCandidate == Commits(cmds) + 1
    ensures id in Run(EMPTY, cmds).candidates ==> Candidacy(cmds, id) == Some(KeptIn(Run(EMPTY, cmds).candidates[id]))
  {
    if cmds != [] {
      var init, cmd := cmds[..|cmds| - 1], cmds[|cmds| - 1];
      var db := Run(EMPTY, init);
      CandidatesTellTheRun(init, id);
      EveryReachableStateIsValid(init);
      StepRetells(db, cmd, id, Run(EMPTY, cmds));
      if cmd.DoCommit? && cmd.session in db.sessions { SessionsTellTheRun(init, cmd.session); }
    }
  }

  // ---------------------------------------------------------------- recordings

  /** What the utterance of a session says of its recording: the text heard in it, and its digest. */
  datatype Taped = Taped(raw: Option<string>, digest: Option<string>)

  function TapedIn(row: Utterance): Taped { Taped(row.raw, row.digest) }

  /** What a command that took effect does to the recording of the session `s`; `owner` is the session of the candidate
      it names. */
  function Retaped(before: Option<Taped>, cmd: Cmd, s: string, owner: Option<string>): Option<Taped> {
    match cmd
    case DoCreate(t, raw, _) => if t == s then Some(Taped(raw, None)) else before
    case DoDigest(u, digest) =>
      if before.Some? && u == UtteranceKey(s) then Some(before.value.(digest := Some(digest))) else before
    case DoRetranscribe(_, text) =>
      if before.Some? && owner == Some(s) then Some(before.value.(raw := Some(text))) else before
    case _ => before
  }

  function Owner(kept: Option<Kept>): Option<string> { if kept.Some? then Some(kept.value.session) else None }

  function Tape(cmds: seq<Cmd>, s: string): Option<Taped> {
    if cmds == [] then None
    else
      var init, cmd := cmds[..|cmds| - 1], cmds[|cmds| - 1];
      if !Took(Run(EMPTY, init), cmd) then Tape(init, s)
      else Retaped(Tape(init, s), cmd, s, if cmd.DoRetranscribe? then Owner(Candidacy(init, cmd.id)) else None)
  }

  /** A transcribed session has a transcribed recording. */
  predicate Transcribed(sessions: map<string, Session>, utterances: map<string, Utterance>) {
    forall s :: s in sessions && sessions[s].raw.Some? ==>
      sessions[s].utterance in utterances && utterances[sessions[s].utterance].raw.Some?
  }

  predicate Named(sessions: map<string, Session>, utterances: map<string, Utterance>) {
    forall s :: s in sessions ==> sessions[s].utterance == UtteranceKey(s) && UtteranceKey(s) in utterances
  }

  lemma SoundIsNamed(db: Db)
    requires Sound(Done(db))
    ensures Named(db.sessions, db.utterances)
    ensures forall id :: id in db.candidates ==>
              db.candidates[id].utterance == UtteranceKey(db.candidates[id].session) &&
              db.candidates[id].utterance in db.utterances
  {
  }

  /** What one command does to the recording of the session `s`. */
  predicate Retapes(db: Db, cmd: Cmd, s: string, after: Db) {
    var u := UtteranceKey(s);
    s in after.sessions ==>
      var owner := if cmd.DoRetranscribe? && cmd.id in db.candidates then Some(db.candidates[cmd.id].session) else None;
      var before := if s in db.sessions && u in db.utterances then Some(TapedIn(db.utterances[u])) else None;
      u in after.utterances &&
      Some(TapedIn(after.utterances[u])) == if Took(db, cmd) then Retaped(before, cmd, s, owner) else before
  }

  lemma StepRetapes(db: Db, cmd: Cmd, s: string, after: Db)
    requires Sound(Done(db)) && Sound(Done(after)) && Transcribed(db.sessions, db.utterances)
    requires after == After(db, Exec(db, cmd))
    ensures Retapes(db, cmd, s, after)
    ensures Transcribed(after.sessions, after.utterances)
  {
    SoundIsNamed(db);
    if cmd.DoCreate? {
      CreateRetapes(db, cmd.s, cmd.raw, cmd.now, s);
    } else if cmd.DoCommit? {
      CommitLeavesTapes(db, cmd.session, cmd.text, cmd.key, cmd.now);
    } else if cmd.DoDigest? {
      DigestRetapes(db, cmd.utterance, cmd.digest, s);
    } else if cmd.DoRetranscribe? {
      RetranscribeRetapes(db, cmd.id, cmd.text, s);
    } else if cmd.DoPruneTraining? || cmd.DoDeleteUser? {
      DeletionShrinks(db, cmd, after);
      ShrinkingLeavesTapes(db, cmd, s, after);
    } else {
      OthersLeaveTapes(db, cmd, after);
    }
  }

  lemma CreateRetapes(db: Db, t: SessionId, raw: Option<string>, now: nat, s: string)
    requires Named(db.sessions, db.utterances) && Transcribed(db.sessions, db.utterances)
    ensures var after := After(db, CreateSession(db, t, raw, now));
            Retapes(db, DoCreate(t, raw, now), s, after) && Transcribed(after.sessions, after.utterances)
  {
  }

  lemma CommitLeavesTapes(db: Db, t: string, text: string, key: string, now: nat)
    requires Transcribed(db.sessions, db.utterances)
    ensures var after := After(db, CommitSession(db, t, text, key, now));
            && after.utterances == db.utterances && after.sessions.Keys == db.sessions.Keys
            && forall s :: s in db.sessions ==>
                 after.sessions[s].raw == db.sessions[s].raw && after.sessions[s].utterance == db.sessions[s].utterance
  {
  }

  lemma DigestRetapes(db: Db, u: string, digest: string, s: string)
    requires Named(db.sessions, db.utterances) && Transcribed(db.sessions, db.utterances)
    ensures var after := After(db, SetDigest(db, u, digest));
            Retapes(db, DoDigest(u, digest), s, after) && Transcribed(after.sessions, after.utterances)
  {
    if u in db.utterances { StampMoves(db.sessions, db.utterances, u, db.utterances[u].(digest := Some(digest))); }
  }

  lemma StampMoves(sessions: map<string, Session>, utterances: map<string, Utterance>, u: string, row: Utterance)
    requires Transcribed(sessions, utterances) && u in utterances && row == utterances[u].(digest := row.digest)
    ensures Transcribed(sessions, utterances[u := row])
    ensures TapedIn(row) == TapedIn(utterances[u]).(digest := row.digest)
  {
  }

  lemma RetranscribeRetapes(db: Db, id: nat, text: string, s: string)
    requires Named(db.sessions, db.utterances) && Transcribed(db.sessions, db.utterances)
    requires id in db.candidates ==>
               db.candidates[id].utterance == UtteranceKey(db.candidates[id].session) &&
               db.candidates[id].utterance in db.utterances
    ensures var after := After(db, Retranscribe(db, id, text));
            Retapes(db, DoRetranscribe(id, text), s, after) && Transcribed(after.sessions, after.utterances)
  {
    if id in db.candidates && UtteranceKey(s) == UtteranceKey(db.candidates[id].session) {
      UtteranceKeyInjective(s, db.candidates[id].session);
    }
  }

  lemma DeletionShrinks(db: Db, cmd: Cmd, after: Db)
    requires (cmd.DoPruneTraining? || cmd.DoDeleteUser?) && after == After(db, Exec(db, cmd))
    ensures forall s :: s in after.sessions ==> s in db.sessions && after.sessions[s] == db.sessions[s]
    ensures forall u :: u in after.utterances ==> u in db.utterances && after.utterances[u] == db.utterances[u]
  {
  }

  lemma ShrinkingLeavesTapes(db: Db, cmd: Cmd, s: string, after: Db)
    requires (cmd.DoPruneTraining? || cmd.DoDeleteUser?) && Transcribed(db.sessions, db.utterances)
    requires Sound(Done(after))
    requires forall t :: t in after.sessions ==> t in db.sessions && after.sessions[t] == db.sessions[t]
    requires forall u :: u in after.utterances ==> u in db.utterances && after.utterances[u] == db.utterances[u]
    ensures Retapes(db, cmd, s, after) && Transcribed(after.sessions, after.utterances)
  {
  }

  lemma OthersLeaveTapes(db: Db, cmd: Cmd, after: Db)
    requires !cmd.DoCreate? && !cmd.DoCommit? && !cmd.DoDigest? && !cmd.DoRetranscribe? && !cmd.DoPruneTraining?
    requires !cmd.DoDeleteUser? && after == After(db, Exec(db, cmd))
    ensures after.utterances == db.utterances && after.sessions.Keys == db.sessions.Keys
    ensures forall s :: s in db.sessions ==>
              after.sessions[s].raw == db.sessions[s].raw && after.sessions[s].utterance == db.sessions[s].utterance
  {
  }

  lemma ReachableIsSound(cmds: seq<Cmd>)
    ensures Sound(Done(Run(EMPTY, cmds)))
  {
    EveryReachableStateIsValid(cmds);
  }

  lemma TapeGoesOn(db: Db, cmd: Cmd, s: string, after: Db, before: Option<Taped>, kept: Option<Kept>)
    requires after == After(db, Exec(db, cmd)) && Retapes(db, cmd, s, after) && s in after.sessions
    requires s in db.sessions ==>
               UtteranceKey(s) in db.utterances && before == Some(TapedIn(db.utterances[UtteranceKey(s)]))
    requires cmd.DoRetranscribe? && cmd.id in db.candidates ==> kept == Some(KeptIn(db.candidates[cmd.id]))
    ensures var owner := if cmd.DoRetranscribe? then Owner(kept) else None;
            UtteranceKey(s) in after.utterances &&
            Some(TapedIn(after.utterances[UtteranceKey(s)])) ==
            if Took(db, cmd) then Retaped(before, cmd, s, owner) else before
  {
    if s !in db.sessions { OnlyCreatingAdds(db, cmd, s, after); }
  }

  lemma OnlyCreatingAdds(db: Db, cmd: Cmd, s: string, after: Db)
    requires after == After(db, Exec(db, cmd)) && s in after.sessions && s !in db.sessions
    ensures cmd.DoCreate? && cmd.s == s && Took(db, cmd)
  {
  }

  lemma NextTape(cmds: seq<Cmd>, init: seq<Cmd>, cmd: Cmd, s: string, db: Db, after: Db)
    requires cmds != [] && init == cmds[..|cmds| - 1] && cmd == cmds[|cmds| - 1]
    requires db == Run(EMPTY, init) && after == After(db, Exec(db, cmd)) && Sound(Done(db)) && Sound(Done(after))
    requires Transcribed(db.sessions, db.utterances)
    requires s in db.sessions ==>
               UtteranceKey(s) in db.utterances && Tape(init, s) == Some(TapedIn(db.utterances[UtteranceKey(s)]))
    ensures Transcribed(after.sessions, after.utterances)
    ensures s in after.sessions ==>
              UtteranceKey(s) in after.utterances && Tape(cmds, s) == Some(TapedIn(after.utterances[UtteranceKey(s)]))
  {
    StepRetapes(db, cmd, s, after);
    var kept := if cmd.DoRetranscribe? then Candidacy(init, cmd.id) else None;
    if cmd.DoRetranscribe? { CandidatesTellTheRun(init, cmd.id); }
    if s in after.sessions { TapeGoesOn(db, cmd, s, after, Tape(init, s), kept); }
  }

  /** In every run, the recording of every session says what the commands said of it: the text it was made with, or that
      of the last retranscription of one of its candidates, and the last digest stamped on it. */
  lemma {:induction false} RecordingsTellTheRun(cmds: seq<Cmd>, s: string)
    ensures Transcribed(Run(EMPTY, cmds).sessions, Run(EMPTY, cmds).utterances)
    ensures s in Run(EMPTY, cmds).sessions ==>
              var u := UtteranceKey(s);
              u in Run(EMPTY, cmds).utterances && Tape(cmds, s) == Some(TapedIn(Run(EMPTY, cmds).utterances[u]))
  {
    if cmds != [] {
      var init, cmd := cmds[..|cmds| - 1], cmds[|cmds| - 1];
      RecordingsTellTheRun(init, s);
      ReachableIsSound(init);
      ReachableIsSound(cmds);
      NextTape(cmds, init, cmd, s, Run(EMPTY, init), Run(EMPTY, cmds));
    }
  }

  // ---------------------------------------------------------------- history

  /** The entry a command that took effect adds to the history: the first commit of a session, or the cancellation of
      one that was neither committed nor cancelled. */
  function Noted(told: Option<Told>, cmd: Cmd): Option<HistoryRow> {
    if told.None? || told.value.committedAt.Some? then None
    else
      match cmd
      case DoCommit(s, text, _, now) => Some(HistoryRow(s, text, true, now))
      case DoCancel(s, _, now) => if told.value.cancelledAt.None? then Some(HistoryRow(s, "", false, now)) else None
      case _ => None
  }

  function NotedAfter(init: seq<Cmd>, cmd: Cmd): Option<HistoryRow> {
    if (cmd.DoCommit? || cmd.DoCancel?) && Took(Run(EMPTY, init), cmd) then Noted(Story(init, cmd.session), cmd)
    else None
  }

  /** How many entries the history was given: they are numbered in order, from 1. */
  function Notes(cmds: seq<Cmd>): nat {
    if cmds == [] then 0
    else
      var init := cmds[..|cmds| - 1];
      Notes(init) + if NotedAfter(init, cmds[|cmds| - 1]).Some? then 1 else 0
  }

  /** A correction reaches the committed entries of its session. */
  function Renoted(row: HistoryRow, cmd: Cmd): HistoryRow {
    if cmd.DoAmend? && row.committed && row.session == cmd.session && cmd.committed != cmd.corrected
    then row.(text := cmd.corrected) else row
  }

  function Note(cmds: seq<Cmd>, i: nat): Option<HistoryRow> {
    if cmds == [] then None
    else
      var init, cmd := cmds[..|cmds| - 1], cmds[|cmds| - 1];
      var noted, before := NotedAfter(init, cmd), Note(init, i);
      if noted.Some? && i == Notes(init) + 1 then noted
      else if before.Some? && Took(Run(EMPTY, init), cmd) then Some(Renoted(before.value, cmd)) else before
  }

  /** What one command does to the history entry `i`, the command's session reading `told`. */
  predicate Renotes(db: Db, cmd: Cmd, i: nat, told: Option<Told>, after: Db) {
    var noted := if Took(db, cmd) then Noted(told, cmd) else None;
    && after.nextHistory == db.nextHistory + (if noted.Some? then 1 else 0)
    && (i in after.history ==>
          if i in db.history
          then after.history[i] == if Took(db, cmd) then Renoted(db.history[i], cmd) else db.history[i]
          else i == db.nextHistory && noted == Some(after.history[i]))
  }

  /** The session a commit or a cancellation names, as it stands. */
  predicate Names(db: Db, cmd: Cmd, told: Option<Told>) {
    if cmd.DoCommit? || cmd.DoCancel? then
      cmd.session in db.sessions ==> told == Some(Columns(db.sessions[cmd.session]))
    else told == None
  }

  lemma StepRenotes(db: Db, cmd: Cmd, i: nat, told: Option<Told>, after: Db)
    requires Dated(db.sessions) && Counters(db) && after == After(db, Exec(db, cmd)) && Names(db, cmd, told)
    ensures Renotes(db, cmd, i, told, after)
  {
    if cmd.DoCommit? {
      CommitRenotes(db, cmd.session, cmd.text, cmd.key, cmd.now, i, told);
    } else if cmd.DoCancel? {
      CancelRenotes(db, cmd.session, cmd.key, cmd.now, i, told);
    } else if cmd.DoAmend? {
      AmendRenotes(db, cmd.session, cmd.committed, cmd.corrected, i);
    } else {
      OthersLeaveNotes(db, cmd, i, after);
    }
  }

  lemma CommitRenotes(db: Db, s: string, text: string, key: string, now: nat, i: nat, told: Option<Told>)
    requires Dated(db.sessions) && Counters(db) && Names(db, DoCommit(s, text, key, now), told)
    ensures Renotes(db, DoCommit(s, text, key, now), i, told, After(db, CommitSession(db, s, text, key, now)))
  {
  }

  lemma CancelRenotes(db: Db, s: string, key: string, now: nat, i: nat, told: Option<Told>)
    requires Dated(db.sessions) && Counters(db) && Names(db, DoCancel(s, key, now), told)
    ensures Renotes(db, DoCancel(s, key, now), i, told, After(db, CancelSession(db, s, key, now)))
  {
  }

  lemma AmendRenotes(db: Db, s: string, from: string, to: string, i: nat)
    ensures Renotes(db, DoAmend(s, from, to), i, None, After(db, AmendCorrection(db, s, from, to)))
  {
  }

  lemma OthersLeaveNotes(db: Db, cmd: Cmd, i: nat, after: Db)
    requires !cmd.DoCommit? && !cmd.DoCancel? && !cmd.DoAmend? && after == After(db, Exec(db, cmd))
    ensures after.nextHistory == db.nextHistory
    ensures i in after.history ==> i in db.history && after.history[i] == db.history[i]
  {
    if cmd.DoPruneTraining? {
      assert after == DropSessions(db, Expired(db, cmd.cutoff));
    } else if cmd.DoDeleteUser? {
      DeletingLeavesNotes(db, cmd.user, i);
    } else {
      RestLeavesNotes(db, cmd, after);
    }
  }

  lemma DeletingLeavesNotes(db: Db, user: string, i: nat)
    ensures var after := After(db, DeleteUser(db, user));
            && after.nextHistory == db.nextHistory
            && (i in after.history ==> i in db.history && after.history[i] == db.history[i])
  {
  }

  lemma RestLeavesNotes(db: Db, cmd: Cmd, after: Db)
    requires !cmd.DoCommit? && !cmd.DoCancel? && !cmd.DoAmend? && !cmd.DoPruneTraining? && !cmd.DoDeleteUser?
    requires after == After(db, Exec(db, cmd))
    ensures after.nextHistory == db.nextHistory
    ensures forall i :: i in after.history ==> i in db.history && after.history[i] == db.history[i]
  {
  }

  lemma NextNote(cmds: seq<Cmd>, init: seq<Cmd>, cmd: Cmd, i: nat, db: Db, after: Db)
    requires cmds != [] && init == cmds[..|cmds| - 1] && cmd == cmds[|cmds| - 1]
    requires db == Run(EMPTY, init) && after == After(db, Exec(db, cmd))
    requires Dated(db.sessions) && Counters(db) && db.nextHistory == Notes(init) + 1
    requires i in db.history ==> Note(init, i) == Some(db.history[i])
    ensures after.nextHistory == Notes(cmds) + 1
    ensures i in after.history ==> Note(cmds, i) == Some(after.history[i])
  {
    var told := if cmd.DoCommit? || cmd.DoCancel? then Story(init, cmd.session) else None;
    if (cmd.DoCommit? || cmd.DoCancel?) && cmd.session in db.sessions { SessionsTellTheRun(init, cmd.session); }
    StepRenotes(db, cmd, i, told, after);
    NotedIs(init, cmd, told);
  }

  lemma NotedIs(init: seq<Cmd>, cmd: Cmd, told: Option<Told>)
    requires told == if cmd.DoCommit? || cmd.DoCancel? then Story(init, cmd.session) else None
    ensures NotedAfter(init, cmd) == if Took(Run(EMPTY, init), cmd) then Noted(told, cmd) else None
  {
  }

  lemma DatedCounters(cmds: seq<Cmd>)
    ensures Dated(Run(EMPTY, cmds).sessions) && Counters(Run(EMPTY, cmds))
  {
    RunIsDated(cmds);
    EveryReachableStateIsValid(cmds);
  }

  /** In every run, every history entry is the one its command made, numbered in the order they were made, with the text
      of the last correction of its session, if it is a committed one. */
  lemma {:induction false} HistoryTellsTheRun(cmds: seq<Cmd>, i: nat)
    ensures Run(EMPTY, cmds).nextHistory == Notes(cmds) + 1
    ensures i in Run(EMPTY, cmds).history ==> Note(cmds, i) == Some(Run(EMPTY, cmds).history[i])
  {
    if cmds != [] {
      var init := cmds[..|cmds| - 1];
      HistoryTellsTheRun(init, i);
      DatedCounters(init);
      NextNote(cmds, init, cmds[|cmds| - 1], i, Run(EMPTY, init), Run(EMPTY, cmds));
    }
  }

  /** A deleted entry stays deleted: its number is never given to another one. */
  lemma {:induction false} DeletedEntryStaysDeleted(db: Db, i: nat, later: seq<Cmd>)
    requires i in db.history && Counters(db) && DeleteHistory(db, i).Done?
    ensures var start := DeleteHistory(db, i).db;
            i !in Run(start, later).history && i < Run(start, later).nextHistory
  {
    var start := DeleteHistory(db, i).db;
    if later != [] {
      DeletedEntryStaysDeleted(db, i, later[..|later| - 1]);
      EntryStaysGone(Run(start, later[..|later| - 1]), i, later[|later| - 1]);
    }
  }

  lemma EntryStaysGone(db: Db, i: nat, cmd: Cmd)
    requires i !in db.history && i < db.nextHistory
    ensures var after := After(db, Exec(db, cmd)); i !in after.history && i < after.nextHistory
  {
  }

  // ---------------------------------------------------------------- corrections and settings

  lemma NextIndexIsAbove(edits: map<(string, nat), Edit>, s: string)
    ensures forall k :: k in edits && k.0 == s ==> k.1 < NextEditIndex(edits, s)
  {
    var indices := set k | k in edits && k.0 == s :: k.1;
    assert NextEditIndex(edits, s) == MaxOrZero(indices) + 1;
    forall k | k in edits && k.0 == s ensures k.1 <= MaxOrZero(indices) { assert k.1 in indices; }
  }

  /** One row is new, numbered `n`, above every edit of its session. */
  predicate Files(edits: map<(string, nat), Edit>, after: map<(string, nat), Edit>, s: string, n: nat, row: Edit) {
    n > 0 && (forall k :: k in edits && k.0 == s ==> k.1 < n) && after == edits[(s, n) := row]
  }

  /** A correction that took effect files one row, from what was committed to what it became, under a number above every
      edit of that session, and touches no other row. */
  lemma CorrectionIsFiled(db: Db, s: string, committed: string, corrected: string, after: Db)
    requires Took(db, DoAmend(s, committed, corrected))
    requires after == After(db, AmendCorrection(db, s, committed, corrected))
    ensures exists n: nat :: Files(db.edits, after.edits, s, n, Edit(PostCommitCorrection, committed, corrected))
  {
    var n := NextEditIndex(db.edits, s);
    NextIndexIsAbove(db.edits, s);
    assert Files(db.edits, after.edits, s, n, Edit(PostCommitCorrection, committed, corrected));
  }

  /** The last value given to a setting, or what the store starts with. */
  function Setting(cmds: seq<Cmd>, name: string): Option<string> {
    if cmds == [] then
      if name == "retention_days" then Some("1") else if name == "max_entries" then Some("10") else None
    else
      var init, cmd := cmds[..|cmds| - 1], cmds[|cmds| - 1];
      if cmd.DoTray? && cmd.name == name && Took(Run(EMPTY, init), cmd) then Some(cmd.value) else Setting(init, name)
  }

  /** In every run, a setting reads back as it was last written. */
  lemma {:induction false} SettingsReadBack(cmds: seq<Cmd>, name: string)
    ensures var tray := Run(EMPTY, cmds).tray;
            Setting(cmds, name) == if name in tray then Some(tray[name]) else None
  {
    if cmds != [] {
      var init, cmd := cmds[..|cmds| - 1], cmds[|cmds| - 1];
      SettingsReadBack(init, name);
      if cmd.DoTray? {
        TrayWrites(Run(EMPTY, init), cmd.name, cmd.value);
      } else {
        OthersLeaveTray(Run(EMPTY, init), cmd);
      }
    }
  }

  lemma TrayWrites(db: Db, name: string, value: string)
    ensures var reply := SetTraySetting(db, name, value);
            After(db, reply).tray == if reply.Done? then db.tray[name := value] else db.tray
  {
  }

  lemma OthersLeaveTray(db: Db, cmd: Cmd)
    requires !cmd.DoTray?
    ensures After(db, Exec(db, cmd)).tray == db.tray
  {
  }

  // ---------------------------------------------------------------- audio files and manifest items

  lemma StepKeepsAudioRows(db: Db, cmd: Cmd, after: Db)
    requires db.audioFiles == db.utterances.Keys && after == After(db, Exec(db, cmd))
    ensures after.audioFiles == after.utterances.Keys
  {
  }

  /** In every run, every utterance has its audio row and every audio row its utterance. */
  lemma {:induction false} EveryUtteranceHasItsAudioRow(cmds: seq<Cmd>)
    ensures Run(EMPTY, cmds).audioFiles == Run(EMPTY, cmds).utterances.Keys
  {
    if cmds != [] {
      var init := cmds[..|cmds| - 1];
      EveryUtteranceHasItsAudioRow(init);
      StepKeepsAudioRows(Run(EMPTY, init), cmds[|cmds| - 1], Run(EMPTY, cmds));
    }
  }

  /** How many items went into manifests: they are numbered in order, from 1. */
  function Listed(cmds: seq<Cmd>): nat {
    if cmds == [] then 0
    else
      var init, cmd := cmds[..|cmds| - 1], cmds[|cmds| - 1];
      Listed(init) + if cmd.DoManifestItem? && Took(Run(EMPTY, init), cmd) then 1 else 0
  }

  function ItemMade(cmds: seq<Cmd>, i: nat): Option<ManifestItem> {
    if cmds == [] then None
    else
      var init, cmd := cmds[..|cmds| - 1], cmds[|cmds| - 1];
      if cmd.DoManifestItem? && Took(Run(EMPTY, init), cmd) && i == Listed(init) + 1
      then Some(ManifestItem(cmd.manifest, cmd.user, cmd.id)) else ItemMade(init, i)
  }

  lemma StepLists(db: Db, cmd: Cmd, i: nat, after: Db)
    requires Counters(db) && after == After(db, Exec(db, cmd))
    ensures after.nextItem == db.nextItem + if cmd.DoManifestItem? && Took(db, cmd) then 1 else 0
    ensures i in after.items ==>
              if i in db.items then after.items[i] == db.items[i]
              else cmd.DoManifestItem? && Took(db, cmd) && i == db.nextItem &&
                   after.items[i] == ManifestItem(cmd.manifest, cmd.user, cmd.id)
  {
    if cmd.DoManifestItem? {
      ItemLists(db, cmd.manifest, cmd.user, cmd.id, i);
    } else {
      OthersListNothing(db, cmd, i, after);
    }
  }

  lemma ItemLists(db: Db, manifest: string, user: string, id: nat, i: nat)
    requires Counters(db)
    ensures var reply := InsertManifestItem(db, manifest, user, id);
            && After(db, reply).nextItem == db.nextItem + (if reply.Done? then 1 else 0)
            && (i in After(db, reply).items ==>
                  if i in db.items then After(db, reply).items[i] == db.items[i]
                  else reply.Done? && i == db.nextItem &&
                       After(db, reply).items[i] == ManifestItem(manifest, user, id))
  {
  }

  lemma OthersListNothing(db: Db, cmd: Cmd, i: nat, after: Db)
    requires !cmd.DoManifestItem? && after == After(db, Exec(db, cmd))
    ensures after.nextItem == db.nextItem && (i in after.items ==> i in db.items && after.items[i] == db.items[i])
  {
    if cmd.DoPruneTraining? {
      assert after == DropSessions(db, Expired(db, cmd.cutoff));
    } else if cmd.DoDeleteUser? {
      DeletingListsNothing(db, cmd.user, i);
    } else {
      RestListsNothing(db, cmd, after);
    }
  }

  lemma DeletingListsNothing(db: Db, user: string, i: nat)
    ensures var after := After(db, DeleteUser(db, user));
            after.nextItem == db.nextItem && (i in after.items ==> i in db.items && after.items[i] == db.items[i])
  {
  }

  lemma RestListsNothing(db: Db, cmd: Cmd, after: Db)
    requires !cmd.DoManifestItem? && !cmd.DoPruneTraining? && !cmd.DoDeleteUser? && after == After(db, Exec(db, cmd))
    ensures after.nextItem == db.nextItem && after.items == db.items
  {
  }

  /** In every run, every manifest item is the one its command listed, numbered in order. */
  lemma {:induction false} ItemsTellTheRun(cmds: seq<Cmd>, i: nat)
    ensures Run(EMPTY, cmds).nextItem == Listed(cmds) + 1
    ensures i in Run(EMPTY, cmds).items ==> ItemMade(cmds, i) == Some(Run(EMPTY, cmds).items[i])
  {
    if cmds != [] {
      var init := cmds[..|cmds| - 1];
      ItemsTellTheRun(init, i);
      DatedCounters(init);
      StepLists(Run(EMPTY, init), cmds[|cmds| - 1], i, Run(EMPTY, cmds));
    }
  }

  // ---------------------------------------------------------------- the audit trail

  /** The event is the one this command writes. */
  predicate Writes(cmd: Cmd, e: Event) {
    match cmd
    case DoCreate(s, raw, _) =>
      e.kind == SessionCreated && e.aggregate == s && e.payload == (if raw.Some? then raw.value else "") &&
      e.key == "session-created:" + s
    case DoPreedit(s, from, to, index) =>
      e.kind == PreeditCorrected && e.aggregate == s && e.payload == from + "->" + to + ":" + Dec(index) &&
      e.key == "preedit:" + s + ":" + Dec(index)
    case DoCommit(s, text, key, _) =>
      e.kind == SessionCommitted && e.aggregate == s && e.payload == text && e.key == key
    case DoCancel(s, key, _) =>
      e.kind == SessionCancelled && e.aggregate == s && e.payload == "cancelled" && e.key == key
    case DoDeleteUser(user) => e.kind == UserDataDeleted && e.aggregate == user && e.payload == user
    case DoPruneHistory(_) => e.kind == HistoryPruned && e.aggregate == "history"
    case DoDeleteHistory(id) =>
      e.kind == HistoryEntryDeleted && e.aggregate == Dec(id) && e.payload == Dec(id) &&
      e.key == "history-deleted:" + Dec(id)
    case DoTray(name, value) => e.kind == TrayConfigChanged && e.aggregate == name && e.payload == value
    case _ => false
  }

  /** Every event of the new log is old, or is the one the command wrote. */
  predicate OnlyWrites(log: seq<Event>, cmd: Cmd, after: seq<Event>) {
    forall e :: e in after ==> e in log || Writes(cmd, e)
  }

  lemma StepWrites(db: Db, cmd: Cmd, after: Db)
    requires after == After(db, Exec(db, cmd))
    ensures OnlyWrites(db.log, cmd, after.log)
  {
    if cmd.DoCreate? || cmd.DoPreedit? || cmd.DoCommit? || cmd.DoCancel? {
      SessionWrites(db, cmd, after);
    } else {
      StoreWrites(db, cmd, after);
    }
  }

  lemma SessionWrites(db: Db, cmd: Cmd, after: Db)
    requires (cmd.DoCreate? || cmd.DoPreedit? || cmd.DoCommit? || cmd.DoCancel?) && after == After(db, Exec(db, cmd))
    ensures OnlyWrites(db.log, cmd, after.log)
  {
  }

  lemma StoreWrites(db: Db, cmd: Cmd, after: Db)
    requires !cmd.DoCreate? && !cmd.DoPreedit? && !cmd.DoCommit? && !cmd.DoCancel? && after == After(db, Exec(db, cmd))
    ensures OnlyWrites(db.log, cmd, after.log)
  {
  }

  /** In every run, every event of the log was written by one of its commands, and says what that command did. */
  lemma {:induction false} EveryEventIsACommand(cmds: seq<Cmd>, e: Event)
    requires e in Run(EMPTY, cmds).log
    ensures exists n :: 0 <= n < |cmds| && Writes(cmds[n], e)
  {
    if cmds != [] {
      var init, cmd := cmds[..|cmds| - 1], cmds[|cmds| - 1];
      StepWrites(Run(EMPTY, init), cmd, Run(EMPTY, cmds));
      if e in Run(EMPTY, init).log {
        EveryEventIsACommand(init, e);
        var n :| 0 <= n < |init| && Writes(init[n], e);
        assert Writes(cmds[n], e);
      } else {
        assert Writes(cmds[|cmds| - 1], e);
      }
    }
  }
}
