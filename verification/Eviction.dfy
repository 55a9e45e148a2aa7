/** The storage cap: how many of the oldest captured recordings go, and what is left. */
module Eviction {
  import opened Basics
  import opened Tables
  import opened StoreInvariant
  import opened AudioStore
  import StoreLaws

  // ---------------------------------------------------------------- the count

  function SaturatingAdd(a: nat, b: nat): nat { Min(a + b, U64_MAX) }
  function SaturatingSub(a: nat, b: nat): nat { if a >= b then a - b else 0 }

  function SumFrom(sizes: seq<nat>, i: nat): nat
    requires i <= |sizes|
    decreases |sizes| - i
  {
    if i == |sizes| then 0 else sizes[i] + SumFrom(sizes, i + 1)
  }

  function Sum(sizes: seq<nat>): nat { SumFrom(sizes, 0) }

  /** The 64-bit running total of the sizing loop. */
  function Total(sizes: seq<nat>): nat {
    if sizes == [] then 0 else SaturatingAdd(Total(sizes[..|sizes| - 1]), sizes[|sizes| - 1])
  }

  lemma {:induction false} SumAppend(sizes: seq<nat>, size: nat, i: nat)
    requires i <= |sizes|
    ensures SumFrom(sizes + [size], i) == SumFrom(sizes, i) + size
    decreases |sizes| - i
  {
    if i < |sizes| { SumAppend(sizes, size, i + 1); }
  }

  lemma {:induction false} SumSlice(sizes: seq<nat>, k: nat, i: nat)
    requires k + i <= |sizes|
    ensures SumFrom(sizes[k..], i) == SumFrom(sizes, k + i)
    decreases |sizes| - k - i
  {
    if k + i < |sizes| { SumSlice(sizes, k, i + 1); }
  }

  lemma {:induction false} TotalIsCappedSum(sizes: seq<nat>)
    ensures Total(sizes) == Min(Sum(sizes), U64_MAX)
  {
    if sizes != [] {
      var init, last := sizes[..|sizes| - 1], sizes[|sizes| - 1];
      TotalIsCappedSum(init);
      SumAppend(init, last, 0);
      assert sizes == init + [last];
    }
  }

  /** The evicting loop from recording `i` on: how many more it takes, given the running total. */
  function EvictFrom(sizes: seq<nat>, i: nat, total: nat, cap: nat): (k: nat)
    requires i <= |sizes|
    ensures i + k <= |sizes|
    decreases |sizes| - i
  {
    if i == |sizes| || total <= cap then 0 else 1 + EvictFrom(sizes, i + 1, SaturatingSub(total, sizes[i]), cap)
  }

  function EvictCount(sizes: seq<nat>, total: nat, cap: nat): (k: nat)
    ensures k <= |sizes|
  {
    EvictFrom(sizes, 0, total, cap)
  }

  /** `k` is the least number of leading recordings whose removal fits the rest under the cap. */
  predicate LeastFit(sizes: seq<nat>, cap: nat, k: nat) {
    && k <= |sizes| && SumFrom(sizes, k) <= cap
    && forall j :: 0 <= j < k ==> SumFrom(sizes, j) > cap
  }

  lemma {:induction false} ExactFrom(sizes: seq<nat>, i: nat, cap: nat)
    requires i <= |sizes|
    ensures var k := i + EvictFrom(sizes, i, SumFrom(sizes, i), cap);
            SumFrom(sizes, k) <= cap && forall j :: i <= j < k ==> SumFrom(sizes, j) > cap
    decreases |sizes| - i
  {
    if i < |sizes| { ExactFrom(sizes, i + 1, cap); }
  }

  lemma ExactCount(sizes: seq<nat>, cap: nat)
    ensures LeastFit(sizes, cap, EvictCount(sizes, Sum(sizes), cap))
  {
    ExactFrom(sizes, 0, cap);
  }

  /** The loop evicts the least oldest-first prefix, under every cap, exactly when the sizes add up without reaching
      past 64 bits: past them the saturated total can hide that the cap is exceeded. */
  lemma EvictsLeastPrefixIff(sizes: seq<nat>)
    ensures Sum(sizes) <= U64_MAX <==>
            forall cap :: 0 <= cap <= U64_MAX ==> LeastFit(sizes, cap, EvictCount(sizes, Total(sizes), cap))
  {
    TotalIsCappedSum(sizes);
    forall cap | 0 <= cap <= U64_MAX && Sum(sizes) <= U64_MAX
      ensures LeastFit(sizes, cap, EvictCount(sizes, Total(sizes), cap))
    {
      ExactCount(sizes, cap);
    }
    if Sum(sizes) > U64_MAX {
      assert EvictCount(sizes, Total(sizes), U64_MAX) == 0;
      assert !LeastFit(sizes, U64_MAX, 0);
    }
  }

  // ---------------------------------------------------------------- the state it leaves

  function Sizes(files: map<string, Bytes>, outbox: seq<Learning>): seq<nat> {
    seq(|outbox|, i requires 0 <= i < |outbox| => SizeOf(files, outbox[i].audioKey))
  }

  function Flip(db: Db, gone: seq<Learning>): Db {
    if gone == [] then db else WithStatus(Flip(db, gone[..|gone| - 1]), gone[|gone| - 1].candidate, Evicted)
  }

  function Keys(gone: seq<Learning>): set<string> {
    set l | l in gone :: l.audioKey
  }

  /** Every captured row of the user, whether or not the outbox still shows it. */
  function CapturedRows(db: Db, user: string): seq<Learning> { OutboxUpTo(db, user, db.nextCandidate) }

  function HowMany(db: Db, files: map<string, Bytes>, user: string, cap: nat): (k: nat)
    ensures k <= |Outbox(db, user)|
  {
    var sizes := Sizes(files, Outbox(db, user));
    EvictCount(sizes, Total(sizes), cap)
  }

  lemma {:induction false} OutboxRows(db: Db, user: string, n: nat)
    ensures forall l :: l in OutboxUpTo(db, user, n) ==>
              l.candidate < n && InOutbox(db, user, l.candidate) && l == ToLearning(db, l.candidate)
  {
    if n > 0 { OutboxRows(db, user, n - 1); }
  }

  predicate Lists(o: seq<Learning>, id: nat) {
    exists i :: 0 <= i < |o| && o[i].candidate == id
  }

  /** What ships of a candidate: the text as heard, the text as it stands now, and the recording. */
  predicate Ships(db: Db, user: string, l: Learning) {
    && l.candidate in db.candidates
    && var c := db.candidates[l.candidate];
       && c.status == Captured && c.session in db.sessions && db.sessions[c.session].user == user
       && c.utterance in db.utterances
       && var u := db.utterances[c.utterance];
          && l.user == user && l.session == c.session && l.utterance == c.utterance
          && (u.raw.Some? ==> l.raw == u.raw.value) && (u.raw.None? ==> l.raw == c.raw)
          && l.corrected == c.transcript && l.source == c.source
          && l.audioKey == u.audioPath
          && (u.digest.Some? ==> l.digest == u.digest.value) && (u.digest.None? ==> l.digest == "")
  }

  lemma OutboxShips(db: Db, user: string)
    ensures forall l :: l in Outbox(db, user) ==> Ships(db, user, l)
  {
    OutboxRows(db, user, db.nextCandidate);
  }

  /** Every outbox entry carries its row's texts the right way round, its source and its recording; and the entries are
      exactly the user's captured candidates, unless the user was deleted. */
  lemma OutboxSays(db: Db, user: string)
    requires Counters(db)
    ensures forall l :: l in Outbox(db, user) ==> Ships(db, user, l)
    ensures UserWasDeleted(db.log, user) ==> Outbox(db, user) == []
    ensures !UserWasDeleted(db.log, user) ==>
              forall i :: (i in db.candidates && db.candidates[i].status == Captured &&
                           db.candidates[i].session in db.sessions &&
                           db.sessions[db.candidates[i].session].user == user &&
                           db.candidates[i].utterance in db.utterances) ==> Lists(Outbox(db, user), i)
  {
    OutboxShips(db, user);
    forall i | InOutbox(db, user, i) && !UserWasDeleted(db.log, user) ensures Lists(Outbox(db, user), i) {
      OutboxListsAll(db, user, db.nextCandidate, i);
    }
  }

  predicate Ascending(o: seq<Learning>) {
    forall i, j :: 0 <= i < j < |o| ==> o[i].candidate < o[j].candidate
  }

  lemma {:induction false} OutboxOrder(db: Db, user: string, n: nat)
    ensures Ascending(OutboxUpTo(db, user, n))
  {
    if n > 0 {
      OutboxOrder(db, user, n - 1);
      OutboxRows(db, user, n - 1);
      var prior := OutboxUpTo(db, user, n - 1);
      forall i | 0 <= i < |prior| ensures prior[i].candidate < n - 1 { assert prior[i] in prior; }
    }
  }

  lemma {:induction false} OutboxListsAll(db: Db, user: string, n: nat, id: nat)
    requires id < n && InOutbox(db, user, id)
    ensures Lists(OutboxUpTo(db, user, n), id)
  {
    var o := OutboxUpTo(db, user, n);
    if id == n - 1 {
      assert o[|o| - 1].candidate == id;
    } else {
      OutboxListsAll(db, user, n - 1, id);
      var prior := OutboxUpTo(db, user, n - 1);
      var i :| 0 <= i < |prior| && prior[i].candidate == id;
      assert o[i] == prior[i];
    }
  }

  /** Flipping the first entry of the outbox takes it off the front. */
  lemma {:induction false} OutboxWithout(db: Db, user: string, id: nat, n: nat)
    requires InOutbox(db, user, id) && forall j: nat :: InOutbox(db, user, j) ==> id <= j
    ensures var o, left := OutboxUpTo(db, user, n), OutboxUpTo(WithStatus(db, id, Evicted), user, n);
            if n <= id then o == [] && left == [] else o != [] && o[0].candidate == id && left == o[1..]
  {
    if n > 0 {
      OutboxWithout(db, user, id, n - 1);
      var after := WithStatus(db, id, Evicted);
      if n - 1 != id {
        assert InOutbox(after, user, n - 1) <==> InOutbox(db, user, n - 1);
        assert InOutbox(db, user, n - 1) ==> ToLearning(after, n - 1) == ToLearning(db, n - 1);
      } else {
        assert OutboxUpTo(db, user, n) == [ToLearning(db, id)];
      }
    }
  }

  lemma FirstIsLeast(db: Db, user: string)
    requires Rows(db) && Outbox(db, user) != []
    ensures var id := Outbox(db, user)[0].candidate;
            InOutbox(db, user, id) && id < db.nextCandidate && forall j: nat :: InOutbox(db, user, j) ==> id <= j
  {
    var o := Outbox(db, user);
    OutboxOrder(db, user, db.nextCandidate);
    OutboxRows(db, user, db.nextCandidate);
    assert o[0] in o;
    forall j: nat | InOutbox(db, user, j) ensures o[0].candidate <= j {
      OutboxListsAll(db, user, db.nextCandidate, j);
      var i :| 0 <= i < |o| && o[i].candidate == j;
      assert i == 0 || o[0].candidate < o[i].candidate;
    }
  }

  lemma FrontFlip(db: Db, user: string)
    requires Valid(db) && Outbox(db, user) != []
    ensures var after := WithStatus(db, Outbox(db, user)[0].candidate, Evicted);
            Valid(after) && Outbox(after, user) == Outbox(db, user)[1..]
  {
    var id := Outbox(db, user)[0].candidate;
    FirstIsLeast(db, user);
    OutboxWithout(db, user, id, db.nextCandidate);
    StatusKeeps(db, id, Evicted);
  }

  lemma {:induction false} OutboxAfterFlip(db: Db, user: string, k: nat)
    requires Valid(db) && k <= |Outbox(db, user)|
    ensures Valid(Flip(db, Outbox(db, user)[..k]))
    ensures Outbox(Flip(db, Outbox(db, user)[..k]), user) == Outbox(db, user)[k..]
  {
    var o := Outbox(db, user);
    if k == 0 {
      assert o[..0] == [] && o[0..] == o;
    } else {
      OutboxAfterFlip(db, user, k - 1);
      var prior := Flip(db, o[..k - 1]);
      assert o[..k][..k - 1] == o[..k - 1] && o[..k][k - 1] == o[k - 1] && Outbox(prior, user)[0] == o[k - 1];
      FrontFlip(prior, user);
      assert o[k - 1..][1..] == o[k..];
      assert Flip(db, o[..k]) == WithStatus(prior, o[k - 1].candidate, Evicted);
    }
  }

  predicate DistinctAudio(outbox: seq<Learning>) {
    forall i, j :: 0 <= i < j < |outbox| ==> outbox[i].audioKey != outbox[j].audioKey
  }

  /** Every outbox entry names its own recording: the sized key is the deleted key. */
  predicate Addressable(o: seq<Learning>) {
    forall l :: l in o ==> IsObjectKey(l.audioKey) && SourceKey(l.user, l.utterance) == Ok(l.audioKey)
  }

  lemma ReachableOutboxIsAddressable(db: Db, user: string)
    requires Valid(db)
    ensures Addressable(Outbox(db, user))
  {
    OutboxRows(db, user, db.nextCandidate);
    forall l | l in Outbox(db, user)
      ensures IsObjectKey(l.audioKey) && SourceKey(l.user, l.utterance) == Ok(l.audioKey)
    {
      StoredPathIsSourceKey(l.session);
      PrintedKeysAreAccepted(l.user, l.utterance);
    }
  }

  /** Captured rows name distinct recordings exactly when no two of them are commits of one session. */
  lemma DistinctAudioIff(db: Db, user: string)
    requires Valid(db)
    ensures DistinctAudio(CapturedRows(db, user)) <==>
            forall i, j :: (InOutbox(db, user, i) && InOutbox(db, user, j) &&
                            db.candidates[i].session == db.candidates[j].session) ==> i == j
  {
    var o := CapturedRows(db, user);
    if DistinctAudio(o) {
      forall i, j | InOutbox(db, user, i) && InOutbox(db, user, j) &&
                    db.candidates[i].session == db.candidates[j].session
        ensures i == j
      {
        SharedAudio(db, user, i, j);
      }
    } else {
      var a, b :| 0 <= a < b < |o| && o[a].audioKey == o[b].audioKey;
      SharedSession(db, user, a, b);
    }
  }

  /** Two captured candidates of one session name one recording. */
  lemma SharedAudio(db: Db, user: string, i: nat, j: nat)
    requires Rows(db) && InOutbox(db, user, i) && InOutbox(db, user, j)
    requires db.candidates[i].session == db.candidates[j].session && DistinctAudio(CapturedRows(db, user))
    ensures i == j
  {
    var o := CapturedRows(db, user);
    OutboxListsAll(db, user, db.nextCandidate, i);
    OutboxListsAll(db, user, db.nextCandidate, j);
    OutboxRows(db, user, db.nextCandidate);
    var a :| 0 <= a < |o| && o[a].candidate == i;
    var b :| 0 <= b < |o| && o[b].candidate == j;
    assert o[a] in o && o[b] in o;
    assert !(a < b) && !(b < a);
  }

  lemma SharedSession(db: Db, user: string, a: nat, b: nat)
    requires Rows(db) && a < b < |CapturedRows(db, user)|
    requires CapturedRows(db, user)[a].audioKey == CapturedRows(db, user)[b].audioKey
    ensures var i, j := CapturedRows(db, user)[a].candidate, CapturedRows(db, user)[b].candidate;
            i < j && InOutbox(db, user, i) && InOutbox(db, user, j) &&
            db.candidates[i].session == db.candidates[j].session
  {
    var o := CapturedRows(db, user);
    OutboxRows(db, user, db.nextCandidate);
    OutboxOrder(db, user, db.nextCandidate);
    assert o[a] in o && o[b] in o;
    StoredPathIsSourceKey(o[a].session);
    StoredPathIsSourceKey(o[b].session);
    KeysAreInjective(DEFAULT_USER, o[a].utterance, DEFAULT_USER, o[b].utterance);
    UtteranceKeyInjective(o[a].session, o[b].session);
  }

  /** No entry of the first list is larger. */
  predicate NoLarger(left: seq<nat>, sizes: seq<nat>) {
    |left| == |sizes| && forall i :: 0 <= i < |left| ==> left[i] <= sizes[i]
  }

  lemma {:induction false} SumFalls(left: seq<nat>, sizes: seq<nat>, i: nat)
    requires NoLarger(left, sizes) && i <= |left|
    ensures SumFrom(left, i) <= SumFrom(sizes, i)
    decreases |left| - i
  {
    if i < |left| { SumFalls(left, sizes, i + 1); }
  }

  /** Deleting recordings makes no other one larger, and one that an entry behind shares reads as empty. */
  lemma SizesLeft(files: map<string, Bytes>, o: seq<Learning>, k: nat)
    requires k <= |o|
    ensures NoLarger(Sizes(files - Keys(o[..k]), o[k..]), Sizes(files, o)[k..])
  {
    forall i | k <= i < |o|
      ensures SizeOf(files - Keys(o[..k]), o[i].audioKey) <= SizeOf(files, o[i].audioKey)
    {
    }
  }

  /** The eviction laws on every valid store without 64-bit overflow, also where candidates share a recording: what
      stays captured fits the cap, by the sizes taken one fewer evicted would not, and a second call evicts nothing. */
  lemma EvictionLaws(db: Db, files: map<string, Bytes>, user: string, cap: nat)
    requires Valid(db) && Sum(Sizes(files, Outbox(db, user))) <= U64_MAX
    ensures var o := Outbox(db, user);
            var k := HowMany(db, files, user, cap);
            var after, left := Flip(db, o[..k]), files - Keys(o[..k]);
            && LeastFit(Sizes(files, o), cap, k)
            && Valid(after) && Outbox(after, user) == o[k..]
            && Sum(Sizes(left, Outbox(after, user))) <= cap
            && HowMany(after, left, user, cap) == 0
  {
    var o := Outbox(db, user);
    var sizes := Sizes(files, o);
    TotalIsCappedSum(sizes);
    ExactCount(sizes, cap);
    var k := HowMany(db, files, user, cap);
    OutboxAfterFlip(db, user, k);
    SizesLeft(files, o, k);
    SumSlice(sizes, k, 0);
    var left := Sizes(files - Keys(o[..k]), o[k..]);
    SumFalls(left, sizes[k..], 0);
    TotalIsCappedSum(left);
  }

  /** What eviction changes, row by row and file by file. */
  lemma {:induction false} FlipIsExact(db: Db, gone: seq<Learning>)
    requires forall l :: l in gone ==> l.candidate in db.candidates
    ensures var after := Flip(db, gone);
            && after == db.(candidates := after.candidates)
            && after.candidates.Keys == db.candidates.Keys
            && forall i :: i in db.candidates ==>
                 after.candidates[i] == if exists l :: l in gone && l.candidate == i
                                        then db.candidates[i].(status := Evicted) else db.candidates[i]
  {
    if gone != [] {
      var init, last := gone[..|gone| - 1], gone[|gone| - 1];
      assert gone == init + [last];
      FlipIsExact(db, init);
      assert last in gone;
    }
  }

  // ---------------------------------------------------------------- when the promises hold

  /** The captured recordings after one call of the cap. */
  function CapturedSize(db: Db, files: map<string, Bytes>, user: string): nat {
    Sum(Sizes(files, CapturedRows(db, user)))
  }

  /** After one call the captured recordings fit the cap exactly when the user's data was never deleted or they fitted
      before: after a privacy delete the outbox the cap sizes reads empty, while recordings are captured as ever. */
  lemma CapBoundsCapturedIff(db: Db, files: map<string, Bytes>, user: string, cap: nat, gone: seq<Learning>)
    requires Valid(db) && CapturedSize(db, files, user) <= U64_MAX
    requires gone == Outbox(db, user)[..HowMany(db, files, user, cap)]
    ensures CapturedSize(Flip(db, gone), files - Keys(gone), user) <= cap <==>
            !UserWasDeleted(db.log, user) || CapturedSize(db, files, user) <= cap
  {
    if UserWasDeleted(db.log, user) {
      NothingEvicted(db, files, gone);
    } else {
      CapBoundsCaptured(db, files, user, cap, gone);
    }
  }

  lemma NothingEvicted(db: Db, files: map<string, Bytes>, gone: seq<Learning>)
    requires gone == []
    ensures Flip(db, gone) == db && files - Keys(gone) == files
  {
  }

  lemma CapBoundsCaptured(db: Db, files: map<string, Bytes>, user: string, cap: nat, gone: seq<Learning>)
    requires Valid(db) && Sum(Sizes(files, Outbox(db, user))) <= U64_MAX
    requires gone == Outbox(db, user)[..HowMany(db, files, user, cap)] && !UserWasDeleted(db.log, user)
    ensures CapturedSize(Flip(db, gone), files - Keys(gone), user) <= cap
  {
    EvictionLaws(db, files, user, cap);
    FlipKeepsLog(db, gone);
  }

  lemma {:induction false} FlipKeepsLog(db: Db, gone: seq<Learning>)
    ensures Flip(db, gone).log == db.log
  {
    if gone != [] { FlipKeepsLog(db, gone[..|gone| - 1]); }
  }

  /** Every candidate that stays captured under this cap keeps its recording. */
  predicate SurvivorsKeep(db: Db, files: map<string, Bytes>, user: string, cap: nat) {
    var o, k := Outbox(db, user), HowMany(db, files, user, cap);
    forall i :: k <= i < |o| ==> o[i].audioKey in files - Keys(o[..k])
  }

  lemma {:induction false} SumsFall(sizes: seq<nat>, i: nat, j: nat)
    requires i < j <= |sizes| && forall n :: 0 <= n < |sizes| ==> sizes[n] > 0
    ensures SumFrom(sizes, i) > SumFrom(sizes, j)
    decreases j - i
  {
    if i + 1 < j { SumsFall(sizes, i + 1, j); }
  }

  /** With no empty recording, every count is what some cap asks for. */
  lemma CapForCount(sizes: seq<nat>, j: nat)
    requires j <= |sizes| && Sum(sizes) <= U64_MAX && forall n :: 0 <= n < |sizes| ==> sizes[n] > 0
    ensures SumFrom(sizes, j) <= U64_MAX && EvictCount(sizes, Total(sizes), SumFrom(sizes, j)) == j
  {
    var cap := SumFrom(sizes, j);
    if j > 0 { SumsFall(sizes, 0, j); }
    TotalIsCappedSum(sizes);
    ExactCount(sizes, cap);
    var k := EvictCount(sizes, Sum(sizes), cap);
    if k < j { SumsFall(sizes, k, j); }
  }

  /** Under every cap the remaining candidates keep their recordings exactly when no two in the outbox share one. */
  lemma SurvivorsKeepAudioIff(db: Db, files: map<string, Bytes>, user: string)
    requires forall l :: l in Outbox(db, user) ==> l.audioKey in files && files[l.audioKey] != []
    requires Sum(Sizes(files, Outbox(db, user))) <= U64_MAX
    ensures (forall cap: nat :: cap <= U64_MAX ==> SurvivorsKeep(db, files, user, cap)) <==>
            DistinctAudio(Outbox(db, user))
  {
    var o := Outbox(db, user);
    if DistinctAudio(o) {
      forall cap: nat | cap <= U64_MAX ensures SurvivorsKeep(db, files, user, cap) {
        var k := HowMany(db, files, user, cap);
        forall i | k <= i < |o| ensures o[i].audioKey in files - Keys(o[..k]) {
          assert o[i] in o && forall l :: l in o[..k] ==> l.audioKey != o[i].audioKey;
        }
      }
    } else {
      var i, j :| 0 <= i < j < |o| && o[i].audioKey == o[j].audioKey;
      SharedIsLost(db, files, user, i, j);
    }
  }

  lemma SharedIsLost(db: Db, files: map<string, Bytes>, user: string, i: nat, j: nat)
    requires forall l :: l in Outbox(db, user) ==> l.audioKey in files && files[l.audioKey] != []
    requires Sum(Sizes(files, Outbox(db, user))) <= U64_MAX
    requires i < j < |Outbox(db, user)| && Outbox(db, user)[i].audioKey == Outbox(db, user)[j].audioKey
    ensures var cap := SumFrom(Sizes(files, Outbox(db, user)), j);
            cap <= U64_MAX && !SurvivorsKeep(db, files, user, cap)
  {
    var o := Outbox(db, user);
    var sizes := Sizes(files, o);
    forall n | 0 <= n < |sizes| ensures sizes[n] > 0 { assert o[n] in o; }
    CapForCount(sizes, j);
    assert o[..j][i] in o[..j] && o[j].audioKey in Keys(o[..j]);
  }

  /** A commit under a new key captures one more candidate and leaves the others captured. */
  lemma CommitCaptures(db: Db, s: string, text: string, key: string, now: nat)
    requires Valid(db) && s in db.sessions && db.sessions[s].raw.Some? && !HasKey(db.log, key)
    ensures CommitSession(db, s, text, key, now) == Done(CommittedAs(db, s, text, key, now))
    ensures Captures(db, CommittedAs(db, s, text, key, now), s)
  {
    StoreLaws.CommitOpen(db, key);
    CapturesOne(db, s, text, key, now);
  }

  predicate Captures(db: Db, after: Db, s: string) {
    && InOutbox(after, DEFAULT_USER, db.nextCandidate) && after.candidates[db.nextCandidate].session == s
    && after.nextCandidate == db.nextCandidate + 1
    && forall i :: i in db.candidates && InOutbox(db, DEFAULT_USER, i) ==>
         InOutbox(after, DEFAULT_USER, i) && after.candidates[i].session == db.candidates[i].session
  }

  lemma CapturesOne(db: Db, s: string, text: string, key: string, now: nat)
    requires SessionsLinked(db.sessions, db.utterances) && Naming(db.sessions, db.utterances) && Counters(db)
    requires s in db.sessions && db.sessions[s].raw.Some?
    ensures Captures(db, CommittedAs(db, s, text, key, now), s)
  {
  }

  lemma CommitLogs(db: Db, s: string, text: string, key: string, now: nat)
    requires s in db.sessions && db.sessions[s].raw.Some?
    ensures var after := CommittedAs(db, s, text, key, now);
            && after.sessions[s].raw.Some? && (forall k :: HasKey(after.log, k) ==> HasKey(db.log, k) || k == key)
            && (UserWasDeleted(after.log, DEFAULT_USER) ==> UserWasDeleted(db.log, DEFAULT_USER))
  {
  }

  /** It happens: a session committed under two keys has two captured candidates and one recording. */
  lemma TwoCommitsShareARecording(db: Db, s: string, first: string, key: string, second: string, key': string, now: nat)
    requires Valid(db) && s in db.sessions && db.sessions[s].raw.Some? && !UserWasDeleted(db.log, DEFAULT_USER)
    requires !HasKey(db.log, key) && !HasKey(db.log, key') && key != key'
    ensures var once := CommitSession(db, s, first, key, now);
            once.Done? && var twice := CommitSession(once.db, s, second, key', now);
            twice.Done? && !DistinctAudio(Outbox(twice.db, DEFAULT_USER))
  {
    var once := CommittedAs(db, s, first, key, now);
    CommitCaptures(db, s, first, key, now);
    CommitLogs(db, s, first, key, now);
    CommitKeeps(db, s, first, key, now);
    var twice := CommittedAs(once, s, second, key', now);
    CommitCaptures(once, s, second, key', now);
    CommitLogs(once, s, second, key', now);
    CommitKeeps(once, s, second, key', now);
    DistinctAudioIff(twice, DEFAULT_USER);
    assert InOutbox(twice, DEFAULT_USER, db.nextCandidate) && InOutbox(twice, DEFAULT_USER, once.nextCandidate);
  }

  /** After a privacy delete the cap stops working for that user: the outbox it sizes stays empty, so no later recording
      is ever evicted, however large. */
  lemma CapStopsAfterPrivacyDelete(db: Db, user: string, later: seq<Cmd>, files: map<string, Bytes>, cap: nat)
    requires DeleteUser(db, user).Done?
    ensures HowMany(Run(DeleteUser(db, user).db, later), files, user, cap) == 0
  {
    StoreLaws.DeletedUserShipsNothing(db, user, later);
  }

  /** It happens: after the user was forgotten, one more dictation larger than the cap stays captured beyond it. */
  lemma CapLetsItGrow(db: Db, s: SessionId, text: string, key: string, now: nat, files: map<string, Bytes>, cap: nat)
    requires Valid(db) && DeleteUser(db, DEFAULT_USER).Done?
    requires CreateSession(DeleteUser(db, DEFAULT_USER).db, s, Some(text), now).Done?
    requires !HasKey(CreateSession(DeleteUser(db, DEFAULT_USER).db, s, Some(text), now).db.log, key)
    requires SizeOf(files, AudioPath(UtteranceKey(s))) > cap
    ensures var after := Run(DeleteUser(db, DEFAULT_USER).db, Dictation(s, text, key, now));
            HowMany(after, files, DEFAULT_USER, cap) == 0 && CapturedSize(after, files, DEFAULT_USER) > cap
  {
    CapStopsAfterPrivacyDelete(db, DEFAULT_USER, Dictation(s, text, key, now), files, cap);
    ForgottenThenMade(db, s, text, now);
    DictationCounts(DeleteUser(db, DEFAULT_USER).db, s, text, key, now, files);
  }

  function Dictation(s: SessionId, text: string, key: string, now: nat): seq<Cmd> {
    [DoCreate(s, Some(text), now), DoCommit(s, text, key, now)]
  }

  lemma DictationCounts(db: Db, s: SessionId, text: string, key: string, now: nat, files: map<string, Bytes>)
    requires CreateSession(db, s, Some(text), now).Done? && Valid(CreateSession(db, s, Some(text), now).db)
    requires !HasKey(CreateSession(db, s, Some(text), now).db.log, key)
    ensures CapturedSize(Run(db, Dictation(s, text, key, now)), files, DEFAULT_USER) >=
            SizeOf(files, AudioPath(UtteranceKey(s)))
  {
    RunTwo(db, Dictation(s, text, key, now));
    CommittedCounts(CreateSession(db, s, Some(text), now).db, s, text, key, now, files);
  }

  lemma ForgottenThenMade(db: Db, s: SessionId, text: string, now: nat)
    requires Valid(db) && DeleteUser(db, DEFAULT_USER).Done?
    ensures Sound(CreateSession(DeleteUser(db, DEFAULT_USER).db, s, Some(text), now))
  {
    DeleteUserKeeps(db, DEFAULT_USER);
    CreateKeeps(DeleteUser(db, DEFAULT_USER).db, s, Some(text), now);
  }

  lemma CommittedCounts(db: Db, s: string, text: string, key: string, now: nat, files: map<string, Bytes>)
    requires Valid(db) && s in db.sessions && db.sessions[s].raw.Some? && !HasKey(db.log, key)
    ensures CommitSession(db, s, text, key, now).Done?
    ensures CapturedSize(CommitSession(db, s, text, key, now).db, files, DEFAULT_USER) >=
            SizeOf(files, AudioPath(UtteranceKey(s)))
  {
    CommitCaptures(db, s, text, key, now);
    CommitKeeps(db, s, text, key, now);
    CapturedCounts(CommittedAs(db, s, text, key, now), files, db.nextCandidate, s);
  }

  /** A captured candidate's recording counts towards the sum. */
  lemma CapturedCounts(db: Db, files: map<string, Bytes>, id: nat, s: string)
    requires Valid(db) && InOutbox(db, DEFAULT_USER, id) && db.candidates[id].session == s
    ensures CapturedSize(db, files, DEFAULT_USER) >= SizeOf(files, AudioPath(UtteranceKey(s)))
  {
    var o := CapturedRows(db, DEFAULT_USER);
    OutboxListsAll(db, DEFAULT_USER, db.nextCandidate, id);
    OutboxRows(db, DEFAULT_USER, db.nextCandidate);
    var i :| 0 <= i < |o| && o[i].candidate == id;
    assert o[i] in o && o[i] == ToLearning(db, id);
    assert o[i].audioKey == AudioPath(UtteranceKey(s));
    PartOfSum(Sizes(files, o), 0, i);
  }

  lemma {:induction false} PartOfSum(sizes: seq<nat>, i: nat, j: nat)
    requires i <= j < |sizes|
    ensures SumFrom(sizes, i) >= sizes[j]
    decreases j - i
  {
    if i < j { PartOfSum(sizes, i + 1, j); }
  }

  lemma ForgottenFromTheStart(s: SessionId)
    ensures DeleteUser(EMPTY, DEFAULT_USER).Done?
    ensures CreateSession(DeleteUser(EMPTY, DEFAULT_USER).db, s, Some("x"), 0).Done?
    ensures !HasKey(CreateSession(DeleteUser(EMPTY, DEFAULT_USER).db, s, Some("x"), 0).db.log, "a")
  {
    assert WithoutSessions([], SessionsOf(EMPTY, DEFAULT_USER)) == [];
    assert UserDeletedKey(DEFAULT_USER, 1)[0] == 'u' && CreatedKey(s)[0] == 's' && "a"[0] == 'a';
  }

  /** From the empty store in three commands. */
  lemma CapOutgrown(s: SessionId, files: map<string, Bytes>, cap: nat)
    requires SizeOf(files, AudioPath(UtteranceKey(s))) > cap
    ensures var after := Run(Run(EMPTY, [DoDeleteUser(DEFAULT_USER)]), Dictation(s, "x", "a", 0));
            HowMany(after, files, DEFAULT_USER, cap) == 0 && CapturedSize(after, files, DEFAULT_USER) > cap
  {
    EveryReachableStateIsValid([]);
    ForgottenFromTheStart(s);
    assert Run(EMPTY, [DoDeleteUser(DEFAULT_USER)]) == DeleteUser(EMPTY, DEFAULT_USER).db;
    CapLetsItGrow(EMPTY, s, "x", "a", 0, files, cap);
  }
}
