/** The adapter registry: timestamps and derivation records that together behave as an undo stack. */
module Adapters {
  import opened Basics

  datatype Adapter = Adapter(user: string, active: bool, promotedAt: Option<nat>, createdAt: nat)

  datatype Reason = Promoted | RejectedFor(text: string) | RolledBack

  datatype Derivation = Derivation(user: string, from: Option<string>, to: string, reason: Reason)

  datatype Registry = Registry(rows: map<string, Adapter>, derivations: seq<Derivation>)

  datatype Reply = Done(after: Registry) | NotFound | Duplicate

  const EMPTY := Registry(map[], [])

  // ---------------------------------------------------------------- queries

  /** `promoted_at` as the sort sees it: NULL is least. */
  function Stamp(row: Adapter): int {
    if row.promotedAt.Some? then row.promotedAt.value else -1
  }

  /** Before another row in ORDER BY promoted_at DESC, id DESC. */
  predicate Newer(rows: map<string, Adapter>, a: string, b: string)
    requires a in rows && b in rows
  {
    Stamp(rows[a]) > Stamp(rows[b]) || (Stamp(rows[a]) == Stamp(rows[b]) && StrLess(b, a))
  }

  predicate IsNewest(rows: map<string, Adapter>, ids: set<string>, m: string)
    requires ids <= rows.Keys
  {
    m in ids && forall x :: x in ids && x != m ==> Newer(rows, m, x)
  }

  lemma NewestExists(rows: map<string, Adapter>, ids: set<string>)
    requires ids != {} && ids <= rows.Keys
    ensures exists m :: IsNewest(rows, ids, m)
    decreases |ids|
  {
    var a :| a in ids;
    var rest := ids - {a};
    if rest == {} {
      assert ids == {a};
      assert IsNewest(rows, ids, a);
    } else {
      NewestExists(rows, rest);
      var b :| IsNewest(rows, rest, b);
      StrLessTotal(a, b);
      assert ids == rest + {a};
      if Newer(rows, b, a) {
        assert IsNewest(rows, ids, b);
      } else {
        forall x | x in rest ensures Newer(rows, a, x) {
          if x != b && Stamp(rows[a]) == Stamp(rows[b]) == Stamp(rows[x]) { StrLessTransitive(x, b, a); }
        }
        assert IsNewest(rows, ids, a);
      }
    }
  }

  lemma NewestUnique(rows: map<string, Adapter>, ids: set<string>, m: string, n: string)
    requires ids <= rows.Keys && IsNewest(rows, ids, m) && IsNewest(rows, ids, n)
    ensures m == n
  {
    if m != n {
      assert Newer(rows, m, n) && Newer(rows, n, m);
      if StrLess(m, n) && StrLess(n, m) {
        StrLessTransitive(m, n, m);
        StrLessIrreflexive(m);
      }
    }
  }

  lemma NewestIsUnique(rows: map<string, Adapter>, ids: set<string>)
    requires ids <= rows.Keys
    ensures forall m, n :: IsNewest(rows, ids, m) && IsNewest(rows, ids, n) ==> m == n
  {
    forall m, n | IsNewest(rows, ids, m) && IsNewest(rows, ids, n) ensures m == n { NewestUnique(rows, ids, m, n); }
  }

  /** LIMIT 1 of that order. */
  function Newest(rows: map<string, Adapter>, ids: set<string>): (first: Option<string>)
    requires ids <= rows.Keys
    ensures first.None? <==> ids == {}
    ensures first.Some? ==> IsNewest(rows, ids, first.value)
  {
    if ids == {} then None
    else
      NewestExists(rows, ids);
      NewestIsUnique(rows, ids);
      var m :| IsNewest(rows, ids, m);
      Some(m)
  }

  predicate Blocked(derivations: seq<Derivation>, user: string, id: string) {
    exists d :: d in derivations && d.user == user && d.to == id && (d.reason.RejectedFor? || d.reason.RolledBack?)
  }

  function ActiveSet(reg: Registry, user: string): (ids: set<string>)
    ensures ids <= reg.rows.Keys
  {
    set id | id in reg.rows && reg.rows[id].user == user && reg.rows[id].active
  }

  /** The rows a rollback may reactivate. */
  function Eligible(reg: Registry, user: string): (ids: set<string>)
    ensures ids <= reg.rows.Keys
  {
    set id | id in reg.rows && reg.rows[id].user == user && !reg.rows[id].active && reg.rows[id].promotedAt.Some? &&
             !Blocked(reg.derivations, user, id)
  }

  function ActiveId(reg: Registry, user: string): Option<string> { Newest(reg.rows, ActiveSet(reg, user)) }

  function PreviousId(reg: Registry, user: string): Option<string> { Newest(reg.rows, Eligible(reg, user)) }

  // ---------------------------------------------------------------- transactions

  function Register(reg: Registry, user: string, id: string, now: nat): Reply {
    if id in reg.rows then Duplicate else Done(reg.(rows := reg.rows[id := Adapter(user, false, None, now)]))
  }

  function AllInactive(rows: map<string, Adapter>, user: string): map<string, Adapter> {
    map id | id in rows :: if rows[id].user == user then rows[id].(active := false) else rows[id]
  }

  predicate Owns(reg: Registry, user: string, id: string) {
    id in reg.rows && reg.rows[id].user == user
  }

  function Promote(reg: Registry, user: string, id: string, now: nat): Reply {
    if !Owns(reg, user, id) then NotFound
    else
      var current := ActiveId(reg, user);
      var row := reg.rows[id];
      var stamp := if row.promotedAt.Some? then row.promotedAt else Some(now);
      Done(Registry(AllInactive(reg.rows, user)[id := row.(active := true, promotedAt := stamp)],
                    if current.Some? && current.value != id
                    then reg.derivations + [Derivation(user, current, id, Promoted)] else reg.derivations))
  }

  function Reject(reg: Registry, user: string, id: string, reason: string): Reply {
    if !Owns(reg, user, id) then NotFound
    else Done(Registry(reg.rows[id := reg.rows[id].(active := false)],
                       reg.derivations + [Derivation(user, None, id, RejectedFor(reason))]))
  }

  function Rollback(reg: Registry, user: string): Reply {
    var current, previous := ActiveId(reg, user), PreviousId(reg, user);
    if current.None? || previous.None? then NotFound
    else
      var rows := reg.rows[current.value := reg.rows[current.value].(active := false)];
      Done(Registry(rows[previous.value := rows[previous.value].(active := true)],
                    reg.derivations + [Derivation(user, previous, current.value, RolledBack)]))
  }

  /** The registry's share of a privacy delete. */
  function Forget(reg: Registry, user: string): Registry {
    Registry(map id | id in reg.rows && reg.rows[id].user != user :: reg.rows[id], Without(reg.derivations, user))
  }

  function Without(derivations: seq<Derivation>, user: string): (kept: seq<Derivation>)
    ensures forall d :: d in kept <==> d in derivations && d.user != user
  {
    if derivations == [] then []
    else
      assert derivations == [derivations[0]] + derivations[1..];
      (if derivations[0].user == user then [] else [derivations[0]]) + Without(derivations[1..], user)
  }

  datatype Cmd =
    | DoRegister(user: string, id: string, now: nat)
    | DoPromote(user: string, id: string, now: nat)
    | DoReject(user: string, id: string, reason: string)
    | DoRollback(user: string)
    | DoForget(user: string)

  function Exec(reg: Registry, cmd: Cmd): Reply {
    match cmd
    case DoRegister(user, id, now) => Register(reg, user, id, now)
    case DoPromote(user, id, now) => Promote(reg, user, id, now)
    case DoReject(user, id, reason) => Reject(reg, user, id, reason)
    case DoRollback(user) => Rollback(reg, user)
    case DoForget(user) => Done(Forget(reg, user))
  }

  function Step(reg: Registry, cmd: Cmd): Registry {
    var reply := Exec(reg, cmd);
    if reply.Done? then reply.after else reg
  }

  function Run(reg: Registry, cmds: seq<Cmd>): Registry {
    if cmds == [] then reg else Step(Run(reg, cmds[..|cmds| - 1]), cmds[|cmds| - 1])
  }

  // ---------------------------------------------------------------- at most one active

  predicate OneActive(reg: Registry) {
    && (forall a, b :: (a in reg.rows && b in reg.rows && reg.rows[a].active && reg.rows[b].active &&
                        reg.rows[a].user == reg.rows[b].user) ==> a == b)
    && (forall a :: a in reg.rows && reg.rows[a].active ==> reg.rows[a].promotedAt.Some?)
  }

  lemma StepKeepsOneActive(reg: Registry, cmd: Cmd)
    requires OneActive(reg)
    ensures OneActive(Step(reg, cmd))
  {
  }

  lemma {:induction false} EveryRunHasOneActive(cmds: seq<Cmd>)
    ensures OneActive(Run(EMPTY, cmds))
  {
    if cmds != [] {
      EveryRunHasOneActive(cmds[..|cmds| - 1]);
      StepKeepsOneActive(Run(EMPTY, cmds[..|cmds| - 1]), cmds[|cmds| - 1]);
    }
  }

  // ---------------------------------------------------------------- rollback's measure

  lemma BlockedGrows(derivations: seq<Derivation>, d: Derivation, user: string, id: string)
    ensures Blocked(derivations + [d], user, id) <==>
            Blocked(derivations, user, id) ||
            (d.user == user && d.to == id && (d.reason.RejectedFor? || d.reason.RolledBack?))
  {
    var after := derivations + [d];
    assert after[|derivations|] == d;
    if Blocked(derivations, user, id) {
      var e :| e in derivations && e.user == user && e.to == id && (e.reason.RejectedFor? || e.reason.RolledBack?);
      assert e in after;
    }
  }

  /** A successful rollback swaps the active adapter for the newest eligible one and uses up exactly that one. */
  lemma RollbackSpendsOne(reg: Registry, user: string)
    requires OneActive(reg) && Rollback(reg, user).Done?
    ensures var after := Rollback(reg, user).after;
            && Eligible(after, user) == Eligible(reg, user) - {PreviousId(reg, user).value}
            && |Eligible(after, user)| == |Eligible(reg, user)| - 1
            && ActiveSet(after, user) == {PreviousId(reg, user).value}
            && Blocked(after.derivations, user, ActiveId(reg, user).value)
  {
    var after := Rollback(reg, user).after;
    var current, previous := ActiveId(reg, user).value, PreviousId(reg, user).value;
    var d := after.derivations[|reg.derivations|];
    assert after.derivations == reg.derivations + [d];
    forall id ensures Blocked(after.derivations, user, id) <==> Blocked(reg.derivations, user, id) || id == current {
      BlockedGrows(reg.derivations, d, user, id);
    }
    assert Eligible(after, user) == Eligible(reg, user) - {previous};
  }

  /** `n` rollbacks in a row all succeed exactly when an adapter is active and `n` are eligible. */
  lemma {:induction false} ConsecutiveRollbacks(reg: Registry, user: string, n: nat)
    requires OneActive(reg) && ActiveId(reg, user).Some? && n > 0
    ensures AllSucceed(reg, user, n) <==> n <= |Eligible(reg, user)|
    decreases n
  {
    if Rollback(reg, user).Done? {
      var after := Rollback(reg, user).after;
      OneRollback(reg, user, after);
      if n > 1 { ConsecutiveRollbacks(after, user, n - 1); }
    }
  }

  lemma OneRollback(reg: Registry, user: string, after: Registry)
    requires OneActive(reg) && Rollback(reg, user) == Reply.Done(after)
    ensures OneActive(after) && ActiveId(after, user).Some? && |Eligible(after, user)| == |Eligible(reg, user)| - 1
  {
    RollbackSpendsOne(reg, user);
    StepKeepsOneActive(reg, DoRollback(user));
  }

  predicate AllSucceed(reg: Registry, user: string, n: nat)
    decreases n
  {
    n == 0 || (Rollback(reg, user).Done? && AllSucceed(Rollback(reg, user).after, user, n - 1))
  }

  lemma StaysBlocked(reg: Registry, user: string, id: string, cmd: Cmd)
    requires Blocked(reg.derivations, user, id) && cmd != DoForget(user) && OneActive(reg)
    requires !(cmd.DoPromote? && cmd.id == id)
    ensures Blocked(Step(reg, cmd).derivations, user, id)
    ensures Owns(Step(reg, cmd), user, id) && Step(reg, cmd).rows[id].active ==>
              Owns(reg, user, id) && reg.rows[id].active
  {
    var after := Step(reg, cmd);
    var d :| d in reg.derivations && d.user == user && d.to == id && (d.reason.RejectedFor? || d.reason.RolledBack?);
    assert d in after.derivations;
  }

  /** A rolled-back or rejected adapter is never reactivated by rollback: only promoting it again can. */
  lemma {:induction false} NeverReactivated(reg: Registry, user: string, id: string, cmds: seq<Cmd>)
    requires OneActive(reg) && Blocked(reg.derivations, user, id) && id !in ActiveSet(reg, user)
    requires forall c :: c in cmds ==> c != DoForget(user) && !(c.DoPromote? && c.id == id)
    ensures OneActive(Run(reg, cmds)) && Blocked(Run(reg, cmds).derivations, user, id)
    ensures id !in ActiveSet(Run(reg, cmds), user)
  {
    if cmds != [] {
      var init, cmd := cmds[..|cmds| - 1], cmds[|cmds| - 1];
      assert cmd in cmds && forall c :: c in init ==> c in cmds;
      NeverReactivated(reg, user, id, init);
      StepKeepsOneActive(Run(reg, init), cmd);
      StaysBlocked(Run(reg, init), user, id, cmd);
    }
  }

  // ---------------------------------------------------------------- the undo law

  /** Rollback undoes a promotion exactly when the adapter it replaced is not blocked and was first promoted after every
      other eligible one. */
  lemma PromoteThenRollback(reg: Registry, user: string, id: string, now: nat)
    requires OneActive(reg) && Owns(reg, user, id) && ActiveId(reg, user).Some? && ActiveId(reg, user).value != id
    ensures var before := ActiveId(reg, user).value;
            var undone := Rollback(Promote(reg, user, id, now).after, user);
            (undone.Done? && ActiveId(undone.after, user) == Some(before)) <==>
            (!Blocked(reg.derivations, user, before) &&
             forall q :: q in Eligible(reg, user) && q != id ==> Newer(reg.rows, before, q))
  {
    var before := ActiveId(reg, user).value;
    var middle := Promote(reg, user, id, now).after;
    AfterPromote(reg, user, id, now);
    StepKeepsOneActive(reg, DoPromote(user, id, now));
    var e := Eligible(reg, user) - {id};
    if Rollback(middle, user).Done? {
      RollbackSpendsOne(middle, user);
      var previous := PreviousId(middle, user).value;
      assert ActiveSet(Rollback(middle, user).after, user) == {previous};
      if !Blocked(reg.derivations, user, before) && forall q :: q in e ==> Newer(reg.rows, before, q) {
        assert IsNewest(middle.rows, Eligible(middle, user), before);
        NewestUnique(middle.rows, Eligible(middle, user), before, previous);
      }
    }
  }

  /** A promotion over an active adapter: that one becomes eligible unless blocked, and no order changes. */
  lemma AfterPromote(reg: Registry, user: string, id: string, now: nat)
    requires OneActive(reg) && Owns(reg, user, id) && ActiveId(reg, user).Some? && ActiveId(reg, user).value != id
    ensures var before := ActiveId(reg, user).value;
            var middle := Promote(reg, user, id, now).after;
            var e := Eligible(reg, user) - {id};
            && ActiveSet(middle, user) == {id}
            && Eligible(middle, user) == (if Blocked(reg.derivations, user, before) then e else e + {before})
            && before !in e
            && (forall a, b :: a in e + {before} && b in e + {before} ==>
                  (Newer(middle.rows, a, b) <==> Newer(reg.rows, a, b)))
  {
    var before := ActiveId(reg, user).value;
    var middle := Promote(reg, user, id, now).after;
    var d := middle.derivations[|reg.derivations|];
    assert middle.derivations == reg.derivations + [d];
    forall x ensures Blocked(middle.derivations, user, x) <==> Blocked(reg.derivations, user, x) {
      BlockedGrows(reg.derivations, d, user, x);
    }
    assert ActiveSet(reg, user) == {before};
    var e := Eligible(reg, user) - {id};
    assert Eligible(middle, user) == if Blocked(reg.derivations, user, before) then e else e + {before};
  }

  // ---------------------------------------------------------------- rows and records

  predicate IsActive(reg: Registry, user: string, id: string) {
    id in reg.rows && reg.rows[id].user == user && reg.rows[id].active
  }

  /** Nothing about the row changed but whether it is active. */
  predicate OnlyFlag(before: Adapter, after: Adapter, active: bool) {
    after == Adapter(before.user, active, before.promotedAt, before.createdAt)
  }

  /** The promoted adapter is active and dated by its first promotion, every other one of the user is inactive, and the
      record names the one it replaced, if there was another. */
  lemma PromotionRecords(reg: Registry, user: string, id: string, now: nat, after: Registry)
    requires OneActive(reg) && Promote(reg, user, id, now) == Reply.Done(after)
    ensures Owns(reg, user, id) && after.rows.Keys == reg.rows.Keys
    ensures after.rows[id] == Adapter(user, true, if reg.rows[id].promotedAt.Some? then reg.rows[id].promotedAt
                                                  else Some(now), reg.rows[id].createdAt)
    ensures forall x :: x in reg.rows && x != id ==>
              OnlyFlag(reg.rows[x], after.rows[x], reg.rows[x].user != user && reg.rows[x].active)
    ensures forall a :: IsActive(reg, user, a) && a != id ==>
              after.derivations == reg.derivations + [Derivation(user, Some(a), id, Promoted)]
    ensures (forall a :: IsActive(reg, user, a) ==> a == id) ==> after.derivations == reg.derivations
  {
    forall a | IsActive(reg, user, a) ensures ActiveId(reg, user) == Some(a) {
      assert a in ActiveSet(reg, user);
    }
  }

  lemma RejectionRecords(reg: Registry, user: string, id: string, reason: string, after: Registry)
    requires Reject(reg, user, id, reason) == Reply.Done(after)
    ensures Owns(reg, user, id) && after.rows.Keys == reg.rows.Keys && OnlyFlag(reg.rows[id], after.rows[id], false)
    ensures forall x :: x in reg.rows && x != id ==> after.rows[x] == reg.rows[x]
    ensures after.derivations == reg.derivations + [Derivation(user, None, id, RejectedFor(reason))]
  {
  }

  /** A rollback moves the flag from the one active adapter to another one that was promoted before and is neither
      rejected nor rolled back, touches nothing else, and records both. It goes through exactly when there are two such.
      */
  lemma RollbackRecords(reg: Registry, user: string)
    requires OneActive(reg)
    ensures Rollback(reg, user).Done? <==>
            (exists c :: IsActive(reg, user, c)) &&
            exists p :: p in reg.rows && reg.rows[p].user == user && !reg.rows[p].active &&
                        reg.rows[p].promotedAt.Some? && !Blocked(reg.derivations, user, p)
    ensures Rollback(reg, user).Done? ==>
              forall c, p :: IsActive(reg, user, c) && IsActive(Rollback(reg, user).after, user, p) ==>
                var after := Rollback(reg, user).after;
                && p in Eligible(reg, user) && IsNewest(reg.rows, Eligible(reg, user), p)
                && after.rows.Keys == reg.rows.Keys
                && OnlyFlag(reg.rows[c], after.rows[c], false) && OnlyFlag(reg.rows[p], after.rows[p], true)
                && (forall x :: x in reg.rows && x != c && x != p ==> after.rows[x] == reg.rows[x])
                && after.derivations == reg.derivations + [Derivation(user, Some(p), c, RolledBack)]
  {
    if c :| IsActive(reg, user, c) { assert c in ActiveSet(reg, user); }
    if p :| p in reg.rows && reg.rows[p].user == user && !reg.rows[p].active && reg.rows[p].promotedAt.Some? &&
            !Blocked(reg.derivations, user, p) {
      assert p in Eligible(reg, user);
    }
    if Rollback(reg, user).Done? {
      assert ActiveId(reg, user).value in ActiveSet(reg, user) && PreviousId(reg, user).value in Eligible(reg, user);
      assert IsActive(reg, user, ActiveId(reg, user).value);
    }
  }

  /** A new adapter is inactive and never promoted; a taken id is refused, whoever has it. */
  lemma RegistrationAdds(reg: Registry, user: string, id: string, now: nat)
    ensures Register(reg, user, id, now).Done? <==> id !in reg.rows
    ensures Register(reg, user, id, now).Done? ==>
              var after := Register(reg, user, id, now).after;
              && after.derivations == reg.derivations && after.rows.Keys == reg.rows.Keys + {id}
              && after.rows[id] == Adapter(user, false, None, now)
              && forall x :: x in reg.rows ==> after.rows[x] == reg.rows[x]
  {
  }

  // ---------------------------------------------------------------- the registry object

  /** The two tables, each method one write transaction: an early return leaves them as they were. */
  class AdapterRegistry {
    var rows: map<string, Adapter>
    var derivations: seq<Derivation>

    function State(): Registry
      reads this
    {
      Registry(rows, derivations)
    }

    constructor ()
      ensures State() == EMPTY
    {
      rows, derivations := map[], [];
    }

    method RegisterAdapterCandidate(user: string, id: string, now: nat) returns (ok: bool)
      modifies this
      ensures ok == Register(old(State()), user, id, now).Done?
      ensures State() == Step(old(State()), DoRegister(user, id, now))
    {
      if id in rows { return false; }
      rows := rows[id := Adapter(user, false, None, now)];
      return true;
    }

    method PromoteAdapter(user: string, id: string, now: nat) returns (ok: bool)
      modifies this
      ensures ok == Promote(old(State()), user, id, now).Done?
      ensures State() == Step(old(State()), DoPromote(user, id, now))
    {
      var current := ActiveId(State(), user);
      var tx := AllInactive(rows, user);
      if id !in tx || tx[id].user != user { return false; }
      var stamp := if tx[id].promotedAt.Some? then tx[id].promotedAt else Some(now);
      tx := tx[id := tx[id].(active := true, promotedAt := stamp)];
      if current.Some? && current.value != id {
        derivations := derivations + [Derivation(user, current, id, Promoted)];
      }
      rows := tx;
      return true;
    }

    method RejectAdapter(user: string, id: string, reason: string) returns (ok: bool)
      modifies this
      ensures ok == Reject(old(State()), user, id, reason).Done?
      ensures State() == Step(old(State()), DoReject(user, id, reason))
    {
      if id !in rows || rows[id].user != user { return false; }
      rows := rows[id := rows[id].(active := false)];
      derivations := derivations + [Derivation(user, None, id, RejectedFor(reason))];
      return true;
    }

    method RollbackAdapter(user: string) returns (ok: bool)
      modifies this
      ensures ok == Rollback(old(State()), user).Done?
      ensures State() == Step(old(State()), DoRollback(user))
    {
      var current := ActiveId(State(), user);
      if current.None? { return false; }
      var previous := PreviousId(State(), user);
      if previous.None? { return false; }
      rows := rows[current.value := rows[current.value].(active := false)];
      rows := rows[previous.value := rows[previous.value].(active := true)];
      derivations := derivations + [Derivation(user, previous, current.value, RolledBack)];
      return true;
    }
  }
}
