/** The registry refines a stack: promotion pushes, rollback pops, rejection takes an adapter out wherever it is. */
module AdapterStack {
  import opened Basics
  import opened Adapters

  /** `below` holds the adapters a rollback can return to, newest last; `blocked` those it never may. */
  datatype Stack = Stack(below: seq<string>, active: Option<string>, blocked: set<string>)

  const BOTTOM := Stack([], None, {})

  function Push(s: Stack, id: string): Stack {
    var below := if s.active.Some? && s.active.value !in s.blocked then s.below + [s.active.value] else s.below;
    s.(below := below, active := Some(id))
  }

  predicate CanPop(s: Stack) { s.active.Some? && s.below != [] }

  function Pop(s: Stack): Stack
    requires CanPop(s)
  {
    Stack(s.below[..|s.below| - 1], Some(s.below[|s.below| - 1]), s.blocked + {s.active.value})
  }

  function Remove(ids: seq<string>, id: string): (left: seq<string>)
    ensures forall x :: x in left <==> x in ids && x != id
  {
    if ids == [] then []
    else
      assert ids == ids[..|ids| - 1] + [ids[|ids| - 1]];
      Remove(ids[..|ids| - 1], id) + if ids[|ids| - 1] == id then [] else [ids[|ids| - 1]]
  }

  function TakeOut(s: Stack, id: string): Stack {
    Stack(Remove(s.below, id), if s.active == Some(id) then None else s.active, s.blocked + {id})
  }

  /** What a successful command of this user does to the stack. */
  function Apply(s: Stack, user: string, cmd: Cmd): Stack {
    if cmd.user != user then s
    else
      match cmd
      case DoRegister(_, _, _) => s
      case DoPromote(_, id, _) => Push(s, id)
      case DoReject(_, id, _) => TakeOut(s, id)
      case DoRollback(_) => if CanPop(s) then Pop(s) else s
      case DoForget(_) => BOTTOM
  }

  predicate Ascending(rows: map<string, Adapter>, ids: seq<string>) {
    && (forall x :: x in ids ==> x in rows)
    && forall i, j :: 0 <= i < j < |ids| ==> Stamp(rows[ids[i]]) < Stamp(rows[ids[j]])
  }

  predicate Below(rows: map<string, Adapter>, ids: seq<string>, stamp: int) {
    forall x :: x in ids ==> x in rows && Stamp(rows[x]) < stamp
  }

  ghost predicate Refines(reg: Registry, user: string, s: Stack) {
    && OneActive(reg)
    && Ascending(reg.rows, s.below)
    && (forall x :: x in s.below <==> x in Eligible(reg, user))
    && ActiveSet(reg, user) == (if s.active.Some? then {s.active.value} else {})
    && (s.active.Some? ==> Below(reg.rows, s.below, Stamp(reg.rows[s.active.value])))
    && (forall x :: x in s.blocked <==> Blocked(reg.derivations, user, x))
  }

  /** The promotion discipline: a fresh adapter, at a time after every earlier promotion of this user. */
  predicate Disciplined(reg: Registry, user: string, cmd: Cmd) {
    cmd.DoPromote? && cmd.user == user && Owns(reg, user, cmd.id) ==>
      reg.rows[cmd.id].promotedAt.None? &&
      forall x :: x in reg.rows && reg.rows[x].user == user ==> Stamp(reg.rows[x]) < cmd.now
  }

  // ---------------------------------------------------------------- one command

  /** This user's rows are the same, but for new rows never promoted, and the same adapters are blocked. */
  ghost predicate SameView(reg: Registry, after: Registry, user: string) {
    && (forall x :: x in reg.rows && reg.rows[x].user == user ==> x in after.rows && after.rows[x] == reg.rows[x])
    && (forall x :: x in after.rows && after.rows[x].user == user && x !in reg.rows ==>
          !after.rows[x].active && after.rows[x].promotedAt.None?)
    && (forall x :: x in after.rows && after.rows[x].user == user && x in reg.rows ==> reg.rows[x].user == user)
    && (forall x :: Blocked(after.derivations, user, x) <==> Blocked(reg.derivations, user, x))
  }

  lemma SameViewRefines(reg: Registry, after: Registry, user: string, s: Stack)
    requires Refines(reg, user, s) && SameView(reg, after, user) && OneActive(after)
    ensures Refines(after, user, s)
  {
    assert ActiveSet(after, user) == ActiveSet(reg, user);
    assert Eligible(after, user) == Eligible(reg, user);
    assert forall x :: x in s.below ==> x in Eligible(reg, user) && after.rows[x] == reg.rows[x];
    assert s.active.Some? ==> s.active.value in ActiveSet(reg, user);
  }

  lemma OthersUnseen(reg: Registry, user: string, s: Stack, cmd: Cmd)
    requires Refines(reg, user, s) && (cmd.user != user || cmd.DoRegister?)
    ensures Refines(Step(reg, cmd), user, s)
  {
    StepKeepsOneActive(reg, cmd);
    forall x ensures Blocked(Step(reg, cmd).derivations, user, x) <==> Blocked(reg.derivations, user, x) {
      BlockedSame(reg, user, cmd, x);
    }
    OtherRows(reg, user, cmd);
    SameViewRefines(reg, Step(reg, cmd), user, s);
  }

  lemma OtherRows(reg: Registry, user: string, cmd: Cmd)
    requires OneActive(reg) && (cmd.user != user || cmd.DoRegister?)
    ensures var after := Step(reg, cmd);
            && (forall x :: x in reg.rows && reg.rows[x].user == user ==>
                  x in after.rows && after.rows[x] == reg.rows[x])
            && (forall x :: x in after.rows && after.rows[x].user == user && x !in reg.rows ==>
                  !after.rows[x].active && after.rows[x].promotedAt.None?)
            && (forall x :: x in after.rows && after.rows[x].user == user && x in reg.rows ==> reg.rows[x].user == user)
  {
  }

  lemma BlockedSame(reg: Registry, user: string, cmd: Cmd, x: string)
    requires cmd.user != user || cmd.DoRegister?
    ensures Blocked(Step(reg, cmd).derivations, user, x) <==> Blocked(reg.derivations, user, x)
  {
    var after := Step(reg, cmd);
    if after.derivations != reg.derivations && !cmd.DoForget? {
      assert after.derivations == reg.derivations + [after.derivations[|reg.derivations|]];
    }
    if Blocked(reg.derivations, user, x) {
      var d :| d in reg.derivations && d.user == user && d.to == x && (d.reason.RejectedFor? || d.reason.RolledBack?);
      assert d in after.derivations;
    }
  }

  lemma PromotePushes(reg: Registry, user: string, s: Stack, id: string, now: nat)
    requires Refines(reg, user, s) && Disciplined(reg, user, DoPromote(user, id, now)) && Owns(reg, user, id)
    ensures Refines(Promote(reg, user, id, now).after, user, Push(s, id))
  {
    var after, t := Promote(reg, user, id, now).after, Push(s, id);
    StepKeepsOneActive(reg, DoPromote(user, id, now));
    PromotedBlocks(reg, user, id, now);
    assert ActiveSet(after, user) == {id};
    assert id !in s.below && s.active != Some(id);
    PromotedOrder(reg, user, s, id, now);
    forall x ensures x in t.below <==> x in Eligible(after, user) {
      assert x in t.below <==> x in s.below || (Some(x) == s.active && x !in s.blocked);
      assert x in Eligible(after, user) <==>
             x != id && (x in Eligible(reg, user) || (x in ActiveSet(reg, user) && !Blocked(reg.derivations, user, x)));
    }
  }

  lemma PromotedBlocks(reg: Registry, user: string, id: string, now: nat)
    requires Owns(reg, user, id)
    ensures forall x :: Blocked(Promote(reg, user, id, now).after.derivations, user, x) <==>
                        Blocked(reg.derivations, user, x)
  {
    var after := Promote(reg, user, id, now).after;
    forall x ensures Blocked(after.derivations, user, x) <==> Blocked(reg.derivations, user, x) {
      if after.derivations != reg.derivations {
        BlockedGrows(reg.derivations, after.derivations[|reg.derivations|], user, x);
        assert after.derivations == reg.derivations + [after.derivations[|reg.derivations|]];
      }
    }
  }

  lemma PromotedOrder(reg: Registry, user: string, s: Stack, id: string, now: nat)
    requires Refines(reg, user, s) && Disciplined(reg, user, DoPromote(user, id, now)) && Owns(reg, user, id)
    ensures var rows := Promote(reg, user, id, now).after.rows;
            Ascending(rows, Push(s, id).below) && Below(rows, Push(s, id).below, Stamp(rows[id]))
  {
    var rows := Promote(reg, user, id, now).after.rows;
    forall x | x in s.below ensures x in rows && Stamp(rows[x]) == Stamp(reg.rows[x]) < now {
      assert x in Eligible(reg, user);
    }
    SameStamps(reg.rows, rows, s.below);
    if s.active.Some? {
      assert s.active.value in ActiveSet(reg, user);
      AscendingPush(rows, s.below, s.active.value);
    }
  }

  lemma SameStamps(rows: map<string, Adapter>, after: map<string, Adapter>, ids: seq<string>)
    requires Ascending(rows, ids) && forall x :: x in ids ==> x in after && Stamp(after[x]) == Stamp(rows[x])
    ensures Ascending(after, ids)
  {
  }

  lemma AscendingPush(rows: map<string, Adapter>, ids: seq<string>, id: string)
    requires Ascending(rows, ids) && id in rows && Below(rows, ids, Stamp(rows[id]))
    ensures Ascending(rows, ids + [id])
  {
  }

  lemma RollbackPops(reg: Registry, user: string, s: Stack)
    requires Refines(reg, user, s)
    ensures Rollback(reg, user).Done? <==> CanPop(s)
    ensures CanPop(s) ==> Refines(Rollback(reg, user).after, user, Pop(s))
  {
    assert s.below != [] ==> s.below[0] in Eligible(reg, user);
    if CanPop(s) {
      TopIsNewest(reg, user, s);
      PopRefines(reg, user, s, Rollback(reg, user).after);
    }
  }

  lemma PopRefines(reg: Registry, user: string, s: Stack, after: Registry)
    requires Refines(reg, user, s) && CanPop(s) && Rollback(reg, user) == Reply.Done(after)
    requires PreviousId(reg, user) == Some(s.below[|s.below| - 1]) && ActiveId(reg, user) == s.active
    ensures Refines(after, user, Pop(s))
  {
    RolledBack(reg, user, after);
    PoppedBlocks(reg, user, s, after);
    PoppedStamps(reg, user, s.below, after);
    Popped(reg, after, user, s);
  }

  lemma RolledBack(reg: Registry, user: string, after: Registry)
    requires OneActive(reg) && Rollback(reg, user) == Reply.Done(after)
    ensures OneActive(after) && PreviousId(reg, user).Some?
    ensures Eligible(after, user) == Eligible(reg, user) - {PreviousId(reg, user).value}
    ensures ActiveSet(after, user) == {PreviousId(reg, user).value}
  {
    RollbackSpendsOne(reg, user);
    StepKeepsOneActive(reg, DoRollback(user));
  }

  lemma PoppedBlocks(reg: Registry, user: string, s: Stack, after: Registry)
    requires Rollback(reg, user) == Reply.Done(after) && ActiveId(reg, user) == s.active && s.active.Some?
    requires forall x :: x in s.blocked <==> Blocked(reg.derivations, user, x)
    ensures forall x :: x in s.blocked + {s.active.value} <==> Blocked(after.derivations, user, x)
  {
    assert after.derivations == reg.derivations + [after.derivations[|reg.derivations|]];
    forall x ensures x in s.blocked + {s.active.value} <==> Blocked(after.derivations, user, x) {
      BlockedGrows(reg.derivations, after.derivations[|reg.derivations|], user, x);
    }
  }

  lemma PoppedStamps(reg: Registry, user: string, below: seq<string>, after: Registry)
    requires Rollback(reg, user) == Reply.Done(after) && below != [] && Ascending(reg.rows, below)
    ensures var top, rest := below[|below| - 1], below[..|below| - 1];
            && Ascending(after.rows, rest) && top in after.rows && Below(after.rows, rest, Stamp(after.rows[top]))
            && forall x :: x in rest <==> x in below && x != top
  {
    PoppedOrder(reg.rows, below);
    SameStamps(reg.rows, after.rows, below[..|below| - 1]);
  }

  lemma Popped(reg: Registry, after: Registry, user: string, s: Stack)
    requires CanPop(s) && OneActive(after)
    requires var top, rest := s.below[|s.below| - 1], s.below[..|s.below| - 1];
             && Ascending(after.rows, rest) && top in after.rows && Below(after.rows, rest, Stamp(after.rows[top]))
             && (forall x :: x in rest <==> x in s.below && x != top)
             && Eligible(after, user) == Eligible(reg, user) - {top} && ActiveSet(after, user) == {top}
    requires forall x :: x in s.below <==> x in Eligible(reg, user)
    requires forall x :: x in s.blocked + {s.active.value} <==> Blocked(after.derivations, user, x)
    ensures Refines(after, user, Pop(s))
  {
  }

  lemma PoppedOrder(rows: map<string, Adapter>, ids: seq<string>)
    requires Ascending(rows, ids) && ids != []
    ensures var top, rest := ids[|ids| - 1], ids[..|ids| - 1];
            Ascending(rows, rest) && Below(rows, rest, Stamp(rows[top])) &&
            forall x :: x in rest <==> x in ids && x != top
  {
    assert ids == ids[..|ids| - 1] + [ids[|ids| - 1]];
  }

  lemma TopIsNewest(reg: Registry, user: string, s: Stack)
    requires Refines(reg, user, s) && CanPop(s)
    ensures PreviousId(reg, user) == Some(s.below[|s.below| - 1]) && ActiveId(reg, user) == s.active
  {
    var top, ids := s.below[|s.below| - 1], Eligible(reg, user);
    forall x | x in ids && x != top ensures Newer(reg.rows, top, x) {
      assert x in s.below;
      var i :| 0 <= i < |s.below| && s.below[i] == x;
    }
    assert IsNewest(reg.rows, ids, top);
    NewestUnique(reg.rows, ids, top, PreviousId(reg, user).value);
  }

  lemma {:induction false} RemoveAscending(rows: map<string, Adapter>, ids: seq<string>, id: string)
    requires Ascending(rows, ids)
    ensures Ascending(rows, Remove(ids, id))
  {
    if ids != [] {
      var init, last := ids[..|ids| - 1], ids[|ids| - 1];
      PoppedOrder(rows, ids);
      RemoveAscending(rows, init, id);
      assert Below(rows, Remove(init, id), Stamp(rows[last]));
      if last != id { AscendingPush(rows, Remove(init, id), last); }
    }
  }

  lemma RejectTakesOut(reg: Registry, user: string, s: Stack, id: string, reason: string)
    requires Refines(reg, user, s) && Owns(reg, user, id)
    ensures Refines(Reject(reg, user, id, reason).after, user, TakeOut(s, id))
  {
    var after := Reject(reg, user, id, reason).after;
    StepKeepsOneActive(reg, DoReject(user, id, reason));
    RejectedBlocks(reg, user, id, reason, after);
    RejectedSets(reg, user, id, reason, after);
    RemoveAscending(reg.rows, s.below, id);
    assert forall x :: x in reg.rows ==> Stamp(after.rows[x]) == Stamp(reg.rows[x]);
  }

  lemma RejectedBlocks(reg: Registry, user: string, id: string, reason: string, after: Registry)
    requires Reject(reg, user, id, reason) == Reply.Done(after)
    ensures forall x :: Blocked(after.derivations, user, x) <==> Blocked(reg.derivations, user, x) || x == id
  {
    var d := after.derivations[|reg.derivations|];
    assert after.derivations == reg.derivations + [d];
    forall x ensures Blocked(after.derivations, user, x) <==> Blocked(reg.derivations, user, x) || x == id {
      BlockedGrows(reg.derivations, d, user, x);
    }
  }

  lemma RejectedSets(reg: Registry, user: string, id: string, reason: string, after: Registry)
    requires Reject(reg, user, id, reason) == Reply.Done(after)
    requires forall x :: Blocked(after.derivations, user, x) <==> Blocked(reg.derivations, user, x) || x == id
    ensures Eligible(after, user) == Eligible(reg, user) - {id} && ActiveSet(after, user) == ActiveSet(reg, user) - {id}
  {
  }

  lemma ForgetEmpties(reg: Registry, user: string)
    requires OneActive(reg)
    ensures Refines(Forget(reg, user), user, BOTTOM)
  {
    StepKeepsOneActive(reg, DoForget(user));
  }

  lemma StepRefines(reg: Registry, user: string, s: Stack, cmd: Cmd)
    requires Refines(reg, user, s) && Disciplined(reg, user, cmd)
    ensures Refines(Step(reg, cmd), user, if Exec(reg, cmd).Done? then Apply(s, user, cmd) else s)
  {
    if cmd.user != user || cmd.DoRegister? {
      OthersUnseen(reg, user, s, cmd);
    } else if Exec(reg, cmd).Done? {
      match cmd
      case DoPromote(_, id, now) => PromotePushes(reg, user, s, id, now);
      case DoReject(_, id, reason) => RejectTakesOut(reg, user, s, id, reason);
      case DoRollback(_) => RollbackPops(reg, user, s);
      case DoForget(_) => ForgetEmpties(reg, user);
    }
  }

  // ---------------------------------------------------------------- every interleaving

  /** The stack the successful commands of a run build. */
  function StackOf(user: string, cmds: seq<Cmd>): Stack {
    if cmds == [] then BOTTOM
    else
      var init, cmd := cmds[..|cmds| - 1], cmds[|cmds| - 1];
      if Exec(Run(EMPTY, init), cmd).Done? then Apply(StackOf(user, init), user, cmd) else StackOf(user, init)
  }

  /** Command `i` of the run is a promotion by this user, and it went through. */
  predicate Promotes(cmds: seq<Cmd>, user: string, i: nat)
    requires i < |cmds|
  {
    cmds[i].DoPromote? && cmds[i].user == user && Exec(Run(EMPTY, cmds[..i]), cmds[i]).Done?
  }

  /** No adapter of the user is promoted twice, and promotion times strictly increase. Promotions that failed do not
      count. */
  predicate PromotedOnce(cmds: seq<Cmd>, user: string) {
    forall i, j :: 0 <= i < j < |cmds| && Promotes(cmds, user, i) && Promotes(cmds, user, j) ==>
      cmds[i].id != cmds[j].id && cmds[i].now < cmds[j].now
  }

  lemma PrefixPromotes(cmds: seq<Cmd>, user: string, i: nat)
    requires i < |cmds| - 1
    ensures Promotes(cmds[..|cmds| - 1], user, i) <==> Promotes(cmds, user, i)
  {
    assert cmds[..|cmds| - 1][..i] == cmds[..i];
  }

  lemma PrefixOnce(cmds: seq<Cmd>, user: string)
    requires cmds != [] && PromotedOnce(cmds, user)
    ensures PromotedOnce(cmds[..|cmds| - 1], user)
  {
    var init := cmds[..|cmds| - 1];
    forall i, j | 0 <= i < j < |init| && Promotes(init, user, i) && Promotes(init, user, j)
      ensures init[i].id != init[j].id && init[i].now < init[j].now
    {
      PrefixPromotes(cmds, user, i);
      PrefixPromotes(cmds, user, j);
    }
  }

  predicate StampFrom(cmds: seq<Cmd>, user: string, id: string, row: Adapter) {
    exists i :: 0 <= i < |cmds| && Promotes(cmds, user, i) && cmds[i].id == id && row.promotedAt == Some(cmds[i].now)
  }

  /** Every stamp comes from a promotion in the run. */
  predicate StampsFrom(reg: Registry, user: string, cmds: seq<Cmd>) {
    forall x :: x in reg.rows && reg.rows[x].user == user && reg.rows[x].promotedAt.Some? ==>
      StampFrom(cmds, user, x, reg.rows[x])
  }

  lemma StampStays(cmds: seq<Cmd>, user: string, id: string, row: Adapter)
    requires cmds != [] && StampFrom(cmds[..|cmds| - 1], user, id, row)
    ensures StampFrom(cmds, user, id, row)
  {
    var init := cmds[..|cmds| - 1];
    var i :| 0 <= i < |init| && Promotes(init, user, i) && init[i].id == id && row.promotedAt == Some(init[i].now);
    PrefixPromotes(cmds, user, i);
  }

  /** A stamp the step brought in is that of a promotion that went through. */
  lemma NewStamp(reg: Registry, user: string, cmd: Cmd, x: string)
    requires x in Step(reg, cmd).rows && Step(reg, cmd).rows[x].user == user && Step(reg, cmd).rows[x].promotedAt.Some?
    ensures (x in reg.rows && reg.rows[x].user == user &&
            reg.rows[x].promotedAt == Step(reg, cmd).rows[x].promotedAt) ||
            (cmd.DoPromote? && cmd.user == user && cmd.id == x && Exec(reg, cmd).Done? &&
             Step(reg, cmd).rows[x].promotedAt == Some(cmd.now))
  {
  }

  lemma {:induction false} RunStamps(user: string, cmds: seq<Cmd>)
    ensures StampsFrom(Run(EMPTY, cmds), user, cmds)
  {
    if cmds != [] {
      var init, cmd := cmds[..|cmds| - 1], cmds[|cmds| - 1];
      RunStamps(user, init);
      var before, after := Run(EMPTY, init), Run(EMPTY, cmds);
      forall x | x in after.rows && after.rows[x].user == user && after.rows[x].promotedAt.Some?
        ensures StampFrom(cmds, user, x, after.rows[x])
      {
        NewStamp(before, user, cmd, x);
        if x in before.rows && before.rows[x].user == user && before.rows[x].promotedAt == after.rows[x].promotedAt {
          StampStays(cmds, user, x, before.rows[x]);
        } else {
          assert Promotes(cmds, user, |cmds| - 1);
        }
      }
    }
  }

  lemma OnceIsDisciplined(user: string, cmds: seq<Cmd>)
    requires cmds != [] && PromotedOnce(cmds, user)
    ensures Disciplined(Run(EMPTY, cmds[..|cmds| - 1]), user, cmds[|cmds| - 1])
  {
    var init, cmd := cmds[..|cmds| - 1], cmds[|cmds| - 1];
    RunStamps(user, init);
    var reg := Run(EMPTY, init);
    if cmd.DoPromote? && cmd.user == user && Owns(reg, user, cmd.id) {
      assert Promotes(cmds, user, |cmds| - 1);
      forall x | x in reg.rows && reg.rows[x].user == user && reg.rows[x].promotedAt.Some?
        ensures x != cmd.id && Stamp(reg.rows[x]) < cmd.now
      {
        var i :| 0 <= i < |init| && Promotes(init, user, i) && init[i].id == x &&
                 reg.rows[x].promotedAt == Some(init[i].now);
        PrefixPromotes(cmds, user, i);
      }
    }
  }

  /** Refinement over every interleaving of all users' commands: the registry is the stack, its active adapter the top,
      and a rollback succeeds exactly when the stack can pop, reactivating the adapter below. */
  lemma {:induction false} RegistryIsAStack(user: string, cmds: seq<Cmd>)
    requires PromotedOnce(cmds, user)
    ensures var reg, s := Run(EMPTY, cmds), StackOf(user, cmds);
            && Refines(reg, user, s)
            && ActiveId(reg, user) == s.active
            && (Rollback(reg, user).Done? <==> CanPop(s))
            && (CanPop(s) ==> ActiveId(Rollback(reg, user).after, user) == Some(s.below[|s.below| - 1]))
  {
    RefinesAlways(user, cmds);
    var reg, s := Run(EMPTY, cmds), StackOf(user, cmds);
    RollbackPops(reg, user, s);
    if s.active.Some? { assert ActiveId(reg, user).value in {s.active.value}; }
    if CanPop(s) {
      var after := Rollback(reg, user).after;
      assert ActiveId(after, user).value in ActiveSet(after, user);
    }
  }

  lemma {:induction false} RefinesAlways(user: string, cmds: seq<Cmd>)
    requires PromotedOnce(cmds, user)
    ensures Refines(Run(EMPTY, cmds), user, StackOf(user, cmds))
  {
    if cmds != [] {
      var init := cmds[..|cmds| - 1];
      PrefixOnce(cmds, user);
      RefinesAlways(user, init);
      OnceIsDisciplined(user, cmds);
      StepRefines(Run(EMPTY, init), user, StackOf(user, init), cmds[|cmds| - 1]);
    }
  }

  // ---------------------------------------------------------------- off the discipline

  function Row(active: bool, promotedAt: Option<nat>, createdAt: nat): Adapter {
    Adapter("u", active, promotedAt, createdAt)
  }

  const REGISTERED := Registry(
    map["a" := Row(false, None, 1), "b" := Row(false, None, 2), "c" := Row(false, None, 3)],
    [])

  const A_PROMOTED := Registry(
    map["a" := Row(true, Some(4), 1), "b" := Row(false, None, 2), "c" := Row(false, None, 3)],
    [])

  /** Adapter a was promoted before b, and b is active. */
  const TWO_PROMOTED := Registry(
    map["a" := Row(false, Some(4), 1), "b" := Row(true, Some(5), 2), "c" := Row(false, None, 3)],
    [Derivation("u", Some("a"), "b", Promoted)])

  const A_AGAIN := Registry(
    map["a" := Row(true, Some(4), 1), "b" := Row(false, Some(5), 2), "c" := Row(false, None, 3)],
    [Derivation("u", Some("a"), "b", Promoted), Derivation("u", Some("b"), "a", Promoted)])

  const REGISTRATIONS := [DoRegister("u", "a", 1), DoRegister("u", "b", 2), DoRegister("u", "c", 3)]

  lemma ARegistered()
    ensures Run(EMPTY, REGISTRATIONS) == REGISTERED
  {
    var one, two := [DoRegister("u", "a", 1)], [DoRegister("u", "a", 1), DoRegister("u", "b", 2)];
    assert one[..0] == [] && two[..1] == one && REGISTRATIONS[..2] == two;
    assert Run(EMPTY, one).rows == map["a" := Row(false, None, 1)];
    assert Run(EMPTY, two).rows == map["a" := Row(false, None, 1), "b" := Row(false, None, 2)];
    assert Run(EMPTY, REGISTRATIONS).rows == REGISTERED.rows;
  }

  /** A promotion, once the active adapter is known. */
  lemma Promotion(reg: Registry, id: string, now: nat, active: Option<string>, after: Registry)
    requires Owns(reg, "u", id) && ActiveSet(reg, "u") == (if active.Some? then {active.value} else {})
    requires forall x :: x in reg.rows ==> reg.rows[x].user == "u"
    requires after.rows.Keys == reg.rows.Keys
    requires forall x :: x in reg.rows && x != id ==> after.rows[x] == reg.rows[x].(active := false)
    requires after.rows[id] == reg.rows[id].(active := true, promotedAt := if reg.rows[id].promotedAt.Some?
                                                                          then reg.rows[id].promotedAt else Some(now))
    requires after.derivations == reg.derivations + if active.Some? && active.value != id
                                                    then [Derivation("u", active, id, Promoted)] else []
    ensures Step(reg, DoPromote("u", id, now)) == after
  {
    assert ActiveId(reg, "u") == active;
    assert Step(reg, DoPromote("u", id, now)).rows == after.rows;
  }

  /** The state with b active over a, from the empty registry. */
  lemma TwoArePromoted()
    ensures Run(EMPTY, REGISTRATIONS + [DoPromote("u", "a", 4), DoPromote("u", "b", 5)]) == TWO_PROMOTED
  {
    var four := REGISTRATIONS + [DoPromote("u", "a", 4)];
    var five := REGISTRATIONS + [DoPromote("u", "a", 4), DoPromote("u", "b", 5)];
    assert four[..3] == REGISTRATIONS && five[..4] == four;
    ARegistered();
    assert ActiveSet(REGISTERED, "u") == {};
    Promotion(REGISTERED, "a", 4, None, A_PROMOTED);
    assert ActiveSet(A_PROMOTED, "u") == {"a"};
    Promotion(A_PROMOTED, "b", 5, Some("a"), TWO_PROMOTED);
  }

  lemma PromotedAgain()
    ensures Step(TWO_PROMOTED, DoPromote("u", "a", 6)) == A_AGAIN
  {
    assert ActiveSet(TWO_PROMOTED, "u") == {"b"};
    Promotion(TWO_PROMOTED, "a", 6, Some("b"), A_AGAIN);
  }

  const B_OVER_A := REGISTRATIONS + [DoPromote("u", "a", 4), DoPromote("u", "b", 5)]

  /** Promoting an adapter a second time keeps its first stamp, and then rollback does not return to the adapter active
      before: with a promoted, b promoted, a promoted again and then c, rolling back does not reactivate a. */
  lemma RepromotionBreaksTheStack(again: Registry, promoted: Registry)
    requires again == Step(Run(EMPTY, B_OVER_A), DoPromote("u", "a", 6)) &&
             promoted == Step(again, DoPromote("u", "c", 7))
    ensures ActiveId(again, "u") == Some("a")
    ensures var undone := Rollback(promoted, "u"); !(undone.Done? && ActiveId(undone.after, "u") == Some("a"))
  {
    TwoArePromoted();
    PromotedAgain();
    BIsEligible();
    PromoteThenRollback(A_AGAIN, "u", "c", 7);
  }

  /** Promoted after a, not active and not blocked: b comes before a in the order of first promotions. */
  lemma BIsEligible()
    ensures OneActive(A_AGAIN) && Owns(A_AGAIN, "u", "c") && ActiveSet(A_AGAIN, "u") == {"a"}
    ensures ActiveId(A_AGAIN, "u") == Some("a")
    ensures "b" in Eligible(A_AGAIN, "u") && !Newer(A_AGAIN.rows, "a", "b")
  {
    assert ActiveSet(A_AGAIN, "u") == {"a"};
    assert forall d :: d in A_AGAIN.derivations ==> d.reason == Promoted;
  }
}
