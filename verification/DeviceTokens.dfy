/** The per-device bearer tokens of the sync server, kept by hash and persisted as records. */
module DeviceTokens {
  import opened Basics

  datatype Identity = Identity(device: string, user: string, issuedAt: string)
  datatype TokenRecord = TokenRecord(hash: string, identity: Identity)

  datatype Op = Bind(token: string, device: string, user: string, at: string) | Revoke(device: string)

  function Without(byHash: map<string, Identity>, device: string): map<string, Identity> {
    map h | h in byHash && byHash[h].device != device :: byHash[h]
  }

  function Apply(hash: string -> string, byHash: map<string, Identity>, op: Op): map<string, Identity> {
    match op
    case Bind(token, device, user, at) => Without(byHash, device)[hash(token) := Identity(device, user, at)]
    case Revoke(device) => Without(byHash, device)
  }

  function Replay(hash: string -> string, ops: seq<Op>): map<string, Identity> {
    if ops == [] then map[] else Apply(hash, Replay(hash, ops[..|ops| - 1]), ops[|ops| - 1])
  }

  ghost predicate Injective(hash: string -> string) {
    forall a: string, b: string :: hash(a) == hash(b) ==> a == b
  }

  // ---------------------------------------------------------------- the history decides

  /** The operation takes this token away from this device. */
  predicate Ends(op: Op, token: string, device: string) {
    op.device == device || (op.Bind? && op.token == token)
  }

  /** Operation `i` bound the token to the device, and nothing since took it away. */
  predicate Holds(ops: seq<Op>, i: nat, token: string, device: string) {
    && i < |ops| && ops[i].Bind? && ops[i].token == token && ops[i].device == device
    && forall j :: i < j < |ops| ==> !Ends(ops[j], token, device)
  }

  ghost predicate Held(ops: seq<Op>, token: string, device: string) {
    exists i: nat :: Holds(ops, i, token, device)
  }

  lemma HoldsThrough(ops: seq<Op>, op: Op, i: nat, token: string, device: string)
    requires i < |ops|
    ensures Holds(ops + [op], i, token, device) <==> Holds(ops, i, token, device) && !Ends(op, token, device)
  {
    var all := ops + [op];
    assert all[|ops|] == op && forall j :: 0 <= j < |ops| ==> all[j] == ops[j];
  }

  lemma HeldThrough(ops: seq<Op>, op: Op, token: string, device: string)
    ensures Held(ops + [op], token, device) <==>
            (op.Bind? && op.token == token && op.device == device) ||
            (Held(ops, token, device) && !Ends(op, token, device))
  {
    var all := ops + [op];
    if Held(all, token, device) {
      var i: nat :| Holds(all, i, token, device);
      if i < |ops| { HoldsThrough(ops, op, i, token, device); }
    }
    if op.Bind? && op.token == token && op.device == device { assert Holds(all, |ops|, token, device); }
    if Held(ops, token, device) && !Ends(op, token, device) {
      var i: nat :| Holds(ops, i, token, device);
      HoldsThrough(ops, op, i, token, device);
    }
  }

  /** A token verifies as a device exactly when its last bind was to that device and the device was neither bound nor
      revoked since. */
  lemma {:induction false} VerifyReadsHistory(hash: string -> string, ops: seq<Op>, token: string, device: string)
    requires Injective(hash)
    ensures var m := Replay(hash, ops);
            (hash(token) in m && m[hash(token)].device == device) <==> Held(ops, token, device)
  {
    if ops != [] {
      var init, op := ops[..|ops| - 1], ops[|ops| - 1];
      assert ops == init + [op];
      VerifyReadsHistory(hash, init, token, device);
      HeldThrough(init, op, token, device);
      if op.Bind? && op.token != token { assert hash(op.token) != hash(token); }
    }
  }

  /** The identity it verifies as is the one of that bind. */
  lemma {:induction false} IdentityOfLastBind(hash: string -> string, ops: seq<Op>, i: nat, token: string,
                                              device: string)
    requires Injective(hash) && Holds(ops, i, token, device)
    ensures var m := Replay(hash, ops);
            hash(token) in m && m[hash(token)] == Identity(device, ops[i].user, ops[i].at)
  {
    var init, op := ops[..|ops| - 1], ops[|ops| - 1];
    assert ops == init + [op];
    if i < |init| {
      HoldsThrough(init, op, i, token, device);
      IdentityOfLastBind(hash, init, i, token, device);
      if op.Bind? { assert hash(op.token) != hash(token); }
    }
  }

  predicate OneTokenEach(byHash: map<string, Identity>) {
    forall a, b :: (a in byHash && b in byHash && byHash[a].device == byHash[b].device) ==> a == b
  }

  lemma {:induction false} EveryDeviceHasOneToken(hash: string -> string, ops: seq<Op>)
    ensures OneTokenEach(Replay(hash, ops))
  {
    if ops != [] { EveryDeviceHasOneToken(hash, ops[..|ops| - 1]); }
  }

  // ---------------------------------------------------------------- persistence

  function FromRecords(records: seq<TokenRecord>): map<string, Identity> {
    if records == [] then map[]
    else
      var last := records[|records| - 1];
      FromRecords(records[..|records| - 1])[last.hash := last.identity]
  }

  /** The records list the map, in whatever order it was walked. */
  predicate Lists(records: seq<TokenRecord>, byHash: map<string, Identity>) {
    && (forall r :: r in records ==> r.hash in byHash && byHash[r.hash] == r.identity)
    && forall h :: h in byHash ==> TokenRecord(h, byHash[h]) in records
  }

  lemma {:induction false} ReadBack(records: seq<TokenRecord>, byHash: map<string, Identity>)
    requires forall r :: r in records ==> r.hash in byHash && byHash[r.hash] == r.identity
    ensures forall h :: h in FromRecords(records) <==> exists r :: r in records && r.hash == h
    ensures forall h :: h in FromRecords(records) ==> h in byHash && FromRecords(records)[h] == byHash[h]
  {
    if records != [] {
      var init, last := records[..|records| - 1], records[|records| - 1];
      assert records == init + [last];
      ReadBack(init, byHash);
      assert last in records;
      forall h | h in FromRecords(records) ensures exists r :: r in records && r.hash == h {
        if h != last.hash {
          var r :| r in init && r.hash == h;
          assert r in records;
        }
      }
    }
  }

  /** Reopening persisted records gives the same map, whatever order they were written in. */
  lemma ReopenIsIdentity(records: seq<TokenRecord>, byHash: map<string, Identity>)
    requires Lists(records, byHash)
    ensures FromRecords(records) == byHash
  {
    ReadBack(records, byHash);
    forall h | h in byHash ensures h in FromRecords(records) {
      assert TokenRecord(h, byHash[h]) in records;
    }
  }

  // ---------------------------------------------------------------- failing disks and restarts

  /** The map in memory and what the file reads back as. */
  datatype State = State(memory: map<string, Identity>, file: map<string, Identity>)

  datatype Action = Did(op: Op, diskFails: bool) | Restart

  function Step(hash: string -> string, s: State, a: Action): State {
    match a
    case Did(op, diskFails) =>
      var after := Apply(hash, s.memory, op);
      State(after, if diskFails then s.file else after)
    case Restart => State(s.file, s.file)
  }

  function Run(hash: string -> string, actions: seq<Action>): State {
    if actions == [] then State(map[], map[])
    else Step(hash, Run(hash, actions[..|actions| - 1]), actions[|actions| - 1])
  }

  /** The operations that count: for the file, those the memory had behind it at the last write that went through; for
      the memory, those the last restart read back and all since. */
  datatype Histories = Histories(done: seq<Op>, saved: seq<Op>)

  function Counted(actions: seq<Action>): Histories {
    if actions == [] then Histories([], [])
    else
      var h := Counted(actions[..|actions| - 1]);
      match actions[|actions| - 1]
      case Did(op, diskFails) => Histories(h.done + [op], if diskFails then h.saved else h.done + [op])
      case Restart => Histories(h.saved, h.saved)
  }

  lemma ReplayAppend(hash: string -> string, ops: seq<Op>, op: Op)
    ensures Replay(hash, ops + [op]) == Apply(hash, Replay(hash, ops), op)
  {
    assert (ops + [op])[..|ops|] == ops;
  }

  /** Over every run with failing writes and restarts, memory and file are the replays of these two histories. */
  lemma {:induction false} EveryRunIsAReplay(hash: string -> string, actions: seq<Action>)
    ensures Run(hash, actions) ==
            State(Replay(hash, Counted(actions).done), Replay(hash, Counted(actions).saved))
  {
    if actions != [] {
      var init, last := actions[..|actions| - 1], actions[|actions| - 1];
      EveryRunIsAReplay(hash, init);
      if last.Did? { ReplayAppend(hash, Counted(init).done, last.op); }
    }
  }

  /** So a token verifies as a device, now and after a restart, exactly when the operations that count gave it and did
      not take it back. A revoke whose write failed does not count after a restart. */
  lemma EveryRunVerifies(hash: string -> string, actions: seq<Action>, token: string, device: string)
    requires Injective(hash)
    ensures var s := Run(hash, actions);
            && (Verifies(hash, s.memory, token, device) <==> Held(Counted(actions).done, token, device))
            && (Verifies(hash, s.file, token, device) <==> Held(Counted(actions).saved, token, device))
  {
    EveryRunIsAReplay(hash, actions);
    VerifyReadsHistory(hash, Counted(actions).done, token, device);
    VerifyReadsHistory(hash, Counted(actions).saved, token, device);
  }

  predicate Verifies(hash: string -> string, byHash: map<string, Identity>, token: string, device: string) {
    hash(token) in byHash && byHash[hash(token)].device == device
  }

  /** The operation would change nothing: the very binding is there already, or there is none to revoke. */
  predicate Idle(hash: string -> string, byHash: map<string, Identity>, op: Op) {
    match op
    case Bind(token, device, user, at) =>
      hash(token) in byHash && byHash[hash(token)] == Identity(device, user, at)
    case Revoke(device) => forall h :: h in byHash ==> byHash[h].device != device
  }

  lemma IdleIff(hash: string -> string, byHash: map<string, Identity>, op: Op)
    requires OneTokenEach(byHash)
    ensures Apply(hash, byHash, op) == byHash <==> Idle(hash, byHash, op)
  {
    var after := Apply(hash, byHash, op);
    if op.Revoke? && after == byHash { assert forall h :: h in byHash ==> h in Without(byHash, op.device); }
    if op.Bind? && after == byHash { assert after[hash(op.token)] == Identity(op.device, op.user, op.at); }
  }

  lemma RunHasOneTokenEach(hash: string -> string, actions: seq<Action>)
    ensures OneTokenEach(Run(hash, actions).memory) && OneTokenEach(Run(hash, actions).file)
  {
    EveryRunIsAReplay(hash, actions);
    EveryDeviceHasOneToken(hash, Counted(actions).done);
    EveryDeviceHasOneToken(hash, Counted(actions).saved);
  }

  /** An operation whose write fails is lost by the next restart, and the map read back is the one the full history has
      exactly when the operation would have changed nothing. */
  lemma FailedWriteIsLostIff(hash: string -> string, actions: seq<Action>, op: Op)
    requires Run(hash, actions).memory == Run(hash, actions).file
    ensures var before, after := Run(hash, actions), Run(hash, actions + [Did(op, true)]);
            && Step(hash, after, Restart) == before
            && (Step(hash, after, Restart).memory == after.memory <==> Idle(hash, before.memory, op))
  {
    assert (actions + [Did(op, true)])[..|actions|] == actions;
    RunHasOneTokenEach(hash, actions);
    IdleIff(hash, Run(hash, actions).memory, op);
  }

  function Revocations(devices: seq<string>): seq<Action> {
    seq(|devices|, i requires 0 <= i < |devices| => Did(Revoke(devices[i]), true))
  }

  /** However many revocations fail to be written: a restart brings every revoked token back, and nothing else differs.
      */
  lemma {:induction false} FailedRevocationsComeBack(hash: string -> string, actions: seq<Action>, devices: seq<string>)
    requires Run(hash, actions).memory == Run(hash, actions).file
    ensures var before, after := Run(hash, actions), Run(hash, actions + Revocations(devices));
            && Step(hash, after, Restart) == before
            && after.memory == map h | h in before.memory && before.memory[h].device !in devices :: before.memory[h]
  {
    var before := Run(hash, actions);
    if devices == [] {
      assert actions + Revocations(devices) == actions;
      assert before.memory == map h | h in before.memory && before.memory[h].device !in devices :: before.memory[h];
    } else {
      var init, last := devices[..|devices| - 1], devices[|devices| - 1];
      FailedRevocationsComeBack(hash, actions, init);
      var all := actions + Revocations(devices);
      assert all[..|all| - 1] == actions + Revocations(init) && all[|all| - 1] == Did(Revoke(last), true);
      assert devices == init + [last];
    }
  }

  class DeviceTokenStore {
    const hash: string -> string
    var byHash: map<string, Identity>
    var disk: Option<seq<TokenRecord>>

    /** An absent file is an empty store. */
    constructor Open(hash: string -> string, file: Option<seq<TokenRecord>>)
      ensures this.hash == hash && disk == file
      ensures byHash == if file.Some? then FromRecords(file.value) else map[]
    {
      var loaded: map<string, Identity> := map[];
      if file.Some? {
        var records := file.value;
        for i := 0 to |records|
          invariant loaded == FromRecords(records[..i])
        {
          assert records[..i + 1][..i] == records[..i];
          loaded := loaded[records[i].hash := records[i].identity];
        }
        assert records[..|records|] == records;
      }
      this.hash := hash;
      byHash := loaded;
      disk := file;
    }

    /** Writes every binding, in no particular order; a failing disk keeps the old file. */
    method Persist(diskFails: bool) returns (ok: bool)
      modifies this`disk
      ensures ok == !diskFails
      ensures if ok then disk.Some? && Lists(disk.value, byHash) && FromRecords(disk.value) == byHash
              else disk == old(disk)
    {
      var records: seq<TokenRecord>, left := [], byHash.Keys;
      while left != {}
        invariant left <= byHash.Keys && disk == old(disk)
        invariant forall r :: r in records ==> r.hash in byHash && byHash[r.hash] == r.identity
        invariant forall h :: h in byHash && h !in left ==> TokenRecord(h, byHash[h]) in records
        decreases left
      {
        var h :| h in left;
        records := records + [TokenRecord(h, byHash[h])];
        left := left - {h};
      }
      if diskFails { return false; }
      ReopenIsIdentity(records, byHash);
      disk := Some(records);
      return true;
    }

    /** Memory changes first; an error leaves it changed and the file as it was. */
    method BindToken(token: string, device: string, user: string, at: string, diskFails: bool) returns (ok: bool)
      modifies this
      ensures byHash == Apply(hash, old(byHash), Bind(token, device, user, at))
      ensures ok == !diskFails && (if ok then disk.Some? && FromRecords(disk.value) == byHash else disk == old(disk))
    {
      byHash := map h | h in byHash && byHash[h].device != device :: byHash[h];
      byHash := byHash[hash(token) := Identity(device, user, at)];
      ok := Persist(diskFails);
    }

    method RevokeDevice(device: string, diskFails: bool) returns (ok: bool)
      modifies this
      ensures byHash == Apply(hash, old(byHash), Revoke(device))
      ensures ok == !diskFails && (if ok then disk.Some? && FromRecords(disk.value) == byHash else disk == old(disk))
    {
      byHash := map h | h in byHash && byHash[h].device != device :: byHash[h];
      ok := Persist(diskFails);
    }

    method Verify(presented: string) returns (identity: Option<Identity>)
      ensures identity == if hash(presented) in byHash then Some(byHash[hash(presented)]) else None
    {
      if hash(presented) in byHash { return Some(byHash[hash(presented)]); }
      return None;
    }
  }
}
