/** The two stores: in memory, and one file shared by two processes (adapters/shuttle/src/pairing.ts). */
module PairingStores {
  import opened Common
  import opened Pairing

  // ---- operations as values ---------------------------------------------------

  datatype Op =
    | IsApproved(channel: string, userId: string)
    | Request(channel: string, userId: string, generated: string)
    | Approve(channel: string, code: string)

  datatype Result = Known(yes: bool) | Requested(r: RequestResult) | Decided(d: ApproveResult)

  function Apply(cfg: Config, salt: string, st: Store, t: int, op: Op): (Store, Result) {
    match op
    case IsApproved(channel, userId) => (st, Known(Key(channel, userId) in st.approved))
    case Request(channel, userId, generated) =>
      var (st', r) := RequestCode(cfg, salt, st, t, channel, userId, generated);
      (st', Requested(r))
    case Approve(channel, code) =>
      var (st', d) := ApproveCode(cfg, salt, st, t, channel, code);
      (st', Decided(d))
  }

  // ---- the salt never shows ---------------------------------------------------

  ghost predicate SamePending(a: string, p: map<string, Entry>, b: string, q: map<string, Entry>) {
    forall x :: (Digest(a, x) in p <==> Digest(b, x) in q) && (Digest(a, x) in p ==> p[Digest(a, x)] == q[Digest(b, x)])
  }

  /** Two stores that differ only in the salt their codes were hashed with. */
  ghost predicate SameUpToSalt(a: string, s1: Store, b: string, s2: Store) {
    && s1.approved == s2.approved && s1.lastRequest == s2.lastRequest
    && s1.failCount == s2.failCount && s1.lockUntil == s2.lockUntil
    && SamePending(a, s1.pending, b, s2.pending)
  }

  lemma PurgeSamePending(a: string, p: map<string, Entry>, b: string, q: map<string, Entry>, t: int)
    requires SamePending(a, p, b, q)
    ensures SamePending(a, Purge(p, t), b, Purge(q, t))
  {
  }

  lemma PutSamePending(a: string, p: map<string, Entry>, b: string, q: map<string, Entry>, x: string, e: Entry)
    requires SamePending(a, p, b, q)
    ensures SamePending(a, p[Digest(a, x) := e], b, q[Digest(b, x) := e])
  {
    var p', q' := p[Digest(a, x) := e], q[Digest(b, x) := e];
    forall y
      ensures (Digest(a, y) in p' <==> Digest(b, y) in q') && (Digest(a, y) in p' ==> p'[Digest(a, y)] == q'[Digest(b, y)])
    {
      if Digest(a, y) == Digest(a, x) { DigestInjective(a, y, x); }
      if Digest(b, y) == Digest(b, x) { DigestInjective(b, y, x); }
    }
  }

  lemma DropSamePending(a: string, p: map<string, Entry>, b: string, q: map<string, Entry>, x: string)
    requires SamePending(a, p, b, q)
    ensures SamePending(a, p - {Digest(a, x)}, b, q - {Digest(b, x)})
  {
    var p', q' := p - {Digest(a, x)}, q - {Digest(b, x)};
    forall y
      ensures (Digest(a, y) in p' <==> Digest(b, y) in q') && (Digest(a, y) in p' ==> p'[Digest(a, y)] == q'[Digest(b, y)])
    {
      if Digest(a, y) == Digest(a, x) { DigestInjective(a, y, x); }
      if Digest(b, y) == Digest(b, x) { DigestInjective(b, y, x); }
    }
  }

  lemma RequestUpToSalt(cfg: Config, a: string, s1: Store, b: string, s2: Store, t: int,
                        channel: string, userId: string, generated: string)
    requires SameUpToSalt(a, s1, b, s2)
    ensures var (s1', r1) := RequestCode(cfg, a, s1, t, channel, userId, generated);
            var (s2', r2) := RequestCode(cfg, b, s2, t, channel, userId, generated);
            r1 == r2 && SameUpToSalt(a, s1', b, s2')
  {
    hide Digest, Purge, SamePending;
    PurgeSamePending(a, s1.pending, b, s2.pending, t);
    PutSamePending(a, Purge(s1.pending, t), b, Purge(s2.pending, t), channel + ":" + generated,
                   Entry(channel, userId, t + cfg.codeTtlMs));
  }

  lemma ApproveUpToSalt(cfg: Config, a: string, s1: Store, b: string, s2: Store, t: int, channel: string, code: string)
    requires SameUpToSalt(a, s1, b, s2)
    ensures var (s1', r1) := ApproveCode(cfg, a, s1, t, channel, code);
            var (s2', r2) := ApproveCode(cfg, b, s2, t, channel, code);
            r1 == r2 && SameUpToSalt(a, s1', b, s2')
  {
    hide Digest, Purge, Normalize;
    var x := channel + ":" + Normalize(code);
    assert Digest(a, x) in s1.pending <==> Digest(b, x) in s2.pending;
    PurgeSamePending(a, s1.pending, b, s2.pending, t);
    DropSamePending(a, Purge(s1.pending, t), b, Purge(s2.pending, t), x);
  }

  /** One operation gives the same result under either salt, and keeps the stores the same up to it. */
  lemma ApplyUpToSalt(cfg: Config, a: string, s1: Store, b: string, s2: Store, t: int, op: Op)
    requires SameUpToSalt(a, s1, b, s2)
    ensures Apply(cfg, a, s1, t, op).1 == Apply(cfg, b, s2, t, op).1
    ensures SameUpToSalt(a, Apply(cfg, a, s1, t, op).0, b, Apply(cfg, b, s2, t, op).0)
  {
    hide RequestCode, ApproveCode;
    match op
    case IsApproved(_, _) =>
    case Request(channel, userId, generated) => RequestUpToSalt(cfg, a, s1, b, s2, t, channel, userId, generated);
    case Approve(channel, code) => ApproveUpToSalt(cfg, a, s1, b, s2, t, channel, code);
  }

  datatype TimedOp = TimedOp(t: int, op: Op)

  /** The store after a list of timed operations. */
  function StoreAfter(cfg: Config, salt: string, st: Store, ops: seq<TimedOp>): Store {
    if ops == [] then st
    else Apply(cfg, salt, StoreAfter(cfg, salt, st, ops[..|ops| - 1]), ops[|ops| - 1].t, ops[|ops| - 1].op).0
  }

  /** What the operations return, one result each. */
  function Results(cfg: Config, salt: string, st: Store, ops: seq<TimedOp>): seq<Result> {
    if ops == [] then []
    else
      var front, last := ops[..|ops| - 1], ops[|ops| - 1];
      Results(cfg, salt, st, front) + [Apply(cfg, salt, StoreAfter(cfg, salt, st, front), last.t, last.op).1]
  }

  /** Over whole runs the salt is invisible. */
  lemma {:induction false} ResultsIgnoreSalt(cfg: Config, a: string, s1: Store, b: string, s2: Store, ops: seq<TimedOp>)
    requires SameUpToSalt(a, s1, b, s2)
    ensures Results(cfg, a, s1, ops) == Results(cfg, b, s2, ops)
    ensures SameUpToSalt(a, StoreAfter(cfg, a, s1, ops), b, StoreAfter(cfg, b, s2, ops))
  {
    hide Apply, SameUpToSalt;
    if ops != [] {
      var front, last := ops[..|ops| - 1], ops[|ops| - 1];
      ResultsIgnoreSalt(cfg, a, s1, b, s2, front);
      ApplyUpToSalt(cfg, a, StoreAfter(cfg, a, s1, front), b, StoreAfter(cfg, b, s2, front), last.t, last.op);
    }
  }

  // ---- in memory --------------------------------------------------------------

  class InMemoryPairingStore {
    const cfg: Config
    const salt: string
    var approved: set<string>
    var pending: map<string, Entry>
    var lastRequest: map<string, int>
    var failCount: map<string, int>
    var lockUntil: map<string, int>

    ghost function State(): Store
      reads this
    {
      Store(approved, pending, lastRequest, failCount, lockUntil)
    }

    constructor (cfg: Config, salt: string)
      ensures this.cfg == cfg && this.salt == salt && State() == EMPTY_STORE
    {
      this.cfg, this.salt := cfg, salt;
      approved, pending, lastRequest, failCount, lockUntil := {}, map[], map[], map[], map[];
    }

    method PurgeExpired(t: int)
      modifies this`pending
      ensures pending == Purge(old(pending), t)
    {
      var keys := pending.Keys;
      while keys != {}
        invariant keys <= pending.Keys
        invariant forall h :: h in pending ==> h in old(pending) && pending[h] == old(pending)[h]
        invariant forall h :: h in old(pending) && old(pending)[h].expiresAt > t ==> h in pending
        invariant forall h :: h in pending && h !in keys ==> pending[h].expiresAt > t
        decreases keys
      {
        var h :| h in keys;
        if pending[h].expiresAt <= t { pending := pending - {h}; }
        keys := keys - {h};
      }
    }

    method IsApproved(channel: string, userId: string) returns (yes: bool)
      ensures (State(), Known(yes)) == Apply(cfg, salt, State(), 0, Op.IsApproved(channel, userId))
    {
      yes := Key(channel, userId) in approved;
    }

    method RequestCode(t: int, channel: string, userId: string, generated: string) returns (r: RequestResult)
      modifies this
      ensures (State(), r) == Pairing.RequestCode(cfg, salt, old(State()), t, channel, userId, generated)
    {
      var k := Key(channel, userId);
      if k in lastRequest && t - lastRequest[k] < cfg.cooldownMs { return RateLimited; }
      PurgeExpired(t);
      pending := pending[HashOf(salt, channel, generated) := Entry(channel, userId, t + cfg.codeTtlMs)];
      lastRequest := lastRequest[k := t];
      r := Minted(generated);
    }

    method ApproveCode(t: int, channel: string, code: string) returns (r: ApproveResult)
      modifies this
      ensures (State(), r) == Pairing.ApproveCode(cfg, salt, old(State()), t, channel, code)
    {
      if channel in lockUntil && t < lockUntil[channel] { return ApproveResult(false, None, true); }
      PurgeExpired(t);
      var h := HashOf(salt, channel, Normalize(code));
      if h in pending && pending[h].channel == channel && pending[h].expiresAt > t {
        var userId := pending[h].userId;
        pending := pending - {h};
        approved := approved + {Key(channel, userId)};
        failCount := failCount[channel := 0];
        return ApproveResult(true, Some(userId), false);
      }
      var fails := (if channel in failCount then failCount[channel] else 0) + 1;
      if fails >= cfg.maxFailed {
        lockUntil := lockUntil[channel := t + cfg.lockoutMs];
        failCount := failCount[channel := 0];
        return ApproveResult(false, None, true);
      }
      failCount := failCount[channel := fails];
      r := ApproveResult(false, None, false);
    }

    method Perform(t: int, op: Op) returns (r: Result)
      modifies this
      ensures (State(), r) == Apply(cfg, salt, old(State()), t, op)
    {
      match op
      case IsApproved(channel, userId) => var yes := IsApproved(channel, userId); r := Known(yes);
      case Request(channel, userId, generated) =>
        var q := RequestCode(t, channel, userId, generated); r := Requested(q);
      case Approve(channel, code) => var d := ApproveCode(t, channel, code); r := Decided(d);
    }
  }

  // ---- on file ----------------------------------------------------------------

  datatype FileState = FileState(
    salt: string,
    approved: seq<string>,
    pending: map<string, Entry>,
    lastRequest: map<string, int>,
    failCount: map<string, int>,
    lockUntil: map<string, int>)

  /** `Unreadable` is a file that does not parse. */
  datatype File = Absent | Unreadable | Saved(state: FileState)

  /** A file that `load` takes its state from; one without a salt counts as corrupt. */
  predicate Readable(file: File) {
    file.Saved? && file.state.salt != ""
  }

  function Elements(s: seq<string>): set<string> {
    set x | x in s
  }

  function AsStore(f: FileState): Store {
    Store(Elements(f.approved), f.pending, f.lastRequest, f.failCount, f.lockUntil)
  }

  /** What `load` returns; `newSalt` is the random salt drawn when there is nothing to read. */
  function Loaded(file: File, newSalt: string): FileState {
    if Readable(file) then file.state else FileState(newSalt, [], map[], map[], map[], map[])
  }

  /** The approved list with `key` on it, appended unless it is there already. */
  function Listed(approved: seq<string>, key: string): seq<string> {
    if key in approved then approved else approved + [key]
  }

  /** The file that holds the loaded state, now with the fields of `st` and the approved list `approved`. */
  function SavedAs(s: FileState, approved: seq<string>, st: Store): File {
    Saved(FileState(s.salt, approved, st.pending, st.lastRequest, st.failCount, st.lockUntil))
  }

  /**
   * One operation on the file: the result the loaded state gives, and the file afterwards. A refused
   * request, a locked approval and a look-up leave it as it was; everything else saves.
   */
  function FileApply(cfg: Config, file: File, t: int, op: Op, newSalt: string): (File, Result) {
    var s := Loaded(file, newSalt);
    var (st', r) := Apply(cfg, s.salt, AsStore(s), t, op);
    match op
    case IsApproved(_, _) => (file, r)
    case Request(_, _, _) => (if r.r.Minted? then SavedAs(s, s.approved, st') else file, r)
    case Approve(channel, _) =>
      if IsLocked(AsStore(s), t, channel) then (file, r)
      else
        (SavedAs(s, if r.d.approved then Listed(s.approved, Key(channel, r.d.userId.value)) else s.approved, st'), r)
  }

  class Disk {
    var file: File
    constructor ()
      ensures file == Absent
    {
      file := Absent;
    }
  }

  class FilePairingStore {
    const cfg: Config
    const disk: Disk

    constructor (cfg: Config, disk: Disk)
      ensures this.cfg == cfg && this.disk == disk
    {
      this.cfg, this.disk := cfg, disk;
    }

    method PurgeExpired(state: FileState, t: int) returns (s: FileState)
      ensures s == state.(pending := Purge(state.pending, t))
    {
      var keys, pending := state.pending.Keys, state.pending;
      while keys != {}
        invariant keys <= pending.Keys
        invariant forall h :: h in pending ==> h in state.pending && pending[h] == state.pending[h]
        invariant forall h :: h in state.pending && state.pending[h].expiresAt > t ==> h in pending
        invariant forall h :: h in pending && h !in keys ==> pending[h].expiresAt > t
        decreases keys
      {
        var h :| h in keys;
        if pending[h].expiresAt <= t { pending := pending - {h}; }
        keys := keys - {h};
      }
      s := state.(pending := pending);
    }

    method IsApproved(channel: string, userId: string, newSalt: string) returns (yes: bool)
      ensures (disk.file, Known(yes)) == FileApply(cfg, disk.file, 0, Op.IsApproved(channel, userId), newSalt)
    {
      var state := Loaded(disk.file, newSalt);
      yes := Key(channel, userId) in state.approved;
    }

    method RequestCode(t: int, channel: string, userId: string, generated: string, newSalt: string) returns (r: RequestResult)
      modifies disk
      ensures (disk.file, Requested(r)) == FileApply(cfg, old(disk.file), t, Op.Request(channel, userId, generated), newSalt)
    {
      var state := Loaded(disk.file, newSalt);
      var k := Key(channel, userId);
      if k in state.lastRequest && t - state.lastRequest[k] < cfg.cooldownMs { return RateLimited; }
      state := PurgeExpired(state, t);
      state := state.(pending := state.pending[HashOf(state.salt, channel, generated) := Entry(channel, userId, t + cfg.codeTtlMs)],
                      lastRequest := state.lastRequest[k := t]);
      disk.file := Saved(state);
      r := Minted(generated);
    }

    method ApproveCode(t: int, channel: string, code: string, newSalt: string) returns (r: ApproveResult)
      modifies disk
      ensures (disk.file, Decided(r)) == FileApply(cfg, old(disk.file), t, Op.Approve(channel, code), newSalt)
    {
      hide Normalize, HashOf;
      var state := Loaded(disk.file, newSalt);
      if channel in state.lockUntil && t < state.lockUntil[channel] { return ApproveResult(false, None, true); }
      state := PurgeExpired(state, t);
      var h := HashOf(state.salt, channel, Normalize(code));
      if h in state.pending && state.pending[h].channel == channel && state.pending[h].expiresAt > t {
        var userId := state.pending[h].userId;
        var k := Key(channel, userId);
        state := state.(pending := state.pending - {h});
        if k !in state.approved { state := state.(approved := state.approved + [k]); }
        state := state.(failCount := state.failCount[channel := 0]);
        disk.file := Saved(state);
        return ApproveResult(true, Some(userId), false);
      }
      var fails := (if channel in state.failCount then state.failCount[channel] else 0) + 1;
      if fails >= cfg.maxFailed {
        disk.file := Saved(state.(lockUntil := state.lockUntil[channel := t + cfg.lockoutMs],
                                  failCount := state.failCount[channel := 0]));
        return ApproveResult(false, None, true);
      }
      disk.file := Saved(state.(failCount := state.failCount[channel := fails]));
      r := ApproveResult(false, None, false);
    }

    method Perform(t: int, op: Op, newSalt: string) returns (r: Result)
      modifies disk
      ensures (disk.file, r) == FileApply(cfg, old(disk.file), t, op, newSalt)
    {
      match op
      case IsApproved(channel, userId) => var yes := IsApproved(channel, userId, newSalt); r := Known(yes);
      case Request(channel, userId, generated) =>
        var q := RequestCode(t, channel, userId, generated, newSalt); r := Requested(q);
      case Approve(channel, code) => var d := ApproveCode(t, channel, code, newSalt); r := Decided(d);
    }
  }

  // ---- refinement -------------------------------------------------------------

  /** The file and the in-memory store agree: nothing readable and nothing known, or the same up to salt. */
  ghost predicate Agree(file: File, salt: string, st: Store) {
    if Readable(file) then SameUpToSalt(file.state.salt, AsStore(file.state), salt, st) else st == EMPTY_STORE
  }

  /** From a readable file on the salt stays what it is. */
  ghost predicate KeepsSalt(before: File, after: File) {
    Readable(before) ==> Readable(after) && after.state.salt == before.state.salt
  }

  /** No approval is listed twice. */
  ghost predicate ListsOnce(file: File) {
    Readable(file) ==> Distinct(file.state.approved)
  }

  /** The saved file is the store the operation leads to. */
  lemma FileApplyIsApply(cfg: Config, file: File, t: int, op: Op, newSalt: string)
    ensures var s := Loaded(file, newSalt);
            var (file', r) := FileApply(cfg, file, t, op, newSalt);
            var (st', r') := Apply(cfg, s.salt, AsStore(s), t, op);
            && r == r'
            && (|| (file'.Saved? && file'.state.salt == s.salt && AsStore(file'.state) == st')
                || (file' == file && st' == AsStore(s)))
  {
    hide Purge, HashOf, Normalize;
    var s := Loaded(file, newSalt);
    if op.Approve? {
      var r := ApproveCode(cfg, s.salt, AsStore(s), t, op.channel, op.code).1;
      if r.approved {
        var k := Key(op.channel, r.userId.value);
        assert Elements(Listed(s.approved, k)) == Elements(s.approved) + {k};
      }
    }
  }

  /** One operation: the file answers as the in-memory store does, and the two agree again. */
  lemma FileStepAgrees(cfg: Config, file: File, salt: string, st: Store, t: int, op: Op, newSalt: string)
    requires Agree(file, salt, st) && newSalt != ""
    ensures FileApply(cfg, file, t, op, newSalt).1 == Apply(cfg, salt, st, t, op).1
    ensures Agree(FileApply(cfg, file, t, op, newSalt).0, salt, Apply(cfg, salt, st, t, op).0)
    ensures KeepsSalt(file, FileApply(cfg, file, t, op, newSalt).0)
  {
    hide Apply, FileApply, SamePending;
    var s := Loaded(file, newSalt);
    assert SameUpToSalt(s.salt, AsStore(s), salt, st) by { if !Readable(file) { NothingPending(s.salt, salt); } }
    FileApplyIsApply(cfg, file, t, op, newSalt);
    ApplyUpToSalt(cfg, s.salt, AsStore(s), salt, st, t, op);
    var file', st' := FileApply(cfg, file, t, op, newSalt).0, Apply(cfg, salt, st, t, op).0;
    if !Readable(file') { OnlyLookupsLeaveNothing(cfg, file, t, op, newSalt, salt, st); }
  }

  /** Without a readable file, every operation but a look-up writes one. */
  lemma OnlyLookupsLeaveNothing(cfg: Config, file: File, t: int, op: Op, newSalt: string, salt: string, st: Store)
    requires newSalt != "" && !Readable(FileApply(cfg, file, t, op, newSalt).0)
    ensures !Readable(file) && Apply(cfg, salt, st, t, op).0 == st
  {
    hide Purge, HashOf, Redeemable;
  }

  lemma NothingPending(a: string, b: string)
    ensures SamePending(a, map[], b, map[])
  {
  }

  lemma FileStepListsOnce(cfg: Config, file: File, t: int, op: Op, newSalt: string)
    requires ListsOnce(file)
    ensures ListsOnce(FileApply(cfg, file, t, op, newSalt).0)
  {
    hide ApproveCode, RequestCode;
  }

  /** Which process issues the call; `newSalt` is the salt it would draw if it found no file. */
  datatype Call = Call(fromCli: bool, t: int, newSalt: string, op: Op)

  ghost predicate DrawsSalts(calls: seq<Call>) {
    forall i :: 0 <= i < |calls| ==> calls[i].newSalt != ""
  }

  function Ops(calls: seq<Call>): seq<TimedOp> {
    seq(|calls|, i requires 0 <= i < |calls| => TimedOp(calls[i].t, calls[i].op))
  }

  /** The file after calls of either process. */
  function FileAfter(cfg: Config, file: File, calls: seq<Call>): File {
    if calls == [] then file
    else
      var c := calls[|calls| - 1];
      FileApply(cfg, FileAfter(cfg, file, calls[..|calls| - 1]), c.t, c.op, c.newSalt).0
  }

  function FileResults(cfg: Config, file: File, calls: seq<Call>): seq<Result> {
    if calls == [] then []
    else
      var front, c := calls[..|calls| - 1], calls[|calls| - 1];
      FileResults(cfg, file, front) + [FileApply(cfg, FileAfter(cfg, file, front), c.t, c.op, c.newSalt).1]
  }

  /**
   * Calls of two processes in any order on one file return what a single in-memory store returns on
   * the same timed operations, and file and store agree afterwards.
   */
  lemma {:induction false} FileActsAsOneStore(cfg: Config, file: File, salt: string, st: Store, calls: seq<Call>)
    requires Agree(file, salt, st) && DrawsSalts(calls)
    ensures FileResults(cfg, file, calls) == Results(cfg, salt, st, Ops(calls))
    ensures Agree(FileAfter(cfg, file, calls), salt, StoreAfter(cfg, salt, st, Ops(calls)))
  {
    hide Apply, FileApply, Agree, KeepsSalt;
    if calls != [] {
      var front, c := calls[..|calls| - 1], calls[|calls| - 1];
      FileActsAsOneStore(cfg, file, salt, st, front);
      assert Ops(calls)[..|calls| - 1] == Ops(front);
      FileStepAgrees(cfg, FileAfter(cfg, file, front), salt, StoreAfter(cfg, salt, st, Ops(front)), c.t, c.op, c.newSalt);
    }
  }

  /** Over a whole run the salt is fixed from the first save on, and no approval is ever listed twice. */
  lemma {:induction false} SaltIsFixed(cfg: Config, file: File, calls: seq<Call>, m: nat, n: nat)
    requires m <= n <= |calls| && DrawsSalts(calls)
    ensures KeepsSalt(FileAfter(cfg, file, calls[..m]), FileAfter(cfg, file, calls[..n]))
    ensures ListsOnce(file) ==> ListsOnce(FileAfter(cfg, file, calls[..n]))
    decreases n
  {
    hide FileApply, ListsOnce;
    if n == 0 {
      assert calls[..0] == [];
    } else {
      var k, c := n - 1, calls[n - 1];
      assert calls[..n][..k] == calls[..k] && calls[..n][k] == c;
      FileStepKeepsSalt(cfg, FileAfter(cfg, file, calls[..k]), c.t, c.op, c.newSalt);
      SaltIsFixed(cfg, file, calls, if m < n then m else k, k);
      if ListsOnce(FileAfter(cfg, file, calls[..k])) {
        FileStepListsOnce(cfg, FileAfter(cfg, file, calls[..k]), c.t, c.op, c.newSalt);
      }
    }
  }

  lemma FileStepKeepsSalt(cfg: Config, file: File, t: int, op: Op, newSalt: string)
    requires newSalt != ""
    ensures KeepsSalt(file, FileApply(cfg, file, t, op, newSalt).0)
  {
    hide ApproveCode, RequestCode;
  }

  /** The two processes and the in-memory store as objects: each call goes to its own process. */
  method TwoProcessesActAsOneStore(runner: FilePairingStore, cli: FilePairingStore, memory: InMemoryPairingStore, calls: seq<Call>)
    returns (fromFile: seq<Result>, fromMemory: seq<Result>)
    requires runner.disk == cli.disk && runner.cfg == cli.cfg == memory.cfg
    requires Agree(runner.disk.file, memory.salt, memory.State()) && DrawsSalts(calls)
    modifies runner.disk, memory
    ensures runner.disk.file == FileAfter(runner.cfg, old(runner.disk.file), calls)
    ensures memory.State() == StoreAfter(memory.cfg, memory.salt, old(memory.State()), Ops(calls))
    ensures fromFile == fromMemory == Results(memory.cfg, memory.salt, old(memory.State()), Ops(calls))
    ensures Agree(runner.disk.file, memory.salt, memory.State()) && KeepsSalt(old(runner.disk.file), runner.disk.file)
  {
    hide Apply, FileApply, Agree, KeepsSalt;
    ghost var file, st := runner.disk.file, memory.State();
    fromFile, fromMemory := [], [];
    for i := 0 to |calls|
      invariant runner.disk.file == FileAfter(runner.cfg, file, calls[..i])
      invariant memory.State() == StoreAfter(memory.cfg, memory.salt, st, Ops(calls[..i]))
      invariant fromFile == FileResults(runner.cfg, file, calls[..i])
      invariant fromMemory == Results(memory.cfg, memory.salt, st, Ops(calls[..i]))
    {
      var c := calls[i];
      assert calls[..i + 1][..i] == calls[..i] && Ops(calls[..i + 1])[..i] == Ops(calls[..i]);
      var f;
      if c.fromCli { f := cli.Perform(c.t, c.op, c.newSalt); } else { f := runner.Perform(c.t, c.op, c.newSalt); }
      var m := memory.Perform(c.t, c.op);
      fromFile, fromMemory := fromFile + [f], fromMemory + [m];
    }
    assert calls[..|calls|] == calls && calls[..0] == [];
    FileActsAsOneStore(runner.cfg, file, memory.salt, st, calls);
    SaltIsFixed(runner.cfg, file, calls, 0, |calls|);
  }
}
