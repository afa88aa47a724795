/** How often codes can be guessed and how many can be open at once (adapters/shuttle/src/pairing.ts). */
module PairingRates {
  import opened Common
  import opened Pairing
  import opened PairingGate

  ghost predicate ClockRuns(run: seq<GateStep>) {
    forall i, j :: 0 <= i < j < |run| ==> run[i].t <= run[j].t
  }

  // ---- lockout ----------------------------------------------------------------

  /** A code that was looked up on the channel and did not match. */
  ghost predicate IsWrong(salt: string, st: Store, step: GateStep, channel: string) {
    && step.OwnerApproves? && step.channel == channel
    && !IsLocked(st, step.t, channel) && Redeemable(salt, st, step.t, channel, step.code).None?
  }

  ghost predicate Succeeds(salt: string, st: Store, step: GateStep, channel: string) {
    step.OwnerApproves? && step.channel == channel && StepRedeems(salt, st, step)
  }

  ghost function WrongCount(cfg: Config, salt: string, st: Store, run: seq<GateStep>, channel: string): nat {
    if run == [] then 0
    else
      var front := run[..|run| - 1];
      WrongCount(cfg, salt, st, front, channel)
        + (if IsWrong(salt, From(cfg, salt, st, front), run[|run| - 1], channel) then 1 else 0)
  }

  /** When the first wrong code of the run was evaluated. */
  ghost function FirstWrong(cfg: Config, salt: string, st: Store, run: seq<GateStep>, channel: string): Option<int> {
    if run == [] then None
    else
      var front := run[..|run| - 1];
      var earlier := FirstWrong(cfg, salt, st, front, channel);
      if earlier.Some? then earlier
      else if IsWrong(salt, From(cfg, salt, st, front), run[|run| - 1], channel) then Some(run[|run| - 1].t)
      else None
  }

  ghost predicate NoSuccess(cfg: Config, salt: string, st: Store, run: seq<GateStep>, channel: string) {
    forall i :: 0 <= i < |run| ==> !Succeeds(salt, From(cfg, salt, st, run[..i]), run[i], channel)
  }

  ghost function Lock(st: Store, channel: string): Option<int> {
    if channel in st.lockUntil then Some(st.lockUntil[channel]) else None
  }

  /** What one step does to a channel's counter and lock. */
  lemma StepCounts(cfg: Config, salt: string, st: Store, step: GateStep, channel: string)
    requires !Succeeds(salt, st, step, channel)
    ensures var st' := Next(cfg, salt, st, step);
            if !IsWrong(salt, st, step, channel) then
              Fails(st', channel) == Fails(st, channel) && Lock(st', channel) == Lock(st, channel)
            else if Fails(st, channel) + 1 >= cfg.maxFailed then
              Fails(st', channel) == 0 && Lock(st', channel) == Some(step.t + cfg.lockoutMs)
            else
              Fails(st', channel) == Fails(st, channel) + 1 && Lock(st', channel) == Lock(st, channel)
  {
  }

  /**
   * From counter `f0`, `q` lockouts and the counter `f` account for every wrong code, and each
   * lockout took its full time; `first` and `last` are the times of the first wrong code and of the last step.
   */
  ghost predicate Accounts(cfg: Config, f0: int, f: int, lock: Option<int>, wrong: nat, first: Option<int>, last: int, q: nat) {
    && 0 <= f < cfg.maxFailed
    && wrong + f0 == q * cfg.maxFailed + f
    && (wrong > 0 <==> first.Some?)
    && (first.Some? ==> first.value <= last)
    && (q > 0 ==>
          && first.Some? && lock.Some?
          && lock.value >= first.value + q * cfg.lockoutMs
          && last >= first.value + (q - 1) * cfg.lockoutMs)
    && (q > 0 && f > 0 ==> last >= first.value + q * cfg.lockoutMs)
  }

  /** Another wrong code, at or after the end of any lock. */
  lemma AccountWrong(cfg: Config, f0: int, f: int, lock: Option<int>, wrong: nat, first: Option<int>, last: int, q: nat, t: int)
    requires cfg.maxFailed >= 1 && cfg.lockoutMs >= 1
    requires Accounts(cfg, f0, f, lock, wrong, first, last, q) && last <= t && (lock.Some? ==> lock.value <= t)
    ensures var first' := if first.Some? then first else Some(t);
            if f + 1 >= cfg.maxFailed then Accounts(cfg, f0, 0, Some(t + cfg.lockoutMs), wrong + 1, first', t, q + 1)
            else Accounts(cfg, f0, f + 1, lock, wrong + 1, first', t, q)
  {
    assert (q + 1) * cfg.maxFailed == q * cfg.maxFailed + cfg.maxFailed;
    assert (q + 1) * cfg.lockoutMs == q * cfg.lockoutMs + cfg.lockoutMs;
  }

  lemma AccountsNothing(cfg: Config, f: int, lock: Option<int>, last: int)
    requires 0 <= f < cfg.maxFailed
    ensures Accounts(cfg, f, f, lock, 0, None, last, 0)
  {
  }

  /** One step keeps the account. */
  lemma AccountStep(cfg: Config, salt: string, s: Store, step: GateStep, channel: string, f0: int, wrong: nat,
                    first: Option<int>, last: int, q: nat) returns (q': nat)
    requires cfg.maxFailed >= 1 && cfg.lockoutMs >= 1 && !Succeeds(salt, s, step, channel) && last <= step.t
    requires Accounts(cfg, f0, Fails(s, channel), Lock(s, channel), wrong, first, last, q)
    ensures var s', isWrong := Next(cfg, salt, s, step), IsWrong(salt, s, step, channel);
            Accounts(cfg, f0, Fails(s', channel), Lock(s', channel), if isWrong then wrong + 1 else wrong,
                     if first.None? && isWrong then Some(step.t) else first, step.t, q')
  {
    hide Next;
    StepCounts(cfg, salt, s, step, channel);
    q' := q;
    if IsWrong(salt, s, step, channel) {
      AccountWrong(cfg, f0, Fails(s, channel), Lock(s, channel), wrong, first, last, q, step.t);
      if Fails(s, channel) + 1 >= cfg.maxFailed { q' := q + 1; }
    }
  }

  lemma {:induction false} WrongCodesAccount(cfg: Config, salt: string, st: Store, run: seq<GateStep>, channel: string, start: int)
    returns (q: nat)
    requires cfg.maxFailed >= 1 && cfg.lockoutMs >= 1 && 0 <= Fails(st, channel) < cfg.maxFailed
    requires ClockRuns(run) && NoSuccess(cfg, salt, st, run, channel) && (run != [] ==> start <= run[0].t)
    ensures Accounts(cfg, Fails(st, channel), Fails(From(cfg, salt, st, run), channel), Lock(From(cfg, salt, st, run), channel),
                     WrongCount(cfg, salt, st, run, channel), FirstWrong(cfg, salt, st, run, channel),
                     if run == [] then start else run[|run| - 1].t, q)
    decreases |run|
  {
    hide Next, IsWrong, Accounts, Succeeds, Fails, Lock;
    q := 0;
    if run == [] {
      AccountsNothing(cfg, Fails(st, channel), Lock(st, channel), start);
    } else {
      var front, step := run[..|run| - 1], run[|run| - 1];
      forall i | 0 <= i < |front| ensures !Succeeds(salt, From(cfg, salt, st, front[..i]), front[i], channel) {
        assert front[..i] == run[..i];
      }
      q := WrongCodesAccount(cfg, salt, st, front, channel, start);
      q := AccountStep(cfg, salt, From(cfg, salt, st, front), step, channel, Fails(st, channel),
                       WrongCount(cfg, salt, st, front, channel), FirstWrong(cfg, salt, st, front, channel),
                       if front == [] then start else front[|front| - 1].t, q);
    }
  }

  /** At most `maxFailed` wrong codes for each lockout period started since the first one. */
  ghost predicate WithinBound(cfg: Config, wrong: int, first: int, now: int)
    requires cfg.lockoutMs >= 1
  {
    wrong <= cfg.maxFailed * (1 + (now - first) / cfg.lockoutMs)
  }

  lemma AccountsBound(cfg: Config, f0: int, f: int, lock: Option<int>, wrong: nat, first: Option<int>, last: int, q: nat, now: int)
    requires cfg.maxFailed >= 1 && cfg.lockoutMs >= 1 && f0 >= 0 && wrong > 0
    requires Accounts(cfg, f0, f, lock, wrong, first, last, q) && last <= now
    ensures WithinBound(cfg, wrong, first.value, now)
  {
    var periods := if f > 0 then q else q - 1;
    FloorAtLeast(now - first.value, cfg.lockoutMs, periods);
    MulStep(periods, cfg.maxFailed);
    MulStep(q - 1, cfg.maxFailed);
    MulMonotone(cfg.maxFailed, 1 + periods, 1 + (now - first.value) / cfg.lockoutMs);
  }

  /**
   * Brute force is bounded: in any stretch without a successful approval, the wrong codes
   * evaluated on a channel by time `now` are at most maxFailed for each started lockout period,
   * and the counter stays below maxFailed.
   */
  lemma WrongCodesAreBounded(cfg: Config, salt: string, st: Store, run: seq<GateStep>, channel: string, now: int)
    requires cfg.maxFailed >= 1 && cfg.lockoutMs >= 1 && 0 <= Fails(st, channel) < cfg.maxFailed
    requires ClockRuns(run) && NoSuccess(cfg, salt, st, run, channel) && run != [] && now >= run[|run| - 1].t
    ensures 0 <= Fails(From(cfg, salt, st, run), channel) < cfg.maxFailed
    ensures WrongCount(cfg, salt, st, run, channel) > 0 ==>
              var first := FirstWrong(cfg, salt, st, run, channel);
              first.Some? && WithinBound(cfg, WrongCount(cfg, salt, st, run, channel), first.value, now)
  {
    var q := WrongCodesAccount(cfg, salt, st, run, channel, run[0].t);
    if WrongCount(cfg, salt, st, run, channel) > 0 {
      AccountsBound(cfg, Fails(st, channel), Fails(From(cfg, salt, st, run), channel), Lock(From(cfg, salt, st, run), channel),
                    WrongCount(cfg, salt, st, run, channel), FirstWrong(cfg, salt, st, run, channel), run[|run| - 1].t, q, now);
    }
  }

  lemma FloorAtLeast(x: int, d: int, k: int)
    requires d >= 1 && x >= 0 && x >= k * d
    ensures x / d >= k
  {
    assert x == d * (x / d) + x % d;
    assert d * (x / d + 1) == d * (x / d) + d;
    if x / d < k {
      MulMonotone(d, x / d + 1, k);
    }
  }

  lemma MulStep(a: int, d: int)
    ensures (a + 1) * d == a * d + d
  {
  }

  lemma MulMonotone(m: int, a: int, b: int)
    requires m >= 0 && a <= b
    ensures m * a <= m * b
  {
    assert m * b == m * a + m * (b - a);
  }

  // ---- open codes -------------------------------------------------------------

  function KeyOf(e: Entry): string {
    Key(e.channel, e.userId)
  }

  ghost predicate Recent(cfg: Config, e: Entry, lastRequest: map<string, int>) {
    KeyOf(e) in lastRequest && e.expiresAt <= lastRequest[KeyOf(e)] + cfg.codeTtlMs
  }

  ghost predicate Apart(cfg: Config, a: Entry, b: Entry) {
    KeyOf(a) == KeyOf(b) ==> a.expiresAt >= b.expiresAt + cfg.cooldownMs || b.expiresAt >= a.expiresAt + cfg.cooldownMs
  }

  /** Codes of one key were requested at least a cooldown apart, the newest one at `lastRequest`. */
  ghost predicate Spaced(cfg: Config, pending: map<string, Entry>, lastRequest: map<string, int>) {
    && (forall h :: h in pending ==> Recent(cfg, pending[h], lastRequest))
    && (forall h, g :: h in pending && g in pending && h != g ==> Apart(cfg, pending[h], pending[g]))
  }

  /** Purging and redeeming only remove entries. */
  lemma FewerStaySpaced(cfg: Config, pending: map<string, Entry>, fewer: map<string, Entry>, lastRequest: map<string, int>)
    requires Spaced(cfg, pending, lastRequest)
    requires forall h :: h in fewer ==> h in pending && fewer[h] == pending[h]
    ensures Spaced(cfg, fewer, lastRequest)
  {
  }

  lemma MintStaysSpaced(cfg: Config, pending: map<string, Entry>, lastRequest: map<string, int>, h: string, e: Entry, t: int)
    requires cfg.cooldownMs >= 1 && Spaced(cfg, pending, lastRequest)
    requires KeyOf(e) in lastRequest ==> t - lastRequest[KeyOf(e)] >= cfg.cooldownMs
    requires e.expiresAt == t + cfg.codeTtlMs
    ensures Spaced(cfg, pending[h := e], lastRequest[KeyOf(e) := t])
  {
    var pending', last' := pending[h := e], lastRequest[KeyOf(e) := t];
    forall g | g in pending' ensures Recent(cfg, pending'[g], last') {
      if g != h { assert Recent(cfg, pending[g], lastRequest); }
    }
    forall g, k | g in pending' && k in pending' && g != k ensures Apart(cfg, pending'[g], pending'[k]) {
      if g != h && k != h {
        assert Apart(cfg, pending[g], pending[k]);
      } else if g != h {
        assert Recent(cfg, pending[g], lastRequest);
      } else {
        assert Recent(cfg, pending[k], lastRequest);
      }
    }
  }

  lemma RequestKeepsSpaced(cfg: Config, salt: string, st: Store, t: int, channel: string, userId: string, generated: string)
    requires cfg.cooldownMs >= 1 && Spaced(cfg, st.pending, st.lastRequest)
    ensures var st' := RequestCode(cfg, salt, st, t, channel, userId, generated).0;
            Spaced(cfg, st'.pending, st'.lastRequest)
  {
    if !OnCooldown(cfg, st, t, Key(channel, userId)) {
      FewerStaySpaced(cfg, st.pending, Purge(st.pending, t), st.lastRequest);
      MintStaysSpaced(cfg, Purge(st.pending, t), st.lastRequest, HashOf(salt, channel, generated),
                      Entry(channel, userId, t + cfg.codeTtlMs), t);
    }
  }

  lemma ApproveKeepsSpaced(cfg: Config, salt: string, st: Store, t: int, channel: string, code: string)
    requires Spaced(cfg, st.pending, st.lastRequest)
    ensures var st' := ApproveCode(cfg, salt, st, t, channel, code).0;
            Spaced(cfg, st'.pending, st'.lastRequest)
  {
    FewerStaySpaced(cfg, st.pending, ApproveCode(cfg, salt, st, t, channel, code).0.pending, st.lastRequest);
  }

  /** Every reachable store is spaced, and no request lies in the future. */
  lemma {:induction false} ReachableIsSpaced(cfg: Config, salt: string, run: seq<GateStep>, now: int)
    requires cfg.cooldownMs >= 1 && forall i :: 0 <= i < |run| ==> run[i].t <= now
    ensures Spaced(cfg, After(cfg, salt, run).pending, After(cfg, salt, run).lastRequest)
    ensures forall k :: k in After(cfg, salt, run).lastRequest ==> After(cfg, salt, run).lastRequest[k] <= now
  {
    if run != [] {
      var front, step := run[..|run| - 1], run[|run| - 1];
      ReachableIsSpaced(cfg, salt, front, now);
      var st := After(cfg, salt, front);
      match step
      case Judge(t, channel, policy, msg, ans, generated) =>
        RequestKeepsSpaced(cfg, salt, st, t, channel, Sender(msg), generated);
        assert Next(cfg, salt, st, step) in {st, RequestCode(cfg, salt, st, t, channel, Sender(msg), generated).0};
      case Asks(t, channel, userId, generated) => RequestKeepsSpaced(cfg, salt, st, t, channel, userId, generated);
      case OwnerApproves(t, channel, code) => ApproveKeepsSpaced(cfg, salt, st, t, channel, code);
    }
  }

  lemma {:induction false} Latest(s: set<string>, at: map<string, int>) returns (m: string)
    requires s != {} && s <= at.Keys
    ensures m in s && forall h :: h in s ==> at[h] <= at[m]
    decreases |s|
  {
    m :| m in s;
    var rest := s - {m};
    if rest != {} {
      var k := Latest(rest, at);
      if at[k] > at[m] { m := k; }
    }
  }

  /** Points at least `d` apart in a half-open interval are few. */
  lemma {:induction false} FewSpacedPoints(s: set<string>, at: map<string, int>, lo: int, hi: int, d: int)
    requires d >= 1 && s != {} && s <= at.Keys
    requires forall h :: h in s ==> lo < at[h] <= hi
    requires forall h, g :: h in s && g in s && h != g ==> at[h] >= at[g] + d || at[g] >= at[h] + d
    ensures (|s| - 1) * d < hi - lo
    decreases |s|
  {
    var m := Latest(s, at);
    var rest := s - {m};
    if rest != {} {
      FewSpacedPoints(rest, at, lo, at[m] - d, d);
      assert |rest| == |s| - 1;
      MulStep(|s| - 2, d);
    } else {
      assert s == {m};
    }
  }

  ghost function OpenCodes(st: Store, channel: string, userId: string, now: int): set<string> {
    set h | h in st.pending && st.pending[h].channel == channel && st.pending[h].userId == userId && st.pending[h].expiresAt > now
  }

  /** At any instant one user has at most ceil(codeTtlMs / cooldownMs) unexpired codes on a channel. */
  lemma OpenCodesAreFew(cfg: Config, salt: string, run: seq<GateStep>, channel: string, userId: string, now: int)
    requires cfg.cooldownMs >= 1 && cfg.codeTtlMs >= 0 && forall i :: 0 <= i < |run| ==> run[i].t <= now
    ensures |OpenCodes(After(cfg, salt, run), channel, userId, now)| <= (cfg.codeTtlMs + cfg.cooldownMs - 1) / cfg.cooldownMs
  {
    hide After;
    ReachableIsSpaced(cfg, salt, run, now);
    var s := OpenCodes(After(cfg, salt, run), channel, userId, now);
    if s != {} {
      SpacedCodesAreFew(cfg, After(cfg, salt, run), channel, userId, now);
      MulStep(|s| - 1, cfg.cooldownMs);
    }
    FloorAtLeast(cfg.codeTtlMs + cfg.cooldownMs - 1, cfg.cooldownMs, |s|);
  }

  lemma SpacedCodesAreFew(cfg: Config, st: Store, channel: string, userId: string, now: int)
    requires cfg.cooldownMs >= 1 && Spaced(cfg, st.pending, st.lastRequest)
    requires forall k :: k in st.lastRequest ==> st.lastRequest[k] <= now
    requires OpenCodes(st, channel, userId, now) != {}
    ensures (|OpenCodes(st, channel, userId, now)| - 1) * cfg.cooldownMs < cfg.codeTtlMs
  {
    var s := OpenCodes(st, channel, userId, now);
    var at := map h | h in st.pending :: st.pending[h].expiresAt;
    assert forall h :: h in s ==> Recent(cfg, st.pending[h], st.lastRequest);
    assert forall h, g :: h in s && g in s && h != g ==> Apart(cfg, st.pending[h], st.pending[g]);
    FewSpacedPoints(s, at, now, now + cfg.codeTtlMs, cfg.cooldownMs);
  }
}
