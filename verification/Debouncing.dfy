/** Coalescing rapid messages per conversation (adapters/shuttle/src/debouncer.ts). */
module Debouncing {
  import opened Common

  datatype Config = Config(debounceMs: int, maxWaitMs: Option<int>)

  datatype Buffer<T> = Buffer(items: seq<T>, timer: nat, firstAt: int)

  /** An armed timer: whose buffer it flushes and when it is due. */
  datatype Timer = Timer(key: string, due: int)

  /** A batch handed to the flush callback, with when its first item came and when it left. */
  datatype Batch<T> = Batch(key: string, items: seq<T>, firstAt: int, at: int)

  datatype State<T> = State(buffers: map<string, Buffer<T>>, armed: map<nat, Timer>, nextTimer: nat, delivered: seq<Batch<T>>)

  function Empty<T>(): State<T> { State(map[], map[], 0, []) }

  /** Flushes a key: clears its timer and hands its items over. */
  function Flushed<T>(st: State<T>, key: string, t: int): State<T> {
    if key !in st.buffers then st
    else
      var b := st.buffers[key];
      st.(armed := st.armed - {b.timer}, buffers := st.buffers - {key},
          delivered := st.delivered + [Batch(key, b.items, b.firstAt, t)])
  }

  /** Arms a new timer for a buffer, in place of its old one. */
  function Rearmed<T>(cfg: Config, st: State<T>, key: string, items: seq<T>, firstAt: int, t: int): State<T> {
    var old' := if key in st.buffers then {st.buffers[key].timer} else {};
    st.(armed := (st.armed - old')[st.nextTimer := Timer(key, t + cfg.debounceMs)],
        buffers := st.buffers[key := Buffer(items, st.nextTimer, firstAt)],
        nextTimer := st.nextTimer + 1)
  }

  predicate MustFlush<T>(cfg: Config, b: Buffer<T>, t: int) {
    cfg.maxWaitMs.Some? && t - b.firstAt >= cfg.maxWaitMs.value
  }

  function Pushed<T>(cfg: Config, st: State<T>, key: string, item: T, t: int): State<T> {
    if key !in st.buffers then Rearmed(cfg, st, key, [item], t, t)
    else
      var b := st.buffers[key];
      if MustFlush(cfg, b, t) then Flushed(st.(buffers := st.buffers[key := b.(items := b.items + [item])]), key, t)
      else Rearmed(cfg, st, key, b.items + [item], b.firstAt, t)
  }

  function Bumped<T>(cfg: Config, st: State<T>, key: string, t: int): State<T> {
    if key !in st.buffers then st
    else Rearmed(cfg, st, key, st.buffers[key].items, st.buffers[key].firstAt, t)
  }

  /** A due timer fires: it is spent, then its key is flushed. */
  function Fired<T>(st: State<T>, id: nat, t: int): State<T> {
    if id !in st.armed then st
    else Flushed(st.(armed := st.armed - {id}), st.armed[id].key, t)
  }

  class Debouncer<T> {
    const cfg: Config
    var buffers: map<string, Buffer<T>>
    var armed: map<nat, Timer>
    var nextTimer: nat
    var delivered: seq<Batch<T>>

    ghost function Now(): State<T>
      reads this
    {
      State(buffers, armed, nextTimer, delivered)
    }

    constructor (cfg: Config)
      ensures this.cfg == cfg && Now() == Empty()
    {
      this.cfg := cfg;
      buffers, armed, nextTimer, delivered := map[], map[], 0, [];
    }

    method SetTimeout(key: string, t: int) returns (id: nat)
      modifies this`armed, this`nextTimer
      ensures id == old(nextTimer) && nextTimer == id + 1 && armed == old(armed)[id := Timer(key, t + cfg.debounceMs)]
    {
      id := nextTimer;
      armed := armed[id := Timer(key, t + cfg.debounceMs)];
      nextTimer := nextTimer + 1;
    }

    method ClearTimeout(id: nat)
      modifies this`armed
      ensures armed == old(armed) - {id}
    {
      armed := armed - {id};
    }

    method Push(key: string, item: T, t: int)
      modifies this
      ensures Now() == Pushed(cfg, old(Now()), key, item, t)
    {
      if key in buffers {
        var existing := buffers[key];
        existing := existing.(items := existing.items + [item]);
        buffers := buffers[key := existing];
        ClearTimeout(existing.timer);
        if cfg.maxWaitMs.Some? && t - existing.firstAt >= cfg.maxWaitMs.value {
          Flush(key, t);
          assert armed == old(armed) - {existing.timer};
          return;
        }
        var timer := SetTimeout(key, t);
        buffers := buffers[key := existing.(timer := timer)];
      } else {
        var timer := SetTimeout(key, t);
        buffers := buffers[key := Buffer([item], timer, t)];
        assert old(armed) - {} == old(armed);
      }
    }

    method Bump(key: string, t: int)
      modifies this
      ensures Now() == Bumped(cfg, old(Now()), key, t)
    {
      if key !in buffers { return; }
      var b := buffers[key];
      ClearTimeout(b.timer);
      var timer := SetTimeout(key, t);
      buffers := buffers[key := b.(timer := timer)];
    }

    method Flush(key: string, t: int)
      modifies this
      ensures Now() == Flushed(old(Now()), key, t)
    {
      if key !in buffers { return; }
      var b := buffers[key];
      ClearTimeout(b.timer);
      buffers := buffers - {key};
      delivered := delivered + [Batch(key, b.items, b.firstAt, t)];
    }

    /** The timer callback. */
    method Fire(id: nat, t: int)
      modifies this
      ensures Now() == Fired(old(Now()), id, t)
    {
      if id !in armed { return; }
      var key := armed[id].key;
      armed := armed - {id};
      Flush(key, t);
    }
  }

  // ---- runs -------------------------------------------------------------------

  datatype Op<T> = Push(key: string, item: T, t: int) | Bump(key: string, t: int) | Flush(key: string, t: int) | Fire(id: nat, t: int)

  function Step<T>(cfg: Config, st: State<T>, op: Op<T>): State<T> {
    match op
    case Push(key, item, t) => Pushed(cfg, st, key, item, t)
    case Bump(key, t) => Bumped(cfg, st, key, t)
    case Flush(key, t) => Flushed(st, key, t)
    case Fire(id, t) => Fired(st, id, t)
  }

  function After<T>(cfg: Config, run: seq<Op<T>>): State<T> {
    if run == [] then Empty() else Step(cfg, After(cfg, run[..|run| - 1]), run[|run| - 1])
  }

  /** Every buffered key has exactly one armed timer, every armed timer a buffer; nothing empty is kept or sent. */
  ghost predicate IsSound<T>(st: State<T>) {
    && (forall key :: key in st.buffers ==>
          && st.buffers[key].items != []
          && st.buffers[key].timer in st.armed && st.armed[st.buffers[key].timer].key == key)
    && (forall id :: id in st.armed ==>
          id < st.nextTimer && st.armed[id].key in st.buffers && st.buffers[st.armed[id].key].timer == id)
    && (forall i :: 0 <= i < |st.delivered| ==> st.delivered[i].items != [])
  }

  lemma RearmedSound<T>(cfg: Config, st: State<T>, key: string, items: seq<T>, firstAt: int, t: int)
    requires IsSound(st) && items != []
    ensures IsSound(Rearmed(cfg, st, key, items, firstAt, t))
  {
  }

  lemma FlushedSound<T>(st: State<T>, key: string, t: int)
    requires IsSound(st)
    ensures IsSound(Flushed(st, key, t))
  {
  }

  /** Clearing a timer twice changes nothing, so a fired timer and a flush agree. */
  lemma FiredIsFlushed<T>(st: State<T>, id: nat, t: int)
    requires IsSound(st) && id in st.armed
    ensures Fired(st, id, t) == Flushed(st, st.armed[id].key, t)
  {
    assert st.armed - {id} - {id} == st.armed - {id};
  }

  lemma StepSound<T>(cfg: Config, st: State<T>, op: Op<T>)
    requires IsSound(st)
    ensures IsSound(Step(cfg, st, op))
  {
    hide Rearmed, Flushed;
    match op
    case Push(key, item, t) =>
      if key !in st.buffers {
        RearmedSound(cfg, st, key, [item], t, t);
      } else {
        var b := st.buffers[key];
        FlushedSound(st.(buffers := st.buffers[key := b.(items := b.items + [item])]), key, t);
        RearmedSound(cfg, st, key, b.items + [item], b.firstAt, t);
      }
    case Bump(key, t) => if key in st.buffers { RearmedSound(cfg, st, key, st.buffers[key].items, st.buffers[key].firstAt, t); }
    case Flush(key, t) => FlushedSound(st, key, t);
    case Fire(id, t) =>
      if id in st.armed {
        FiredIsFlushed(st, id, t);
        FlushedSound(st, st.armed[id].key, t);
      }
  }

  lemma {:induction false} RunSound<T>(cfg: Config, run: seq<Op<T>>)
    ensures IsSound(After(cfg, run))
  {
    if run != [] {
      RunSound(cfg, run[..|run| - 1]);
      StepSound(cfg, After(cfg, run[..|run| - 1]), run[|run| - 1]);
    }
  }

  // ---- conservation -----------------------------------------------------------

  ghost function PushedItems<T>(run: seq<Op<T>>, key: string): seq<T> {
    if run == [] then []
    else
      var last := run[|run| - 1];
      PushedItems(run[..|run| - 1], key) + (if last.Push? && last.key == key then [last.item] else [])
  }

  ghost function DeliveredItems<T>(batches: seq<Batch<T>>, key: string): seq<T> {
    if batches == [] then []
    else
      var last := batches[|batches| - 1];
      DeliveredItems(batches[..|batches| - 1], key) + (if last.key == key then last.items else [])
  }

  ghost function Buffered<T>(st: State<T>, key: string): seq<T> {
    if key in st.buffers then st.buffers[key].items else []
  }

  /** All of a key's items, in order: handed over, then still buffered. */
  ghost function Held<T>(st: State<T>, key: string): seq<T> {
    DeliveredItems(st.delivered, key) + Buffered(st, key)
  }

  lemma FlushedHolds<T>(st: State<T>, k: string, t: int, key: string)
    ensures Held(Flushed(st, k, t), key) == Held(st, key)
  {
    if k in st.buffers {
      var st' := Flushed(st, k, t);
      assert st'.delivered[..|st.delivered|] == st.delivered;
      if k != key { assert Buffered(st', key) == Buffered(st, key); }
    }
  }

  lemma RearmedHolds<T>(cfg: Config, st: State<T>, k: string, items: seq<T>, firstAt: int, t: int, key: string)
    ensures Held(Rearmed(cfg, st, k, items, firstAt, t), key)
            == if k == key then DeliveredItems(st.delivered, key) + items else Held(st, key)
  {
  }

  /** A step appends what it pushes to its key and moves nothing else. */
  lemma StepHolds<T>(cfg: Config, st: State<T>, op: Op<T>, key: string)
    ensures Held(Step(cfg, st, op), key) == Held(st, key) + (if op.Push? && op.key == key then [op.item] else [])
  {
    match op
    case Push(k, item, t) =>
      if k !in st.buffers {
        RearmedHolds(cfg, st, k, [item], t, t, key);
      } else {
        var b := st.buffers[k];
        var longer := st.(buffers := st.buffers[k := b.(items := b.items + [item])]);
        assert Held(longer, key) == Held(st, key) + (if k == key then [item] else []);
        FlushedHolds(longer, k, t, key);
        RearmedHolds(cfg, st, k, b.items + [item], b.firstAt, t, key);
      }
    case Bump(k, t) => if k in st.buffers { RearmedHolds(cfg, st, k, st.buffers[k].items, st.buffers[k].firstAt, t, key); }
    case Flush(k, t) => FlushedHolds(st, k, t, key);
    case Fire(id, t) => if id in st.armed { FlushedHolds(st.(armed := st.armed - {id}), st.armed[id].key, t, key); }
  }

  /** Nothing is lost, repeated or reordered: batches then buffer are the pushed items. */
  lemma {:induction false} ItemsAreConserved<T>(cfg: Config, run: seq<Op<T>>, key: string)
    ensures DeliveredItems(After(cfg, run).delivered, key) + Buffered(After(cfg, run), key) == PushedItems(run, key)
  {
    hide Step;
    if run != [] {
      ItemsAreConserved(cfg, run[..|run| - 1], key);
      StepHolds(cfg, After(cfg, run[..|run| - 1]), run[|run| - 1], key);
    }
  }

  // ---- the quiet period -------------------------------------------------------

  /** When the key was last pushed to or bumped, read off the run alone. */
  ghost function LastActivity<T>(run: seq<Op<T>>, key: string): Option<int> {
    if run == [] then None
    else
      var last := run[|run| - 1];
      if (last.Push? || last.Bump?) && last.key == key then Some(last.t) else LastActivity(run[..|run| - 1], key)
  }

  /** When each item of the key was pushed. */
  ghost function PushTimes<T>(run: seq<Op<T>>, key: string): seq<int> {
    if run == [] then []
    else
      var last := run[|run| - 1];
      PushTimes(run[..|run| - 1], key) + (if last.Push? && last.key == key then [last.t] else [])
  }

  /** The key waits with a timer due at `due`. */
  ghost predicate IsDueAt<T>(st: State<T>, key: string, due: int) {
    key in st.buffers && st.buffers[key].timer in st.armed && st.armed[st.buffers[key].timer] == Timer(key, due)
  }

  /** A push or bump that leaves the key waiting restarts its quiet period; no other step moves its timer. */
  lemma StepKeepsQuiet<T>(cfg: Config, st: State<T>, op: Op<T>, key: string)
    requires IsSound(st) && key in Step(cfg, st, op).buffers
    ensures if (op.Push? || op.Bump?) && op.key == key then IsDueAt(Step(cfg, st, op), key, op.t + cfg.debounceMs)
            else key in st.buffers && IsDueAt(Step(cfg, st, op), key, st.armed[st.buffers[key].timer].due)
  {
    if op.Fire? && op.id in st.armed { FiredIsFlushed(st, op.id, op.t); }
  }

  /** In every run a waiting key's timer is due exactly one quiet period after its last push or bump. */
  lemma {:induction false} QuietPeriod<T>(cfg: Config, run: seq<Op<T>>, key: string)
    requires key in After(cfg, run).buffers
    ensures LastActivity(run, key).Some?
    ensures IsDueAt(After(cfg, run), key, LastActivity(run, key).value + cfg.debounceMs)
  {
    hide Step;
    assert run != [];
    var front, op := run[..|run| - 1], run[|run| - 1];
    RunSound(cfg, front);
    StepKeepsQuiet(cfg, After(cfg, front), op, key);
    if !((op.Push? || op.Bump?) && op.key == key) { QuietPeriod(cfg, front, key); }
  }

  /** The buffer's first item is the oldest push that still waits, and `firstAt` is its time. */
  ghost predicate FirstIsOldest<T>(st: State<T>, times: seq<int>, key: string) {
    key in st.buffers ==>
      var n := |st.buffers[key].items|; 0 < n <= |times| && st.buffers[key].firstAt == times[|times| - n]
  }

  lemma StepFirst<T>(cfg: Config, st: State<T>, op: Op<T>, times: seq<int>, key: string)
    requires IsSound(st) && FirstIsOldest(st, times, key)
    ensures FirstIsOldest(Step(cfg, st, op), times + (if op.Push? && op.key == key then [op.t] else []), key)
  {
    if op.Fire? && op.id in st.armed { FiredIsFlushed(st, op.id, op.t); }
  }

  lemma {:induction false} FirstAtIsOldest<T>(cfg: Config, run: seq<Op<T>>, key: string)
    ensures FirstIsOldest(After(cfg, run), PushTimes(run, key), key)
  {
    hide Step;
    if run != [] {
      var front := run[..|run| - 1];
      FirstAtIsOldest(cfg, front, key);
      RunSound(cfg, front);
      StepFirst(cfg, After(cfg, front), run[|run| - 1], PushTimes(front, key), key);
    }
  }

  /** Why a batch of the key leaves after `run`: its timer, a flush, or a push that finds the first item old enough. */
  ghost predicate LeavesBecause<T>(cfg: Config, run: seq<Op<T>>, op: Op<T>, key: string) {
    var st := After(cfg, run);
    && key in st.buffers
    && match op
       case Push(k, _, t) => k == key && cfg.maxWaitMs.Some? && t >= st.buffers[key].firstAt + cfg.maxWaitMs.value
       case Bump(_, _) => false
       case Flush(k, _) => k == key
       case Fire(id, _) => id == st.buffers[key].timer
  }

  /** The batch that then leaves: everything that waits, with the item just pushed. */
  ghost function LeavingBatch<T>(st: State<T>, op: Op<T>, key: string): Batch<T>
    requires key in st.buffers
  {
    var b := st.buffers[key];
    Batch(key, b.items + (if op.Push? then [op.item] else []), b.firstAt, op.t)
  }

  lemma StepDelivers<T>(cfg: Config, run: seq<Op<T>>, op: Op<T>, key: string)
    requires LeavesBecause(cfg, run, op, key)
    ensures Step(cfg, After(cfg, run), op).delivered == After(cfg, run).delivered + [LeavingBatch(After(cfg, run), op, key)]
  {
    hide After;
    var st := After(cfg, run);
    RunSound(cfg, run);
    if op.Fire? { FiredIsFlushed(st, op.id, op.t); }
    if !op.Push? { assert st.buffers[key].items + [] == st.buffers[key].items; }
  }

  lemma StepDeliversNothing<T>(cfg: Config, run: seq<Op<T>>, op: Op<T>)
    requires forall key :: !LeavesBecause(cfg, run, op, key)
    ensures Step(cfg, After(cfg, run), op).delivered == After(cfg, run).delivered
  {
    hide After;
    var st := After(cfg, run);
    RunSound(cfg, run);
    match op
    case Push(k, _, _) => assert !LeavesBecause(cfg, run, op, k);
    case Bump(_, _) =>
    case Flush(k, _) => assert !LeavesBecause(cfg, run, op, k);
    case Fire(id, _) => assert id in st.armed ==> LeavesBecause(cfg, run, op, st.armed[id].key);
  }

  /**
   * A batch that leaves by a timer that is not early leaves at least one full quiet period after the
   * key's last push or bump; it leaves exactly then when the timer is on time.
   */
  lemma TimerLeavesAfterQuiet<T>(cfg: Config, run: seq<Op<T>>, op: Op<T>, key: string)
    requires op.Fire? && LeavesBecause(cfg, run, op, key)
    ensures LastActivity(run, key).Some? && op.id in After(cfg, run).armed
    ensures op.t >= After(cfg, run).armed[op.id].due <==> op.t >= LastActivity(run, key).value + cfg.debounceMs
    ensures op.t == After(cfg, run).armed[op.id].due <==> op.t == LastActivity(run, key).value + cfg.debounceMs
  {
    hide After;
    QuietPeriod(cfg, run, key);
  }

  // ---- deadline ---------------------------------------------------------------

  /** Time does not pass an armed timer: whatever happens at `t`, no timer was due earlier. */
  ghost predicate RespectsTimers<T>(cfg: Config, run: seq<Op<T>>) {
    forall i :: 0 <= i < |run| ==> NothingOverdue(After(cfg, run[..i]), run[i].t)
  }

  ghost predicate NothingOverdue<T>(st: State<T>, t: int) {
    forall id :: id in st.armed ==> t <= st.armed[id].due
  }

  function Limit(cfg: Config, firstAt: int): int
    requires cfg.maxWaitMs.Some?
  {
    firstAt + cfg.maxWaitMs.value + cfg.debounceMs
  }

  ghost predicate DueInTime<T>(cfg: Config, st: State<T>, key: string)
    requires cfg.maxWaitMs.Some?
  {
    key in st.buffers && st.buffers[key].timer in st.armed ==>
      st.armed[st.buffers[key].timer].due <= Limit(cfg, st.buffers[key].firstAt)
  }

  /** The step does not bump the key's timer past the moment its first item has waited `maxWaitMs`. */
  ghost predicate BumpIsTimely<T>(cfg: Config, st: State<T>, op: Op<T>, key: string)
    requires cfg.maxWaitMs.Some?
  {
    op.Bump? && op.key == key && key in st.buffers ==> op.t <= st.buffers[key].firstAt + cfg.maxWaitMs.value
  }

  /** Exactly the steps that keep a key's timer within its limit. */
  lemma StepDueInTimeIff<T>(cfg: Config, st: State<T>, op: Op<T>, key: string)
    requires IsSound(st) && cfg.maxWaitMs.Some? && cfg.maxWaitMs.value >= 0 && DueInTime(cfg, st, key)
    ensures DueInTime(cfg, Step(cfg, st, op), key) <==> BumpIsTimely(cfg, st, op, key)
  {
    if op.Fire? && op.id in st.armed { FiredIsFlushed(st, op.id, op.t); }
  }

  ghost predicate BumpsAreTimely<T>(cfg: Config, run: seq<Op<T>>, key: string)
    requires cfg.maxWaitMs.Some?
  {
    forall i :: 0 <= i < |run| ==> BumpIsTimely(cfg, After(cfg, run[..i]), run[i], key)
  }

  lemma AfterNext<T>(cfg: Config, run: seq<Op<T>>, n: nat)
    requires n < |run|
    ensures After(cfg, run[..n + 1]) == Step(cfg, After(cfg, run[..n]), run[n])
  {
    assert run[..n + 1][..n] == run[..n];
  }

  /** With timely bumps, a buffered key's timer is due within maxWait plus one quiet period of its first item. */
  lemma {:induction false} TimerIsDueInTime<T>(cfg: Config, run: seq<Op<T>>, key: string, n: nat)
    requires cfg.maxWaitMs.Some? && cfg.maxWaitMs.value >= 0 && BumpsAreTimely(cfg, run, key) && n <= |run|
    ensures DueInTime(cfg, After(cfg, run[..n]), key)
    decreases n
  {
    hide Step, BumpIsTimely;
    if n == 0 {
      assert run[..0] == [];
    } else {
      TimerIsDueInTime(cfg, run, key, n - 1);
      RunSound(cfg, run[..n - 1]);
      AfterNext(cfg, run, n - 1);
      StepDueInTimeIff(cfg, After(cfg, run[..n - 1]), run[n - 1], key);
    }
  }

  /** In every run, a key's timer keeps to its limit at every moment iff every bump of the key is timely. */
  lemma DueInTimeIff<T>(cfg: Config, run: seq<Op<T>>, key: string)
    requires cfg.maxWaitMs.Some? && cfg.maxWaitMs.value >= 0
    ensures (forall n :: 0 <= n <= |run| ==> DueInTime(cfg, After(cfg, run[..n]), key)) <==> BumpsAreTimely(cfg, run, key)
  {
    hide Step, BumpIsTimely, DueInTime, After;
    if BumpsAreTimely(cfg, run, key) {
      forall n | 0 <= n <= |run| ensures DueInTime(cfg, After(cfg, run[..n]), key) { TimerIsDueInTime(cfg, run, key, n); }
    }
    if forall n :: 0 <= n <= |run| ==> DueInTime(cfg, After(cfg, run[..n]), key) {
      forall i | 0 <= i < |run| ensures BumpIsTimely(cfg, After(cfg, run[..i]), run[i], key) {
        RunSound(cfg, run[..i]);
        AfterNext(cfg, run, i);
        StepDueInTimeIff(cfg, After(cfg, run[..i]), run[i], key);
      }
    }
  }

  ghost predicate OnTime<T>(cfg: Config, batches: seq<Batch<T>>, key: string)
    requires cfg.maxWaitMs.Some?
  {
    forall i :: 0 <= i < |batches| && batches[i].key == key ==> batches[i].at <= Limit(cfg, batches[i].firstAt)
  }

  lemma StepOnTime<T>(cfg: Config, st: State<T>, op: Op<T>, key: string)
    requires IsSound(st) && cfg.maxWaitMs.Some? && DueInTime(cfg, st, key) && NothingOverdue(st, op.t)
    requires OnTime(cfg, st.delivered, key)
    ensures OnTime(cfg, Step(cfg, st, op).delivered, key)
  {
    if op.Fire? && op.id in st.armed { FiredIsFlushed(st, op.id, op.t); }
  }

  /** With timely bumps every batch leaves within maxWait plus one quiet period of its first item. */
  lemma {:induction false} BatchesLeaveOnTime<T>(cfg: Config, run: seq<Op<T>>, key: string, n: nat)
    requires cfg.maxWaitMs.Some? && cfg.maxWaitMs.value >= 0 && BumpsAreTimely(cfg, run, key) && RespectsTimers(cfg, run)
    requires n <= |run|
    ensures OnTime(cfg, After(cfg, run[..n]).delivered, key)
    decreases n
  {
    hide Step, OnTime, NothingOverdue, DueInTime, IsSound, BumpIsTimely;
    if n == 0 {
      assert run[..0] == [];
      NothingLate<T>(cfg, key);
    } else {
      BatchesLeaveOnTime(cfg, run, key, n - 1);
      RunSound(cfg, run[..n - 1]);
      TimerIsDueInTime(cfg, run, key, n - 1);
      AfterNext(cfg, run, n - 1);
      StepOnTime(cfg, After(cfg, run[..n - 1]), run[n - 1], key);
    }
  }

  /** With timely bumps nothing still waits beyond that bound: a buffered key's first item is recent. */
  lemma NothingWaitsTooLong<T>(cfg: Config, run: seq<Op<T>>, key: string, now: int)
    requires cfg.maxWaitMs.Some? && cfg.maxWaitMs.value >= 0 && BumpsAreTimely(cfg, run, key)
    requires NothingOverdue(After(cfg, run), now)
    ensures key in After(cfg, run).buffers ==> now <= Limit(cfg, After(cfg, run).buffers[key].firstAt)
  {
    hide Step, After;
    assert run[..|run|] == run;
    TimerIsDueInTime(cfg, run, key, |run|);
    RunSound(cfg, run);
  }

  lemma NothingLate<T>(cfg: Config, key: string)
    requires cfg.maxWaitMs.Some?
    ensures OnTime<T>(cfg, [], key)
  {
  }

  // ---- bumping defeats the cap ------------------------------------------------

  /** A push at time 0, then `n` bumps, each at the moment the timer falls due. */
  ghost function TypingRun(cfg: Config, n: nat): seq<Op<int>> {
    if n == 0 then [Push("k", 0, 0)] else TypingRun(cfg, n - 1) + [Bump("k", n * cfg.debounceMs)]
  }

  /** One undelivered buffer since time 0, with a single timer due at `due`. */
  ghost predicate Waits(st: State<int>, due: int) {
    && st.delivered == [] && st.buffers.Keys == {"k"} && st.buffers["k"].firstAt == 0
    && st.armed == map[st.buffers["k"].timer := Timer("k", due)]
  }

  lemma BumpOnce(cfg: Config, st: State<int>, due: int)
    requires Waits(st, due)
    ensures NothingOverdue(st, due) && Waits(Bumped(cfg, st, "k", due), due + cfg.debounceMs)
  {
    var b := st.buffers["k"];
    assert st.armed - {b.timer} == map[];
    assert st.buffers["k" := Buffer(b.items, st.nextTimer, 0)].Keys == {"k"};
  }

  /** With bumps the cap does not bind: the first item can wait for any number of quiet periods. */
  lemma {:induction false} BumpsDelayForever(cfg: Config, n: nat)
    requires cfg.debounceMs >= 1
    ensures RespectsTimers(cfg, TypingRun(cfg, n)) && Waits(After(cfg, TypingRun(cfg, n)), (n + 1) * cfg.debounceMs)
  {
    hide Waits, NothingOverdue, Bumped, After, RespectsTimers;
    if n == 0 {
      FirstPush(cfg);
    } else {
      var front, op := TypingRun(cfg, n - 1), Bump("k", n * cfg.debounceMs);
      BumpsDelayForever(cfg, n - 1);
      NextPeriod(n, cfg.debounceMs);
      BumpOnce(cfg, After(cfg, front), n * cfg.debounceMs);
      RespectsSnoc(cfg, front, op);
    }
  }

  lemma RespectsSnoc<T>(cfg: Config, run: seq<Op<T>>, op: Op<T>)
    requires RespectsTimers(cfg, run) && NothingOverdue(After(cfg, run), op.t)
    ensures RespectsTimers(cfg, run + [op]) && After(cfg, run + [op]) == Step(cfg, After(cfg, run), op)
  {
    hide NothingOverdue, Step;
    var all := run + [op];
    assert all[..|run|] == run;
    forall i | 0 <= i < |all| ensures NothingOverdue(After(cfg, all[..i]), all[i].t) {
      if i < |run| { assert all[..i] == run[..i]; }
    }
  }

  lemma FirstPush(cfg: Config)
    ensures RespectsTimers(cfg, TypingRun(cfg, 0)) && Waits(After(cfg, TypingRun(cfg, 0)), cfg.debounceMs)
  {
    var run := TypingRun(cfg, 0);
    assert run[..0] == [];
    var none: map<nat, Timer> := map[];
    assert none - {} == none;
    assert After(cfg, run) == Pushed(cfg, Empty(), "k", 0, 0);
  }

  lemma NextPeriod(n: int, d: int)
    ensures n * d + d == (n + 1) * d
  {
  }
}
