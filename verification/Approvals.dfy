/** Answering paused tool calls from the chat (adapters/shuttle/src/adapter.ts). */
module Approvals {
  import opened Common
  import opened Text

  /** One paused tool call awaiting a decision. */
  datatype Entry = Entry(threadId: string, requestId: string, toolName: string, expiresAt: int)

  /** A decision sent to the gateway, from which chat, about which entry, when. */
  datatype Decision = Decision(key: string, entry: Entry, approve: bool, at: int)

  datatype State = State(pending: map<string, seq<Entry>>, decisions: seq<Decision>)

  const EMPTY: State := State(map[], [])

  // ---- replies ----------------------------------------------------------------

  function Lower(s: string): string {
    seq(|s|, i requires 0 <= i < |s| => if 'A' <= s[i] <= 'Z' then (s[i] as int + 32) as char else s[i])
  }

  const APPROVE_REPLIES: set<string> := {"yes", "y", "approve", "approved", "ok", "\U{2705}", "\U{1F44D}"}
  const DENY_REPLIES: set<string> := {"no", "n", "deny", "denied", "reject", "rejected", "\U{274C}", "\U{1F44E}"}

  predicate Approves(text: string) {
    Lower(Trim(text)) in APPROVE_REPLIES
  }

  predicate Denies(text: string) {
    !Approves(text) && Lower(Trim(text)) in DENY_REPLIES
  }

  /** Every capital letter becomes its small one, and nothing else changes. */
  lemma LowerIs(s: string, i: nat)
    requires i < |s|
    ensures |Lower(s)| == |s|
    ensures (exists k :: 0 <= k < 26 && s[i] == "ABCDEFGHIJKLMNOPQRSTUVWXYZ"[k] && Lower(s)[i] == "abcdefghijklmnopqrstuvwxyz"[k])
            || (s[i] !in "ABCDEFGHIJKLMNOPQRSTUVWXYZ" && Lower(s)[i] == s[i])
  {
    var capitals := "ABCDEFGHIJKLMNOPQRSTUVWXYZ";
    var n := s[i] as int;
    if 65 <= n <= 90 {
      AlphabetIs(n - 65);
      assert s[i] == capitals[n - 65];
    } else if s[i] in capitals {
      var k :| 0 <= k < |capitals| && capitals[k] == s[i];
      AlphabetIs(k);
    }
  }

  /** Which replies say yes and which say no, by the word that is left of them; none says both. */
  lemma RepliesAre(text: string)
    ensures var word := Lower(Trim(text));
            && (Approves(text) <==> word in ["yes", "y", "approve", "approved", "ok", "\U{2705}", "\U{1F44D}"])
            && (Denies(text) <==> word in ["no", "n", "deny", "denied", "reject", "rejected", "\U{274C}", "\U{1F44E}"])
            && !(Approves(text) && Denies(text))
  {
    hide Lower, Trim;
    if Lower(Trim(text)) in DENY_REPLIES { WordsDiffer(Lower(Trim(text))); }
  }

  lemma WordsDiffer(word: string)
    requires word in ["no", "n", "deny", "denied", "reject", "rejected", "\U{274C}", "\U{1F44E}"]
    ensures word !in ["yes", "y", "approve", "approved", "ok", "\U{2705}", "\U{1F44D}"]
  {
    assert word[0] in "ndr\U{274C}\U{1F44E}";
  }

  // ---- the queue --------------------------------------------------------------

  function QueueOf(st: State, key: string): seq<Entry> {
    if key in st.pending then st.pending[key] else []
  }

  /** Drops the expired entries at the head. */
  function DropExpired(queue: seq<Entry>, now: int): seq<Entry> {
    if queue != [] && queue[0].expiresAt <= now then DropExpired(queue[1..], now) else queue
  }

  /** Stores a queue; an emptied one is forgotten. */
  function Put(st: State, key: string, queue: seq<Entry>): State {
    st.(pending := if queue == [] then st.pending - {key} else st.pending[key := queue])
  }

  /** A permission event parks an entry that expires after `ttl`. */
  function Parked(st: State, ttl: int, key: string, threadId: string, requestId: string, toolName: string, now: int): State {
    Put(st, key, QueueOf(st, key) + [Entry(threadId, requestId, toolName, now + ttl)])
  }

  /** A terminal event makes everything pending in the chat stale. */
  function Ended(st: State, key: string): State {
    Put(st, key, [])
  }

  /** An inbound message while something is pending: a decision on the oldest live entry, or a hint. */
  function Replied(st: State, key: string, text: string, now: int): State {
    var queue := DropExpired(QueueOf(st, key), now);
    if QueueOf(st, key) == [] then st
    else if queue == [] || !(Approves(text) || Denies(text)) then Put(st, key, queue)
    else
      var st' := Put(st, key, queue[1..]);
      st'.(decisions := st.decisions + [Decision(key, queue[0], Approves(text), now)])
  }

  /** The message is consumed exactly when a live entry is waiting. */
  predicate Consumes(st: State, key: string, now: int) {
    DropExpired(QueueOf(st, key), now) != []
  }

  /** Which is when some entry of the chat has not expired. */
  lemma ConsumesIs(st: State, key: string, now: int)
    ensures Consumes(st, key, now) <==> key in st.pending && exists e :: e in st.pending[key] && e.expiresAt > now
  {
    LiveIsKept(QueueOf(st, key), now);
  }

  lemma {:induction false} LiveIsKept(queue: seq<Entry>, now: int)
    ensures DropExpired(queue, now) != [] <==> exists e :: e in queue && e.expiresAt > now
  {
    if queue != [] && queue[0].expiresAt <= now {
      LiveIsKept(queue[1..], now);
      assert forall e :: e in queue <==> e == queue[0] || e in queue[1..];
    } else if queue != [] {
      assert queue[0] in queue;
    }
  }

  lemma NothingToDrop(now: int)
    ensures DropExpired([], now) == []
  {
  }

  class ApprovalDesk {
    const ttl: int
    var pending: map<string, seq<Entry>>
    var decisions: seq<Decision>

    ghost function Now(): State
      reads this
    {
      State(pending, decisions)
    }

    constructor (ttl: int)
      ensures this.ttl == ttl && Now() == EMPTY
    {
      this.ttl := ttl;
      pending, decisions := map[], [];
    }

    /** The `permission` branch of the reply stream. */
    method Park(key: string, threadId: string, requestId: string, toolName: string, now: int)
      modifies this`pending
      ensures Now() == Parked(old(Now()), ttl, key, threadId, requestId, toolName, now)
    {
      var entry := Entry(threadId, requestId, toolName, now + ttl);
      if key in pending {
        pending := pending[key := pending[key] + [entry]];
      } else {
        pending := pending[key := [entry]];
        assert [] + [entry] == [entry];
      }
    }

    /** The `done`, `error` and `sensitive-input` branches. */
    method End(key: string)
      modifies this`pending
      ensures Now() == Ended(old(Now()), key) && key !in pending
    {
      pending := pending - {key};
    }

    /** The loop that shifts entries the gateway has already timed out. */
    method ShiftExpired(start: seq<Entry>, now: int) returns (queue: seq<Entry>)
      ensures queue == DropExpired(start, now)
    {
      queue := start;
      while |queue| > 0 && queue[0].expiresAt <= now
        invariant DropExpired(queue, now) == DropExpired(start, now)
        decreases |queue|
      {
        queue := queue[1..];
      }
    }

    /** `interceptApprovalReply`, up to the decision it sends. */
    method Intercept(key: string, text: string, now: int) returns (consumed: bool)
      modifies this
      ensures Now() == Replied(old(Now()), key, text, now)
      ensures consumed == Consumes(old(Now()), key, now)
    {
      hide Approves, Denies, DropExpired;
      if key !in pending || |pending[key]| == 0 { NothingToDrop(now); return false; }
      var queue := ShiftExpired(pending[key], now);
      if |queue| == 0 {
        pending := pending - {key};
        return false;
      }
      var head := queue[0];
      var approved := Approves(text);
      var denied := Denies(text);
      if !approved && !denied {
        pending := pending[key := queue];
        return true;
      }
      queue := queue[1..];
      if |queue| == 0 { pending := pending - {key}; } else { pending := pending[key := queue]; }
      decisions := decisions + [Decision(key, head, approved, now)];
      consumed := true;
    }
  }

  // ---- runs -------------------------------------------------------------------

  datatype Step =
    | Permission(key: string, threadId: string, requestId: string, toolName: string, t: int)
    | Reply(key: string, text: string, t: int)
    | Terminal(key: string, t: int)

  function Apply(ttl: int, st: State, step: Step): State {
    match step
    case Permission(key, threadId, requestId, toolName, t) => Parked(st, ttl, key, threadId, requestId, toolName, t)
    case Reply(key, text, t) => Replied(st, key, text, t)
    case Terminal(key, t) => Ended(st, key)
  }

  function After(ttl: int, run: seq<Step>): State {
    if run == [] then EMPTY else Apply(ttl, After(ttl, run[..|run| - 1]), run[|run| - 1])
  }

  ghost predicate ClockRuns(run: seq<Step>) {
    forall i, j :: 0 <= i < j < |run| ==> run[i].t <= run[j].t
  }

  /** Every step changes the queue of its own chat only. */
  lemma OtherQueuesStay(ttl: int, st: State, step: Step, key: string)
    requires key != step.key
    ensures QueueOf(Apply(ttl, st, step), key) == QueueOf(st, key)
  {
  }

  // ---- expiry -----------------------------------------------------------------

  ghost predicate Sorted(queue: seq<Entry>) {
    forall i, j :: 0 <= i < j < |queue| ==> queue[i].expiresAt <= queue[j].expiresAt
  }

  lemma {:induction false} DropExpiredIsSuffix(queue: seq<Entry>, now: int)
    ensures |DropExpired(queue, now)| <= |queue|
    ensures DropExpired(queue, now) == queue[|queue| - |DropExpired(queue, now)|..]
    ensures DropExpired(queue, now) != [] ==> DropExpired(queue, now)[0].expiresAt > now
    ensures forall i :: 0 <= i < |queue| - |DropExpired(queue, now)| ==> queue[i].expiresAt <= now
  {
    if queue != [] && queue[0].expiresAt <= now {
      DropExpiredIsSuffix(queue[1..], now);
      var n := |DropExpired(queue[1..], now)|;
      assert queue[1..][|queue| - 1 - n..] == queue[|queue| - n..];
      forall i | 0 <= i < |queue| - n ensures queue[i].expiresAt <= now {
        if i > 0 { assert queue[i] == queue[1..][i - 1]; }
      }
    }
  }

  /** In a sorted queue the dropped prefix holds every expired entry and nothing else. */
  lemma DropExpiredIsComplete(queue: seq<Entry>, now: int, e: Entry)
    requires Sorted(queue)
    ensures e in DropExpired(queue, now) <==> e in queue && e.expiresAt > now
  {
    hide DropExpired;
    DropExpiredIsSuffix(queue, now);
    var n := |queue| - |DropExpired(queue, now)|;
    if e in queue && e.expiresAt > now {
      var i :| 0 <= i < |queue| && queue[i] == e;
      assert DropExpired(queue, now)[i - n] == e;
    }
    if e in DropExpired(queue, now) {
      var i :| 0 <= i < |DropExpired(queue, now)| && DropExpired(queue, now)[i] == e;
      assert queue[n + i] == e && queue[n].expiresAt > now;
    }
  }

  ghost predicate QueueOk(queue: seq<Entry>, latest: int) {
    Sorted(queue) && forall i :: 0 <= i < |queue| ==> queue[i].expiresAt <= latest
  }

  lemma ParkKeepsSorted(queue: seq<Entry>, e: Entry, latest: int)
    requires QueueOk(queue, latest) && latest <= e.expiresAt
    ensures QueueOk(queue + [e], e.expiresAt)
  {
  }

  lemma SuffixKeepsSorted(queue: seq<Entry>, n: nat, latest: int, later: int)
    requires QueueOk(queue, latest) && n <= |queue| && latest <= later
    ensures QueueOk(queue[n..], later)
  {
  }

  /** A step leaves its chat's queue with an entry more, or with a suffix of what it was. */
  lemma StepQueue(ttl: int, st: State, step: Step)
    ensures var q, q' := QueueOf(st, step.key), QueueOf(Apply(ttl, st, step), step.key);
            if step.Permission? then q' == q + [Entry(step.threadId, step.requestId, step.toolName, step.t + ttl)]
            else |q'| <= |q| && q' == q[|q| - |q'|..]
  {
    hide Approves, Denies, DropExpired;
    if step.Reply? { DropExpiredIsSuffix(QueueOf(st, step.key), step.t); }
  }

  lemma StepKeepsSorted(ttl: int, st: State, step: Step, key: string, latest: int)
    requires QueueOk(QueueOf(st, key), latest + ttl) && latest <= step.t
    ensures QueueOk(QueueOf(Apply(ttl, st, step), key), step.t + ttl)
  {
    hide Apply, QueueOf, QueueOk;
    var q, q' := QueueOf(st, key), QueueOf(Apply(ttl, st, step), key);
    if step.key != key {
      OtherQueuesStay(ttl, st, step, key);
      SuffixKeepsSorted(q, 0, latest + ttl, step.t + ttl);
      assert q[0..] == q;
    } else {
      StepQueue(ttl, st, step);
      if step.Permission? {
        ParkKeepsSorted(q, Entry(step.threadId, step.requestId, step.toolName, step.t + ttl), latest + ttl);
      } else {
        SuffixKeepsSorted(q, |q| - |q'|, latest + ttl, step.t + ttl);
      }
    }
  }

  /** With one ttl and a clock that does not go back, every queue stays sorted by expiry. */
  lemma {:induction false} QueuesStaySorted(ttl: int, run: seq<Step>, key: string)
    requires ClockRuns(run)
    ensures Sorted(QueueOf(After(ttl, run), key))
    ensures run != [] ==> QueueOk(QueueOf(After(ttl, run), key), run[|run| - 1].t + ttl)
  {
    hide Apply;
    if run != [] {
      var front, last := run[..|run| - 1], run[|run| - 1];
      QueuesStaySorted(ttl, front, key);
      StepKeepsSorted(ttl, After(ttl, front), last, key, if front == [] then last.t else front[|front| - 1].t);
    }
  }

  /** No decision is made at or after its entry's expiry. */
  lemma {:induction false} DecisionsAreInTime(ttl: int, run: seq<Step>)
    ensures forall d :: d in After(ttl, run).decisions ==> d.at < d.entry.expiresAt
  {
    if run != [] {
      DecisionsAreInTime(ttl, run[..|run| - 1]);
      var last, st := run[|run| - 1], After(ttl, run[..|run| - 1]);
      if last.Reply? { DropExpiredIsSuffix(QueueOf(st, last.key), last.t); }
    }
  }

  // ---- order ------------------------------------------------------------------

  /** `a` can be had from `b` by leaving elements out. */
  ghost predicate Subseq<T(!new)>(a: seq<T>, b: seq<T>)
    decreases |b|
  {
    || a == []
    || (&& b != []
        && (|| Subseq(a, b[..|b| - 1])
            || (a[|a| - 1] == b[|b| - 1] && Subseq(a[..|a| - 1], b[..|b| - 1]))))
  }

  lemma SubseqSnoc<T(!new)>(a: seq<T>, b: seq<T>, x: T)
    requires Subseq(a, b)
    ensures Subseq(a + [x], b + [x]) && Subseq(a, b + [x])
  {
    assert (a + [x])[..|a|] == a && (b + [x])[..|b|] == b;
  }

  lemma {:induction false} SubseqAppend<T(!new)>(a: seq<T>, b: seq<T>, c: seq<T>)
    requires Subseq(a, b)
    ensures Subseq(a + c, b + c) && Subseq(a, b + c)
    decreases |c|
  {
    if c == [] {
      assert a + c == a && b + c == b;
    } else {
      var front, x := c[..|c| - 1], c[|c| - 1];
      SubseqAppend(a, b, front);
      SubseqSnoc(a + front, b + front, x);
      SubseqSnoc(a, b + front, x);
      assert a + front + [x] == a + c && b + front + [x] == b + c;
    }
  }

  lemma {:induction false} SubseqRefl<T(!new)>(a: seq<T>)
    ensures Subseq(a, a)
  {
    SubseqAppend([], [], a);
    assert [] + a == a;
  }

  lemma {:induction false} SubseqTrans<T(!new)>(a: seq<T>, b: seq<T>, c: seq<T>)
    requires Subseq(a, b) && Subseq(b, c)
    ensures Subseq(a, c)
    decreases |c|, |b|
  {
    if a != [] {
      var c' := c[..|c| - 1];
      if Subseq(b, c') {
        SubseqTrans(a, b, c');
      } else {
        var b' := b[..|b| - 1];
        if Subseq(a, b') {
          SubseqTrans(a, b', c');
        } else {
          SubseqTrans(a[..|a| - 1], b', c');
        }
      }
    }
  }

  /** Leaving out a middle stretch. */
  lemma SubseqWithout<T(!new)>(a: seq<T>, mid: seq<T>, b: seq<T>, all: seq<T>)
    requires Subseq(a + mid + b, all)
    ensures Subseq(a + b, all)
  {
    SubseqRefl(a);
    SubseqAppend(a, a, mid);
    SubseqAppend(a, a + mid, b);
    SubseqTrans(a + b, a + mid + b, all);
  }

  lemma {:induction false} SubseqMember<T(!new)>(a: seq<T>, b: seq<T>, x: T)
    requires Subseq(a, b) && x in a
    ensures x in b
    decreases |b|
  {
    var b' := b[..|b| - 1];
    if Subseq(a, b') {
      SubseqMember(a, b', x);
    } else if x != a[|a| - 1] {
      SubseqMember(a[..|a| - 1], b', x);
    }
  }

  lemma {:induction false} SubseqDistinct<T(!new)>(a: seq<T>, b: seq<T>)
    requires Subseq(a, b) && Distinct(b)
    ensures Distinct(a)
    decreases |b|
  {
    if a != [] {
      var a', b' := a[..|a| - 1], b[..|b| - 1];
      if Subseq(a, b') {
        SubseqDistinct(a, b');
      } else {
        SubseqDistinct(a', b');
        forall i | 0 <= i < |a'| ensures a[i] != a[|a| - 1] {
          SubseqMember(a', b', a'[i]);
        }
      }
    }
  }

  /** The requests that arrived in one chat, in order. */
  ghost function Arrived(run: seq<Step>, key: string): seq<string> {
    if run == [] then []
    else
      var last := run[|run| - 1];
      Arrived(run[..|run| - 1], key) + (if last.Permission? && last.key == key then [last.requestId] else [])
  }

  /** The requests decided from one chat, in order. */
  ghost function Decided(ds: seq<Decision>, key: string): seq<string> {
    if ds == [] then []
    else
      var last := ds[|ds| - 1];
      Decided(ds[..|ds| - 1], key) + (if last.key == key then [last.entry.requestId] else [])
  }

  function RequestIds(queue: seq<Entry>): seq<string> {
    seq(|queue|, i requires 0 <= i < |queue| => queue[i].requestId)
  }

  ghost function Line(st: State, key: string): seq<string> {
    Decided(st.decisions, key) + RequestIds(QueueOf(st, key))
  }

  lemma DecidedSnoc(ds: seq<Decision>, d: Decision, key: string)
    ensures Decided(ds + [d], key) == Decided(ds, key) + (if d.key == key then [d.entry.requestId] else [])
  {
    assert (ds + [d])[..|ds|] == ds;
  }

  lemma IdsConcat(a: seq<Entry>, b: seq<Entry>)
    ensures RequestIds(a + b) == RequestIds(a) + RequestIds(b)
  {
  }

  /** Dropping the expired head leaves decided-then-waiting a subsequence of what it was. */
  lemma DropKeepsLine(ds: seq<string>, q: seq<Entry>, now: int, all: seq<string>)
    requires Subseq(ds + RequestIds(q), all)
    ensures Subseq(ds + RequestIds(DropExpired(q, now)), all)
  {
    hide Subseq, DropExpired;
    var kept := DropExpired(q, now);
    DropExpiredIsSuffix(q, now);
    var dropped := q[..|q| - |kept|];
    assert q == dropped + kept;
    IdsConcat(dropped, kept);
    assert ds + RequestIds(q) == ds + RequestIds(dropped) + RequestIds(kept);
    SubseqWithout(ds, RequestIds(dropped), RequestIds(kept), all);
  }

  /** Deciding the head moves it from waiting to decided. */
  lemma DecideKeepsLine(ds: seq<string>, queue: seq<Entry>)
    requires queue != []
    ensures ds + [queue[0].requestId] + RequestIds(queue[1..]) == ds + RequestIds(queue)
  {
    assert RequestIds(queue) == [queue[0].requestId] + RequestIds(queue[1..]);
  }

  lemma PutQueue(st: State, key: string, queue: seq<Entry>)
    ensures QueueOf(Put(st, key, queue), key) == queue && Put(st, key, queue).decisions == st.decisions
  {
  }

  lemma ReplyKeepsLine(st: State, key: string, text: string, now: int, all: seq<string>)
    requires Subseq(Line(st, key), all)
    ensures Subseq(Line(Replied(st, key, text, now), key), all)
  {
    hide Approves, Denies, Subseq, DropExpired, RequestIds, Decided, Put, QueueOf;
    var q, ds := QueueOf(st, key), Decided(st.decisions, key);
    var kept := DropExpired(q, now);
    DropKeepsLine(ds, q, now, all);
    PutQueue(st, key, kept);
    if q != [] && kept != [] && (Approves(text) || Denies(text)) {
      PutQueue(st, key, kept[1..]);
      DecidedSnoc(st.decisions, Decision(key, kept[0], Approves(text), now), key);
      DecideKeepsLine(ds, kept);
      QueueIgnoresDecisions(Put(st, key, kept[1..]), Replied(st, key, text, now), key);
    }
  }

  lemma QueueIgnoresDecisions(a: State, b: State, key: string)
    requires a.pending == b.pending
    ensures QueueOf(a, key) == QueueOf(b, key)
  {
  }

  lemma StepKeepsLine(ttl: int, st: State, step: Step, key: string, all: seq<string>)
    requires Subseq(Line(st, key), all)
    ensures var arrives := if step.Permission? && step.key == key then [step.requestId] else [];
            Subseq(Line(Apply(ttl, st, step), key), all + arrives)
  {
    hide Subseq, Replied;
    var st' := Apply(ttl, st, step);
    if step.key != key {
      OtherQueuesStay(ttl, st, step, key);
      OtherDecisionsStay(ttl, st, step, key);
      assert all + [] == all;
    } else {
      match step
      case Permission(_, threadId, requestId, toolName, t) =>
        SubseqSnoc(Line(st, key), all, requestId);
        var e := Entry(threadId, requestId, toolName, t + ttl);
        assert QueueOf(st', key) == QueueOf(st, key) + [e];
        IdsConcat(QueueOf(st, key), [e]);
        assert Line(st', key) == Line(st, key) + [requestId];
      case Reply(_, text, t) =>
        ReplyKeepsLine(st, key, text, t, all);
        assert all + [] == all;
      case Terminal(_, t) =>
        assert Decided(st.decisions, key) + RequestIds(QueueOf(st, key)) + [] == Line(st, key);
        SubseqWithout(Decided(st.decisions, key), RequestIds(QueueOf(st, key)), [], all);
        assert Line(st', key) == Decided(st.decisions, key) + [];
        assert all + [] == all;
    }
  }

  lemma OtherDecisionsStay(ttl: int, st: State, step: Step, key: string)
    requires key != step.key
    ensures Decided(Apply(ttl, st, step).decisions, key) == Decided(st.decisions, key)
  {
    var st' := Apply(ttl, st, step);
    if st'.decisions != st.decisions {
      DecidedSnoc(st.decisions, st'.decisions[|st.decisions|], key);
    }
  }

  /** In each chat, what was decided followed by what waits follows the order of arrival. */
  lemma {:induction false} LineFollowsArrival(ttl: int, run: seq<Step>, key: string)
    ensures Subseq(Line(After(ttl, run), key), Arrived(run, key))
  {
    hide Apply;
    if run != [] {
      LineFollowsArrival(ttl, run[..|run| - 1], key);
      StepKeepsLine(ttl, After(ttl, run[..|run| - 1]), run[|run| - 1], key, Arrived(run[..|run| - 1], key));
    }
  }

  /**
   * Decisions of a chat follow arrival order and concern only requests that arrived there; with
   * distinct request ids none is decided twice and none waits after its decision.
   */
  lemma DecisionsFollowArrival(ttl: int, run: seq<Step>, key: string)
    ensures Subseq(Decided(After(ttl, run).decisions, key), Arrived(run, key))
    ensures Distinct(Arrived(run, key)) ==> Distinct(Decided(After(ttl, run).decisions, key) + RequestIds(QueueOf(After(ttl, run), key)))
  {
    hide Subseq, After;
    var st := After(ttl, run);
    LineFollowsArrival(ttl, run, key);
    var ds, q := Decided(st.decisions, key), RequestIds(QueueOf(st, key));
    assert ds + q + [] == Line(st, key);
    SubseqWithout(ds, q, [], Arrived(run, key));
    assert ds + [] == ds;
    if Distinct(Arrived(run, key)) { SubseqDistinct(Line(st, key), Arrived(run, key)); }
  }

  /** The decision came from a reply in its own chat that says the same. */
  ghost predicate IsAnsweredBy(d: Decision, step: Step) {
    step.Reply? && step.key == d.key && step.t == d.at && d.approve == Approves(step.text) && (Approves(step.text) || Denies(step.text))
  }

  /** Every decision repeats what a reply in that chat said at that moment. */
  lemma {:induction false} DecisionsComeFromReplies(ttl: int, run: seq<Step>, d: Decision) returns (i: nat)
    requires d in After(ttl, run).decisions
    ensures i < |run| && IsAnsweredBy(d, run[i])
  {
    hide Approves, Denies, DropExpired;
    var front, last := run[..|run| - 1], run[|run| - 1];
    if d in After(ttl, front).decisions {
      i := DecisionsComeFromReplies(ttl, front, d);
    } else {
      i := |run| - 1;
    }
  }

  // ---- which request a reply answers ------------------------------------------

  ghost predicate IsLive(queue: seq<Entry>, i: int, now: int) {
    0 <= i < |queue| && queue[i].expiresAt > now
  }

  /** The dropped queue starts at the first live entry. */
  lemma {:induction false} DropToFirstLive(queue: seq<Entry>, now: int, i: nat)
    requires IsLive(queue, i, now) && forall j :: 0 <= j < i ==> !IsLive(queue, j, now)
    ensures DropExpired(queue, now) == queue[i..]
    decreases i
  {
    if i > 0 {
      assert !IsLive(queue, 0, now);
      forall j | 0 <= j < i - 1 ensures !IsLive(queue[1..], j, now) {
        assert !IsLive(queue, j + 1, now);
      }
      DropToFirstLive(queue[1..], now, i - 1);
    }
  }

  /**
   * A reply decides exactly when it says yes or no and some entry is still live; it then answers the
   * oldest live entry, and only the entries behind that one keep waiting.
   */
  lemma ReplyAnswersOldestLive(st: State, key: string, text: string, now: int, i: nat)
    ensures var q := QueueOf(st, key);
            var st' := Replied(st, key, text, now);
            && (st'.decisions != st.decisions <==> (Approves(text) || Denies(text)) && exists j :: IsLive(q, j, now))
            && (IsLive(q, i, now) && (forall j :: 0 <= j < i ==> !IsLive(q, j, now)) ==>
                  if Approves(text) || Denies(text) then
                    st'.decisions == st.decisions + [Decision(key, q[i], Approves(text), now)] && QueueOf(st', key) == q[i + 1..]
                  else st'.decisions == st.decisions && QueueOf(st', key) == q[i..])
  {
    hide DropExpired, Approves, Denies;
    var q := QueueOf(st, key);
    NothingToDrop(now);
    DropExpiredIsSuffix(q, now);
    var n := |q| - |DropExpired(q, now)|;
    if DropExpired(q, now) != [] {
      assert IsLive(q, n, now);
    }
    if IsLive(q, i, now) && (forall j :: 0 <= j < i ==> !IsLive(q, j, now)) {
      DropToFirstLive(q, now, i);
      assert q[i..][1..] == q[i + 1..] && q[i..][0] == q[i];
    }
  }
}
