/** Delivering a reply stream on a messaging channel (adapters/shuttle/src/delivery.ts). */
module Delivery {
  import opened Common
  import opened Chunking

  datatype Mode = Final | TypingFinal | EditStream

  datatype ReplyEvent = Delta(text: string) | DoneReply | ErrorReply(message: string)

  datatype DeliveryPolicy = DeliveryPolicy(mode: Mode, maxChars: Option<nat>, editThrottleChars: Option<int>)

  datatype DeliveryResult = DeliveryResult(text: string, messageIds: seq<nat>, mode: Mode, chunks: nat)

  // ---- the platform -----------------------------------------------------------

  datatype Act = Sent(id: nat, text: string) | Edited(id: nat, text: string) | Typing

  datatype Shown = Shown(id: nat, text: string)

  function EditShown(shown: seq<Shown>, id: nat, text: string): seq<Shown> {
    seq(|shown|, i requires 0 <= i < |shown| => if shown[i].id == id then Shown(id, text) else shown[i])
  }

  /** The messages a person sees after everything the transport did. */
  function Visible(log: seq<Act>): seq<Shown> {
    if log == [] then []
    else
      var before := Visible(log[..|log| - 1]);
      match log[|log| - 1]
      case Sent(id, text) => before + [Shown(id, text)]
      case Edited(id, text) => EditShown(before, id, text)
      case Typing => before
  }

  function Texts(shown: seq<Shown>): seq<string> {
    seq(|shown|, i requires 0 <= i < |shown| => shown[i].text)
  }

  function Ids(shown: seq<Shown>): seq<nat> {
    seq(|shown|, i requires 0 <= i < |shown| => shown[i].id)
  }

  /** One new message per text, the first at position `at` of the log. */
  function Sents(at: nat, texts: seq<string>): seq<Act> {
    seq(|texts|, i requires 0 <= i < |texts| => Sent(at + i, texts[i]))
  }

  function ShownAs(at: nat, texts: seq<string>): seq<Shown> {
    seq(|texts|, i requires 0 <= i < |texts| => Shown(at + i, texts[i]))
  }

  /** The ids among `ids` that the platform reported. */
  function ToldOf(ids: seq<nat>, tells: nat -> bool): seq<nat> {
    if ids == [] then []
    else ToldOf(ids[..|ids| - 1], tells) + (if tells(ids[|ids| - 1]) then [ids[|ids| - 1]] else [])
  }

  lemma ToldSnoc(ids: seq<nat>, id: nat, tells: nat -> bool)
    ensures ToldOf(ids + [id], tells) == ToldOf(ids, tells) + (if tells(id) then [id] else [])
  {
    assert (ids + [id])[..|ids|] == ids;
  }

  lemma {:induction false} ToldConcat(a: seq<nat>, b: seq<nat>, tells: nat -> bool)
    ensures ToldOf(a + b, tells) == ToldOf(a, tells) + ToldOf(b, tells)
    decreases |b|
  {
    if b == [] {
      assert a + b == a;
    } else {
      assert (a + b)[..|a + b| - 1] == a + b[..|b| - 1];
      ToldConcat(a, b[..|b| - 1], tells);
    }
  }

  lemma {:induction false} NoneTold(ids: seq<nat>, tells: nat -> bool)
    requires forall i :: 0 <= i < |ids| ==> !tells(ids[i])
    ensures ToldOf(ids, tells) == []
  {
    if ids != [] { NoneTold(ids[..|ids| - 1], tells); }
  }

  lemma SentsSnoc(at: nat, texts: seq<string>, text: string)
    ensures Sents(at, texts + [text]) == Sents(at, texts) + [Sent(at + |texts|, text)]
  {
  }

  /** Sent messages appear below what was visible. */
  lemma {:induction false} SentsShow(log: seq<Act>, at: nat, texts: seq<string>)
    ensures Visible(log + Sents(at, texts)) == Visible(log) + ShownAs(at, texts)
    decreases |texts|
  {
    if texts == [] {
      assert log + Sents(at, texts) == log;
    } else {
      var n := |texts| - 1;
      SentsShow(log, at, texts[..n]);
      assert (log + Sents(at, texts))[..|log| + n] == log + Sents(at, texts[..n]);
    }
  }

  /**
   * A platform that knows every sent message by its position in the log. `tells` says for which of
   * them a send returns that id to the caller.
   */
  class Transport {
    const maxChars: nat
    const supportsEdit: bool
    const supportsTyping: bool
    const tells: nat -> bool
    var log: seq<Act>

    ghost predicate Valid()
      reads this
    {
      forall s :: s in Visible(log) ==> s.id < |log|
    }

    constructor (maxChars: nat, supportsEdit: bool, supportsTyping: bool, tells: nat -> bool)
      ensures Valid() && log == [] && this.tells == tells
      ensures this.maxChars == maxChars && this.supportsEdit == supportsEdit && this.supportsTyping == supportsTyping
    {
      this.maxChars, this.supportsEdit, this.supportsTyping, this.tells := maxChars, supportsEdit, supportsTyping, tells;
      log := [];
    }

    method SendText(text: string) returns (id: Option<nat>)
      requires Valid()
      modifies this`log
      ensures Valid() && log == old(log) + [Sent(|old(log)|, text)]
      ensures id == if tells(|old(log)|) then Some(|old(log)|) else None
      ensures Visible(log) == old(Visible(log)) + [Shown(|old(log)|, text)] && |old(log)| !in Ids(old(Visible(log)))
    {
      var at := |log|;
      id := if tells(at) then Some(at) else None;
      log := log + [Sent(at, text)];
      assert log[..|log| - 1] == old(log);
    }

    method EditText(id: nat, text: string)
      requires Valid()
      modifies this`log
      ensures Valid() && log == old(log) + [Edited(id, text)]
      ensures Visible(log) == EditShown(old(Visible(log)), id, text)
    {
      log := log + [Edited(id, text)];
      assert log[..|log| - 1] == old(log);
      assert forall s :: s in Visible(log) ==> exists r :: r in Visible(old(log)) && r.id == s.id;
    }

    method SendTyping()
      requires Valid()
      modifies this`log
      ensures Valid() && log == old(log) + [Typing] && Visible(log) == old(Visible(log))
    {
      log := log + [Typing];
      assert log[..|log| - 1] == old(log);
    }
  }

  /** Editing the newest message changes that message alone. */
  lemma EditLast(shown: seq<Shown>, id: nat, before: string, text: string)
    requires id !in Ids(shown)
    ensures EditShown(shown + [Shown(id, before)], id, text) == shown + [Shown(id, text)]
  {
    var r := EditShown(shown + [Shown(id, before)], id, text);
    forall i | 0 <= i < |shown| ensures r[i] == shown[i] {
      assert Ids(shown)[i] == shown[i].id;
    }
  }

  // ---- modes ------------------------------------------------------------------

  /** The requested mode reduced to what the platform can do. */
  function ResolveMode(mode: Mode, supportsEdit: bool, supportsTyping: bool): Mode {
    var m := if mode.EditStream? && !supportsEdit then TypingFinal else mode;
    if m.TypingFinal? && !supportsTyping then Final else m
  }

  /** The effective mode never uses a missing capability, and is the requested one when nothing is missing. */
  lemma ResolvedModeIsSupported(mode: Mode, supportsEdit: bool, supportsTyping: bool)
    ensures var m := ResolveMode(mode, supportsEdit, supportsTyping);
            && (m.EditStream? ==> supportsEdit && mode.EditStream?) && (m.TypingFinal? ==> supportsTyping)
            && (supportsEdit && supportsTyping ==> m == mode)
            && ResolveMode(m, supportsEdit, supportsTyping) == m
  {
  }

  // ---- the reply stream -------------------------------------------------------

  ghost predicate ErrorFree(stream: seq<ReplyEvent>) {
    forall i :: 0 <= i < |stream| ==> !stream[i].ErrorReply?
  }

  /** The reply text that the deltas carry. */
  ghost function ReplyText(stream: seq<ReplyEvent>): string {
    if stream == [] then ""
    else ReplyText(stream[..|stream| - 1]) + (if stream[|stream| - 1].Delta? then stream[|stream| - 1].text else "")
  }

  ghost function EditCount(log: seq<Act>): nat {
    if log == [] then 0 else EditCount(log[..|log| - 1]) + (if log[|log| - 1].Edited? then 1 else 0)
  }

  lemma EditCountSnoc(log: seq<Act>, a: Act)
    ensures EditCount(log + [a]) == EditCount(log) + (if a.Edited? then 1 else 0)
  {
    assert (log + [a])[..|log|] == log;
  }

  /** An act that shows nothing, or a prefix of `text` that fits one message. */
  ghost predicate ShowsPrefix(a: Act, text: string, maxChars: nat) {
    a.Typing? || (a.text <= text && |a.text| <= maxChars)
  }

  /** The acts from position `from` on all show prefixes of `text`. */
  ghost predicate ActsShowPrefixes(log: seq<Act>, from: nat, to: nat, text: string, maxChars: nat) {
    to <= |log| && forall k :: from <= k < to ==> ShowsPrefix(log[k], text, maxChars)
  }

  /** What the person sees of the live message: nothing yet, or one message with a prefix of the reply. */
  ghost predicate LiveIs(before: seq<Shown>, now: seq<Shown>, live: Option<nat>, text: string, maxChars: nat) {
    if live.None? then now == before
    else
      && live.value !in Ids(before) && |now| == |before| + 1 && now[..|before|] == before
      && now[|before|].id == live.value && now[|before|].text <= text && |now[|before|].text| <= maxChars
  }

  /** Everything that holds while the reply is coming in, since the transport was at `start`. */
  ghost predicate Streaming(start: seq<Act>, log: seq<Act>, live: Option<nat>, acc: string, lastEditLen: nat,
                            maxChars: nat, throttle: int) {
    && start <= log && LiveIs(Visible(start), Visible(log), live, acc, maxChars)
    && ActsShowPrefixes(log, |start|, |log|, acc, maxChars)
    && lastEditLen <= |acc|
    && EditCount(start) <= EditCount(log)
    && (EditCount(log) - EditCount(start)) * throttle <= lastEditLen
    && (live.Some? ==> |Visible(log)[|Visible(start)|].text| == lastEditLen)
  }

  lemma StreamingGrows(start: seq<Act>, log: seq<Act>, live: Option<nat>, acc: string, more: string, lastEditLen: nat,
                       maxChars: nat, throttle: int)
    requires Streaming(start, log, live, acc, lastEditLen, maxChars, throttle)
    ensures Streaming(start, log, live, acc + more, lastEditLen, maxChars, throttle)
  {
    hide Visible, EditCount;
    forall k | |start| <= k < |log| ensures ShowsPrefix(log[k], acc + more, maxChars) {
      assert ShowsPrefix(log[k], acc, maxChars);
    }
  }

  lemma StreamingEdit(start: seq<Act>, log: seq<Act>, live: nat, acc: string, lastEditLen: nat, maxChars: nat, throttle: int)
    requires Streaming(start, log, Some(live), acc, lastEditLen, maxChars, throttle)
    requires |acc| <= maxChars && |acc| - lastEditLen >= throttle
    ensures Streaming(start, log + [Edited(live, acc)], Some(live), acc, |acc|, maxChars, throttle)
  {
    var before, now := Visible(start), Visible(log);
    assert now == before + [Shown(live, now[|before|].text)];
    EditLast(before, live, now[|before|].text, acc);
    assert (log + [Edited(live, acc)])[..|log|] == log;
    EditCountSnoc(log, Edited(live, acc));
    AddEdits(EditCount(log) - EditCount(start), 1, throttle);
  }

  lemma StreamingSent(start: seq<Act>, log: seq<Act>, id: nat, acc: string, lastEditLen: nat, maxChars: nat, throttle: int)
    requires Streaming(start, log, None, acc, lastEditLen, maxChars, throttle)
    requires |acc| <= maxChars && id !in Ids(Visible(log))
    ensures Streaming(start, log + [Sent(id, acc)], Some(id), acc, |acc|, maxChars, throttle)
  {
    assert (log + [Sent(id, acc)])[..|log|] == log;
    EditCountSnoc(log, Sent(id, acc));
  }

  lemma AddEdits(a: int, b: int, throttle: int)
    ensures (a + b) * throttle == a * throttle + b * throttle
  {
  }

  lemma StreamingAnew(log: seq<Act>, acc: string, maxChars: nat, throttle: int)
    ensures Streaming(log, log, None, acc, 0, maxChars, throttle)
  {
  }

  /**
   * One delta in edit-stream mode: open the live message, or re-edit it once enough text came. A send
   * that returns no id leaves a message behind and the next delta tries again; `base` is the log
   * before the live message.
   */
  method ShowLive(transport: Transport, live: Option<nat>, lastEditLen: nat, acc: string, maxChars: nat, throttle: int,
                  ghost base: seq<Act>)
    returns (live': Option<nat>, lastEditLen': nat, ghost base': seq<Act>)
    requires transport.Valid() && |acc| <= maxChars
    requires Streaming(base, transport.log, live, acc, lastEditLen, maxChars, throttle)
    requires live.None? ==> base == transport.log && lastEditLen == 0
    modifies transport`log
    ensures transport.Valid() && Streaming(base', transport.log, live', acc, lastEditLen', maxChars, throttle)
    ensures live.Some? ==> live' == live && base' == base
    ensures live.None? ==>
              && transport.log == base + [Sent(|base|, acc)]
              && if transport.tells(|base|) then live' == Some(|base|) && base' == base
                 else live' == None && base' == transport.log && lastEditLen' == 0
    ensures live'.Some? ==>
              lastEditLen' == |acc| || (lastEditLen' == lastEditLen && live.Some? && |acc| - lastEditLen < throttle)
  {
    hide Streaming, Visible;
    live', lastEditLen', base' := live, lastEditLen, base;
    if live.None? {
      var id := transport.SendText(acc);
      if id.Some? {
        live', lastEditLen' := id, |acc|;
        StreamingSent(base, base, id.value, acc, lastEditLen, maxChars, throttle);
      } else {
        base' := transport.log;
        StreamingAnew(base', acc, maxChars, throttle);
      }
    } else if |acc| - lastEditLen >= throttle {
      StreamingEdit(base, transport.log, live.value, acc, lastEditLen, maxChars, throttle);
      transport.EditText(live.value, acc);
      lastEditLen' := |acc|;
    }
  }

  const WARNING_SIGN := "\U{26A0}\U{FE0F} "

  lemma SentNone(log: seq<Act>, tells: nat -> bool)
    ensures log + Sents(|log|, []) == log && ToldOf(Ids(ShownAs(|log|, [])), tells) == []
  {
  }

  /** One more message after some others. */
  lemma SentOne(log: seq<Act>, texts: seq<string>, text: string, tells: nat -> bool)
    ensures var at := |log| + |texts|;
            && |log + Sents(|log|, texts)| == at
            && log + Sents(|log|, texts + [text]) == log + Sents(|log|, texts) + [Sent(at, text)]
            && ToldOf(Ids(ShownAs(|log|, texts + [text])), tells)
               == ToldOf(Ids(ShownAs(|log|, texts)), tells) + if tells(at) then [at] else []
  {
    hide ToldOf;
    SentsSnoc(|log|, texts, text);
    assert Ids(ShownAs(|log|, texts + [text])) == Ids(ShownAs(|log|, texts)) + [|log| + |texts|];
    ToldSnoc(Ids(ShownAs(|log|, texts)), |log| + |texts|, tells);
  }

  /** Sends the remaining chunks as messages of their own and records the ids that come back. */
  method SendAll(transport: Transport, chunks: seq<string>, messageIds: seq<nat>) returns (ids: seq<nat>)
    requires transport.Valid()
    modifies transport`log
    ensures transport.Valid() && transport.log == old(transport.log) + Sents(|old(transport.log)|, chunks)
    ensures Visible(transport.log) == old(Visible(transport.log)) + ShownAs(|old(transport.log)|, chunks)
    ensures ids == messageIds + ToldOf(Ids(ShownAs(|old(transport.log)|, chunks)), transport.tells)
  {
    hide Visible, Sents, ShownAs, Ids, ToldOf;
    ids := messageIds;
    ghost var start := transport.log;
    ghost var at := |start|;
    SentNone(start, transport.tells);
    assert chunks[..0] == [] && messageIds + [] == messageIds;
    for i := 0 to |chunks|
      invariant transport.Valid() && transport.log == start + Sents(at, chunks[..i])
      invariant ids == messageIds + ToldOf(Ids(ShownAs(at, chunks[..i])), transport.tells)
    {
      var id := transport.SendText(chunks[i]);
      assert chunks[..i + 1] == chunks[..i] + [chunks[i]];
      SentOne(start, chunks[..i], chunks[i], transport.tells);
      if id.Some? { ids := ids + [id.value]; }
    }
    assert chunks[..|chunks|] == chunks;
    SentsShow(start, at, chunks);
  }

  /** The first error of a stream, if it has one. */
  ghost predicate FailsAt(stream: seq<ReplyEvent>, k: int, message: string) {
    0 <= k < |stream| && stream[k] == ErrorReply(message) && ErrorFree(stream[..k])
  }

  /** The text after event `k`, if that is a delta that leaves a text that fits one message. */
  ghost function FittingAt(stream: seq<ReplyEvent>, k: nat, maxChars: nat): seq<string>
    requires k < |stream|
  {
    var text := ReplyText(stream[..k + 1]);
    if stream[k].Delta? && |text| <= maxChars then [text] else []
  }

  /** The fitting texts of the first `n` events: what edit-stream would show live. */
  ghost function FittingTexts(stream: seq<ReplyEvent>, n: nat, maxChars: nat): seq<string>
    requires n <= |stream|
  {
    if n == 0 then [] else FittingTexts(stream, n - 1, maxChars) + FittingAt(stream, n - 1, maxChars)
  }

  ghost function LiveTexts(mode: Mode, stream: seq<ReplyEvent>, n: nat, maxChars: nat): seq<string>
    requires n <= |stream|
  {
    if mode.EditStream? then FittingTexts(stream, n, maxChars) else []
  }

  /** How many sends in a row, from position `at` on, return no id. */
  ghost function Untold(tells: nat -> bool, at: nat, count: nat): (m: nat)
    ensures m <= count
    decreases count
  {
    if count == 0 || tells(at) then 0 else 1 + Untold(tells, at + 1, count - 1)
  }

  /**
   * The live message after some fitting texts: every send before it returned no id and stays as a
   * message of its own, the first that returns one is the live message.
   */
  ghost predicate LiveState(tells: nat -> bool, first: seq<Act>, base: seq<Act>, live: Option<nat>, fits: seq<string>) {
    var m := |base| - |first|;
    && 0 <= m <= |fits| && base == first + Sents(|first|, fits[..m])
    && (forall id :: |first| <= id < |base| ==> !tells(id))
    && if live.None? then m == |fits| else m < |fits| && tells(|base|) && live.value == |base|
  }

  lemma NothingLive(tells: nat -> bool, first: seq<Act>)
    ensures LiveState(tells, first, first, None, [])
  {
    assert Sents(|first|, []) == [];
  }

  lemma LiveOpens(tells: nat -> bool, first: seq<Act>, base: seq<Act>, fits: seq<string>, text: string)
    requires LiveState(tells, first, base, None, fits)
    ensures if tells(|base|) then LiveState(tells, first, base, Some(|base|), fits + [text])
            else LiveState(tells, first, base + [Sent(|base|, text)], None, fits + [text])
  {
    assert fits[..|fits|] == fits && (fits + [text])[..|fits|] == fits && (fits + [text])[..|fits| + 1] == fits + [text];
    SentsSnoc(|first|, fits, text);
  }

  lemma LiveStays(tells: nat -> bool, first: seq<Act>, base: seq<Act>, live: Option<nat>, fits: seq<string>, more: seq<string>)
    requires LiveState(tells, first, base, live, fits) && (live.Some? || more == [])
    ensures LiveState(tells, first, base, live, fits + more)
  {
    var m := |base| - |first|;
    assert (fits + more)[..m] == fits[..m];
  }

  lemma {:induction false} UntoldIs(tells: nat -> bool, at: nat, m: nat, count: nat)
    requires m <= count && (forall id :: at <= id < at + m ==> !tells(id)) && (m < count ==> tells(at + m))
    ensures Untold(tells, at, count) == m
    decreases m
  {
    if m > 0 { UntoldIs(tells, at + 1, m - 1, count - 1); }
  }

  lemma {:induction false} UntoldAre(tells: nat -> bool, at: nat, count: nat, k: nat)
    requires k < Untold(tells, at, count)
    ensures !tells(at + k)
    decreases k
  {
    if k > 0 { UntoldAre(tells, at + 1, count - 1, k - 1); }
  }

  /** What is shown lags every fitting beginning of the reply by less than the throttle. */
  ghost predicate KeepsUp(stream: seq<ReplyEvent>, n: nat, shown: nat, maxChars: nat, throttle: int) {
    && n <= |stream|
    && forall k :: 0 <= k <= n && |ReplyText(stream[..k])| <= maxChars ==>
         |ReplyText(stream[..k])| <= shown || |ReplyText(stream[..k])| - shown < throttle
  }

  lemma {:induction false} ReplyGrows(stream: seq<ReplyEvent>, k: nat, n: nat)
    requires k <= n <= |stream|
    ensures |ReplyText(stream[..k])| <= |ReplyText(stream[..n])|
    decreases n
  {
    if k < n {
      ReplyGrows(stream, k, n - 1);
      assert stream[..n][..n - 1] == stream[..n - 1];
    }
  }

  /** Showing everything there is, or less than a throttle less, keeps up. */
  lemma KeepsUpNext(stream: seq<ReplyEvent>, n: nat, before: nat, shown: nat, maxChars: nat, throttle: int)
    requires n < |stream|
    requires (shown == before && KeepsUp(stream, n, before, maxChars, throttle)) || shown == |ReplyText(stream[..n + 1])|
    requires var text := ReplyText(stream[..n + 1]); |text| <= maxChars ==> |text| <= shown || |text| - shown < throttle
    ensures KeepsUp(stream, n + 1, shown, maxChars, throttle)
  {
    hide ReplyText;
    forall k | 0 <= k <= n + 1 && |ReplyText(stream[..k])| <= maxChars
      ensures |ReplyText(stream[..k])| <= shown || |ReplyText(stream[..k])| - shown < throttle
    {
      ReplyGrows(stream, k, n + 1);
    }
  }

  /** The loop over the stream. */
  method Consume(transport: Transport, stream: seq<ReplyEvent>, mode: Mode, maxChars: nat, throttle: int, ghost first: seq<Act>)
    returns (acc: string, live: Option<nat>, failure: Option<string>, ghost base: seq<Act>, ghost lastEdit: nat, ghost read: nat)
    requires transport.Valid() && first == transport.log
    modifies transport`log
    ensures transport.Valid() && Streaming(base, transport.log, live, acc, lastEdit, maxChars, throttle)
    ensures live.None? ==> base == transport.log
    ensures read <= |stream| && acc == ReplyText(stream[..read])
    ensures LiveState(transport.tells, first, base, live, LiveTexts(mode, stream, read, maxChars))
    ensures live.Some? ==> KeepsUp(stream, read, lastEdit, maxChars, throttle)
    ensures failure.None? ==> ErrorFree(stream) && read == |stream|
    ensures failure.Some? ==> FailsAt(stream, read, failure.value)
  {
    hide Streaming, Visible, KeepsUp, ReplyText, LiveState, FittingTexts;
    acc, live, failure := "", None, None;
    base := transport.log;
    var lastEditLen: nat := 0;
    NoReplyYet(stream);
    NoFitsYet(stream, maxChars);
    NothingLive(transport.tells, first);
    StreamingAnew(first, acc, maxChars, throttle);
    for i := 0 to |stream|
      invariant transport.Valid() && Streaming(base, transport.log, live, acc, lastEditLen, maxChars, throttle)
      invariant live.None? ==> base == transport.log && lastEditLen == 0
      invariant ErrorFree(stream[..i]) && acc == ReplyText(stream[..i])
      invariant LiveState(transport.tells, first, base, live, LiveTexts(mode, stream, i, maxChars))
      invariant live.Some? ==> KeepsUp(stream, i, lastEditLen, maxChars, throttle)
      invariant failure.None?
    {
      ReplyNext(stream, i);
      FitsNext(stream, i, maxChars);
      ghost var fits, more := LiveTexts(mode, stream, i, maxChars), FittingAt(stream, i, maxChars);
      match stream[i]
      case ErrorReply(message) =>
        return acc, live, Some(message), base, lastEditLen, i;
      case Delta(text) =>
        StreamingGrows(base, transport.log, live, acc, text, lastEditLen, maxChars, throttle);
        acc := acc + text;
        ghost var before := lastEditLen;
        if mode.EditStream? && |acc| <= maxChars {
          if live.None? {
            LiveOpens(transport.tells, first, base, fits, acc);
          } else {
            LiveStays(transport.tells, first, base, live, fits, more);
          }
          live, lastEditLen, base := ShowLive(transport, live, lastEditLen, acc, maxChars, throttle, base);
        } else {
          LiveStays(transport.tells, first, base, live, fits, []);
        }
        if live.Some? { KeepsUpNext(stream, i, before, lastEditLen, maxChars, throttle); }
      case DoneReply =>
        LiveStays(transport.tells, first, base, live, fits, []);
        if live.Some? {
          KeepsUpAt(stream, i, lastEditLen, maxChars, throttle);
          KeepsUpNext(stream, i, lastEditLen, lastEditLen, maxChars, throttle);
        }
    }
    assert stream[..|stream|] == stream;
    lastEdit, read := lastEditLen, |stream|;
  }

  lemma NoFitsYet(stream: seq<ReplyEvent>, maxChars: nat)
    ensures FittingTexts(stream, 0, maxChars) == []
  {
  }

  lemma FitsNext(stream: seq<ReplyEvent>, i: nat, maxChars: nat)
    requires i < |stream|
    ensures FittingTexts(stream, i + 1, maxChars) == FittingTexts(stream, i, maxChars) + FittingAt(stream, i, maxChars)
    ensures FittingTexts(stream, i, maxChars) + [] == FittingTexts(stream, i, maxChars)
  {
  }

  lemma NoReplyYet(stream: seq<ReplyEvent>)
    ensures ReplyText(stream[..0]) == ""
  {
  }

  lemma ReplyNext(stream: seq<ReplyEvent>, i: nat)
    requires i < |stream|
    ensures ReplyText(stream[..i + 1]) == if stream[i].Delta? then ReplyText(stream[..i]) + stream[i].text else ReplyText(stream[..i])
  {
    assert stream[..i + 1][..i] == stream[..i];
    assert ReplyText(stream[..i]) + "" == ReplyText(stream[..i]);
  }

  lemma KeepsUpAt(stream: seq<ReplyEvent>, n: nat, shown: nat, maxChars: nat, throttle: int)
    requires KeepsUp(stream, n, shown, maxChars, throttle)
    ensures var text := ReplyText(stream[..n]); |text| <= maxChars ==> |text| <= shown || |text| - shown < throttle
  {
  }

  /** What is left to show when the stream ends: the chunks, or an empty live message's text. */
  function FinalTexts(chunks: seq<string>, live: bool, acc: string): seq<string> {
    if chunks == [] && live then [acc] else chunks
  }

  /** The acts after the stream: the live message, if one is open, becomes the first text, the others are sent. */
  function Closing(live: Option<nat>, at: nat, texts: seq<string>): seq<Act> {
    seq(|texts|, i requires 0 <= i < |texts| => if live.Some? && i == 0 then Edited(live.value, texts[i]) else Sent(at + i, texts[i]))
  }

  /** The messages that those acts leave. */
  function ClosingShown(live: Option<nat>, at: nat, texts: seq<string>): seq<Shown> {
    seq(|texts|, i requires 0 <= i < |texts| => Shown(if live.Some? && i == 0 then live.value else at + i, texts[i]))
  }

  /** After the stream: the live message becomes the first chunk and the others follow. */
  method Finish(transport: Transport, chunks: seq<string>, live: Option<nat>, acc: string, ghost before: seq<Shown>, maxChars: nat)
    returns (messageIds: seq<nat>)
    requires transport.Valid() && LiveIs(before, Visible(transport.log), live, acc, maxChars)
    requires live.Some? ==> transport.tells(live.value)
    modifies transport`log
    ensures transport.Valid()
    ensures var texts, at := FinalTexts(chunks, live.Some?, acc), |old(transport.log)|;
            && transport.log == old(transport.log) + Closing(live, at, texts)
            && Visible(transport.log) == before + ClosingShown(live, at, texts)
            && messageIds == ToldOf(Ids(ClosingShown(live, at, texts)), transport.tells)
  {
    hide Visible, Sents, ShownAs, Ids, ToldOf, Closing, ClosingShown, EditShown;
    ghost var now, start := Visible(transport.log), transport.log;
    ghost var at := |start|;
    if live.Some? {
      assert now == before + [Shown(live.value, now[|before|].text)];
      var text := if chunks != [] then chunks[0] else acc;
      EditLast(before, live.value, now[|before|].text, text);
      transport.EditText(live.value, text);
      var rest := if chunks != [] then chunks[1..] else [];
      messageIds := SendAll(transport, rest, [live.value]);
      assert FinalTexts(chunks, true, acc) == [text] + rest;
      ClosingCons(live.value, at, text, rest);
      assert start + [Edited(live.value, text)] + Sents(at + 1, rest) == start + ([Edited(live.value, text)] + Sents(at + 1, rest));
      assert before + [Shown(live.value, text)] + ShownAs(at + 1, rest) == before + ([Shown(live.value, text)] + ShownAs(at + 1, rest));
      ToldFirst(live.value, Ids(ShownAs(at + 1, rest)), transport.tells);
    } else {
      messageIds := SendAll(transport, chunks, []);
      ClosingNone(at, chunks);
    }
  }

  lemma ClosingNone(at: nat, texts: seq<string>)
    ensures Closing(None, at, texts) == Sents(at, texts) && ClosingShown(None, at, texts) == ShownAs(at, texts)
  {
  }

  lemma ClosingCons(id: nat, at: nat, text: string, rest: seq<string>)
    ensures Closing(Some(id), at, [text] + rest) == [Edited(id, text)] + Sents(at + 1, rest)
    ensures ClosingShown(Some(id), at, [text] + rest) == [Shown(id, text)] + ShownAs(at + 1, rest)
    ensures Ids(ClosingShown(Some(id), at, [text] + rest)) == [id] + Ids(ShownAs(at + 1, rest))
  {
  }

  lemma ToldFirst(id: nat, ids: seq<nat>, tells: nat -> bool)
    requires tells(id)
    ensures ToldOf([id] + ids, tells) == [id] + ToldOf(ids, tells)
  {
    ToldConcat([id], ids, tells);
    ToldSnoc([], id, tells);
    assert [] + [id] == [id];
  }

  /** The chunk limit and throttle of one delivery. */
  function LimitOf(policy: DeliveryPolicy, maxChars: nat): nat {
    if policy.maxChars.Some? then policy.maxChars.value else maxChars
  }

  function ThrottleOf(policy: DeliveryPolicy): int {
    if policy.editThrottleChars.Some? then policy.editThrottleChars.value else 60
  }

  /** A policy's own limit and throttle count; otherwise the platform's limit and 60 characters. */
  lemma SettingsAre(policy: DeliveryPolicy, maxChars: nat)
    ensures policy.maxChars == Some(LimitOf(policy, maxChars)) || (policy.maxChars == None && LimitOf(policy, maxChars) == maxChars)
    ensures policy.editThrottleChars == Some(ThrottleOf(policy)) || (policy.editThrottleChars == None && ThrottleOf(policy) == 60)
  {
  }

  /**
   * The first `n` events of the reply, as they were shown: only fitting prefixes, edits throttled, at
   * most the one live message, and that one never a throttle behind.
   */
  ghost predicate MidStreamOk(start: seq<Act>, log: seq<Act>, live: Option<nat>, stream: seq<ReplyEvent>, n: nat,
                              maxChars: nat, throttle: int) {
    && n <= |stream| && start <= log
    && ActsShowPrefixes(log, |start|, |log|, ReplyText(stream[..n]), maxChars)
    && EditCount(start) <= EditCount(log)
    && (EditCount(log) - EditCount(start)) * throttle <= |ReplyText(stream[..n])|
    && LiveIs(Visible(start), Visible(log), live, ReplyText(stream[..n]), maxChars)
    && (live.Some? ==> KeepsUp(stream, n, |Visible(log)[|Visible(start)|].text|, maxChars, throttle))
  }

  lemma StreamedOk(start: seq<Act>, log: seq<Act>, live: Option<nat>, stream: seq<ReplyEvent>, n: nat, lastEdit: nat,
                   maxChars: nat, throttle: int)
    requires n <= |stream| && Streaming(start, log, live, ReplyText(stream[..n]), lastEdit, maxChars, throttle)
    requires live.Some? ==> KeepsUp(stream, n, lastEdit, maxChars, throttle)
    ensures MidStreamOk(start, log, live, stream, n, maxChars, throttle)
  {
    hide Visible, EditCount, ReplyText, KeepsUp, ActsShowPrefixes;
  }

  /** The log before the live part of a delivery. */
  function FirstLog(start: seq<Act>, mode: Mode): seq<Act> {
    start + (if mode.TypingFinal? then [Typing] else [])
  }

  /** The log after the live sends that returned no id. */
  ghost function LostLog(tells: nat -> bool, first: seq<Act>, fits: seq<string>): seq<Act> {
    first + Sents(|first|, fits[..Untold(tells, |first|, |fits|)])
  }

  /** The live message: the first live send that returned an id. */
  ghost function LiveId(tells: nat -> bool, first: seq<Act>, fits: seq<string>): Option<nat> {
    var m := Untold(tells, |first|, |fits|);
    if m < |fits| then Some(|first| + m) else None
  }

  /** The live state is the one these two describe. */
  lemma LiveStateIs(tells: nat -> bool, first: seq<Act>, base: seq<Act>, live: Option<nat>, fits: seq<string>)
    requires LiveState(tells, first, base, live, fits)
    ensures base == LostLog(tells, first, fits) && live == LiveId(tells, first, fits)
    ensures live.Some? ==> tells(live.value)
  {
    UntoldIs(tells, |first|, |base| - |first|, |fits|);
  }

  /**
   * An error-free reply: one message for each live send that returned no id, the acts on the live
   * message, and then that message finished and one message per remaining chunk.
   */
  ghost predicate Delivered(tells: nat -> bool, start: seq<Act>, log: seq<Act>, stream: seq<ReplyEvent>, r: DeliveryResult,
                            maxChars: nat, throttle: int)
    requires maxChars >= 1
  {
    var first, fits := FirstLog(start, r.mode), LiveTexts(r.mode, stream, |stream|, maxChars);
    var base, live := LostLog(tells, first, fits), LiveId(tells, first, fits);
    var chunks := Chunks(ReplyText(stream), maxChars);
    var texts := FinalTexts(chunks, live.Some?, "");
    var at := |log| - |texts|;
    && r.text == ReplyText(stream) && r.chunks == |chunks| && at >= 0
    && log == log[..at] + Closing(live, at, texts)
    && MidStreamOk(base, log[..at], live, stream, |stream|, maxChars, throttle)
    && Visible(log) == Visible(base) + ClosingShown(live, at, texts)
    && r.messageIds == ToldOf(Ids(ClosingShown(live, at, texts)), tells)
  }

  /** A reply that fails at event `k`: the same up to there, then the warning. */
  ghost predicate Warned(tells: nat -> bool, start: seq<Act>, log: seq<Act>, stream: seq<ReplyEvent>, k: nat, message: string,
                         r: DeliveryResult, maxChars: nat, throttle: int)
    requires k <= |stream|
  {
    var first, fits := FirstLog(start, r.mode), LiveTexts(r.mode, stream, k, maxChars);
    var base, live := LostLog(tells, first, fits), LiveId(tells, first, fits);
    var at := |log| - 1;
    && FailsAt(stream, k, message) && r.text == "\U{26A0}\U{FE0F} " + message && r.chunks == 1 && at >= 0
    && log == log[..at] + [Sent(at, r.text)]
    && MidStreamOk(base, log[..at], live, stream, k, maxChars, throttle)
    && Visible(log) == Visible(log[..at]) + [Shown(at, r.text)]
    && r.messageIds == (if live.Some? then [live.value] else []) + (if tells(at) then [at] else [])
  }

  /** The visible messages after the lost sends. */
  lemma LostIsShown(tells: nat -> bool, start: seq<Act>, mode: Mode, fits: seq<string>)
    ensures var first := FirstLog(start, mode);
            Visible(LostLog(tells, first, fits)) == Visible(start) + ShownAs(|first|, fits[..Untold(tells, |first|, |fits|)])
  {
    hide Untold;
    var first := FirstLog(start, mode);
    SentsShow(first, |first|, fits[..Untold(tells, |first|, |fits|)]);
    if mode.TypingFinal? {
      assert first[..|start|] == start;
    } else {
      assert first == start;
    }
  }

  /** What a delivered reply leaves: the lost live texts, then the chunks; the ids that came back are those of the new messages. */
  lemma DeliveredShows(tells: nat -> bool, start: seq<Act>, log: seq<Act>, stream: seq<ReplyEvent>, r: DeliveryResult,
                       maxChars: nat, throttle: int)
    requires maxChars >= 1 && Delivered(tells, start, log, stream, r, maxChars, throttle)
    ensures var first, fits := FirstLog(start, r.mode), LiveTexts(r.mode, stream, |stream|, maxChars);
            var m := Untold(tells, |first|, |fits|);
            var texts := FinalTexts(Chunks(ReplyText(stream), maxChars), m < |fits|, "");
            && |Visible(log)| == |Visible(start)| + m + |texts| && Visible(log)[..|Visible(start)|] == Visible(start)
            && Texts(Visible(log)) == Texts(Visible(start)) + fits[..m] + texts
            && r.messageIds == ToldOf(Ids(Visible(log)[|Visible(start)|..]), tells)
  {
    hide Visible, ReplyText, Chunks, MidStreamOk, Untold, Closing, LostLog, LiveTexts, ShownAs, ClosingShown, Texts, Ids, ToldOf;
    var first, fits := FirstLog(start, r.mode), LiveTexts(r.mode, stream, |stream|, maxChars);
    var m, live := Untold(tells, |first|, |fits|), LiveId(tells, first, fits);
    var texts := FinalTexts(Chunks(ReplyText(stream), maxChars), live.Some?, "");
    var lost, closing := ShownAs(|first|, fits[..m]), ClosingShown(live, |log| - |texts|, texts);
    LostIsShown(tells, start, r.mode, fits);
    TextsShown(live, |first|, fits[..m]);
    TextsShown(live, |log| - |texts|, texts);
    ShownParts(Visible(start), lost, closing);
    LostIsUntold(tells, |first|, fits);
    ToldConcat(Ids(lost), Ids(closing), tells);
    assert [] + ToldOf(Ids(closing), tells) == ToldOf(Ids(closing), tells);
  }

  lemma TextsShown(live: Option<nat>, at: nat, texts: seq<string>)
    ensures |ShownAs(at, texts)| == |ClosingShown(live, at, texts)| == |texts|
    ensures Texts(ShownAs(at, texts)) == texts && Texts(ClosingShown(live, at, texts)) == texts
  {
  }

  lemma ShownParts(before: seq<Shown>, lost: seq<Shown>, closing: seq<Shown>)
    ensures Texts(before + lost + closing) == Texts(before) + Texts(lost) + Texts(closing)
    ensures (before + lost + closing)[..|before|] == before && (before + lost + closing)[|before|..] == lost + closing
    ensures Ids(lost + closing) == Ids(lost) + Ids(closing)
  {
  }

  lemma LostIsUntold(tells: nat -> bool, at: nat, fits: seq<string>)
    ensures ToldOf(Ids(ShownAs(at, fits[..Untold(tells, at, |fits|)])), tells) == []
  {
    hide Untold, ToldOf;
    var ids := Ids(ShownAs(at, fits[..Untold(tells, at, |fits|)]));
    forall k | 0 <= k < |ids| ensures !tells(ids[k]) { UntoldAre(tells, at, |fits|, k); }
    NoneTold(ids, tells);
  }

  /**
   * Live editing ends like collect-then-send exactly when nothing was sent live, or the first live
   * send returned an id and the reply is not empty.
   */
  lemma EndsAsChunksIff(tells: nat -> bool, start: seq<Act>, log: seq<Act>, stream: seq<ReplyEvent>, r: DeliveryResult,
                        maxChars: nat, throttle: int)
    requires maxChars >= 1 && Delivered(tells, start, log, stream, r, maxChars, throttle)
    ensures Texts(Visible(log)) == Texts(Visible(start)) + Chunks(ReplyText(stream), maxChars)
            <==> LiveTexts(r.mode, stream, |stream|, maxChars) == [] || (tells(|start|) && ReplyText(stream) != "")
  {
    hide Visible, ReplyText, Chunks, Delivered, LiveTexts;
    var first, fits := FirstLog(start, r.mode), LiveTexts(r.mode, stream, |stream|, maxChars);
    DeliveredShows(tells, start, log, stream, r, maxChars, throttle);
    NoChunksIff(ReplyText(stream), maxChars);
    LiveOnlyInEditStream(r.mode, stream, maxChars);
    assert r.mode.EditStream? ==> first == start;
    var m, chunks := Untold(tells, |first|, |fits|), Chunks(ReplyText(stream), maxChars);
    assert fits != [] ==> (m == 0 <==> tells(|start|));
    assert |Texts(Visible(log))| == |Texts(Visible(start))| + m + |FinalTexts(chunks, m < |fits|, "")|;
    if m == 0 { assert fits[..0] == [] && Texts(Visible(start)) + [] == Texts(Visible(start)); }
  }

  lemma LiveOnlyInEditStream(mode: Mode, stream: seq<ReplyEvent>, maxChars: nat)
    ensures LiveTexts(mode, stream, |stream|, maxChars) != [] ==> mode.EditStream?
  {
  }

  /** On a platform that returns no ids every fitting text stays as a message of its own, with the chunks after them. */
  lemma WithoutIdsTextsPileUp(tells: nat -> bool, start: seq<Act>, log: seq<Act>, stream: seq<ReplyEvent>, r: DeliveryResult,
                              maxChars: nat, throttle: int)
    requires maxChars >= 1 && Delivered(tells, start, log, stream, r, maxChars, throttle) && forall k: nat :: !tells(k)
    ensures Texts(Visible(log))
            == Texts(Visible(start)) + LiveTexts(r.mode, stream, |stream|, maxChars) + Chunks(ReplyText(stream), maxChars)
    ensures r.messageIds == []
  {
    hide Visible, ReplyText, Chunks, Delivered, LiveTexts;
    var first, fits := FirstLog(start, r.mode), LiveTexts(r.mode, stream, |stream|, maxChars);
    DeliveredShows(tells, start, log, stream, r, maxChars, throttle);
    UntoldIs(tells, |first|, |fits|, |fits|);
    assert fits[..|fits|] == fits;
    NoneTold(Ids(Visible(log)[|Visible(start)|..]), tells);
  }

  /** Two deltas on such a platform: three messages for one reply. */
  lemma PileUpExample(start: seq<Act>, log: seq<Act>, r: DeliveryResult, throttle: int)
    requires Delivered(_ => false, start, log, [Delta("a"), Delta("b"), DoneReply], r, 10, throttle) && r.mode.EditStream?
    ensures Texts(Visible(log)) == Texts(Visible(start)) + ["a", "ab", "ab"]
  {
    hide Visible, Delivered, LiveTexts, ReplyText, Chunks, Texts;
    PileUpTexts();
    WithoutIdsTextsPileUp(_ => false, start, log, [Delta("a"), Delta("b"), DoneReply], r, 10, throttle);
    assert Texts(Visible(start)) + ["a", "ab"] + ["ab"] == Texts(Visible(start)) + ["a", "ab", "ab"];
  }

  lemma PileUpTexts()
    ensures var stream := [Delta("a"), Delta("b"), DoneReply];
            LiveTexts(EditStream, stream, 3, 10) == ["a", "ab"] && Chunks(ReplyText(stream), 10) == ["ab"]
  {
    hide ReplyText, FittingTexts;
    var stream := [Delta("a"), Delta("b"), DoneReply];
    NoReplyYet(stream);
    ReplyNext(stream, 0);
    ReplyNext(stream, 1);
    ReplyNext(stream, 2);
    assert "" + "a" == "a" && "a" + "b" == "ab" && stream[..3] == stream;
    NoFitsYet(stream, 10);
    FitsNext(stream, 0, 10);
    FitsNext(stream, 1, 10);
    FitsNext(stream, 2, 10);
  }

  /**
   * `deliver`. Without an error the person ends up with exactly the chunks of the reply, in every
   * mode, except for an empty reply after a live message and for live sends that returned no id
   * (`EndsAsChunksIff`); with an error the last message is the warning.
   */
  method Deliver(transport: Transport, stream: seq<ReplyEvent>, policy: DeliveryPolicy) returns (r: DeliveryResult)
    requires transport.Valid() && LimitOf(policy, transport.maxChars) >= 1
    modifies transport`log
    ensures transport.Valid() && old(transport.log) <= transport.log
    ensures r.mode == ResolveMode(policy.mode, transport.supportsEdit, transport.supportsTyping)
    ensures ErrorFree(stream) ==>
              Delivered(transport.tells, old(transport.log), transport.log, stream, r,
                        LimitOf(policy, transport.maxChars), ThrottleOf(policy))
    ensures !ErrorFree(stream) ==>
              exists k, m :: 0 <= k <= |stream| && Warned(transport.tells, old(transport.log), transport.log, stream, k, m, r,
                                                          LimitOf(policy, transport.maxChars), ThrottleOf(policy))
  {
    hide Visible, EditCount, ReplyText, MidStreamOk, KeepsUp, Chunks, LiveState, LiveTexts, Untold, LostLog, LiveId;
    var mode := ResolveMode(policy.mode, transport.supportsEdit, transport.supportsTyping);
    var maxChars, throttle := LimitOf(policy, transport.maxChars), ThrottleOf(policy);
    ghost var start := transport.log;
    if mode.TypingFinal? { transport.SendTyping(); }
    ghost var first := transport.log;
    assert first == FirstLog(start, mode);
    var acc, live, failure;
    ghost var base, lastEdit, read;
    acc, live, failure, base, lastEdit, read := Consume(transport, stream, mode, maxChars, throttle, first);
    ghost var midLog := transport.log;
    LiveStateIs(transport.tells, first, base, live, LiveTexts(mode, stream, read, maxChars));
    StreamedOk(base, midLog, live, stream, read, lastEdit, maxChars, throttle);
    assert start <= midLog by { StartsBefore(transport.tells, start, first, base, midLog, live, LiveTexts(mode, stream, read, maxChars)); }
    if failure.Some? {
      var msg := WARNING_SIGN + failure.value;
      var id := transport.SendText(msg);
      r := DeliveryResult(msg, (if live.Some? then [live.value] else []) + (if id.Some? then [id.value] else []), mode, 1);
      assert transport.log[..|transport.log| - 1] == midLog;
      assert Warned(transport.tells, start, transport.log, stream, read, failure.value, r, maxChars, throttle);
      FailureIsError(stream, read, failure.value);
      return r;
    }
    assert stream[..|stream|] == stream;
    var chunks := ChunkText(acc, maxChars);
    NoChunksIff(acc, maxChars);
    var messageIds := Finish(transport, chunks, live, acc, Visible(base), maxChars);
    r := DeliveryResult(acc, messageIds, mode, |chunks|);
    DeliveredIs(transport.tells, start, midLog, transport.log, stream, r, maxChars, throttle);
  }

  lemma DeliveredIs(tells: nat -> bool, start: seq<Act>, mid: seq<Act>, log: seq<Act>, stream: seq<ReplyEvent>, r: DeliveryResult,
                    maxChars: nat, throttle: int)
    requires maxChars >= 1
    requires var first, fits := FirstLog(start, r.mode), LiveTexts(r.mode, stream, |stream|, maxChars);
             var base, live := LostLog(tells, first, fits), LiveId(tells, first, fits);
             var chunks := Chunks(ReplyText(stream), maxChars);
             var texts := FinalTexts(chunks, live.Some?, "");
             && r.text == ReplyText(stream) && r.chunks == |chunks| && log == mid + Closing(live, |mid|, texts)
             && MidStreamOk(base, mid, live, stream, |stream|, maxChars, throttle)
             && Visible(log) == Visible(base) + ClosingShown(live, |mid|, texts)
             && r.messageIds == ToldOf(Ids(ClosingShown(live, |mid|, texts)), tells)
    ensures Delivered(tells, start, log, stream, r, maxChars, throttle)
  {
    hide Visible, ReplyText, Chunks, MidStreamOk, LostLog, LiveId, LiveTexts, ToldOf, Ids, ClosingShown, FirstLog;
    assert log[..|mid|] == mid;
  }

  lemma StartsBefore(tells: nat -> bool, start: seq<Act>, first: seq<Act>, base: seq<Act>, log: seq<Act>, live: Option<nat>,
                     fits: seq<string>)
    requires start <= first && LiveState(tells, first, base, live, fits) && base <= log
    ensures start <= log
  {
    assert first <= base;
  }

  lemma FailureIsError(stream: seq<ReplyEvent>, k: nat, message: string)
    requires FailsAt(stream, k, message)
    ensures !ErrorFree(stream)
  {
  }

  lemma NoChunksIff(text: string, maxChars: nat)
    requires maxChars >= 1
    ensures Chunks(text, maxChars) == [] <==> text == ""
  {
  }
}
