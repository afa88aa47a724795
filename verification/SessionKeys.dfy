/** The session-key oracle: printing and parsing conversation keys (adapters/shuttle/src/session-key.ts). */
module SessionKeys {
  import opened Common
  import opened Text

  datatype ChatType = Dm | Group | Channel

  datatype Parts = Parts(profile: string, channel: string, chatType: ChatType, chatId: string,
                         threadId: Option<string>, userId: Option<string>)

  datatype Built = Missing(what: string) | Key(key: string)

  function ChatTypeName(c: ChatType): string {
    match c
    case Dm => "dm"
    case Group => "group"
    case Channel => "channel"
  }

  function ChatTypeOf(s: string): Option<ChatType> {
    if s == "dm" then Some(Dm) else if s == "group" then Some(Group) else if s == "channel" then Some(Channel) else None
  }

  predicate IsSep(c: char) {
    IsSpace(c) || c == ':'
  }

  function SkipSeps(s: string): string {
    if s != [] && IsSep(s[0]) then SkipSeps(s[1..]) else s
  }

  lemma {:induction false} SkipSepsShrinks(s: string)
    ensures |SkipSeps(s)| <= |s|
  {
    if s != [] && IsSep(s[0]) { SkipSepsShrinks(s[1..]); }
  }

  /** Every run of white space and colons becomes one underscore. */
  function Part(s: string): string
    decreases |s|
  {
    if s == [] then []
    else if IsSep(s[0]) then
      SkipSepsShrinks(s[1..]);
      ['_'] + Part(SkipSeps(s[1..]))
    else [s[0]] + Part(s[1..])
  }

  predicate IsClean(s: string) {
    forall i :: 0 <= i < |s| ==> !IsSep(s[i])
  }

  predicate NoColon(s: string) {
    forall i :: 0 <= i < |s| ==> s[i] != ':'
  }

  lemma {:induction false} PartIsClean(s: string)
    ensures IsClean(Part(s)) && (s != [] ==> Part(s) != [])
    decreases |s|
  {
    if s != [] {
      if IsSep(s[0]) {
        SkipSepsShrinks(s[1..]);
        PartIsClean(SkipSeps(s[1..]));
      } else {
        PartIsClean(s[1..]);
      }
    }
  }

  lemma {:induction false} PartOfClean(s: string)
    requires IsClean(s)
    ensures Part(s) == s
  {
    if s != [] { PartOfClean(s[1..]); }
  }

  /** Sanitising twice is sanitising once. */
  lemma PartIsIdempotent(s: string)
    ensures Part(Part(s)) == Part(s)
  {
    PartIsClean(s);
    PartOfClean(Part(s));
  }

  /** Sanitising reads on: text without separators stays, and a run of them before other text is one underscore. */
  lemma {:induction false} PartReads(word: string, seps: string, rest: string)
    requires IsClean(word) && seps != [] && (forall i :: 0 <= i < |seps| ==> IsSep(seps[i])) && (rest != [] ==> !IsSep(rest[0]))
    ensures Part(word + seps + rest) == word + "_" + Part(rest)
    ensures Part(word) == word
    decreases |word|
  {
    PartOfClean(word);
    var s := word + seps + rest;
    if word == [] {
      assert s == seps + rest && s[1..] == seps[1..] + rest;
      SkipRun(seps[1..], rest);
    } else {
      assert s[1..] == word[1..] + seps + rest;
      PartReads(word[1..], seps, rest);
      assert [word[0]] + (word[1..] + "_" + Part(rest)) == word + "_" + Part(rest);
    }
  }

  lemma {:induction false} SkipRun(seps: string, rest: string)
    requires (forall i :: 0 <= i < |seps| ==> IsSep(seps[i])) && (rest != [] ==> !IsSep(rest[0]))
    ensures SkipSeps(seps + rest) == rest
    decreases |seps|
  {
    if seps == [] {
      assert seps + rest == rest;
    } else {
      assert (seps + rest)[1..] == seps[1..] + rest;
      SkipRun(seps[1..], rest);
    }
  }

  /** The separators are white space and the colon. */
  lemma SepIs(c: char)
    ensures IsSep(c) <==> IsSpace(c) || c == ':'
  {
  }

  // ---- joining and splitting --------------------------------------------------

  function Join(segs: seq<string>): string {
    if segs == [] then ""
    else if |segs| == 1 then segs[0]
    else segs[0] + ":" + Join(segs[1..])
  }

  function Split(s: string): seq<string> {
    if s == [] then [""]
    else
      var rest := Split(s[1..]);
      if s[0] == ':' then [""] + rest
      else if rest == [] then [] else [[s[0]] + rest[0]] + rest[1..]
  }

  lemma {:induction false} SplitNonempty(s: string)
    ensures Split(s) != []
  {
    if s != [] { SplitNonempty(s[1..]); }
  }

  lemma {:induction false} SplitHead(a: string, rest: string)
    requires NoColon(a)
    ensures Split(a + ":" + rest) == [a] + Split(rest)
  {
    var s := a + ":" + rest;
    if a == [] {
      assert s[1..] == rest;
    } else {
      assert s[1..] == a[1..] + ":" + rest;
      SplitHead(a[1..], rest);
      assert [a[0]] + a[1..] == a;
    }
  }

  lemma {:induction false} SplitPlain(a: string)
    requires NoColon(a)
    ensures Split(a) == [a]
  {
    if a != [] {
      SplitPlain(a[1..]);
      assert [a[0]] + a[1..] == a;
    }
  }

  /** Splitting undoes joining. */
  lemma {:induction false} SplitJoin(segs: seq<string>)
    requires segs != [] && forall i :: 0 <= i < |segs| ==> NoColon(segs[i])
    ensures Split(Join(segs)) == segs
  {
    if |segs| == 1 {
      SplitPlain(segs[0]);
    } else {
      SplitHead(segs[0], Join(segs[1..]));
      SplitJoin(segs[1..]);
    }
  }

  // ---- building ---------------------------------------------------------------

  const PREFIX := "ownware"

  predicate FoldsThread(p: Parts) {
    p.threadId.Some? && !IsBlank(p.threadId.value)
  }

  predicate FoldsUser(p: Parts, groupPerUser: bool) {
    !p.chatType.Dm? && groupPerUser && p.userId.Some? && !IsBlank(p.userId.value)
  }

  predicate IsComplete(p: Parts) {
    !IsBlank(p.profile) && !IsBlank(p.channel) && !IsBlank(p.chatId)
  }

  function Segments(p: Parts, groupPerUser: bool): seq<string> {
    [PREFIX, Part(p.profile), Part(p.channel), ChatTypeName(p.chatType), Part(p.chatId)]
    + (if FoldsThread(p) then ["thread", Part(p.threadId.value)] else [])
    + (if FoldsUser(p, groupPerUser) then ["user", Part(p.userId.value)] else [])
  }

  function KeyOf(p: Parts, groupPerUser: bool): string {
    Join(Segments(p, groupPerUser))
  }

  lemma {:induction false} JoinConcat(a: seq<string>, b: seq<string>)
    requires a != [] && b != []
    ensures Join(a + b) == Join(a) + ":" + Join(b)
  {
    if |a| == 1 {
      assert (a + b)[1..] == b;
    } else {
      assert (a + b)[1..] == a[1..] + b;
      JoinConcat(a[1..], b);
      assert a[0] + ":" + (Join(a[1..]) + ":" + Join(b)) == a[0] + ":" + Join(a[1..]) + ":" + Join(b);
    }
  }

  lemma JoinPair(a: string, b: string)
    ensures Join([a, b]) == a + ":" + b
  {
    assert [a, b][1..] == [b];
  }

  /** The text of a key, part by part: a thread when there is one, a user only outside direct messages and when asked for. */
  lemma KeyIs(p: Parts, groupPerUser: bool)
    ensures var kind := if p.chatType == Dm then "dm" else if p.chatType == Group then "group" else "channel";
            var thread := if p.threadId.Some? && !IsBlank(p.threadId.value) then ":thread:" + Part(p.threadId.value) else "";
            var user := if p.chatType != Dm && groupPerUser && p.userId.Some? && !IsBlank(p.userId.value)
                        then ":user:" + Part(p.userId.value) else "";
            KeyOf(p, groupPerUser)
            == "ownware:" + Part(p.profile) + ":" + Part(p.channel) + ":" + kind + ":" + Part(p.chatId) + thread + user
  {
    hide Part, IsBlank, Join, PREFIX;
    var base := [PREFIX, Part(p.profile), Part(p.channel), ChatTypeName(p.chatType), Part(p.chatId)];
    var all := base;
    KeyStarts(Part(p.profile), Part(p.channel), ChatTypeName(p.chatType), Part(p.chatId));
    if FoldsThread(p) {
      JoinMore(all, "thread", Part(p.threadId.value));
      MarkersAre(Part(p.threadId.value));
      all := all + ["thread", Part(p.threadId.value)];
    }
    if FoldsUser(p, groupPerUser) {
      JoinMore(all, "user", Part(p.userId.value));
      MarkersAre(Part(p.userId.value));
      all := all + ["user", Part(p.userId.value)];
    }
    assert all == Segments(p, groupPerUser);
  }

  lemma KeyStarts(b: string, c: string, d: string, e: string)
    ensures Join([PREFIX, b, c, d, e]) == "ownware:" + b + ":" + c + ":" + d + ":" + e
  {
    hide Join;
    JoinFive(PREFIX, b, c, d, e);
    assert PREFIX + ":" == "ownware:";
  }

  lemma MarkersAre(part: string)
    ensures ":" + "thread" + ":" + part == ":thread:" + part && ":" + "user" + ":" + part == ":user:" + part
  {
    assert ":" + "thread" + ":" == ":thread:" && ":" + "user" + ":" == ":user:";
  }

  lemma JoinFive(a: string, b: string, c: string, d: string, e: string)
    ensures Join([a, b, c, d, e]) == a + ":" + b + ":" + c + ":" + d + ":" + e
  {
    assert [a, b, c, d, e][1..] == [b, c, d, e] && [b, c, d, e][1..] == [c, d, e] && [c, d, e][1..] == [d, e];
    JoinPair(d, e);
    assert Join([c, d, e]) == c + ":" + (d + ":" + e);
    assert Join([b, c, d, e]) == b + ":" + (c + ":" + (d + ":" + e));
    assert a + ":" + (b + ":" + (c + ":" + (d + ":" + e))) == a + ":" + b + ":" + c + ":" + d + ":" + e;
  }

  lemma JoinMore(segs: seq<string>, marker: string, part: string)
    requires segs != []
    ensures Join(segs + [marker, part]) == Join(segs) + (":" + marker + ":" + part)
  {
    JoinConcat(segs, [marker, part]);
    JoinPair(marker, part);
    assert Join(segs) + ":" + (marker + ":" + part) == Join(segs) + (":" + marker + ":" + part);
  }

  /** `sessionKey`: the blank parts are refused, the optional ones appended. */
  method SessionKey(p: Parts, groupPerUser: bool) returns (r: Built)
    ensures r.Key? <==> IsComplete(p)
    ensures r.Key? ==> r.key == KeyOf(p, groupPerUser)
    ensures r.Missing? ==>
              r.what == if IsBlank(p.profile) then "sessionKey: profile is required"
                        else if IsBlank(p.channel) then "sessionKey: channel is required" else "sessionKey: chatId is required"
  {
    hide IsBlank, Part, Join;
    if IsBlank(p.profile) { return Missing("sessionKey: profile is required"); }
    if IsBlank(p.channel) { return Missing("sessionKey: channel is required"); }
    if IsBlank(p.chatId) { return Missing("sessionKey: chatId is required"); }
    var segs := [PREFIX, Part(p.profile), Part(p.channel), ChatTypeName(p.chatType), Part(p.chatId)];
    ghost var all := segs;
    var key := Join(segs);
    if p.threadId.Some? && !IsBlank(p.threadId.value) {
      var part := Part(p.threadId.value);
      key := AppendPair(key, all, "thread", part);
      all := all + ["thread", part];
    }
    if !p.chatType.Dm? && groupPerUser && p.userId.Some? && !IsBlank(p.userId.value) {
      var part := Part(p.userId.value);
      key := AppendPair(key, all, "user", part);
      all := all + ["user", part];
    }
    assert all == Segments(p, groupPerUser);
    r := Key(key);
  }

  method AppendPair(key: string, ghost segs: seq<string>, marker: string, part: string) returns (k: string)
    requires segs != [] && key == Join(segs)
    ensures k == Join(segs + [marker, part])
  {
    JoinConcat(segs, [marker, part]);
    JoinPair(marker, part);
    k := key + (":" + marker + ":" + part);
    assert k == key + ":" + (marker + ":" + part);
  }

  // ---- parsing ----------------------------------------------------------------

  predicate IsSessionKey(value: string) {
    var segs := Split(value);
    |segs| >= 5 && segs[0] == PREFIX && ChatTypeOf(segs[3]).Some?
  }

  /** The last nonempty value of each marker among the marker/value pairs. */
  function ReadPairs(rest: seq<string>, threadId: Option<string>, userId: Option<string>): (Option<string>, Option<string>)
    decreases |rest|
  {
    if |rest| < 2 then (threadId, userId)
    else if rest[1] == "" then ReadPairs(rest[2..], threadId, userId)
    else if rest[0] == "thread" then ReadPairs(rest[2..], Some(rest[1]), userId)
    else if rest[0] == "user" then ReadPairs(rest[2..], threadId, Some(rest[1]))
    else ReadPairs(rest[2..], threadId, userId)
  }

  function Parse(value: string): Option<Parts> {
    var segs := Split(value);
    if !IsSessionKey(value) || segs[1] == "" || segs[2] == "" || segs[4] == "" then None
    else
      var (threadId, userId) := ReadPairs(segs[5..], None, None);
      Some(Parts(segs[1], segs[2], ChatTypeOf(segs[3]).value, segs[4], threadId, userId))
  }

  /** `parseSessionKey`: the loop over marker/value pairs. */
  method ParseSessionKey(value: string) returns (r: Option<Parts>)
    ensures r == Parse(value)
  {
    hide Split;
    var segs := Split(value);
    if |segs| < 5 || segs[0] != PREFIX { return None; }
    var profile, channel, chatId := segs[1], segs[2], segs[4];
    if profile == "" || channel == "" || segs[3] == "" || chatId == "" { return None; }
    var chatType := ChatTypeOf(segs[3]);
    if chatType.None? { return None; }
    var rest := segs[5..];
    var threadId: Option<string>, userId: Option<string> := None, None;
    var i := 0;
    while i + 1 < |rest|
      invariant 0 <= i <= |rest|
      invariant ReadPairs(rest[i..], threadId, userId) == ReadPairs(rest, None, None)
      decreases |rest| - i
    {
      var marker, val := rest[i], rest[i + 1];
      assert rest[i..][2..] == rest[i + 2..];
      if val != "" {
        if marker == "thread" { threadId := Some(val); }
        else if marker == "user" { userId := Some(val); }
      }
      i := i + 2;
    }
    r := Some(Parts(profile, channel, chatType.value, chatId, threadId, userId));
  }

  // ---- round trips ------------------------------------------------------------

  /** What a key keeps of its parts: the sanitised forms, the optional ones only when folded in. */
  function Sanitised(p: Parts, groupPerUser: bool): Parts {
    Parts(Part(p.profile), Part(p.channel), p.chatType, Part(p.chatId),
          if FoldsThread(p) then Some(Part(p.threadId.value)) else None,
          if FoldsUser(p, groupPerUser) then Some(Part(p.userId.value)) else None)
  }

  lemma CleanHasNoColon(s: string)
    requires IsClean(s)
    ensures NoColon(s)
  {
  }

  lemma WordsHaveNoColon(c: ChatType)
    ensures NoColon(PREFIX) && NoColon("thread") && NoColon("user") && NoColon(ChatTypeName(c))
  {
  }

  lemma SegmentsHaveNoColon(p: Parts, groupPerUser: bool)
    ensures forall i :: 0 <= i < |Segments(p, groupPerUser)| ==> NoColon(Segments(p, groupPerUser)[i])
  {
    hide IsClean, Part, NoColon, IsBlank;
    WordsHaveNoColon(p.chatType);
    PartIsClean(p.profile);
    CleanHasNoColon(Part(p.profile));
    PartIsClean(p.channel);
    CleanHasNoColon(Part(p.channel));
    PartIsClean(p.chatId);
    CleanHasNoColon(Part(p.chatId));
    if p.threadId.Some? { PartIsClean(p.threadId.value); CleanHasNoColon(Part(p.threadId.value)); }
    if p.userId.Some? { PartIsClean(p.userId.value); CleanHasNoColon(Part(p.userId.value)); }
  }

  lemma PartNonempty(s: string)
    requires !IsBlank(s)
    ensures Part(s) != ""
  {
    PartIsClean(s);
  }

  /** A produced key splits back into its segments. */
  lemma KeySplits(p: Parts, groupPerUser: bool)
    ensures Split(KeyOf(p, groupPerUser)) == Segments(p, groupPerUser)
  {
    SegmentsHaveNoColon(p, groupPerUser);
    SplitJoin(Segments(p, groupPerUser));
  }

  lemma PairsReadBack(p: Parts, groupPerUser: bool)
    ensures ReadPairs(Segments(p, groupPerUser)[5..], None, None)
            == (Sanitised(p, groupPerUser).threadId, Sanitised(p, groupPerUser).userId)
  {
    hide Part, IsBlank;
    var thread := if FoldsThread(p) then ["thread", Part(p.threadId.value)] else [];
    var user := if FoldsUser(p, groupPerUser) then ["user", Part(p.userId.value)] else [];
    assert Segments(p, groupPerUser)[5..] == thread + user;
    if FoldsThread(p) {
      PartNonempty(p.threadId.value);
      assert (thread + user)[2..] == user;
    } else {
      assert thread + user == user;
    }
    var t := Sanitised(p, groupPerUser).threadId;
    assert ReadPairs(thread + user, None, None) == ReadPairs(user, t, None);
    if FoldsUser(p, groupPerUser) {
      PartNonempty(p.userId.value);
      assert user[2..] == [];
      assert ReadPairs(user, t, None) == ReadPairs(user[2..], t, Some(user[1]));
    }
  }

  /** Parsing a produced key returns exactly the sanitised parts. */
  lemma ParseOfKey(p: Parts, groupPerUser: bool)
    requires IsComplete(p)
    ensures IsSessionKey(KeyOf(p, groupPerUser))
    ensures Parse(KeyOf(p, groupPerUser)) == Some(Sanitised(p, groupPerUser))
  {
    hide Part, IsBlank, Split, ReadPairs, KeyOf;
    KeySplits(p, groupPerUser);
    PairsReadBack(p, groupPerUser);
    PartNonempty(p.profile);
    PartNonempty(p.channel);
    PartNonempty(p.chatId);
  }

  lemma CleanIsNotBlank(s: string)
    requires IsClean(s) && s != ""
    ensures !IsBlank(s)
  {
    assert !IsSpace(s[0]);
  }

  lemma PartStays(s: string)
    requires !IsBlank(s)
    ensures Part(Part(s)) == Part(s) && !IsBlank(Part(s))
  {
    PartIsIdempotent(s);
    PartIsClean(s);
    CleanIsNotBlank(Part(s));
  }

  /** Rebuilding from the parsed parts returns the same key. */
  lemma RebuildReturnsKey(p: Parts, groupPerUser: bool)
    requires IsComplete(p)
    ensures IsComplete(Sanitised(p, groupPerUser)) && KeyOf(Sanitised(p, groupPerUser), true) == KeyOf(p, groupPerUser)
  {
    hide Part, IsBlank, Join;
    PartStays(p.profile);
    PartStays(p.channel);
    PartStays(p.chatId);
    if FoldsThread(p) { PartStays(p.threadId.value); }
    if FoldsUser(p, groupPerUser) { PartStays(p.userId.value); }
    assert Segments(Sanitised(p, groupPerUser), true) == Segments(p, groupPerUser);
  }

  /** Two conversations share a key iff their sanitised parts agree. */
  lemma SameKeyIff(p: Parts, g1: bool, q: Parts, g2: bool)
    requires IsComplete(p) && IsComplete(q)
    ensures KeyOf(p, g1) == KeyOf(q, g2) <==> Sanitised(p, g1) == Sanitised(q, g2)
  {
    hide Part, IsBlank, Split, Parse, KeyOf, Sanitised, IsSessionKey;
    ParseOfKey(p, g1);
    ParseOfKey(q, g2);
    RebuildReturnsKey(p, g1);
    RebuildReturnsKey(q, g2);
  }

  /** The produced keys are exactly the texts that parse and rebuild to themselves. */
  lemma IsProducedIff(value: string)
    ensures (exists p, g :: IsComplete(p) && KeyOf(p, g) == value) <==>
              Parse(value).Some? && IsComplete(Parse(value).value) && KeyOf(Parse(value).value, true) == value
  {
    hide Part, IsBlank, Split, Parse, KeyOf, Sanitised, IsSessionKey, IsComplete;
    if p, g :| IsComplete(p) && KeyOf(p, g) == value {
      ParseOfKey(p, g);
      RebuildReturnsKey(p, g);
    }
  }

  // ---- prefixes ---------------------------------------------------------------

  function SessionKeyPrefix(profile: string, channel: string): string {
    Join([PREFIX, Part(profile), Part(channel)])
  }

  /** Colon-free heads of a prefix relation agree. */
  lemma HeadsAgree(a: string, x: string, b: string, y: string)
    requires NoColon(a) && NoColon(b)
    ensures (a + ":" + x) <= (b + ":" + y) <==> a == b && x <= y
  {
    var s, t := a + ":" + x, b + ":" + y;
    if s <= t {
      assert s[|a|] == ':' && t[|b|] == ':' && t[|a|] == ':' && (|b| < |s| ==> s[|b|] == ':');
      assert forall i :: 0 <= i < |b| ==> t[i] == b[i];
      assert forall i :: 0 <= i < |a| ==> s[i] == a[i];
      assert |a| == |b|;
      assert s[..|a|] == a && t[..|a|] == b;
      assert s[|a| + 1..] == x && t[|a| + 1..] == y;
      assert t[..|s|] == s;
      assert y[..|x|] == x;
    }
    if a == b && x <= y {
      assert t[..|s|] == s;
    }
  }

  lemma JoinCons(a: string, rest: seq<string>)
    requires rest != []
    ensures Join([a] + rest) == a + ":" + Join(rest)
  {
    assert ([a] + rest)[1..] == rest;
  }

  /** A prefix and its delimiter select exactly the keys of that agent on that channel. */
  lemma PrefixMatchesIff(profile: string, channel: string, p: Parts, groupPerUser: bool)
    ensures (SessionKeyPrefix(profile, channel) + ":") <= KeyOf(p, groupPerUser) <==>
              Part(profile) == Part(p.profile) && Part(channel) == Part(p.channel)
  {
    hide Part, Join, IsBlank;
    var a, b, c, d := Part(profile), Part(channel), Part(p.profile), Part(p.channel);
    var segs := Segments(p, groupPerUser);
    var tail := segs[3..];
    assert segs == [PREFIX] + ([c] + ([d] + tail));
    JoinCons(d, tail);
    JoinCons(c, [d] + tail);
    JoinCons(PREFIX, [c] + ([d] + tail));
    assert [PREFIX, a, b] == [PREFIX] + ([a] + [b]);
    JoinCons(a, [b]);
    JoinCons(PREFIX, [a] + [b]);
    JoinOne(b);
    PrefixText(a, b);
    PartIsClean(profile);
    PartIsClean(channel);
    PartIsClean(p.profile);
    PartIsClean(p.channel);
    HeadsAgree(PREFIX, a + ":" + (b + ":" + ""), PREFIX, c + ":" + (d + ":" + Join(tail)));
    HeadsAgree(a, b + ":" + "", c, d + ":" + Join(tail));
    HeadsAgree(b, "", d, Join(tail));
  }

  lemma JoinOne(s: string)
    ensures Join([s]) == s
  {
  }

  lemma PrefixText(a: string, b: string)
    ensures PREFIX + ":" + (a + ":" + b) + ":" == PREFIX + ":" + (a + ":" + (b + ":" + ""))
  {
    assert PREFIX + ":" + (a + ":" + b) + ":" == PREFIX + (":" + a + ":" + b + ":");
    assert PREFIX + ":" + (a + ":" + (b + ":" + "")) == PREFIX + (":" + a + ":" + b + ":");
  }
}
