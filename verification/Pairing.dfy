/** Pairing codes as a timed state machine (adapters/shuttle/src/pairing.ts). */
module Pairing {
  import opened Common
  import opened Text

  datatype Config = Config(codeTtlMs: int, cooldownMs: int, maxFailed: int, lockoutMs: int)

  datatype Entry = Entry(channel: string, userId: string, expiresAt: int)

  datatype Store = Store(
    approved: set<string>,
    pending: map<string, Entry>,
    lastRequest: map<string, int>,
    failCount: map<string, int>,
    lockUntil: map<string, int>)

  const EMPTY_STORE: Store := Store({}, map[], map[], map[], map[])

  datatype RequestResult = RateLimited | Minted(code: string)

  datatype ApproveResult = ApproveResult(approved: bool, userId: Option<string>, locked: bool)

  function Key(channel: string, userId: string): string {
    channel + ":" + userId
  }

  /** A digest is represented by the text it digests: SHA-256 is taken to be injective. */
  function Digest(salt: string, text: string): string {
    salt + ":" + text
  }

  function HashOf(salt: string, channel: string, code: string): string {
    Digest(salt, channel + ":" + code)
  }

  function Normalize(code: string): string {
    Upper(Trim(code))
  }

  function Purge(pending: map<string, Entry>, t: int): map<string, Entry> {
    map h | h in pending && pending[h].expiresAt > t :: pending[h]
  }

  predicate OnCooldown(cfg: Config, st: Store, t: int, key: string) {
    key in st.lastRequest && t - st.lastRequest[key] < cfg.cooldownMs
  }

  predicate IsLocked(st: Store, t: int, channel: string) {
    channel in st.lockUntil && t < st.lockUntil[channel]
  }

  function Fails(st: Store, channel: string): int {
    if channel in st.failCount then st.failCount[channel] else 0
  }

  /** `requestCode` at time `t`, with the code the generator returns. */
  function RequestCode(cfg: Config, salt: string, st: Store, t: int, channel: string, userId: string, generated: string)
    : (Store, RequestResult)
  {
    var k := Key(channel, userId);
    if OnCooldown(cfg, st, t, k) then (st, RateLimited)
    else
      var entry := Entry(channel, userId, t + cfg.codeTtlMs);
      (st.(pending := Purge(st.pending, t)[HashOf(salt, channel, generated) := entry],
           lastRequest := st.lastRequest[k := t]),
       Minted(generated))
  }

  /** The entry a code redeems at time `t`, if any. */
  function Redeemable(salt: string, st: Store, t: int, channel: string, code: string): Option<Entry> {
    var h := HashOf(salt, channel, Normalize(code));
    if h in st.pending && st.pending[h].expiresAt > t && st.pending[h].channel == channel
    then Some(st.pending[h]) else None
  }

  /** `approveCode` at time `t`. */
  function ApproveCode(cfg: Config, salt: string, st: Store, t: int, channel: string, code: string): (Store, ApproveResult) {
    if IsLocked(st, t, channel) then (st, ApproveResult(false, None, true))
    else
      var pending := Purge(st.pending, t);
      var entry := Redeemable(salt, st, t, channel, code);
      if entry.Some? then
        (st.(pending := pending - {HashOf(salt, channel, Normalize(code))},
             approved := st.approved + {Key(channel, entry.value.userId)},
             failCount := st.failCount[channel := 0]),
         ApproveResult(true, Some(entry.value.userId), false))
      else
        var fails := Fails(st, channel) + 1;
        if fails >= cfg.maxFailed then
          (st.(pending := pending, lockUntil := st.lockUntil[channel := t + cfg.lockoutMs],
               failCount := st.failCount[channel := 0]),
           ApproveResult(false, None, true))
        else
          (st.(pending := pending, failCount := st.failCount[channel := fails]), ApproveResult(false, None, false))
  }

  // ---- keys -------------------------------------------------------------------

  lemma DigestInjective(salt: string, a: string, b: string)
    requires Digest(salt, a) == Digest(salt, b)
    ensures a == b
  {
    assert Digest(salt, a)[|salt| + 1..] == a && Digest(salt, b)[|salt| + 1..] == b;
  }

  lemma HashInjectiveInCode(salt: string, channel: string, a: string, b: string)
    requires HashOf(salt, channel, a) == HashOf(salt, channel, b)
    ensures a == b
  {
    DigestInjective(salt, channel + ":" + a, channel + ":" + b);
    assert (channel + ":" + a)[|channel| + 1..] == a && (channel + ":" + b)[|channel| + 1..] == b;
  }

  /** Two channels can give one approval key to different people. */
  ghost predicate Clash(c1: string, c2: string) {
    c1 != c2 && ((c1 + ":") <= c2 || (c2 + ":") <= c1)
  }

  lemma KeySplit(c1: string, u1: string, c2: string, u2: string)
    requires |c1| <= |c2| && Key(c1, u1) == Key(c2, u2)
    ensures (c1 == c2 && u1 == u2) || (c1 + ":") <= c2
  {
    var k := Key(c1, u1);
    assert k[..|c1|] == c1 && k[|c1|] == ':' && k[|c1| + 1..] == u1;
    assert k[..|c2|] == c2 && k[|c2| + 1..] == u2;
    if |c1| < |c2| {
      assert k[..|c1| + 1] == c1 + ":" && c2[..|c1| + 1] == k[..|c1| + 1];
    }
  }

  /** Exactly the channels where one name continues the other past a colon share keys. */
  lemma KeysClashIff(c1: string, c2: string)
    requires c1 != c2
    ensures (exists u1, u2 :: Key(c1, u1) == Key(c2, u2)) <==> Clash(c1, c2)
  {
    if u1, u2 :| Key(c1, u1) == Key(c2, u2) {
      if |c1| <= |c2| { KeySplit(c1, u1, c2, u2); } else { KeySplit(c2, u2, c1, u1); }
    }
    if (c1 + ":") <= c2 {
      var rest := c2[|c1| + 1..];
      assert c2 == c1 + ":" + rest;
      assert Key(c1, rest + ":") == Key(c2, "") by { assert c1 + ":" + (rest + ":") == c1 + ":" + rest + ":" + ""; }
    }
    if (c2 + ":") <= c1 {
      var rest := c1[|c2| + 1..];
      assert c1 == c2 + ":" + rest;
      assert Key(c2, rest + ":") == Key(c1, "") by { assert c2 + ":" + (rest + ":") == c2 + ":" + rest + ":" + ""; }
    }
  }

  /** Away from such names a key belongs to one channel and one person. */
  lemma KeyIdentifies(c1: string, u1: string, c2: string, u2: string)
    requires !Clash(c1, c2) && Key(c1, u1) == Key(c2, u2)
    ensures c1 == c2 && u1 == u2
  {
    if |c1| <= |c2| { KeySplit(c1, u1, c2, u2); } else { KeySplit(c2, u2, c1, u1); }
  }

  // ---- redeeming --------------------------------------------------------------

  /** The code alphabet: capital letters and digits without 0, O, 1 and I. */
  predicate InAlphabet(c: char) {
    ('A' <= c <= 'Z' && c != 'I' && c != 'O') || '2' <= c <= '9'
  }

  predicate IsGenerated(code: string) {
    forall i :: 0 <= i < |code| ==> InAlphabet(code[i])
  }

  /** A generated code survives the owner's trimming and upper-casing. */
  lemma GeneratedCodeIsNormal(code: string)
    requires IsGenerated(code)
    ensures Normalize(code) == code
  {
    assert forall i :: 0 <= i < |code| ==> InAlphabet(code[i]) && !IsSpace(code[i]);
    assert Trim(code) == code;
    assert Upper(code) == code;
  }

  /**
   * A minted code, typed any way that normalises to it, approves its user: before expiry on
   * an unlocked channel it succeeds and clears the failures, and entered again directly after it fails.
   */
  lemma MintedCodeRedeemsOnce(cfg: Config, salt: string, st: Store, t: int, channel: string, userId: string, code: string,
                              typed: string, t': int, t'': int)
    requires RequestCode(cfg, salt, st, t, channel, userId, code).1 == Minted(code) && Normalize(typed) == code
    requires t' < t + cfg.codeTtlMs
    requires !IsLocked(RequestCode(cfg, salt, st, t, channel, userId, code).0, t', channel)
    ensures var st1 := RequestCode(cfg, salt, st, t, channel, userId, code).0;
            var (st2, d) := ApproveCode(cfg, salt, st1, t', channel, typed);
            && d == ApproveResult(true, Some(userId), false)
            && Key(channel, userId) in st2.approved && Fails(st2, channel) == 0
            && !ApproveCode(cfg, salt, st2, t'', channel, typed).1.approved
  {
    hide Normalize, HashOf;
  }
}
