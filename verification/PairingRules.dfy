/** What a request and an approval do, field by field (adapters/shuttle/src/pairing.ts). */
module PairingRules {
  import opened Common
  import opened Text
  import opened Pairing

  /** The entries that have not expired by `t`, without the one under `gone`. */
  ghost predicate AreLive(pending: map<string, Entry>, after: map<string, Entry>, t: int, gone: Option<string>) {
    forall h :: (h in after <==> h in pending && pending[h].expiresAt > t && gone != Some(h))
                && (h in after ==> after[h] == pending[h])
  }

  /** A request within the cooldown is refused and changes nothing; any other keeps the live entries, adds one and notes the time. */
  lemma RequestIs(cfg: Config, salt: string, st: Store, t: int, channel: string, userId: string, generated: string)
    ensures var (st', r) := RequestCode(cfg, salt, st, t, channel, userId, generated);
            var key, hash := channel + ":" + userId, salt + ":" + (channel + ":" + generated);
            if key in st.lastRequest && t < st.lastRequest[key] + cfg.cooldownMs then st' == st && r == RateLimited
            else
              && r == Minted(generated)
              && hash in st'.pending && st'.pending[hash] == Entry(channel, userId, t + cfg.codeTtlMs)
              && AreLive(st.pending, st'.pending - {hash}, t, Some(hash))
              && st' == st.(pending := st'.pending, lastRequest := st.lastRequest[key := t])
  {
  }

  /** The code as the owner typed it, trimmed and in capitals, matches a live entry of the channel. */
  ghost predicate Matches(salt: string, st: Store, t: int, channel: string, code: string) {
    var hash := salt + ":" + (channel + ":" + Upper(Trim(code)));
    hash in st.pending && st.pending[hash].expiresAt > t && st.pending[hash].channel == channel
  }

  /** A locked channel answers so; a match approves its user, once, and clears the count; anything else counts, and locks at the limit. */
  lemma ApproveIs(cfg: Config, salt: string, st: Store, t: int, channel: string, code: string)
    ensures var (st', r) := ApproveCode(cfg, salt, st, t, channel, code);
            var hash := salt + ":" + (channel + ":" + Upper(Trim(code)));
            var count := (if channel in st.failCount then st.failCount[channel] else 0) + 1;
            if channel in st.lockUntil && t < st.lockUntil[channel] then st' == st && r == ApproveResult(false, None, true)
            else if Matches(salt, st, t, channel, code) then
              var userId := st.pending[hash].userId;
              && r == ApproveResult(true, Some(userId), false) && AreLive(st.pending, st'.pending, t, Some(hash))
              && st' == st.(pending := st'.pending, approved := st.approved + {channel + ":" + userId},
                            failCount := st.failCount[channel := 0])
            else
              && r == ApproveResult(false, None, count >= cfg.maxFailed) && AreLive(st.pending, st'.pending, t, None)
              && st' == if count >= cfg.maxFailed
                        then st.(pending := st'.pending, failCount := st.failCount[channel := 0],
                                 lockUntil := st.lockUntil[channel := t + cfg.lockoutMs])
                        else st.(pending := st'.pending, failCount := st.failCount[channel := count])
  {
    hide Upper, Trim;
  }

  /** The letters and digits that codes are made of. */
  lemma AlphabetIs(c: char)
    ensures InAlphabet(c) <==> c in "ABCDEFGHJKLMNPQRSTUVWXYZ23456789"
  {
    var alphabet := "ABCDEFGHJKLMNPQRSTUVWXYZ23456789";
    var n := c as int;
    if InAlphabet(c) {
      var k := if n <= 57 then n - 26 else if n < 73 then n - 65 else if n < 79 then n - 66 else n - 67;
      LetterAt(k);
      assert c == alphabet[k];
    }
    if c in alphabet {
      var k :| 0 <= k < |alphabet| && alphabet[k] == c;
      LetterAt(k);
    }
  }

  lemma LetterAt(k: nat)
    requires k < 32
    ensures "ABCDEFGHJKLMNPQRSTUVWXYZ23456789"[k] as int == if k < 8 then 65 + k else if k < 13 then 66 + k else if k < 24 then 67 + k else 26 + k
  {
  }
}
