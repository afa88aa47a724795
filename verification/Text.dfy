/** JavaScript string helpers, over sequences of characters. */
module Text {

  /** The characters `trim`, `trimEnd` and `\s` treat as white space. */
  predicate IsSpace(c: char) {
    var n := c as int;
    || 9 <= n <= 13 || n == 32 || n == 0xA0 || n == 0x1680 || 0x2000 <= n <= 0x200A
    || n == 0x2028 || n == 0x2029 || n == 0x202F || n == 0x205F || n == 0x3000 || n == 0xFEFF
  }

  predicate IsBlank(s: string) {
    forall i :: 0 <= i < |s| ==> IsSpace(s[i])
  }

  function TrimEnd(s: string): string {
    if s != [] && IsSpace(s[|s| - 1]) then TrimEnd(s[..|s| - 1]) else s
  }

  function TrimStart(s: string): string {
    if s != [] && IsSpace(s[0]) then TrimStart(s[1..]) else s
  }

  function Trim(s: string): string {
    TrimEnd(TrimStart(s))
  }

  /** `toUpperCase` on the letters of the code alphabet. */
  function Upper(s: string): string {
    seq(|s|, i requires 0 <= i < |s| => if 'a' <= s[i] <= 'z' then (s[i] as int - 32) as char else s[i])
  }

  // ---- what they compute ------------------------------------------------------

  /** The white space of ECMAScript: tabs and line ends, the Unicode spaces, and the byte order mark. */
  lemma SpaceIs(c: char)
    ensures IsSpace(c) <==> c as int in {9, 10, 11, 12, 13, 32, 160, 5760, 8192, 8193, 8194, 8195, 8196, 8197, 8198, 8199, 8200,
                                         8201, 8202, 8232, 8233, 8239, 8287, 12288, 65279}
  {
  }

  lemma {:induction false} TrimStartIs(s: string) returns (a: string)
    ensures s == a + TrimStart(s) && IsBlank(a)
    ensures TrimStart(s) != [] ==> !IsSpace(TrimStart(s)[0])
  {
    a := [];
    if s != [] && IsSpace(s[0]) {
      var rest := TrimStartIs(s[1..]);
      a := [s[0]] + rest;
    }
  }

  lemma {:induction false} TrimEndIs(s: string) returns (b: string)
    ensures s == TrimEnd(s) + b && IsBlank(b)
    ensures TrimEnd(s) != [] ==> !IsSpace(TrimEnd(s)[|TrimEnd(s)| - 1])
  {
    b := [];
    if s != [] && IsSpace(s[|s| - 1]) {
      var front := TrimEndIs(s[..|s| - 1]);
      b := front + [s[|s| - 1]];
    }
  }

  /** Trimming takes away white space at both ends, and all of it. */
  lemma TrimIs(s: string) returns (a: string, b: string)
    ensures s == a + Trim(s) + b && IsBlank(a) && IsBlank(b)
    ensures Trim(s) != [] ==> !IsSpace(Trim(s)[0]) && !IsSpace(Trim(s)[|Trim(s)| - 1])
  {
    a := TrimStartIs(s);
    b := TrimEndIs(TrimStart(s));
    assert TrimStart(s) == Trim(s) + b;
  }

  /** Every small letter becomes its capital, and nothing else changes. */
  lemma UpperIs(s: string, i: nat)
    requires i < |s|
    ensures |Upper(s)| == |s|
    ensures (exists k :: 0 <= k < 26 && s[i] == "abcdefghijklmnopqrstuvwxyz"[k] && Upper(s)[i] == "ABCDEFGHIJKLMNOPQRSTUVWXYZ"[k])
            || (s[i] !in "abcdefghijklmnopqrstuvwxyz" && Upper(s)[i] == s[i])
  {
    var small := "abcdefghijklmnopqrstuvwxyz";
    var n := s[i] as int;
    if 97 <= n <= 122 {
      AlphabetIs(n - 97);
      assert s[i] == small[n - 97];
    } else if s[i] in small {
      var k :| 0 <= k < |small| && small[k] == s[i];
      AlphabetIs(k);
    }
  }

  lemma AlphabetIs(k: nat)
    requires k < 26
    ensures "abcdefghijklmnopqrstuvwxyz"[k] as int == 97 + k && "ABCDEFGHIJKLMNOPQRSTUVWXYZ"[k] as int == 65 + k
  {
  }
}
