/** Splitting a long reply into messages (adapters/shuttle/src/delivery.ts). */
module Chunking {
  import opened Common
  import opened Text

  /** `lastIndexOf` of one character, -1 when absent. */
  function LastIndexOf(s: string, c: char): int {
    if s == [] then -1
    else if s[|s| - 1] == c then |s| - 1
    else LastIndexOf(s[..|s| - 1], c)
  }

  /** Position `k` lies in the last two fifths of the window. */
  predicate IsLate(k: int, maxChars: int) {
    5 * k >= 3 * maxChars
  }

  /** Where the next piece ends: after a late newline, else after a late space, else at the limit. */
  function Cut(rest: string, maxChars: nat): nat
    requires 1 <= maxChars < |rest|
    ensures 1 <= Cut(rest, maxChars) <= maxChars
  {
    var window := rest[..maxChars];
    LastIndexOfIsLast(window, '\n');
    LastIndexOfIsLast(window, ' ');
    var nl, sp := LastIndexOf(window, '\n'), LastIndexOf(window, ' ');
    if IsLate(nl, maxChars) then nl + 1 else if IsLate(sp, maxChars) then sp + 1 else maxChars
  }

  lemma {:induction false} LastIndexOfIsLast(s: string, c: char)
    ensures var k := LastIndexOf(s, c);
            -1 <= k < |s| && (k >= 0 ==> s[k] == c) && forall j :: k < j < |s| ==> s[j] != c
  {
    if s != [] && s[|s| - 1] != c {
      LastIndexOfIsLast(s[..|s| - 1], c);
    }
  }

  /** The untrimmed pieces of a text. */
  ghost function Pieces(text: string, maxChars: nat): seq<string>
    requires maxChars >= 1
    decreases |text|
  {
    if text == [] then []
    else if |text| <= maxChars then [text]
    else [text[..Cut(text, maxChars)]] + Pieces(text[Cut(text, maxChars)..], maxChars)
  }

  /** The chunks of a text, by recursion on what is left. */
  function Chunks(text: string, maxChars: nat): seq<string>
    requires maxChars >= 1
    decreases |text|
  {
    if text == [] then []
    else if |text| <= maxChars then [text]
    else [TrimEnd(text[..Cut(text, maxChars)])] + Chunks(text[Cut(text, maxChars)..], maxChars)
  }

  /** `chunkText`: the loop that shrinks the rest. */
  method ChunkText(text: string, maxChars: nat) returns (chunks: seq<string>)
    requires maxChars >= 1
    ensures chunks == Chunks(text, maxChars)
  {
    hide TrimEnd, LastIndexOf, Chunks;
    FewChunks(text, maxChars);
    if |text| == 0 { return []; }
    if |text| <= maxChars { return [text]; }
    chunks := [];
    var rest := text;
    while |rest| > maxChars
      invariant rest != [] && chunks + Chunks(rest, maxChars) == Chunks(text, maxChars)
      decreases |rest|
    {
      var window := rest[..maxChars];
      LastIndexOfIsLast(window, '\n');
      LastIndexOfIsLast(window, ' ');
      var nl, sp := LastIndexOf(window, '\n'), LastIndexOf(window, ' ');
      var cut := maxChars;
      if 5 * nl >= 3 * maxChars { cut := nl + 1; } else if 5 * sp >= 3 * maxChars { cut := sp + 1; }
      assert cut == Cut(rest, maxChars);
      var chunk := TrimEnd(rest[..cut]);
      NextChunk(rest, maxChars);
      assert chunks + ([chunk] + Chunks(rest[cut..], maxChars)) == chunks + [chunk] + Chunks(rest[cut..], maxChars);
      chunks := chunks + [chunk];
      rest := rest[cut..];
    }
    FewChunks(rest, maxChars);
    if |rest| > 0 { chunks := chunks + [rest]; }
  }

  lemma FewChunks(text: string, maxChars: nat)
    requires maxChars >= 1
    ensures |text| <= maxChars ==> Chunks(text, maxChars) == if text == [] then [] else [text]
  {
  }

  lemma NextChunk(text: string, maxChars: nat)
    requires 1 <= maxChars < |text|
    ensures Chunks(text, maxChars)
            == [TrimEnd(text[..Cut(text, maxChars)])] + Chunks(text[Cut(text, maxChars)..], maxChars)
  {
  }

  // ---- where the text is cut --------------------------------------------------

  ghost predicate LateIn(rest: string, maxChars: nat, c: char, k: int) {
    0 <= k < maxChars < |rest| && rest[k] == c && 10 * k >= 6 * maxChars
  }

  /** The cut follows the last late newline, else the last late space, else nothing better exists. */
  lemma CutIsPreferred(rest: string, maxChars: nat)
    requires 1 <= maxChars < |rest|
    ensures var cut := Cut(rest, maxChars);
            if exists k :: LateIn(rest, maxChars, '\n', k) then
              LateIn(rest, maxChars, '\n', cut - 1) && forall k :: LateIn(rest, maxChars, '\n', k) ==> k < cut
            else if exists k :: LateIn(rest, maxChars, ' ', k) then
              LateIn(rest, maxChars, ' ', cut - 1) && forall k :: LateIn(rest, maxChars, ' ', k) ==> k < cut
            else cut == maxChars
  {
    var window := rest[..maxChars];
    LastIndexOfIsLast(window, '\n');
    LastIndexOfIsLast(window, ' ');
    var nl, sp := LastIndexOf(window, '\n'), LastIndexOf(window, ' ');
    forall k | LateIn(rest, maxChars, '\n', k) ensures k <= nl { assert window[k] == '\n'; }
    forall k | LateIn(rest, maxChars, ' ', k) ensures k <= sp { assert window[k] == ' '; }
    if IsLate(nl, maxChars) {
      assert LateIn(rest, maxChars, '\n', nl);
    } else if IsLate(sp, maxChars) {
      assert LateIn(rest, maxChars, ' ', sp);
    }
  }

  // ---- nothing but trailing white space is lost -------------------------------

  lemma {:induction false} TrimEndIsPrefix(s: string)
    ensures TrimEnd(s) <= s && IsBlank(s[|TrimEnd(s)|..])
    ensures TrimEnd(s) != [] ==> !IsSpace(TrimEnd(s)[|TrimEnd(s)| - 1])
  {
    if s != [] && IsSpace(s[|s| - 1]) {
      var front := s[..|s| - 1];
      TrimEndIsPrefix(front);
      var n := |TrimEnd(front)|;
      forall i | n <= i < |s| ensures IsSpace(s[i]) {
        if i < |front| { assert front[n..][i - n] == s[i]; }
      }
    }
  }

  lemma TrimsToNothingIff(s: string)
    ensures TrimEnd(s) == [] <==> IsBlank(s)
  {
    TrimEndIsPrefix(s);
    var r := TrimEnd(s);
    assert r != [] ==> s[|r| - 1] == r[|r| - 1];
  }

  /** Each chunk but the last is its piece without trailing white space; the last is its piece. */
  ghost predicate AreTrimmed(p: seq<string>, c: seq<string>) {
    && |p| == |c|
    && (forall i :: 0 <= i < |p| - 1 ==> c[i] == TrimEnd(p[i]))
    && (p != [] ==> c[|c| - 1] == p[|p| - 1])
  }

  lemma TrimmedCons(head: string, p: seq<string>, c: seq<string>)
    requires AreTrimmed(p, c) && p != []
    ensures AreTrimmed([head] + p, [TrimEnd(head)] + c)
  {
    hide TrimEnd;
    var p', c' := [head] + p, [TrimEnd(head)] + c;
    forall i | 0 <= i < |p'| - 1 ensures c'[i] == TrimEnd(p'[i]) {
      if i > 0 { assert c[i - 1] == TrimEnd(p[i - 1]); }
    }
  }

  /** The pieces are the text, cut; the chunks are the pieces, trimmed. */
  lemma {:induction false} ChunksAreTrimmedPieces(text: string, maxChars: nat)
    requires maxChars >= 1
    ensures Flatten(Pieces(text, maxChars)) == text
    ensures AreTrimmed(Pieces(text, maxChars), Chunks(text, maxChars))
    ensures forall p :: p in Pieces(text, maxChars) ==> 0 < |p| <= maxChars
    ensures text != [] ==> Pieces(text, maxChars) != []
    decreases |text|
  {
    hide Cut, TrimEnd, Flatten, AreTrimmed;
    if text == [] {
      assert Flatten<char>([]) == [] && AreTrimmed([], []) by { NothingTrimmed(); }
    } else if |text| <= maxChars {
      FlattenCons(text, []);
      OneTrimmed(text);
    } else {
      var cut := Cut(text, maxChars);
      var head, rest := text[..cut], text[cut..];
      ChunksAreTrimmedPieces(rest, maxChars);
      FlattenCons(head, Pieces(rest, maxChars));
      TrimmedCons(head, Pieces(rest, maxChars), Chunks(rest, maxChars));
      assert head + rest == text;
    }
  }

  lemma NothingTrimmed()
    ensures Flatten<char>([]) == [] && AreTrimmed([], [])
  {
  }

  lemma OneTrimmed(text: string)
    ensures AreTrimmed([text], [text])
  {
  }

  /** The text has a piece other than its last that is all white space. */
  ghost predicate HasBlankPiece(pieces: seq<string>) {
    exists i :: 0 <= i < |pieces| - 1 && IsBlank(pieces[i])
  }

  /** A text yields an empty chunk iff one of its pieces but the last is all white space. */
  lemma EmptyChunkIff(text: string, maxChars: nat)
    requires maxChars >= 1
    ensures "" in Chunks(text, maxChars) <==> HasBlankPiece(Pieces(text, maxChars))
  {
    hide Pieces, Chunks, TrimEnd, Flatten, IsBlank;
    ChunksAreTrimmedPieces(text, maxChars);
    var p, c := Pieces(text, maxChars), Chunks(text, maxChars);
    forall i | 0 <= i < |c| ensures c[i] == "" <==> i < |p| - 1 && IsBlank(p[i]) {
      assert p[i] in p;
      TrimsToNothingIff(p[i]);
    }
  }

  /** Two spaces and a letter, two characters to a message: the first message is empty. */
  lemma EmptyChunkExample()
    ensures Chunks("  x", 2) == ["", "x"]
  {
    var text := "  x";
    CutIsPreferred(text, 2);
    assert Cut(text, 2) == 2 by {
      forall k, c | LateIn(text, 2, c, k) ensures false {}
    }
    assert text[..2] == "  " && text[2..] == "x";
    TrimsToNothingIff("  ");
  }

  /** No stretch of white space is longer than three fifths of the limit. */
  ghost predicate HasNoLongBlank(text: string, maxChars: nat) {
    forall i, j :: 0 <= i <= j <= |text| && IsBlank(text[i..j]) ==> 5 * (j - i) <= 3 * maxChars
  }

  /** A text without a long stretch of white space yields no empty chunk. */
  lemma {:induction false} NoLongBlankNoEmptyChunk(text: string, maxChars: nat)
    requires maxChars >= 1 && HasNoLongBlank(text, maxChars)
    ensures "" !in Chunks(text, maxChars)
    decreases |text|
  {
    hide TrimEnd, IsBlank;
    if |text| > maxChars {
      var cut := Cut(text, maxChars);
      var rest := text[cut..];
      assert text[0..cut] == text[..cut];
      TrimsToNothingIff(text[..cut]);
      forall i, j | 0 <= i <= j <= |rest| && IsBlank(rest[i..j]) ensures 5 * (j - i) <= 3 * maxChars {
        assert rest[i..j] == text[cut + i..cut + j];
      }
      NoLongBlankNoEmptyChunk(rest, maxChars);
    }
  }

  /** White space at the limit's full length does: a longer text that starts with it yields an empty first chunk. */
  lemma BlankWindowEmptyChunk(text: string, maxChars: nat)
    requires 1 <= maxChars < |text| && IsBlank(text[..maxChars])
    ensures Chunks(text, maxChars)[0] == ""
  {
    hide TrimEnd;
    var cut := Cut(text, maxChars);
    assert forall i :: 0 <= i < cut ==> text[..cut][i] == text[..maxChars][i];
    TrimsToNothingIff(text[..cut]);
  }

  /** Every chunk fits the limit. */
  lemma ChunksFit(text: string, maxChars: nat)
    requires maxChars >= 1
    ensures forall c :: c in Chunks(text, maxChars) ==> |c| <= maxChars
  {
    hide Pieces, Chunks, TrimEnd, Flatten;
    ChunksAreTrimmedPieces(text, maxChars);
    var p, c := Pieces(text, maxChars), Chunks(text, maxChars);
    forall i | 0 <= i < |c| ensures |c[i]| <= maxChars {
      assert p[i] in p;
      TrimEndIsPrefix(p[i]);
    }
  }

  /** A text with all white space taken out. */
  ghost function Erase(s: string): string {
    if s == [] then [] else Erase(s[..|s| - 1]) + (if IsSpace(s[|s| - 1]) then [] else [s[|s| - 1]])
  }

  lemma {:induction false} EraseConcat(a: string, b: string)
    ensures Erase(a + b) == Erase(a) + Erase(b)
    decreases |b|
  {
    if b == [] {
      assert a + b == a;
    } else {
      assert (a + b)[..|a + b| - 1] == a + b[..|b| - 1];
      EraseConcat(a, b[..|b| - 1]);
    }
  }

  lemma {:induction false} EraseTrimEnd(s: string)
    ensures Erase(TrimEnd(s)) == Erase(s)
  {
    if s != [] && IsSpace(s[|s| - 1]) {
      EraseTrimEnd(s[..|s| - 1]);
    }
  }

  /** The chunks joined are the text, once white space is erased from both. */
  lemma {:induction false} ChunksKeepInk(text: string, maxChars: nat)
    requires maxChars >= 1
    ensures Erase(Flatten(Chunks(text, maxChars))) == Erase(text)
    decreases |text|
  {
    hide Cut, TrimEnd, Flatten;
    if text == [] {
      NothingTrimmed();
    } else if |text| <= maxChars {
      FlattenCons(text, []);
    } else {
      var cut := Cut(text, maxChars);
      var head, rest := text[..cut], text[cut..];
      ChunksKeepInk(rest, maxChars);
      FlattenCons(TrimEnd(head), Chunks(rest, maxChars));
      EraseConcat(TrimEnd(head), Flatten(Chunks(rest, maxChars)));
      EraseTrimEnd(head);
      EraseConcat(head, rest);
      assert head + rest == text;
    }
  }

  /** Late cuts keep the number of chunks near the minimum. */
  lemma {:induction false} ChunksAreFew(text: string, maxChars: nat)
    requires maxChars >= 1
    ensures 3 * maxChars * (|Chunks(text, maxChars)| - 1) <= 5 * |text|
    decreases |text|
  {
    if |text| > maxChars {
      var cut := Cut(text, maxChars);
      var n := |Chunks(text[cut..], maxChars)|;
      ChunksAreFew(text[cut..], maxChars);
      assert 5 * cut >= 3 * maxChars;
      OneMore(3 * maxChars, n - 1);
    } else {
      assert |Chunks(text, maxChars)| <= 1;
      OneMore(3 * maxChars, -1);
    }
  }

  lemma OneMore(m: int, k: int)
    ensures m * (k + 1) == m * k + m
  {
  }
}
