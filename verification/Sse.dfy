/** Server-sent-event framing: cutting a text at blank lines, and doing so chunk by chunk. */
module Sse {
  import opened Prelude

  /** The first position at or after `from` where a blank line starts, or the text's length. */
  function FindSeparator(text: string, from: nat): (i: nat)
    requires from <= |text|
    ensures from <= i <= |text|
    ensures i < |text| ==> i + 1 < |text| && text[i] == '\n' && text[i + 1] == '\n'
    ensures forall j | from <= j < i && j + 1 < |text| :: !(text[j] == '\n' && text[j + 1] == '\n')
    decreases |text| - from
  {
    if from + 1 >= |text| then |text|
    else if text[from] == '\n' && text[from + 1] == '\n' then from
    else FindSeparator(text, from + 1)
  }

  /** `text.split('\n\n')`: the terminated blocks, and what follows the last of them. */
  function Split(text: string): (seq<string>, string)
    decreases |text|
  {
    var i := FindSeparator(text, 0);
    if i == |text| then ([], text)
    else
      var (blocks, rest) := Split(text[i + 2..]);
      ([text[..i]] + blocks, rest)
  }

  function Join(chunks: seq<string>): string {
    if chunks == [] then "" else Join(chunks[..|chunks| - 1]) + chunks[|chunks| - 1]
  }

  /** The reader's loop: every chunk is appended to the remainder and the terminated blocks are taken. */
  function SplitChunks(chunks: seq<string>): (seq<string>, string) {
    if chunks == [] then ([], "")
    else
      var (blocks, rest) := SplitChunks(chunks[..|chunks| - 1]);
      var (more, rest') := Split(rest + chunks[|chunks| - 1]);
      (blocks + more, rest')
  }

  lemma SplitAtSeparator(text: string, i: nat)
    requires i == FindSeparator(text, 0) && i < |text|
    ensures Split(text).0 == [text[..i]] + Split(text[i + 2..]).0 && Split(text).1 == Split(text[i + 2..]).1
  {
  }

  /** The first block of `a` is also the first block of `a + b`. */
  lemma FirstBlock(a: string, b: string, i: nat)
    requires i == FindSeparator(a, 0) && i < |a|
    ensures Split(a + b).0 == [a[..i]] + Split(a[i + 2..] + b).0 && Split(a + b).1 == Split(a[i + 2..] + b).1
  {
    SeparatorStays(a, b);
    SplitAtSeparator(a + b, i);
    assert (a + b)[i + 2..] == a[i + 2..] + b && (a + b)[..i] == a[..i];
  }

  lemma SplitUnseparated(a: string, b: string)
    requires FindSeparator(a, 0) == |a|
    ensures Split(a) == ([], a) && [] + Split(a + b).0 == Split(a + b).0
  {
  }

  /** Splitting in two goes is splitting once. */
  lemma {:induction false} SplitConcat(a: string, b: string)
    ensures Split(a + b).0 == Split(a).0 + Split(Split(a).1 + b).0
    ensures Split(a + b).1 == Split(Split(a).1 + b).1
    decreases |a|
  {
    var i := FindSeparator(a, 0);
    if i == |a| {
      SplitUnseparated(a, b);
    } else {
      var a' := a[i + 2..];
      SplitAtSeparator(a, i);
      FirstBlock(a, b, i);
      SplitConcat(a', b);
      Regroup([a[..i]], Split(a').0, Split(Split(a').1 + b).0);
    }
  }

  lemma Regroup<T>(x: seq<T>, y: seq<T>, z: seq<T>)
    ensures x + (y + z) == x + y + z
  {
  }

  lemma SeparatorStays(a: string, b: string)
    requires FindSeparator(a, 0) < |a|
    ensures FindSeparator(a + b, 0) == FindSeparator(a, 0)
  {
    assert forall k | 0 <= k < |a| :: (a + b)[k] == a[k];
  }

  /** However a text is cut into chunks, the blocks and the remainder are those of the whole text. */
  lemma {:induction false} ChunkInvariance(chunks: seq<string>)
    ensures SplitChunks(chunks) == Split(Join(chunks))
  {
    if chunks != [] {
      ChunkInvariance(chunks[..|chunks| - 1]);
      SplitConcat(Join(chunks[..|chunks| - 1]), chunks[|chunks| - 1]);
    }
  }

  // ---------------------------------------------------------------------------------------------
  // The inverse

  /** The wire form of a list of blocks and an unterminated remainder. */
  function Encode(blocks: seq<string>, rest: string): string {
    if blocks == [] then rest else blocks[0] + "\n\n" + Encode(blocks[1..], rest)
  }

  predicate HasSeparator(text: string) {
    FindSeparator(text, 0) < |text|
  }

  /** A block that survives framing: no blank line inside, and no newline at its end. */
  predicate Frameable(block: string) {
    !HasSeparator(block) && (block != "" ==> block[|block| - 1] != '\n')
  }

  /** Splitting loses nothing, and yields only frameable blocks. */
  lemma {:induction false} SplitThenEncode(text: string)
    ensures Encode(Split(text).0, Split(text).1) == text
    ensures forall b | b in Split(text).0 :: Frameable(b)
    ensures !HasSeparator(Split(text).1)
    decreases |text|
  {
    var i := FindSeparator(text, 0);
    if i < |text| {
      SplitThenEncode(text[i + 2..]);
      var blocks, rest := Split(text[i + 2..]).0, Split(text[i + 2..]).1;
      assert ([text[..i]] + blocks)[1..] == blocks;
      assert text == text[..i] + "\n\n" + text[i + 2..];
      assert forall k | 0 <= k < i :: text[..i][k] == text[k];
      assert Frameable(text[..i]);
    }
  }

  lemma SplitFirst(b: string, tail: string)
    requires Frameable(b)
    ensures Split(b + "\n\n" + tail) == ([b] + Split(tail).0, Split(tail).1)
  {
    var text := b + "\n\n" + tail;
    assert text[|b|] == '\n' && text[|b| + 1] == '\n';
    assert forall k | 0 <= k < |b| :: text[k] == b[k];
    assert FindSeparator(text, 0) == |b|;
    assert text[..|b|] == b && text[|b| + 2..] == tail;
  }

  /** Frameable blocks come back exactly as they were sent. */
  lemma {:induction false} EncodeThenSplit(blocks: seq<string>, rest: string)
    requires forall b | b in blocks :: Frameable(b)
    requires !HasSeparator(rest)
    ensures Split(Encode(blocks, rest)) == (blocks, rest)
  {
    if blocks != [] {
      EncodeThenSplit(blocks[1..], rest);
      SplitFirst(blocks[0], Encode(blocks[1..], rest));
      assert blocks == [blocks[0]] + blocks[1..];
    }
  }

  // ---------------------------------------------------------------------------------------------
  // Line ends

  /** `s.replace(/\r\n/g, '\n')`. */
  function ReplaceCrLf(s: string): string {
    if s == "" then ""
    else if StartsCrLf(s) then ['\n'] + ReplaceCrLf(s[2..])
    else [s[0]] + ReplaceCrLf(s[1..])
  }

  predicate StartsCrLf(s: string) {
    |s| >= 2 && s[0] == '\r' && s[1] == '\n'
  }

  /** `s.replace(/\r/g, '\n')`. */
  function ReplaceCr(s: string): string {
    seq(|s|, i requires 0 <= i < |s| => if s[i] == '\r' then '\n' else s[i])
  }

  function Normalize(s: string): string {
    ReplaceCr(ReplaceCrLf(s))
  }

  function NormalizeAll(chunks: seq<string>): seq<string> {
    seq(|chunks|, i requires 0 <= i < |chunks| => Normalize(chunks[i]))
  }

  /** A CR LF pair lies across the border of the two texts. */
  predicate CutsCrLf(a: string, b: string) {
    a != "" && b != "" && a[|a| - 1] == '\r' && b[0] == '\n'
  }

  lemma ReplaceCrConcat(a: string, b: string)
    ensures ReplaceCr(a + b) == ReplaceCr(a) + ReplaceCr(b)
  {
  }

  lemma {:induction false} ReplaceCrLfConcat(a: string, b: string)
    requires !CutsCrLf(a, b)
    ensures ReplaceCrLf(a + b) == ReplaceCrLf(a) + ReplaceCrLf(b)
    decreases |a|
  {
    var s := a + b;
    if a == "" {
      assert s == b;
    } else {
      var n := if StartsCrLf(a) then 2 else 1;
      var head := if StartsCrLf(a) then '\n' else a[0];
      assert StartsCrLf(s) == StartsCrLf(a);
      assert s[n..] == a[n..] + b;
      ReplaceCrLfConcat(a[n..], b);
      var x, y := ReplaceCrLf(a[n..]), ReplaceCrLf(b);
      assert ReplaceCrLf(s) == [head] + (x + y);
      assert ReplaceCrLf(a) == [head] + x;
      assert [head] + (x + y) == ([head] + x) + y;
    }
  }

  /** Cutting a pair leaves one line end too many. */
  lemma CutPairLength(a: string, b: string)
    requires CutsCrLf(a, b)
    ensures |ReplaceCrLf(a + b)| + 1 == |ReplaceCrLf(a)| + |ReplaceCrLf(b)|
  {
    var a', b' := a[..|a| - 1], b[1..];
    assert a == a' + ['\r'] && b == ['\n'] + b' && a + b == a' + (['\r', '\n'] + b');
    ReplaceCrLfConcat(a', ['\r']);
    ReplaceCrLfConcat(['\n'], b');
    ReplaceCrLfConcat(a', ['\r', '\n'] + b');
    ShortReplacements();
    assert (['\r', '\n'] + b')[2..] == b';
    assert StartsCrLf(['\r', '\n'] + b');
  }

  lemma ShortReplacements()
    ensures ReplaceCrLf(['\r']) == ['\r'] && ReplaceCrLf(['\n']) == ['\n']
  {
    assert ['\r'][1..] == "" && ['\n'][1..] == "";
  }

  /** How many CR LF pairs the chunk borders cut. */
  function CutPairs(chunks: seq<string>): nat {
    if chunks == [] then 0
    else
      var before := chunks[..|chunks| - 1];
      CutPairs(before) + if CutsCrLf(Join(before), chunks[|chunks| - 1]) then 1 else 0
  }

  lemma {:induction false} NormalizePerChunk(chunks: seq<string>)
    ensures |Join(NormalizeAll(chunks))| == |Normalize(Join(chunks))| + CutPairs(chunks)
    ensures CutPairs(chunks) == 0 ==> Join(NormalizeAll(chunks)) == Normalize(Join(chunks))
  {
    if chunks != [] {
      var before, last := chunks[..|chunks| - 1], chunks[|chunks| - 1];
      NormalizePerChunk(before);
      assert NormalizeAll(chunks)[..|chunks| - 1] == NormalizeAll(before);
      if CutsCrLf(Join(before), last) {
        CutPairLength(Join(before), last);
      } else {
        ReplaceCrLfConcat(Join(before), last);
      }
      ReplaceCrConcat(ReplaceCrLf(Join(before)), ReplaceCrLf(last));
    }
  }

  /**
   * Line ends are normalized chunk by chunk, so the reader sees the blocks of the normalized text
   * exactly when no chunk border falls between a CR and its LF; otherwise each cut pair reads as
   * two line ends.
   */
  lemma NormalizedChunksIff(chunks: seq<string>)
    ensures SplitChunks(NormalizeAll(chunks)) == Split(Normalize(Join(chunks))) <==> CutPairs(chunks) == 0
  {
    NormalizePerChunk(chunks);
    ChunkInvariance(NormalizeAll(chunks));
    SplitThenEncode(Join(NormalizeAll(chunks)));
    SplitThenEncode(Normalize(Join(chunks)));
  }

  ghost predicate OneLine(s: string) {
    forall i | 0 <= i < |s| :: s[i] != '\r' && s[i] != '\n'
  }

  lemma {:induction false} OneLineStays(s: string)
    requires OneLine(s)
    ensures ReplaceCrLf(s) == s && Normalize(s) == s
  {
    if s != "" {
      OneLineStays(s[1..]);
      assert s == [s[0]] + s[1..];
    }
  }

  lemma TwoChunks(a: string, b: string)
    ensures SplitChunks([a, b]) == Split(a + b)
  {
    ChunkInvariance([a, b]);
    assert [a, b][..1] == [a] && [a][..0] == [];
    assert Join([a]) == Join([]) + a == a;
  }

  lemma NormalizeConcat(a: string, b: string)
    requires !CutsCrLf(a, b)
    ensures Normalize(a + b) == Normalize(a) + Normalize(b)
  {
    ReplaceCrLfConcat(a, b);
    ReplaceCrConcat(ReplaceCrLf(a), ReplaceCrLf(b));
  }

  lemma LineEnds()
    ensures Normalize("\r") == "\n" && Normalize("\n") == "\n" && Normalize("\r\n") == "\n"
  {
    ShortReplacements();
    assert "\r\n"[2..] == "";
  }

  lemma PairNormalizes(x: string, y: string)
    requires OneLine(x) && OneLine(y)
    ensures Normalize(x + "\r") == x + "\n"
    ensures Normalize("\n" + y) == "\n" + y
  {
    LineEnds();
    OneLineStays(x);
    OneLineStays(y);
    NormalizeConcat(x, "\r");
    NormalizeConcat("\n", y);
  }

  lemma WholeNormalizes(x: string, y: string)
    requires OneLine(x) && OneLine(y)
    ensures Normalize(x + "\r\n" + y) == x + "\n" + y
  {
    LineEnds();
    OneLineStays(x);
    OneLineStays(y);
    NormalizeConcat(x, "\r\n");
    NormalizeConcat(x + "\r\n", y);
  }

  /** A cut pair changes the framing: two lines of one block become a block and a remainder. */
  lemma CutPairEndsBlock(x: string, y: string)
    requires OneLine(x) && OneLine(y)
    ensures SplitChunks([Normalize(x + "\r"), Normalize("\n" + y)]) == ([x], y)
    ensures Split(Normalize(x + "\r\n" + y)) == ([], x + "\n" + y)
  {
    PairNormalizes(x, y);
    TwoChunks(x + "\n", "\n" + y);
    assert (x + "\n") + ("\n" + y) == x + "\n\n" + y;
    SplitFirst(x, y);
    OneLineSplits(y);
    assert [Normalize(x + "\r"), Normalize("\n" + y)] == [x + "\n", "\n" + y];
    assert [x] + [] == [x];
    WholeNormalizes(x, y);
    TwoLinesSplit(x, y);
  }

  lemma OneLineSplits(y: string)
    requires OneLine(y)
    ensures Split(y) == ([], y)
  {
  }

  lemma TwoLinesSplit(x: string, y: string)
    requires OneLine(x) && OneLine(y)
    ensures Split(x + "\n" + y) == ([], x + "\n" + y)
  {
    var whole := x + "\n" + y;
    assert forall k | 0 <= k < |whole| && whole[k] == '\n' :: k == |x|;
  }
}
