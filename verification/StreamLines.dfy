/**
 * The line buffer of the stream translator: text arrives in arbitrary chunks, complete lines are
 * taken out as soon as their '\n' is there, and an unterminated tail waits for the next chunk.
 */
module StreamLines {
  import opened Wrappers

  ghost predicate NewlineFree(s: string) {
    forall k :: 0 <= k < |s| ==> s[k] != '\n'
  }

  /** Position of the first '\n', the way `buffer.find('\n')` reports it. */
  function FindNewline(s: string): (r: Option<nat>)
    ensures r.Some? ==> r.value < |s| && s[r.value] == '\n'
    ensures r.Some? ==> forall k :: 0 <= k < r.value ==> s[k] != '\n'
    ensures r.None? ==> NewlineFree(s)
  {
    if s == [] then None
    else if s[0] == '\n' then Some(0)
    else
      match FindNewline(s[1..])
      case None => assert s == [s[0]] + s[1..]; None
      case Some(i) => assert s == [s[0]] + s[1..]; Some(i + 1)
  }

  /** What the buffer yields: the complete lines, and the tail that has no '\n' yet. */
  datatype Split = Split(lines: seq<string>, tail: string)

  function SplitLines(s: string): Split
    decreases |s|
  {
    match FindNewline(s)
    case None => Split([], s)
    case Some(i) =>
      var rest := SplitLines(s[i + 1..]);
      Split([s[..i]] + rest.lines, rest.tail)
  }

  /** Puts a split back together. */
  function Unsplit(lines: seq<string>, tail: string): string {
    if lines == [] then tail else lines[0] + "\n" + Unsplit(lines[1..], tail)
  }

  ghost predicate NoNewlines(lines: seq<string>, tail: string) {
    NewlineFree(tail) && forall i :: 0 <= i < |lines| ==> NewlineFree(lines[i])
  }

  lemma FirstNewlineIs(s: string, i: nat)
    requires i < |s| && s[i] == '\n' && NewlineFree(s[..i])
    ensures FindNewline(s) == Some(i)
  {
    forall k | 0 <= k < i ensures s[k] != '\n' { assert s[..i][k] == s[k]; }
  }

  /** Splitting cuts at every newline and keeps every character. */
  lemma {:induction false} UnsplitOfSplit(s: string)
    ensures Unsplit(SplitLines(s).lines, SplitLines(s).tail) == s
    ensures NoNewlines(SplitLines(s).lines, SplitLines(s).tail)
    decreases |s|
  {
    match FindNewline(s)
    case None =>
    case Some(i) =>
      var first, rest := s[..i], s[i + 1..];
      UnsplitOfSplit(rest);
      var split, lines := SplitLines(rest), [first] + SplitLines(rest).lines;
      assert lines[1..] == split.lines;
      assert Unsplit(lines, split.tail) == first + "\n" + rest == s;
      forall j | 0 <= j < |lines| ensures NewlineFree(lines[j]) {
        if j > 0 { assert lines[j] == split.lines[j - 1]; }
      }
  }

  /** Newline-free lines and tail are found again: no other cut of the text exists. */
  lemma {:induction false} SplitOfUnsplit(lines: seq<string>, tail: string)
    requires NoNewlines(lines, tail)
    ensures SplitLines(Unsplit(lines, tail)) == Split(lines, tail)
  {
    if lines != [] {
      var rest := Unsplit(lines[1..], tail);
      var s := lines[0] + "\n" + rest;
      var i := |lines[0]|;
      assert s[..i] == lines[0] && s[i + 1..] == rest;
      FirstNewlineIs(s, i);
      SplitOfUnsplit(lines[1..], tail);
    }
  }

  lemma {:induction false} UnsplitTail(lines: seq<string>, tail: string, more: string)
    ensures Unsplit(lines, tail) + more == Unsplit(lines, tail + more)
  {
    if lines != [] {
      UnsplitTail(lines[1..], tail, more);
      assert (lines[0] + "\n" + Unsplit(lines[1..], tail)) + more == lines[0] + "\n" + (Unsplit(lines[1..], tail) + more);
    }
  }

  lemma {:induction false} UnsplitLines(now: seq<string>, later: seq<string>, tail: string)
    ensures Unsplit(now, Unsplit(later, tail)) == Unsplit(now + later, tail)
  {
    if now == [] {
      assert now + later == later;
    } else {
      assert (now + later)[1..] == now[1..] + later;
      UnsplitLines(now[1..], later, tail);
    }
  }

  lemma NoNewlinesConcat(now: seq<string>, later: seq<string>, waiting: string, tail: string)
    requires NoNewlines(now, waiting) && NoNewlines(later, tail)
    ensures NoNewlines(now + later, tail)
  {
  }

  /** Feeding `b` after `a` yields the lines of `a + b`: nothing is lost or invented at the seam. Both sides
      put back together give `a + b`, and no other cut of it exists. */
  lemma SplitOfConcat(a: string, b: string)
    ensures SplitLines(a + b)
         == Split(SplitLines(a).lines + SplitLines(SplitLines(a).tail + b).lines,
                  SplitLines(SplitLines(a).tail + b).tail)
  {
    SeamIsInvisible(a, b, SplitLines(a), SplitLines(SplitLines(a).tail + b));
  }

  lemma SeamIsInvisible(a: string, b: string, now: Split, later: Split)
    requires now == SplitLines(a) && later == SplitLines(now.tail + b)
    ensures SplitLines(a + b) == Split(now.lines + later.lines, later.tail)
  {
    UnsplitOfSplit(a);
    UnsplitOfSplit(now.tail + b);
    UnsplitTail(now.lines, now.tail, b);
    UnsplitLines(now.lines, later.lines, later.tail);
    NoNewlinesConcat(now.lines, later.lines, now.tail, later.tail);
    SplitOfUnsplit(now.lines + later.lines, later.tail);
  }

  /** One chunk of the response body: decoded text, or the upstream read error that ends the loop. */
  datatype ChunkResult = Decoded(text: string) | ReadError

  /** All text received before the first read error. */
  function Received(chunks: seq<ChunkResult>): string {
    if chunks == [] || chunks[0].ReadError? then "" else chunks[0].text + Received(chunks[1..])
  }

  /** The incremental buffer: every line taken out while the chunks come in. */
  function Incremental(buffer: string, chunks: seq<ChunkResult>): seq<string>
    decreases |chunks|
  {
    if chunks == [] || chunks[0].ReadError? then []
    else
      var now := SplitLines(buffer + chunks[0].text);
      now.lines + Incremental(now.tail, chunks[1..])
  }

  /** The lines taken out depend only on the concatenated text, never on how it was cut. */
  lemma {:induction false} IncrementalIsSplitOfReceived(buffer: string, chunks: seq<ChunkResult>)
    requires NewlineFree(buffer)
    ensures Incremental(buffer, chunks) == SplitLines(buffer + Received(chunks)).lines
    decreases |chunks|
  {
    if chunks == [] || chunks[0].ReadError? {
      assert buffer + Received(chunks) == buffer;
    } else {
      var now := SplitLines(buffer + chunks[0].text);
      UnsplitOfSplit(buffer + chunks[0].text);
      IncrementalIsSplitOfReceived(now.tail, chunks[1..]);
      SplitOfConcat(buffer + chunks[0].text, Received(chunks[1..]));
      assert buffer + Received(chunks) == (buffer + chunks[0].text) + Received(chunks[1..]);
    }
  }

  /** Any two cuttings of the same text give the same lines. */
  lemma ChunkingIndependence(left: seq<ChunkResult>, right: seq<ChunkResult>)
    requires Received(left) == Received(right)
    ensures Incremental("", left) == Incremental("", right)
  {
    IncrementalIsSplitOfReceived("", left);
    IncrementalIsSplitOfReceived("", right);
  }
}
