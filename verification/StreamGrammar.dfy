/**
 * The grammar of an Anthropic event stream, given twice: as a recogniser that reads the events
 * once, and by positions. Every transcript of the translator is accepted.
 */
module StreamGrammar {
  import opened Wrappers
  import opened StreamLines
  import opened StreamModel

  // ---- The recogniser ---------------------------------------------------------------------

  datatype Kind = TextKind | ToolKind
  datatype Phase = AwaitStart | AwaitPing | InBlocks | AwaitStop | Done | Rejected
  datatype Reader = Reader(phase: Phase, open: map<nat, Kind>, used: set<nat>)

  const NewReader := Reader(AwaitStart, map[], {})

  function BlockKind(b: Block): Kind { if b.TextBlock? then TextKind else ToolKind }
  function PayloadKind(p: Payload): Kind { if p.TextDelta? then TextKind else ToolKind }

  function ReadEvent(r: Reader, e: Event): Reader {
    var reject := r.(phase := Rejected);
    match e
    case MessageStart(_, _) => if r.phase == AwaitStart then r.(phase := AwaitPing) else reject
    case Ping => if r.phase == AwaitPing then r.(phase := InBlocks) else reject
    case BlockStart(i, b) =>
      if r.phase == InBlocks && i !in r.used
      then r.(open := r.open[i := BlockKind(b)], used := r.used + {i}) else reject
    case BlockDelta(i, p) =>
      if r.phase == InBlocks && i in r.open && r.open[i] == PayloadKind(p) then r else reject
    case BlockStop(i) =>
      if r.phase == InBlocks && i in r.open then r.(open := r.open - {i}) else reject
    case MessageDelta(_, _) =>
      if r.phase == InBlocks && r.open == map[] then r.(phase := AwaitStop) else reject
    case MessageStop => if r.phase == AwaitStop then r.(phase := Done) else reject
  }

  function Read(r: Reader, es: seq<Event>): Reader {
    if es == [] then r else ReadEvent(Read(r, es[..|es| - 1]), es[|es| - 1])
  }

  predicate Grammatical(es: seq<Event>) { Read(NewReader, es).phase == Done }

  lemma {:induction false} ReadConcat(r: Reader, a: seq<Event>, b: seq<Event>)
    ensures Read(r, a + b) == Read(Read(r, a), b)
  {
    if b == [] {
      assert a + b == a;
    } else {
      var front := b[..|b| - 1];
      assert (a + b)[..|a + b| - 1] == a + front;
      ReadConcat(r, a, front);
    }
  }

  lemma ReadOne(r: Reader, e: Event)
    ensures Read(r, [e]) == ReadEvent(r, e)
  {
    assert Read(r, [e][..0]) == r;
  }

  // ---- What acceptance means, by positions --------------------------------------------------

  predicate Starts(e: Event, i: nat) { e.BlockStart? && e.index == i }
  predicate Stops(e: Event, i: nat) { e.BlockStop? && e.index == i }
  predicate IsBlockEvent(e: Event) { e.BlockStart? || e.BlockDelta? || e.BlockStop? }

  /** Block `i` of kind `k` was started at some position and has not been stopped since. */
  ghost predicate OpenAt(es: seq<Event>, i: nat, k: Kind) {
    exists s :: OpenSince(es, s, i, k)
  }

  ghost predicate OpenSince(es: seq<Event>, s: int, i: nat, k: Kind) {
    0 <= s < |es| && Starts(es[s], i) && BlockKind(es[s].block) == k
    && forall p :: s < p < |es| ==> !Stops(es[p], i)
  }

  predicate Holds(r: Reader, i: nat, k: Kind) { i in r.open && r.open[i] == k }

  ghost predicate StartedIn(es: seq<Event>, i: nat) {
    exists s :: 0 <= s < |es| && Starts(es[s], i)
  }

  /** The recogniser's bookkeeping is exactly what the positions say. */
  ghost predicate Bookkeeping(es: seq<Event>) {
    var r := Read(NewReader, es);
    && (forall i :: i in r.used <==> StartedIn(es, i))
    && (forall i, k :: Holds(r, i, k) <==> OpenAt(es, i, k))
  }

  /** Event `e`, coming after `before`, refers to blocks the way the protocol allows. */
  ghost predicate AnchoredAfter(before: seq<Event>, e: Event) {
    && (e.BlockDelta? ==> OpenAt(before, e.index, PayloadKind(e.payload)))
    && (e.BlockStop? ==> exists k :: OpenAt(before, e.index, k))
    && (e.BlockStart? ==> !StartedIn(before, e.index))
  }

  /** Every delta and every stop sits after the one start of its index, with that block still open. */
  ghost predicate Anchored(es: seq<Event>) {
    forall p :: 0 <= p < |es| ==> AnchoredAfter(es[..p], es[p])
  }

  lemma OpenAtExtends(es: seq<Event>, e: Event, i: nat, k: Kind)
    ensures OpenAt(es + [e], i, k) <==>
      (OpenAt(es, i, k) && !Stops(e, i)) || (Starts(e, i) && BlockKind(e.block) == k)
  {
    var all := es + [e];
    if OpenAt(es, i, k) && !Stops(e, i) {
      var s :| OpenSince(es, s, i, k);
      assert OpenSince(all, s, i, k);
    }
    if Starts(e, i) && BlockKind(e.block) == k {
      assert OpenSince(all, |es|, i, k);
    }
    if OpenAt(all, i, k) {
      var s :| OpenSince(all, s, i, k);
      if s < |es| {
        assert !Stops(all[|es|], i);
        forall p | s < p < |es| ensures !Stops(es[p], i) { assert all[p] == es[p]; }
        assert OpenSince(es, s, i, k);
      }
    }
  }

  lemma StartedInExtends(es: seq<Event>, e: Event, i: nat)
    ensures StartedIn(es + [e], i) <==> StartedIn(es, i) || Starts(e, i)
  {
    var all := es + [e];
    if StartedIn(es, i) {
      var s :| 0 <= s < |es| && Starts(es[s], i);
      assert Starts(all[s], i);
    }
    if Starts(e, i) { assert Starts(all[|es|], i); }
  }

  lemma OpenWasStarted(es: seq<Event>, i: nat, k: Kind)
    ensures OpenAt(es, i, k) ==> StartedIn(es, i)
  {
  }

  lemma BookkeepingStep(es: seq<Event>, e: Event)
    requires Bookkeeping(es)
    requires ReadEvent(Read(NewReader, es), e).phase != Rejected
    ensures Bookkeeping(es + [e]) && AnchoredAfter(es, e)
  {
    var r := Read(NewReader, es);
    var r' := ReadEvent(r, e);
    assert Read(NewReader, es + [e]) == r' by { ReadConcat(NewReader, es, [e]); ReadOne(r, e); }
    forall i ensures i in r'.used <==> StartedIn(es + [e], i) { StartedInExtends(es, e, i); }
    forall i, k ensures Holds(r', i, k) <==> OpenAt(es + [e], i, k) {
      OpenAtExtends(es, e, i, k);
      assert Holds(r, i, k) <==> OpenAt(es, i, k);
      if Starts(e, i) {
        assert Holds(r', i, BlockKind(e.block));
        forall k' { OpenWasStarted(es, i, k'); }
      }
    }
    if e.BlockDelta? { assert Holds(r, e.index, PayloadKind(e.payload)); }
    if e.BlockStop? { assert Holds(r, e.index, r.open[e.index]); }
  }

  lemma {:induction false} BookkeepingHolds(es: seq<Event>)
    requires Read(NewReader, es).phase != Rejected
    ensures Bookkeeping(es) && Anchored(es)
  {
    if es == [] {
      assert forall i, k :: !OpenAt(es, i, k);
    } else {
      var front, e := es[..|es| - 1], es[|es| - 1];
      assert es == front + [e];
      BookkeepingHolds(front);
      BookkeepingStep(front, e);
      forall p | 0 <= p < |es| ensures AnchoredAfter(es[..p], es[p]) {
        if p < |front| { assert AnchoredAfter(front[..p], front[p]); assert es[..p] == front[..p]; }
      }
    }
  }

  /** The grammar without a recogniser: message_start, ping, block events, message_delta and
      message_stop; references anchored; every started block stopped. */
  ghost predicate WellFormedByPosition(es: seq<Event>) {
    && |es| >= 4
    && es[0].MessageStart? && es[1].Ping? && es[|es| - 2].MessageDelta? && es[|es| - 1].MessageStop?
    && (forall p :: 2 <= p < |es| - 2 ==> IsBlockEvent(es[p]))
    && Anchored(es)
    && (forall i, k :: !OpenAt(es, i, k))
  }

  ghost predicate BlocksSoFar(es: seq<Event>) {
    |es| >= 2 && es[0].MessageStart? && es[1].Ping? && forall p :: 2 <= p < |es| ==> IsBlockEvent(es[p])
  }

  lemma {:induction false} PhaseTellsShape(es: seq<Event>)
    ensures var phase := Read(NewReader, es).phase;
      && (phase == AwaitStart <==> es == [])
      && (phase == AwaitPing ==> |es| == 1 && es[0].MessageStart?)
      && (phase == InBlocks ==> BlocksSoFar(es))
      && (phase == AwaitStop ==> es[|es| - 1].MessageDelta? && BlocksSoFar(es[..|es| - 1]))
      && (phase == Done ==> |es| >= 2 && es[|es| - 1].MessageStop? && es[|es| - 2].MessageDelta?
                            && BlocksSoFar(es[..|es| - 2]))
  {
    if es != [] {
      var front := es[..|es| - 1];
      PhaseTellsShape(front);
      if |front| > 0 { assert front[..|front| - 1] == es[..|es| - 2]; }
    }
  }

  lemma OpenIsAboutStartsAndStops(es: seq<Event>, e: Event, i: nat, k: Kind)
    requires !IsBlockEvent(e)
    ensures OpenAt(es + [e], i, k) <==> OpenAt(es, i, k)
  {
    OpenAtExtends(es, e, i, k);
  }

  lemma {:induction false} AcceptedBlocks(es: seq<Event>)
    requires BlocksSoFar(es) && Anchored(es)
    ensures Read(NewReader, es).phase == InBlocks
  {
    if |es| == 2 {
      assert es == [es[0]] + [es[1]];
      ReadConcat(NewReader, [es[0]], [es[1]]);
      ReadOne(NewReader, es[0]);
      ReadOne(ReadEvent(NewReader, es[0]), es[1]);
    } else {
      var front, e := es[..|es| - 1], es[|es| - 1];
      assert forall p :: 0 <= p < |front| ==> front[p] == es[p] && front[..p] == es[..p];
      assert forall p :: 0 <= p < |front| ==> AnchoredAfter(es[..p], es[p]);
      AcceptedBlocks(front);
      BookkeepingHolds(front);
      var r := Read(NewReader, front);
      assert AnchoredAfter(front, e);
      if e.BlockDelta? { assert Holds(r, e.index, PayloadKind(e.payload)); }
      if e.BlockStop? { var k :| OpenAt(front, e.index, k); assert Holds(r, e.index, k); }
    }
  }

  lemma LastTwo(es: seq<Event>)
    requires |es| >= 2
    ensures var front, blocks := es[..|es| - 1], es[..|es| - 2];
      front[..|front| - 1] == blocks && front == blocks + [es[|es| - 2]] && es == front + [es[|es| - 1]]
  {
  }

  /** The recogniser accepts exactly the streams that are well formed by position. */
  lemma GrammarMeaning(es: seq<Event>)
    ensures Grammatical(es) <==> WellFormedByPosition(es)
  {
    if Grammatical(es) { AcceptedIsWellFormed(es); }
    if WellFormedByPosition(es) { WellFormedIsAccepted(es); }
  }

  lemma AcceptedIsWellFormed(es: seq<Event>)
    requires Grammatical(es)
    ensures WellFormedByPosition(es)
  {
    PhaseTellsShape(es);
    BookkeepingHolds(es);
    var front, blocks := es[..|es| - 1], es[..|es| - 2];
    LastTwo(es);
    BookkeepingHolds(blocks);
    forall i, k ensures !OpenAt(es, i, k) {
      OpenIsAboutStartsAndStops(blocks, es[|es| - 2], i, k);
      OpenIsAboutStartsAndStops(front, es[|es| - 1], i, k);
      assert !Holds(Read(NewReader, blocks), i, k);
    }
    assert forall p :: 0 <= p < |blocks| ==> blocks[p] == es[p];
  }

  lemma WellFormedIsAccepted(es: seq<Event>)
    requires WellFormedByPosition(es)
    ensures Grammatical(es)
  {
    var front, blocks := es[..|es| - 1], es[..|es| - 2];
    LastTwo(es);
    AnchoredPrefix(es, |es| - 2);
    AcceptedBlocks(blocks);
    NothingIsOpen(es);
  }

  lemma AnchoredPrefix(es: seq<Event>, n: nat)
    requires n <= |es| && Anchored(es)
    ensures Anchored(es[..n])
  {
    forall p | 0 <= p < n ensures AnchoredAfter(es[..n][..p], es[..n][p]) {
      assert AnchoredAfter(es[..p], es[p]) && es[..n][..p] == es[..p];
    }
  }

  lemma NothingIsOpen(es: seq<Event>)
    requires |es| >= 2 && !IsBlockEvent(es[|es| - 2]) && !IsBlockEvent(es[|es| - 1])
    requires forall i, k :: !OpenAt(es, i, k)
    requires Read(NewReader, es[..|es| - 2]).phase != Rejected
    ensures Read(NewReader, es[..|es| - 2]).open == map[]
  {
    var front, blocks := es[..|es| - 1], es[..|es| - 2];
    var r := Read(NewReader, blocks);
    LastTwo(es);
    BookkeepingHolds(blocks);
    if i :| i in r.open {
      assert Holds(r, i, r.open[i]);
      OpenIsAboutStartsAndStops(blocks, es[|es| - 2], i, r.open[i]);
      OpenIsAboutStartsAndStops(front, es[|es| - 1], i, r.open[i]);
    }
  }
}
