/**
 * Admission of concurrent downloads: a download is admitted when it and everything still in
 * flight fit on the disk, and then streams its files chunk by chunk.
 */
module DiskAdmission {
  import opened Wrappers
  import opened MapSum

  datatype Status = Downloading | Complete | Failed | Cancelled

  /** Where the background task of a download is. */
  datatype Phase = Listing | Sized | Streaming | Ended

  datatype Download = Download(total: nat, progress: nat, status: Status, phase: Phase)

  datatype Disk = Disk(total: nat, used: nat, free: nat)

  datatype World = World(disk: Disk, downloads: map<string, Download>)

  function SatSub(a: nat, b: nat): nat { if a < b then 0 else a - b }

  /** What validation counts for another download. */
  function InFlight(d: Download): nat {
    if d.status == Downloading then SatSub(d.total, d.progress) else 0
  }

  /** What an admitted, running download may still write. */
  function Owed(d: Download): nat {
    if d.status == Downloading && d.phase == Streaming then SatSub(d.total, d.progress) else 0
  }

  ghost function OwedTotal(w: World): nat { SumOf(w.downloads, Owed) }

  /** At or above 95 percent of the disk; a disk of unknown size never is. */
  predicate AtThreshold(disk: Disk, used: nat) {
    disk.total > 0 && 100 * used >= 95 * disk.total
  }

  predicate Fits(disk: Disk, required: nat) {
    required <= disk.free && !AtThreshold(disk, disk.used + required)
  }

  // ---- Steps ------------------------------------------------------------------------------------

  datatype Step =
    | Begin(id: string)
    | SetTotal(id: string, total: nat)
    | Validate(id: string, diskReadable: bool)
    | Chunk(id: string, size: nat)
    | Cancel(id: string)
    | Fail(id: string)
    | Finish(id: string)
    | Delete(size: nat)

  function Put(w: World, id: string, d: Download): World { w.(downloads := w.downloads[id := d]) }

  /** Validation, followed by the task's next move. */
  ghost function Validated(w: World, id: string, diskReadable: bool): World
    requires id in w.downloads
  {
    var d := w.downloads[id];
    if diskReadable && !Fits(w.disk, d.total + SumOf(w.downloads - {id}, InFlight))
    then Put(w, id, d.(status := Failed, phase := Ended))
    else Put(w, id, d.(phase := Streaming))
  }

  /** One chunk: dropped when the download was cancelled, an error when the disk is full. */
  function Streamed(w: World, id: string, size: nat): World
    requires id in w.downloads
  {
    var d := w.downloads[id];
    if d.status == Cancelled then Put(w, id, d.(phase := Ended))
    else if size > w.disk.free then Put(w, id, d.(status := Failed, phase := Ended))
    else
      Put(w, id, d.(progress := d.progress + size))
        .(disk := w.disk.(used := w.disk.used + size, free := w.disk.free - size))
  }

  /** One atomic step; a step that is not enabled changes nothing. */
  ghost function Next(w: World, s: Step): World {
    match s
    case Begin(id) => if id in w.downloads then w else Put(w, id, Download(0, 0, Downloading, Listing))
    case SetTotal(id, total) =>
      if id in w.downloads && w.downloads[id].phase == Listing
      then Put(w, id, w.downloads[id].(total := total, phase := Sized)) else w
    case Validate(id, readable) =>
      if id in w.downloads && w.downloads[id].phase == Sized then Validated(w, id, readable) else w
    case Chunk(id, size) =>
      if id in w.downloads && w.downloads[id].phase == Streaming then Streamed(w, id, size) else w
    case Cancel(id) =>
      if id in w.downloads && w.downloads[id].status == Downloading
      then Put(w, id, w.downloads[id].(status := Cancelled)) else w
    case Fail(id) =>
      if id in w.downloads then Put(w, id, w.downloads[id].(status := Failed, phase := Ended)) else w
    case Finish(id) =>
      if id in w.downloads && w.downloads[id].phase == Streaming
      then Put(w, id, w.downloads[id].(status := Complete, phase := Ended)) else w
    case Delete(size) =>
      if size <= w.disk.used then w.(disk := w.disk.(used := w.disk.used - size, free := w.disk.free + size)) else w
  }

  /** Streams stay within the sizes the repository reported. */
  ghost predicate WithinReportedSize(w: World, s: Step) {
    s.Chunk? && s.id in w.downloads && w.downloads[s.id].phase == Streaming ==>
      w.downloads[s.id].progress + s.size <= w.downloads[s.id].total
  }

  // ---- Conservation -------------------------------------------------------------------------------

  /** `owed` bytes can still be written, and leave the disk below 95 percent. */
  predicate Room(disk: Disk, owed: nat) {
    owed <= disk.free && (owed > 0 ==> !AtThreshold(disk, disk.used + owed))
  }

  /** Every admitted running download can finish, together, below 95 percent of the disk. */
  ghost predicate Conserved(w: World) { Room(w.disk, OwedTotal(w)) }

  /** A download waiting for validation that nobody has cancelled. */
  predicate Waiting(w: World, id: string) {
    id in w.downloads && w.downloads[id].phase == Sized && w.downloads[id].status == Downloading
  }

  /** When the disk cannot be read, the download admitted unseen does have room. */
  ghost predicate ReadingOrRoom(w: World, s: Step) {
    s.Validate? && Waiting(w, s.id) ==> s.diskReadable || Room(w.disk, w.downloads[s.id].total + OwedTotal(w))
  }

  /** Downloads that have not been admitted have written nothing; tasks that run are not over. */
  ghost predicate Orderly(w: World) {
    forall id :: id in w.downloads ==>
      && (w.downloads[id].phase == Listing || w.downloads[id].phase == Sized ==> w.downloads[id].progress == 0)
      && (w.downloads[id].phase != Ended ==> w.downloads[id].status == Downloading || w.downloads[id].status == Cancelled)
  }

  lemma OwedAfterPut(w: World, id: string, d: Download)
    ensures OwedTotal(Put(w, id, d)) == Owed(d) + SumOf(w.downloads - {id}, Owed)
    ensures id in w.downloads ==> OwedTotal(w) == Owed(w.downloads[id]) + SumOf(w.downloads - {id}, Owed)
    ensures id !in w.downloads ==> OwedTotal(w) == SumOf(w.downloads - {id}, Owed)
  {
    SumOfUpdate(w.downloads, Owed, id, d);
    if id in w.downloads { SumOfWithout(w.downloads, Owed, id); } else { assert w.downloads - {id} == w.downloads; }
  }

  lemma ValidateKeepsConserved(w: World, id: string)
    requires Conserved(w) && Orderly(w) && id in w.downloads && w.downloads[id].phase == Sized
    ensures Conserved(Validated(w, id, true))
  {
    var d, rest := w.downloads[id], w.downloads - {id};
    OwedAfterPut(w, id, d.(phase := Streaming));
    OwedAfterPut(w, id, d.(status := Failed, phase := Ended));
    SumOfMono(rest, Owed, InFlight);
  }

  /** Admitting without a disk reading keeps the books balanced exactly when there was room. */
  lemma UnreadableDiskIff(w: World, id: string)
    requires Conserved(w) && Orderly(w) && Waiting(w, id)
    ensures Conserved(Next(w, Validate(id, false))) <==> Room(w.disk, w.downloads[id].total + OwedTotal(w))
  {
    OwedAfterPut(w, id, w.downloads[id].(phase := Streaming));
  }

  /** A chunk of an admitted running download moves bytes from owed to used. */
  lemma ChunkMovesBytes(w: World, id: string, size: nat)
    requires Conserved(w) && Orderly(w) && id in w.downloads && w.downloads[id].phase == Streaming
    requires w.downloads[id].status == Downloading && WithinReportedSize(w, Chunk(id, size))
    ensures var w' := Next(w, Chunk(id, size));
      && w'.downloads[id] == w.downloads[id].(progress := w.downloads[id].progress + size)
      && w'.disk == w.disk.(used := w.disk.used + size, free := w.disk.free - size)
      && OwedTotal(w') + size == OwedTotal(w)
  {
    var d := w.downloads[id];
    OwedAfterPut(w, id, d.(progress := d.progress + size));
  }

  /** What a chunk writes beyond the reported size. */
  function Excess(d: Download, size: nat): nat { SatSub(size, SatSub(d.total, d.progress)) }

  /** A chunk of any size that the disk takes keeps the books balanced exactly when there is room for what it
      writes beyond the reported size. */
  lemma ChunkConservesIff(w: World, id: string, size: nat)
    requires Orderly(w) && id in w.downloads && w.downloads[id].phase == Streaming
    requires w.downloads[id].status == Downloading && size <= w.disk.free
    ensures var owed, excess, w' := OwedTotal(w), Excess(w.downloads[id], size), Next(w, Chunk(id, size));
      && OwedTotal(w') + size == owed + excess
      && (Conserved(w') <==>
           owed + excess <= w.disk.free
           && (owed + excess > size ==> !AtThreshold(w.disk, w.disk.used + owed + excess)))
  {
    var d := w.downloads[id];
    OwedAfterPut(w, id, d.(progress := d.progress + size));
  }

  /** Steps that only end, cancel or create downloads never increase what is owed. */
  lemma PutKeepsConserved(w: World, id: string, d: Download)
    requires Conserved(w) && Owed(d) <= (if id in w.downloads then Owed(w.downloads[id]) else 0)
    ensures Conserved(Put(w, id, d))
  {
    OwedAfterPut(w, id, d);
  }

  lemma StepStaysOrderly(w: World, s: Step)
    requires Orderly(w)
    ensures Orderly(Next(w, s))
  {
  }

  /** Downloads are never taken out of the table. */
  lemma NoDownloadVanishes(w: World, s: Step)
    ensures w.downloads.Keys <= Next(w, s).downloads.Keys
  {
  }

  lemma StepConserves(w: World, s: Step)
    requires Conserved(w) && Orderly(w) && WithinReportedSize(w, s) && ReadingOrRoom(w, s)
    ensures Conserved(Next(w, s))
  {
    match s
    case Begin(id) => PutKeepsConserved(w, id, Download(0, 0, Downloading, Listing));
    case SetTotal(id, total) =>
      if id in w.downloads { PutKeepsConserved(w, id, w.downloads[id].(total := total, phase := Sized)); }
    case Validate(id, readable) =>
      if id in w.downloads && w.downloads[id].phase == Sized {
        if readable {
          ValidateKeepsConserved(w, id);
        } else if Waiting(w, id) {
          UnreadableDiskIff(w, id);
        } else {
          PutKeepsConserved(w, id, w.downloads[id].(phase := Streaming));
        }
      }
    case Chunk(id, size) =>
      if id in w.downloads && w.downloads[id].phase == Streaming {
        if w.downloads[id].status == Downloading {
          ChunkMovesBytes(w, id, size);
        } else {
          PutKeepsConserved(w, id, w.downloads[id].(phase := Ended));
        }
      }
    case Cancel(id) => if id in w.downloads { PutKeepsConserved(w, id, w.downloads[id].(status := Cancelled)); }
    case Fail(id) => if id in w.downloads { PutKeepsConserved(w, id, w.downloads[id].(status := Failed, phase := Ended)); }
    case Finish(id) => if id in w.downloads { PutKeepsConserved(w, id, w.downloads[id].(status := Complete, phase := Ended)); }
    case Delete(size) =>
  }

  // ---- Runs -----------------------------------------------------------------------------------------

  ghost function After(w: World, steps: seq<Step>): World {
    if steps == [] then w else Next(After(w, steps[..|steps| - 1]), steps[|steps| - 1])
  }

  /** Every chunk stays within the reported size, every unseen admission has room. */
  ghost predicate FairRun(w: World, steps: seq<Step>) {
    forall i :: 0 <= i < |steps| ==>
      WithinReportedSize(After(w, steps[..i]), steps[i]) && ReadingOrRoom(After(w, steps[..i]), steps[i])
  }

  lemma {:induction false} RunStaysConserved(w: World, steps: seq<Step>)
    requires Conserved(w) && Orderly(w) && FairRun(w, steps)
    ensures Conserved(After(w, steps)) && Orderly(After(w, steps))
  {
    if steps != [] {
      var n := |steps| - 1;
      var front := steps[..n];
      forall i | 0 <= i < n
        ensures WithinReportedSize(After(w, front[..i]), front[i]) && ReadingOrRoom(After(w, front[..i]), front[i])
      {
        assert front[..i] == steps[..i];
      }
      RunStaysConserved(w, front);
      StepConserves(After(w, front), steps[n]);
      StepStaysOrderly(After(w, front), steps[n]);
    }
  }

  lemma EmptyIsConserved(disk: Disk)
    ensures Conserved(World(disk, map[])) && Orderly(World(disk, map[]))
  {
    assert (map k | k in World(disk, map[]).downloads :: Owed(World(disk, map[]).downloads[k])) == map[];
  }

  /** Starting with no downloads, at every point of every interleaving the admitted running
      downloads fit into the free space and below 95 percent. */
  lemma AdmissionConservesSpace(disk: Disk, steps: seq<Step>)
    requires FairRun(World(disk, map[]), steps)
    ensures Conserved(After(World(disk, map[]), steps))
  {
    EmptyIsConserved(disk);
    RunStaysConserved(World(disk, map[]), steps);
  }

  /** In such a run no chunk of a running download finds the disk full. */
  lemma NoChunkFindsDiskFull(disk: Disk, steps: seq<Step>, id: string, size: nat)
    requires FairRun(World(disk, map[]), steps)
    requires var w := After(World(disk, map[]), steps);
      && id in w.downloads && w.downloads[id].phase == Streaming && w.downloads[id].status == Downloading
      && WithinReportedSize(w, Chunk(id, size))
    ensures var w := After(World(disk, map[]), steps);
      size <= w.disk.free && Next(w, Chunk(id, size)).downloads[id].status == Downloading
  {
    EmptyIsConserved(disk);
    RunStaysConserved(World(disk, map[]), steps);
    ChunkMovesBytes(After(World(disk, map[]), steps), id, size);
  }

  // ---- The handlers and the background task ---------------------------------------------------------

  function ChunkSteps(id: string, sizes: seq<nat>): seq<Step> {
    if sizes == [] then [] else ChunkSteps(id, sizes[..|sizes| - 1]) + [Chunk(id, sizes[|sizes| - 1])]
  }

  function Bytes(sizes: seq<nat>): nat {
    if sizes == [] then 0 else Bytes(sizes[..|sizes| - 1]) + sizes[|sizes| - 1]
  }

  lemma AfterOneMore(w: World, id: string, sizes: seq<nat>, i: nat)
    requires i < |sizes|
    ensures After(w, ChunkSteps(id, sizes[..i + 1])) == Next(After(w, ChunkSteps(id, sizes[..i])), Chunk(id, sizes[i]))
    ensures Bytes(sizes[..i + 1]) == Bytes(sizes[..i]) + sizes[i]
  {
    assert sizes[..i + 1][..i] == sizes[..i];
    var steps := ChunkSteps(id, sizes[..i]);
    assert (steps + [Chunk(id, sizes[i])])[..|steps|] == steps;
  }

  /** How a file that was not streamed to its end left the world, `sizes` being the chunks it did write: an error was
      recorded, a chunk did not fit, or the download had been cancelled and the file was removed again. */
  ghost predicate StoppedAfter(before: World, id: string, sizes: seq<nat>, after: World) {
    var w := After(before, ChunkSteps(id, sizes));
    || after == Next(w, Fail(id))
    || (exists size :: after == Next(w, Chunk(id, size)))
    || after == Next(Next(w, Chunk(id, 0)), Delete(Bytes(sizes)))
  }

  lemma ChunkStops(before: World, id: string, sizes: seq<nat>, size: nat)
    ensures StoppedAfter(before, id, sizes, Next(After(before, ChunkSteps(id, sizes)), Chunk(id, size)))
  {
  }

  /** The table of downloads shared by handlers and tasks, and the disk the tasks write to. */
  class Downloads {
    var table: map<string, Download>
    var disk: Disk

    constructor (disk: Disk)
      ensures Abs() == World(disk, map[])
    {
      table, this.disk := map[], disk;
    }

    ghost function Abs(): World
      reads this
    {
      World(disk, table)
    }

    method StartDownload(id: string)
      requires id !in table
      modifies this`table
      ensures Abs() == Next(old(Abs()), Begin(id))
    {
      table := table[id := Download(0, 0, Downloading, Listing)];
    }

    method SetTotalBytes(id: string, total: nat)
      requires id in table ==> table[id].phase == Listing
      modifies this`table
      ensures Abs() == Next(old(Abs()), SetTotal(id, total))
    {
      if id in table { table := table[id := table[id].(total := total, phase := Sized)]; }
    }

    /** Bytes the other running downloads still have to write. */
    method OtherInFlight(id: string) returns (sum: nat)
      ensures sum == SumOf(table - {id}, InFlight)
    {
      var left := table - {id};
      sum := 0;
      while left != map[]
        invariant SumOf(table - {id}, InFlight) == sum + SumOf(left, InFlight)
        decreases |left|
      {
        var k :| k in left;
        SumOfWithout(left, InFlight, k);
        if left[k].status == Downloading {
          sum := sum + SatSub(left[k].total, left[k].progress);
        }
        left := left - {k};
      }
    }

    method SetDownloadError(id: string)
      modifies this`table
      ensures Abs() == Next(old(Abs()), Fail(id))
    {
      if id in table { table := table[id := table[id].(status := Failed, phase := Ended)]; }
    }

    /** Without a disk reading validation passes. */
    method ValidateDiskSpace(id: string, total: nat, readable: bool) returns (ok: bool)
      requires id in table ==> table[id].phase == Sized && table[id].total == total
      modifies this`table
      ensures Abs() == Next(old(Abs()), Validate(id, readable))
      ensures ok <==> !readable || Fits(disk, total + SumOf(old(table) - {id}, InFlight))
    {
      if readable {
        var other := OtherInFlight(id);
        var required := total + other;
        var projectedUsed := disk.used + required;
        if required > disk.free || AtThreshold(disk, projectedUsed) {
          SetDownloadError(id);
          return false;
        }
      }
      if id in table { table := table[id := table[id].(phase := Streaming)]; }
      ok := true;
    }

    method WriteChunk(id: string, size: nat) returns (ok: bool)
      requires id in table && table[id].phase == Streaming
      modifies this
      ensures Abs() == Next(old(Abs()), Chunk(id, size))
      ensures ok <==> old(table)[id].status != Cancelled && size <= old(disk).free
    {
      if table[id].status == Cancelled {
        table := table[id := table[id].(phase := Ended)];
        return false;
      }
      if size > disk.free {
        SetDownloadError(id);
        return false;
      }
      disk := disk.(used := disk.used + size, free := disk.free - size);
      ok := true;
      table := table[id := table[id].(progress := table[id].progress + size)];
    }

    /** One file: `offset` bytes of earlier files are already counted as progress. The response delivers chunks of
        these sizes, and then ends or is `broken` off; `created` tells whether the file could be created. */
    method StreamResponseToFile(id: string, created: bool, sizes: seq<nat>, broken: bool, offset: nat)
      returns (ok: bool, written: nat)
      requires id in table && table[id].phase == Streaming && table[id].progress == offset
      modifies this
      ensures id in table
      ensures ok ==> created && !broken && Abs() == After(old(Abs()), ChunkSteps(id, sizes)) && written == Bytes(sizes)
      ensures ok ==> table[id].phase == Streaming && table[id].progress == offset + written
      ensures !ok ==> table[id].phase == Ended
      ensures !ok ==> exists n: nat :: n <= |sizes| && StoppedAfter(old(Abs()), id, sizes[..n], Abs())
    {
      written := 0;
      assert sizes[..0] == [];
      if !created {
        SetDownloadError(id);
        assert StoppedAfter(old(Abs()), id, sizes[..0], Abs());
        return false, 0;
      }
      for i := 0 to |sizes|
        invariant id in table && table[id].phase == Streaming
        invariant written == Bytes(sizes[..i]) && table[id].progress == offset + written && written <= disk.used
        invariant Abs() == After(old(Abs()), ChunkSteps(id, sizes[..i]))
      {
        if table[id].status == Cancelled {
          RemoveFile(id, written);
          assert StoppedAfter(old(Abs()), id, sizes[..i], Abs());
          return false, written;
        }
        AfterOneMore(old(Abs()), id, sizes, i);
        ok := WriteChunk(id, sizes[i]);
        if !ok {
          ChunkStops(old(Abs()), id, sizes[..i], sizes[i]);
          return;
        }
        written := written + sizes[i];
      }
      assert sizes[..|sizes|] == sizes;
      if broken {
        if table[id].status == Cancelled { RemoveFile(id, written); } else { SetDownloadError(id); }
        assert StoppedAfter(old(Abs()), id, sizes[..|sizes|], Abs());
        return false, written;
      }
      ok := true;
    }

    /** The download was cancelled: the task ends and removes the file it was writing. */
    method RemoveFile(id: string, written: nat)
      requires id in table && table[id].phase == Streaming && table[id].status == Cancelled && written <= disk.used
      modifies this
      ensures Abs() == Next(Next(old(Abs()), Chunk(id, 0)), Delete(written))
      ensures id in table && table[id].phase == Ended
    {
      table := table[id := table[id].(phase := Ended)];
      disk := disk.(used := disk.used - written, free := disk.free + written);
    }

    method CompleteDownload(id: string)
      requires id in table ==> table[id].phase == Streaming
      modifies this`table
      ensures Abs() == Next(old(Abs()), Finish(id))
    {
      if id in table { table := table[id := table[id].(status := Complete, phase := Ended)]; }
    }

    method CancelDownload(id: string) returns (ok: bool)
      modifies this`table
      ensures Abs() == Next(old(Abs()), Cancel(id))
      ensures ok <==> id in old(table) && old(table)[id].status == Downloading
    {
      ok := id in table && table[id].status == Downloading;
      if ok { table := table[id := table[id].(status := Cancelled)]; }
    }
  }
}
