/**
 * `writeOvaOn`: writes an OVA archive — the OVF descriptor first, then one
 * VMDK entry per disk, streamed block by block — and finalizes it. The
 * transcoding functions it calls and the entry completion callbacks of the
 * archive are parameters: `Transcoder` stands for `computeVmdkLength` and
 * `vhdToVMDKIterator`, and `acks(k)` is the error (if any) the archive reports
 * for its entry at position `k` once that entry is complete.
 */
module OvaWriter {
  import opened Wrappers
  import opened Bytes
  import opened OvfDescriptor
  import opened TarPack

  /** What iterating `vhdToVMDKIterator`'s result produces: some blocks, then the end or an error. */
  datatype BlockRun = BlockRun(blocks: seq<Block>, end: Outcome<string>)

  /** The transcoding functions the writer calls, each on a disk name and its source stream. */
  datatype Transcoder = Transcoder(
    computeVmdkLength: (string, seq<byte>) -> Result<nat, string>,
    vhdToVmdkIterator: (string, seq<byte>) -> Result<BlockRun, string>)

  /** The completion report of the archive entry at each position (0 is the descriptor). */
  type Acks = nat -> Option<string>

  function Measure(t: Transcoder, d: Disk): Result<nat, string>
  {
    t.computeVmdkLength(d.name, d.image)
  }

  function Iterate(t: Transcoder, d: Disk): Result<BlockRun, string>
  {
    t.vhdToVmdkIterator(d.name, d.image)
  }

  function OvfEntryName(vmName: string): string
  {
    vmName + ".ovf"
  }

  function VmdkEntryName(d: Disk): string
  {
    d.name + ".vmdk"
  }

  /** The defaults `writeOvaOn` applies to a missing description or disk list. */
  function DescriptionOrDefault(vmDescription: Option<string>): (r: string)
    ensures vmDescription.None? ==> r == ""
    ensures vmDescription.Some? ==> r == vmDescription.value
  {
    match vmDescription
    case None => ""
    case Some(s) => s
  }

  function DisksOrDefault(disks: Option<seq<Disk>>): (r: seq<Disk>)
    ensures disks.None? ==> r == []
    ensures disks.Some? ==> r == disks.value
  {
    match disks
    case None => []
    case Some(ds) => ds
  }

  /** The archive and the outcome after one `pushDisk`. */
  datatype Step = Step(entries: seq<Entry>, outcome: Outcome<string>)

  /**
   * `pushDisk(disk)` on an archive holding `entries`: measure, then open the
   * transcoding iterator, then stream its blocks into a new entry of the
   * measured size, end it, and wait for the archive's report on it.
   */
  function DiskStep(t: Transcoder, acks: Acks, d: Disk, entries: seq<Entry>): Step
  {
    Step(entries + DiskEntries(t, d), DiskOutcome(t, acks, |entries|, d))
  }

  /**
   * The entries `pushDisk` adds for a disk: none when measuring or opening the
   * iterator throws; otherwise one entry of the measured size holding every
   * block the iterator yielded, ended only when the iterator finished. Nothing
   * is rolled back, so a block error leaves that entry open and partial.
   */
  function DiskEntries(t: Transcoder, d: Disk): seq<Entry>
  {
    match Measure(t, d)
    case Failure(_) => []
    case Success(size) =>
      match Iterate(t, d)
      case Failure(_) => []
      case Success(run) => [Entry(VmdkEntryName(d), size, Flatten(run.blocks), run.end.Pass?)]
  }

  /**
   * How `pushDisk` settles for the disk at archive position `position`: with
   * the error of the first step that throws — measuring, opening the iterator,
   * a block — or else with the archive's report on the entry.
   */
  function DiskOutcome(t: Transcoder, acks: Acks, position: nat, d: Disk): Outcome<string>
  {
    match Measure(t, d)
    case Failure(e) => Fail(e)
    case Success(_) =>
      match Iterate(t, d)
      case Failure(e) => Fail(e)
      case Success(run) =>
        if run.end.Fail? then run.end
        else match acks(position)
          case Some(e) => Fail(e)
          case None => Pass
  }

  /** Everything `pushDisk` needs to go right for the disk at archive position `position`. */
  predicate DiskSucceeds(t: Transcoder, acks: Acks, position: nat, d: Disk)
  {
    && Measure(t, d).Success?
    && Iterate(t, d).Success?
    && Iterate(t, d).value.end.Pass?
    && acks(position).None?
  }

  /** The entry `pushDisk` leaves for a disk that succeeds: named after it, sized as measured, holding every block. */
  function CompleteEntry(t: Transcoder, d: Disk): Entry
    requires Measure(t, d).Success? && Iterate(t, d).Success?
  {
    Entry(VmdkEntryName(d), Measure(t, d).value, Flatten(Iterate(t, d).value.blocks), true)
  }

  /** Every closed entry holds exactly as many bytes as its header declares. */
  predicate ClosedEntriesExact(entries: seq<Entry>)
  {
    forall j :: 0 <= j < |entries| && entries[j].ended ==> |entries[j].payload| == entries[j].declaredSize
  }

  /** The transcoder's two functions agree on a disk: the blocks add up to the measured length. */
  predicate Consistent(t: Transcoder, d: Disk)
  {
    Measure(t, d).Success? && Iterate(t, d).Success? ==>
      TotalLength(Iterate(t, d).value.blocks) == Measure(t, d).value
  }

  /** The archive, the number of disks `pushDisk` was started on, and the outcome. */
  datatype Push = Push(entries: seq<Entry>, reached: nat, outcome: Outcome<string>)

  /** The `for (const disk of disks) await pushDisk(disk)` loop: stops at the first rejection. */
  function PushAll(t: Transcoder, acks: Acks, disks: seq<Disk>, entries: seq<Entry>): Push
    decreases |disks|
  {
    if disks == [] then Push(entries, 0, Pass)
    else
      var p := PushAll(t, acks, disks[..|disks| - 1], entries);
      if p.outcome.Fail? then p
      else
        var s := DiskStep(t, acks, disks[|disks| - 1], p.entries);
        Push(s.entries, |disks|, s.outcome)
  }

  /** The archive, the disks reached, whether the archive was finalized, and the outcome. */
  datatype Export = Export(entries: seq<Entry>, reached: nat, finalized: bool, outcome: Outcome<string>)

  function OvfEntry(vmName: string, ovf: seq<byte>): Entry
  {
    Entry(OvfEntryName(vmName), |ovf|, ovf, true)
  }

  /** `writeOvaOn` once the descriptor is encoded as `ovf`. */
  function ExportSpec(ovf: seq<byte>, vmName: string, disks: seq<Disk>, t: Transcoder, acks: Acks): Export
  {
    var entries := [OvfEntry(vmName, ovf)];
    match acks(0)
    case Some(e) => Export(entries, 0, false, Fail(e))
    case None =>
      var p := PushAll(t, acks, disks, entries);
      Export(p.entries, p.reached, p.outcome.Pass?, p.outcome)
  }

  /** `disk.fileSize` after the first `reached` disks were pushed, given its value before. */
  function FileSizeAfter(t: Transcoder, disks: seq<Disk>, reached: nat, d: Disk, before: Option<nat>): Option<nat>
  {
    if exists k :: 0 <= k < reached && k < |disks| && disks[k] == d then SizeIfMeasured(t, d, before) else before
  }

  /** `disk.fileSize` after one `pushDisk(disk)`: the measured length, if measuring succeeded. */
  function SizeIfMeasured(t: Transcoder, d: Disk, before: Option<nat>): Option<nat>
  {
    match Measure(t, d)
    case Success(size) => Some(size)
    case Failure(_) => before
  }

  // ---------------------------------------------------------------------
  // The writer
  // ---------------------------------------------------------------------

  /** `writeDisk(entry, blockIterator)`: writes every block the iterator yields into the open entry. */
  method WriteDisk(pack: Pack, run: BlockRun) returns (outcome: Outcome<string>)
    requires pack.Valid() && !Idle(pack.entries)
    modifies pack
    ensures pack.Valid() && !Idle(pack.entries) && pack.finalized == old(pack.finalized)
    ensures pack.entries == AppendToLast(old(pack.entries), Flatten(run.blocks))
    ensures outcome == run.end
  {
    assert AppendToLast(pack.entries, Flatten([])) == pack.entries by {
      var n := |pack.entries|;
      assert pack.entries[n - 1].payload + [] == pack.entries[n - 1].payload;
      assert pack.entries == pack.entries[..n - 1] + [pack.entries[n - 1]];
    }
    for i := 0 to |run.blocks|
      invariant pack.Valid() && !Idle(pack.entries) && pack.finalized == old(pack.finalized)
      invariant pack.entries == AppendToLast(old(pack.entries), Flatten(run.blocks[..i]))
    {
      AppendToLastTwice(old(pack.entries), Flatten(run.blocks[..i]), run.blocks[i]);
      assert run.blocks[..i + 1][..i] == run.blocks[..i];
      pack.Write(run.blocks[i]);
    }
    assert run.blocks[..|run.blocks|] == run.blocks;
    outcome := run.end;
  }

  /** Streaming `payload` into a freshly opened entry. */
  lemma AppendToOpened(entries: seq<Entry>, name: string, size: nat, payload: seq<byte>)
    ensures AppendToLast(entries + [Entry(name, size, [], false)], payload) == entries + [Entry(name, size, payload, false)]
  {
    var started := entries + [Entry(name, size, [], false)];
    var r := AppendToLast(started, payload);
    assert started[..|entries|] == entries;
    assert started[|entries|].payload + payload == payload;
    assert r[|entries|] == Entry(name, size, payload, false);
    assert r == r[..|entries|] + [r[|entries|]];
  }

  lemma AppendToLastTwice(entries: seq<Entry>, a: seq<byte>, b: seq<byte>)
    requires |entries| > 0
    ensures AppendToLast(AppendToLast(entries, a), b) == AppendToLast(entries, a + b)
  {
    var n := |entries|;
    assert entries[n - 1].payload + a + b == entries[n - 1].payload + (a + b);
  }

  /** `pushDisk(disk)`. */
  method PushDisk(pack: Pack, d: Disk, t: Transcoder, acks: Acks) returns (outcome: Outcome<string>)
    requires pack.Valid() && Idle(pack.entries) && !pack.finalized
    modifies pack, d
    ensures pack.Valid() && !pack.finalized
    ensures pack.entries == DiskStep(t, acks, d, old(pack.entries)).entries
    ensures outcome == DiskStep(t, acks, d, old(pack.entries)).outcome
    ensures outcome.Pass? ==> Idle(pack.entries)
    ensures d.fileSize == SizeIfMeasured(t, d, old(d.fileSize))
  {
    ghost var entries := pack.entries;
    var stream := d.GetStream();
    var size := t.computeVmdkLength(d.name, stream);
    if size.Failure? {
      return Fail(size.error);
    }
    d.fileSize := Some(size.value);
    stream := d.GetStream();
    var blockIterator := t.vhdToVmdkIterator(d.name, stream);
    if blockIterator.Failure? {
      return Fail(blockIterator.error);
    }
    var run := blockIterator.value;
    var position := |pack.entries|;
    pack.OpenEntry(VmdkEntryName(d), size.value);
    outcome := WriteDisk(pack, run);
    AppendToOpened(entries, VmdkEntryName(d), size.value, Flatten(run.blocks));
    assert pack.entries == entries + [Entry(VmdkEntryName(d), size.value, Flatten(run.blocks), false)];
    if outcome.Pass? {
      pack.End();
      assert pack.entries == entries + [Entry(VmdkEntryName(d), size.value, Flatten(run.blocks), true)];
      var report := acks(position);
      if report.Some? {
        outcome := Fail(report.value);
      }
    }
  }

  /** `writeOvaOn(writeStream, { vmName, vmDescription, disks })`: the pack piped to `writeStream`. */
  method WriteOvaOn(vmName: string, vmDescription: Option<string>, disks: Option<seq<Disk>>, t: Transcoder, acks: Acks)
    returns (pack: Pack, outcome: Outcome<string>)
    modifies DisksOrDefault(disks)
    ensures fresh(pack) && pack.Valid()
    ensures var ds := DisksOrDefault(disks);
      var e := ExportSpec(Utf8(CreateOvf(vmName, DescriptionOrDefault(vmDescription), ds)), vmName, ds, t, acks);
      && pack.entries == e.entries && pack.finalized == e.finalized && outcome == e.outcome
      && forall i :: 0 <= i < |ds| ==> ds[i].fileSize == FileSizeAfter(t, ds, e.reached, ds[i], old(ds[i].fileSize))
  {
    var ds := DisksOrDefault(disks);
    var ovf := Utf8(CreateOvf(vmName, DescriptionOrDefault(vmDescription), ds));
    pack, outcome := WriteArchive(ovf, vmName, ds, t, acks);
  }

  /** The body of `writeOvaOn` once the descriptor is rendered and encoded as `ovf`. */
  method WriteArchive(ovf: seq<byte>, vmName: string, ds: seq<Disk>, t: Transcoder, acks: Acks)
    returns (pack: Pack, outcome: Outcome<string>)
    modifies ds
    ensures fresh(pack) && pack.Valid()
    ensures var e := ExportSpec(ovf, vmName, ds, t, acks);
      && pack.entries == e.entries && pack.finalized == e.finalized && outcome == e.outcome
      && forall i :: 0 <= i < |ds| ==> ds[i].fileSize == FileSizeAfter(t, ds, e.reached, ds[i], old(ds[i].fileSize))
  {
    pack := new Pack();
    pack.AddEntry(OvfEntryName(vmName), ovf);
    var entries := pack.entries;
    assert entries == [OvfEntry(vmName, ovf)];
    var report := acks(0);
    if report.Some? {
      return pack, Fail(report.value);
    }
    for i := 0 to |ds|
      invariant fresh(pack) && pack.Valid() && Idle(pack.entries) && !pack.finalized
      invariant PushAll(t, acks, ds[..i], entries) == Push(pack.entries, i, Pass)
      invariant forall j :: 0 <= j < |ds| ==> ds[j].fileSize == FileSizeAfter(t, ds, i, ds[j], old(ds[j].fileSize))
    {
      assert ds[..i + 1][..i] == ds[..i];
      label BeforePush:
      outcome := PushDisk(pack, ds[i], t, acks);
      FileSizeStep(t, ds, i);
      forall j | 0 <= j < |ds|
        ensures ds[j].fileSize == FileSizeAfter(t, ds, i + 1, ds[j], old(ds[j].fileSize))
      {
        if ds[j] != ds[i] {
          assert ds[j].fileSize == old@BeforePush(ds[j].fileSize);
        }
      }
      if outcome.Fail? {
        PushAllStops(t, acks, ds, i + 1, entries);
        assert ExportSpec(ovf, vmName, ds, t, acks) == Export(pack.entries, i + 1, false, outcome);
        return;
      }
    }
    assert ds[..|ds|] == ds;
    pack.Finalize();
    outcome := Pass;
    assert ExportSpec(ovf, vmName, ds, t, acks) == Export(pack.entries, |ds|, true, Pass);
  }

  /** The recorded size of `d` once `disks[i]` is pushed after the first `i` disks. */
  function FileSizeStepped(t: Transcoder, disks: seq<Disk>, i: nat, d: Disk, before: Option<nat>): Option<nat>
    requires i < |disks|
  {
    var current := FileSizeAfter(t, disks, i, d, before);
    if d == disks[i] then SizeIfMeasured(t, d, current) else current
  }

  /** Pushing one more disk changes only that disk's recorded size, and only when it is measured. */
  lemma FileSizeStep(t: Transcoder, disks: seq<Disk>, i: nat)
    requires i < |disks|
    ensures forall d, before :: FileSizeAfter(t, disks, i + 1, d, before) == FileSizeStepped(t, disks, i, d, before)
  {
    forall d, before
      ensures FileSizeAfter(t, disks, i + 1, d, before) == FileSizeStepped(t, disks, i, d, before)
    {
      if d == disks[i] {
        assert 0 <= i < i + 1 && i < |disks| && disks[i] == d;
      } else if exists k :: 0 <= k < i + 1 && k < |disks| && disks[k] == d {
        var k :| 0 <= k < i + 1 && k < |disks| && disks[k] == d;
        assert k < i;
      }
    }
  }

  /** Once a `pushDisk` rejects, no later disk changes anything. */
  lemma {:induction false} PushAllStops(t: Transcoder, acks: Acks, disks: seq<Disk>, j: nat, entries: seq<Entry>)
    requires j <= |disks|
    requires PushAll(t, acks, disks[..j], entries).outcome.Fail?
    ensures PushAll(t, acks, disks, entries) == PushAll(t, acks, disks[..j], entries)
    decreases |disks|
  {
    if j < |disks| {
      var n := |disks|;
      assert disks[..n - 1][..j] == disks[..j];
      PushAllStops(t, acks, disks[..n - 1], j, entries);
    } else {
      assert disks[..j] == disks;
    }
  }

  // ---------------------------------------------------------------------
  // Properties of the export
  // ---------------------------------------------------------------------

  /** The disk loop succeeds exactly when every disk does, and then adds one complete entry per disk, in order. */
  lemma {:induction false} PushAllPasses(t: Transcoder, acks: Acks, disks: seq<Disk>, entries: seq<Entry>)
    ensures var p := PushAll(t, acks, disks, entries);
      p.outcome.Pass? <==> forall k :: 0 <= k < |disks| ==> DiskSucceeds(t, acks, |entries| + k, disks[k])
    ensures var p := PushAll(t, acks, disks, entries);
      p.outcome.Pass? ==>
        && p.reached == |disks| && |p.entries| == |entries| + |disks| && p.entries[..|entries|] == entries
        && forall k :: 0 <= k < |disks| ==>
             DiskSucceeds(t, acks, |entries| + k, disks[k]) && p.entries[|entries| + k] == CompleteEntry(t, disks[k])
    decreases |disks|
  {
    if disks != [] {
      var n := |disks|;
      var front := disks[..n - 1];
      PushAllPasses(t, acks, front, entries);
      assert forall k :: 0 <= k < n - 1 ==> front[k] == disks[k];
      var q := PushAll(t, acks, front, entries);
      var d := disks[n - 1];
      if q.outcome.Pass? {
        var p := PushAll(t, acks, disks, entries);
        assert p == Push(q.entries + DiskEntries(t, d), n, DiskOutcome(t, acks, |q.entries|, d));
        PassesAfter(t, acks, disks, entries, q, p);
      } else {
        assert PushAll(t, acks, disks, entries) == q;
        assert !forall k :: 0 <= k < n - 1 ==> DiskSucceeds(t, acks, |entries| + k, disks[k]);
      }
    }
  }

  /** The step on the last disk, after every earlier disk left its complete entry, passes exactly when that disk succeeds. */
  lemma PassesAfter(t: Transcoder, acks: Acks, disks: seq<Disk>, entries: seq<Entry>, q: Push, p: Push)
    requires disks != [] && |q.entries| == |entries| + |disks| - 1 && q.entries[..|entries|] == entries
    requires forall k :: 0 <= k < |disks| - 1 ==>
      DiskSucceeds(t, acks, |entries| + k, disks[k]) && q.entries[|entries| + k] == CompleteEntry(t, disks[k])
    requires var d := disks[|disks| - 1];
      p == Push(q.entries + DiskEntries(t, d), |disks|, DiskOutcome(t, acks, |q.entries|, d))
    ensures p.outcome.Pass? <==> DiskSucceeds(t, acks, |entries| + |disks| - 1, disks[|disks| - 1])
    ensures p.outcome.Pass? ==>
      && p.reached == |disks| && |p.entries| == |entries| + |disks| && p.entries[..|entries|] == entries
      && forall k :: 0 <= k < |disks| ==>
           DiskSucceeds(t, acks, |entries| + k, disks[k]) && p.entries[|entries| + k] == CompleteEntry(t, disks[k])
  {
    var n := |disks|;
    var d := disks[n - 1];
    DiskOutcomePasses(t, acks, |q.entries|, d);
    if p.outcome.Pass? {
      assert p.entries == q.entries + [CompleteEntry(t, d)];
      assert p.entries[..|entries|] == q.entries[..|entries|];
      forall k | 0 <= k < n - 1
        ensures p.entries[|entries| + k] == CompleteEntry(t, disks[k])
      {
        assert p.entries[|entries| + k] == q.entries[|entries| + k];
      }
    }
  }

  /** One `pushDisk` settles without error exactly when its disk succeeds, and then adds that disk's complete entry. */
  lemma DiskStepPasses(t: Transcoder, acks: Acks, d: Disk, entries: seq<Entry>)
    ensures DiskStep(t, acks, d, entries).outcome.Pass? <==> DiskSucceeds(t, acks, |entries|, d)
    ensures DiskSucceeds(t, acks, |entries|, d) ==> DiskStep(t, acks, d, entries).entries == entries + [CompleteEntry(t, d)]
  {
  }

  /**
   * What a failed disk loop over `disks`, started on `entries`, left as `p`:
   * it failed on the last disk it reached, with that disk's own error; every
   * disk before succeeded and kept its complete entry; the failing disk left
   * what `pushDisk` adds for it, and nothing follows. Nothing is rolled back.
   */
  predicate FailedAt(t: Transcoder, acks: Acks, disks: seq<Disk>, entries: seq<Entry>, p: Push)
  {
    && 0 < p.reached <= |disks|
    && |entries| + p.reached - 1 <= |p.entries| <= |entries| + p.reached
    && p.entries[..|entries|] == entries
    && !DiskSucceeds(t, acks, |entries| + p.reached - 1, disks[p.reached - 1])
    && p.outcome == DiskOutcome(t, acks, |entries| + p.reached - 1, disks[p.reached - 1])
    && (forall k :: 0 <= k < p.reached - 1 ==>
          DiskSucceeds(t, acks, |entries| + k, disks[k]) && p.entries[|entries| + k] == CompleteEntry(t, disks[k]))
    && p.entries[|entries| + p.reached - 1..] == DiskEntries(t, disks[p.reached - 1])
  }

  /** When the disk loop fails, `FailedAt` describes what it left. */
  lemma {:induction false} PushAllFails(t: Transcoder, acks: Acks, disks: seq<Disk>, entries: seq<Entry>)
    ensures PushAll(t, acks, disks, entries).outcome.Fail? ==> FailedAt(t, acks, disks, entries, PushAll(t, acks, disks, entries))
    decreases |disks|
  {
    if disks != [] {
      var n := |disks|;
      var front := disks[..n - 1];
      var q := PushAll(t, acks, front, entries);
      if q.outcome.Fail? {
        PushAllFails(t, acks, front, entries);
        FailedAtLonger(t, acks, front, disks, entries, q);
      } else {
        FailsAtLast(t, acks, disks, entries);
      }
    }
  }

  /** A failure on a prefix of the disks is a failure on the whole list. */
  lemma FailedAtLonger(t: Transcoder, acks: Acks, front: seq<Disk>, disks: seq<Disk>, entries: seq<Entry>, p: Push)
    requires front <= disks && FailedAt(t, acks, front, entries, p)
    ensures FailedAt(t, acks, disks, entries, p)
  {
    assert forall k :: 0 <= k < |front| ==> front[k] == disks[k];
  }

  /** The disk loop fails on its last disk when all the earlier ones went through. */
  lemma FailsAtLast(t: Transcoder, acks: Acks, disks: seq<Disk>, entries: seq<Entry>)
    requires disks != [] && PushAll(t, acks, disks[..|disks| - 1], entries).outcome.Pass?
    ensures PushAll(t, acks, disks, entries).outcome.Fail? ==> FailedAt(t, acks, disks, entries, PushAll(t, acks, disks, entries))
  {
    var n := |disks|;
    var front := disks[..n - 1];
    var q := PushAll(t, acks, front, entries);
    var d := disks[n - 1];
    var p := PushAll(t, acks, disks, entries);
    assert p == Push(q.entries + DiskEntries(t, d), n, DiskOutcome(t, acks, |q.entries|, d));
    if p.outcome.Fail? {
      PushAllPasses(t, acks, front, entries);
      assert forall k :: 0 <= k < n - 1 ==> front[k] == disks[k];
      FailsAfter(t, acks, disks, entries, q, p);
    }
  }

  /** The step on the last disk, after every earlier disk left its complete entry, fails as `FailedAt` says. */
  lemma FailsAfter(t: Transcoder, acks: Acks, disks: seq<Disk>, entries: seq<Entry>, q: Push, p: Push)
    requires disks != [] && |q.entries| == |entries| + |disks| - 1 && q.entries[..|entries|] == entries
    requires forall k :: 0 <= k < |disks| - 1 ==>
      DiskSucceeds(t, acks, |entries| + k, disks[k]) && q.entries[|entries| + k] == CompleteEntry(t, disks[k])
    requires var d := disks[|disks| - 1];
      p == Push(q.entries + DiskEntries(t, d), |disks|, DiskOutcome(t, acks, |q.entries|, d))
    requires p.outcome.Fail?
    ensures FailedAt(t, acks, disks, entries, p)
  {
    var n := |disks|;
    var d := disks[n - 1];
    DiskOutcomePasses(t, acks, |q.entries|, d);
    assert |DiskEntries(t, d)| <= 1;
    assert p.entries[..|q.entries|] == q.entries;
    assert p.entries[|q.entries|..] == DiskEntries(t, d);
    assert p.entries[..|entries|] == q.entries[..|entries|];
    forall k | 0 <= k < n - 1
      ensures p.entries[|entries| + k] == CompleteEntry(t, disks[k])
    {
      assert p.entries[|entries| + k] == q.entries[|entries| + k];
    }
  }

  /** `pushDisk` settles without error exactly when everything it needs goes right. */
  lemma DiskOutcomePasses(t: Transcoder, acks: Acks, position: nat, d: Disk)
    ensures DiskOutcome(t, acks, position, d).Pass? <==> DiskSucceeds(t, acks, position, d)
  {
  }

  /** The disk loop leaves at most its last entry open, and none when it succeeds. */
  lemma {:induction false} PushAllWellFormed(t: Transcoder, acks: Acks, disks: seq<Disk>, entries: seq<Entry>)
    requires WellFormed(entries, false) && Idle(entries)
    ensures var p := PushAll(t, acks, disks, entries);
      WellFormed(p.entries, false) && (p.outcome.Pass? ==> Idle(p.entries))
    decreases |disks|
  {
    if disks != [] {
      PushAllWellFormed(t, acks, disks[..|disks| - 1], entries);
    }
  }

  /** With a consistent transcoder, every closed entry holds exactly as many bytes as its header declares. */
  lemma {:induction false} PushAllSizes(t: Transcoder, acks: Acks, disks: seq<Disk>, entries: seq<Entry>)
    requires forall k :: 0 <= k < |disks| ==> Consistent(t, disks[k])
    requires ClosedEntriesExact(entries)
    ensures ClosedEntriesExact(PushAll(t, acks, disks, entries).entries)
    decreases |disks|
  {
    if disks != [] {
      var n := |disks|;
      PushAllSizes(t, acks, disks[..n - 1], entries);
      var before := PushAll(t, acks, disks[..n - 1], entries).entries;
      var after := PushAll(t, acks, disks, entries).entries;
      var d := disks[n - 1];
      assert Consistent(t, d);
      if after != before {
        var run := Iterate(t, d).value;
        FlattenLength(run.blocks);
        var added := Entry(VmdkEntryName(d), Measure(t, d).value, Flatten(run.blocks), run.end.Pass?);
        assert after == before + [added];
      }
    }
  }

  /** `writeOvaOn` resolves exactly when the descriptor entry and every disk go through. */
  lemma ExportSucceedsIff(ovf: seq<byte>, vmName: string, disks: seq<Disk>, t: Transcoder, acks: Acks)
    ensures ExportSpec(ovf, vmName, disks, t, acks).outcome.Pass? <==>
      acks(0).None? && forall k :: 0 <= k < |disks| ==> DiskSucceeds(t, acks, k + 1, disks[k])
  {
    PushAllPasses(t, acks, disks, [OvfEntry(vmName, ovf)]);
  }

  /**
   * A successful export is the descriptor entry followed by one complete
   * `<disk name>.vmdk` entry per disk, in order, and the archive is finalized.
   */
  lemma SuccessfulExportLayout(ovf: seq<byte>, vmName: string, disks: seq<Disk>, t: Transcoder, acks: Acks)
    ensures var e := ExportSpec(ovf, vmName, disks, t, acks);
      e.outcome.Pass? ==>
        && e.finalized && e.reached == |disks|
        && |e.entries| == |disks| + 1
        && e.entries[0] == Entry(vmName + ".ovf", |ovf|, ovf, true)
        && forall k :: 0 <= k < |disks| ==>
             && Measure(t, disks[k]).Success? && Iterate(t, disks[k]).Success?
             && e.entries[k + 1] == Entry(disks[k].name + ".vmdk", Measure(t, disks[k]).value, Flatten(Iterate(t, disks[k]).value.blocks), true)
  {
    PushAllPasses(t, acks, disks, [OvfEntry(vmName, ovf)]);
  }

  /**
   * A failed export is not finalized; it stopped at the descriptor or at the
   * last disk it reached, after every earlier disk went through, and no disk
   * after that one was read or written.
   */
  lemma FailureStopsExport(ovf: seq<byte>, vmName: string, disks: seq<Disk>, t: Transcoder, acks: Acks)
    ensures var e := ExportSpec(ovf, vmName, disks, t, acks);
      e.outcome.Fail? ==>
        && !e.finalized && e.reached <= |disks|
        && 1 <= |e.entries| && e.reached <= |e.entries| <= e.reached + 1
        && e.entries[0] == Entry(vmName + ".ovf", |ovf|, ovf, true)
        && (e.reached == 0 <==> acks(0).Some?)
        && (e.reached == 0 ==> e.outcome == Fail(acks(0).value))
        && (e.reached > 0 ==> !DiskSucceeds(t, acks, e.reached, disks[e.reached - 1]))
        && (e.reached > 0 ==> e.outcome == DiskOutcome(t, acks, e.reached, disks[e.reached - 1]))
        && (forall k :: 0 <= k < e.reached - 1 ==>
              DiskSucceeds(t, acks, k + 1, disks[k]) && e.entries[k + 1] == CompleteEntry(t, disks[k]))
        && (e.reached > 0 ==> e.entries[e.reached..] == DiskEntries(t, disks[e.reached - 1]))
        && (e.reached == 0 ==> e.entries == [e.entries[0]])
  {
    var entries := [OvfEntry(vmName, ovf)];
    PushAllFails(t, acks, disks, entries);
    var p := PushAll(t, acks, disks, entries);
    if acks(0).None? && p.outcome.Fail? {
      assert p.entries[0] == p.entries[..1][0];
    }
  }

  /** The archive is well formed after any export, and it is finalized exactly when the export succeeds. */
  lemma ExportWellFormed(ovf: seq<byte>, vmName: string, disks: seq<Disk>, t: Transcoder, acks: Acks)
    ensures var e := ExportSpec(ovf, vmName, disks, t, acks);
      WellFormed(e.entries, e.finalized) && (e.finalized <==> e.outcome.Pass?)
  {
    PushAllWellFormed(t, acks, disks, [OvfEntry(vmName, ovf)]);
  }

  /** When the transcoder's measure matches its blocks, every closed entry is exactly its declared size. */
  lemma ExactSizesWhenConsistent(ovf: seq<byte>, vmName: string, disks: seq<Disk>, t: Transcoder, acks: Acks)
    requires forall k :: 0 <= k < |disks| ==> Consistent(t, disks[k])
    ensures ClosedEntriesExact(ExportSpec(ovf, vmName, disks, t, acks).entries)
  {
    PushAllSizes(t, acks, disks, [OvfEntry(vmName, ovf)]);
  }
}
