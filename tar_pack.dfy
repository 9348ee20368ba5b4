/**
 * The archive `writeOvaOn` writes into: a tar-stream pack seen as the sequence
 * of entries it has been given, each with its name, the size declared in its
 * header, the bytes written into it and whether it was ended. The tar byte
 * format and the pipe into the destination stream are not part of this model.
 */
module TarPack {
  import opened Bytes

  /** One archive entry: its header name and size, its payload so far, and whether it was ended. */
  datatype Entry = Entry(name: string, declaredSize: nat, payload: seq<byte>, ended: bool)

  /** All entries but the last are closed; a finalized pack has no open entry. */
  predicate WellFormed(entries: seq<Entry>, finalized: bool)
  {
    && (forall k :: 0 <= k < |entries| - 1 ==> entries[k].ended)
    && (finalized ==> forall k :: 0 <= k < |entries| ==> entries[k].ended)
  }

  /** No entry is open: a new one may start, or the pack may be finalized. */
  predicate Idle(entries: seq<Entry>)
  {
    entries == [] || entries[|entries| - 1].ended
  }

  /** `entries` with `block` appended to the payload of the last one. */
  function AppendToLast(entries: seq<Entry>, block: seq<byte>): (r: seq<Entry>)
    requires |entries| > 0
    ensures |r| == |entries| && r[..|r| - 1] == entries[..|entries| - 1]
    ensures r[|r| - 1].payload == entries[|entries| - 1].payload + block
    ensures r[|r| - 1].name == entries[|entries| - 1].name
    ensures r[|r| - 1].declaredSize == entries[|entries| - 1].declaredSize
    ensures r[|r| - 1].ended == entries[|entries| - 1].ended
  {
    var n := |entries|;
    entries[..n - 1] + [entries[n - 1].(payload := entries[n - 1].payload + block)]
  }

  /** `tar.pack()`: a stream of archive entries. */
  class Pack {
    var entries: seq<Entry>
    var finalized: bool

    predicate Valid()
      reads this
    {
      WellFormed(entries, finalized)
    }

    constructor ()
      ensures Valid() && entries == [] && !finalized
    {
      entries := [];
      finalized := false;
    }

    /** `pack.entry({ name }, buffer)`: a whole entry at once, sized by its content. */
    method AddEntry(name: string, content: seq<byte>)
      requires Valid() && Idle(entries) && !finalized
      modifies this
      ensures Valid() && Idle(entries) && finalized == old(finalized)
      ensures entries == old(entries) + [Entry(name, |content|, content, true)]
    {
      entries := entries + [Entry(name, |content|, content, true)];
    }

    /** `pack.entry({ name, size }, callback)`: opens an entry streamed in afterwards. */
    method OpenEntry(name: string, size: nat)
      requires Valid() && Idle(entries) && !finalized
      modifies this
      ensures Valid() && finalized == old(finalized)
      ensures entries == old(entries) + [Entry(name, size, [], false)]
    {
      entries := entries + [Entry(name, size, [], false)];
    }

    /** `entry.write(block)`: appends to the open entry. */
    method Write(block: seq<byte>)
      requires Valid() && !Idle(entries)
      modifies this
      ensures Valid() && !Idle(entries) && finalized == old(finalized)
      ensures entries == AppendToLast(old(entries), block)
    {
      entries := AppendToLast(entries, block);
    }

    /** `entry.end()`: closes the open entry. */
    method End()
      requires Valid() && !Idle(entries)
      modifies this
      ensures Valid() && Idle(entries) && finalized == old(finalized)
      ensures var n := |old(entries)|;
        entries == old(entries)[..n - 1] + [old(entries)[n - 1].(ended := true)]
    {
      var n := |entries|;
      entries := entries[..n - 1] + [entries[n - 1].(ended := true)];
    }

    /** `pack.finalize()`: no entry may follow. */
    method Finalize()
      requires Valid() && Idle(entries)
      modifies this
      ensures Valid() && finalized && entries == old(entries)
    {
      finalized := true;
    }
  }
}
