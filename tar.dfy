/**
 * The part of Go's `archive/tar` writer that the archiver uses: headers and file bodies appended in
 * order. The byte layout of the format (512-byte blocks, octal fields, padding) is not modelled;
 * an archive is the sequence of its entries.
 */
module Tar {
  import opened Results
  import Text

  datatype TypeFlag = TypeReg | TypeDir | TypeSymlink

  datatype Header = Header(name: string, typeflag: TypeFlag, mode: int, size: nat, linkname: string)

  /** One archive member: its header and the bytes written after it. */
  datatype Entry = Entry(hdr: Header, body: seq<bv8>)

  /** Every byte the header announced has been written. */
  predicate Complete(e: Entry)
  {
    |e.body| == e.hdr.size
  }

  /** A `tar.Writer`: the entries written so far, the last one possibly still receiving bytes. */
  class TarWriter {
    var entries: seq<Entry>
    var closed: bool

    /** No entry is waiting for bytes: what `Flush` and `Close` check. */
    predicate Flushed()
      reads this
    {
      forall i :: 0 <= i < |entries| ==> Complete(entries[i])
    }

    /** Bytes the last header still expects. */
    function Remaining(): (n: nat)
      reads this
      ensures n > 0 ==> entries != [] && n == entries[|entries| - 1].hdr.size - |entries[|entries| - 1].body|
      ensures Flushed() ==> n == 0
    {
      if entries == [] || entries[|entries| - 1].hdr.size <= |entries[|entries| - 1].body| then 0
      else entries[|entries| - 1].hdr.size - |entries[|entries| - 1].body|
    }

    constructor ()
      ensures entries == [] && !closed
    {
      entries := [];
      closed := false;
    }

    /**
     * Starts a new member. Fails after Close, and when the previous member has not received all the
     * bytes its header announced; a failed call leaves the archive as it was.
     */
    method WriteHeader(hdr: Header) returns (err: Option<string>)
      modifies this
      ensures closed == old(closed)
      ensures old(closed) ==> err == Some("archive/tar: write after close")
      ensures !old(closed) && old(Remaining()) > 0 ==>
                err == Some("archive/tar: missed writing " + Text.Itoa(old(Remaining())) + " bytes")
      ensures !old(closed) && old(Remaining()) == 0 ==> err == None
      ensures entries == if err == None then old(entries) + [Entry(hdr, [])] else old(entries)
    {
      if closed {
        return Some("archive/tar: write after close");
      }
      var left := Remaining();
      if left > 0 {
        return Some("archive/tar: missed writing " + Text.Itoa(left) + " bytes");
      }
      entries := entries + [Entry(hdr, [])];
      err := None;
    }

    /**
     * Appends bytes to the current member. Bytes beyond what its header announced are cut off and
     * reported as `ErrWriteTooLong`.
     */
    method Write(data: seq<bv8>) returns (err: Option<string>)
      modifies this
      ensures closed == old(closed)
      ensures old(closed) ==> err == Some("archive/tar: write after close") && entries == old(entries)
      ensures !old(closed) && |data| <= old(Remaining()) ==> err == None
      ensures !old(closed) && |data| > old(Remaining()) ==> err == Some("archive/tar: write too long")
      ensures !old(closed) && old(entries) != [] ==>
                var last := old(entries)[|old(entries)| - 1];
                var written := if |data| <= old(Remaining()) then data else data[..old(Remaining())];
                entries == old(entries)[..|old(entries)| - 1] + [Entry(last.hdr, last.body + written)]
      ensures !old(closed) && old(entries) == [] ==> entries == old(entries)
    {
      if closed {
        return Some("archive/tar: write after close");
      }
      var room := Remaining();
      if entries != [] {
        var last := entries[|entries| - 1];
        var written := if |data| <= room then data else data[..room];
        entries := entries[..|entries| - 1] + [Entry(last.hdr, last.body + written)];
      }
      err := if |data| <= room then None else Some("archive/tar: write too long");
    }

    /** Ends the archive; reports a member that is still missing bytes. */
    method Close() returns (err: Option<string>)
      modifies this`closed
      ensures closed
      ensures err == None <==> old(closed) || old(Remaining()) == 0
    {
      if closed {
        return None;
      }
      var left := Remaining();
      closed := true;
      err := if left > 0 then Some("archive/tar: missed writing " + Text.Itoa(left) + " bytes") else None;
    }
  }
}
