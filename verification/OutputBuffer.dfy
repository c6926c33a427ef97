/** The bridge's output buffer: a Go slice that is appended to, resliced at 1 MiB and handed out on a drain. */
module OutputBuffers {
  import opened Bytes

  const CAP: nat := 1024 * 1024
  const READ_SIZE: nat := 32 * 1024

  /** A Go slice header. Its capacity is what the backing array holds from `off` on. */
  datatype Slice = Nil | Slice(arr: array<Byte>, off: nat, len: nat)
  {
    function Backing(): set<object> {
      if Nil? then {} else {arr}
    }

    predicate InBounds() {
      Slice? ==> off + len <= arr.Length
    }

    ghost function View(): (s: seq<Byte>)
      requires InBounds()
      reads Backing()
    {
      if Nil? then [] else arr[off..off + len]
    }

    function Len(): nat {
      if Nil? then 0 else len
    }
  }

  /** Copies `src[..n]` to `dst[at..]` and leaves the rest of `dst` alone. */
  method CopyInto(dst: array<Byte>, at: nat, src: array<Byte>, n: nat)
    requires at + n <= dst.Length && n <= src.Length && src != dst
    modifies dst
    ensures dst[..at] == old(dst[..at]) && dst[at..at + n] == old(src[..n])
  {
    forall i | 0 <= i < n {
      dst[at + i] := src[i];
    }
  }

  /** Go's `append(s, src[:n]...)`: in place while the capacity lasts, otherwise into a new array. */
  method Append(s: Slice, src: array<Byte>, n: nat) returns (r: Slice)
    requires s.InBounds() && n <= src.Length && src !in s.Backing()
    modifies s.Backing()
    ensures r.InBounds() && r.View() == old(s.View()) + old(src[..n])
    ensures r.Backing() == s.Backing() || fresh(r.Backing())
    ensures src !in r.Backing()
  {
    if s.Slice? && s.off + s.len + n <= s.arr.Length {
      CopyInto(s.arr, s.off + s.len, src, n);
      r := Slice(s.arr, s.off, s.len + n);
      assert s.arr[s.off..s.off + s.len] == s.arr[..s.off + s.len][s.off..];
    } else if s.Nil? && n == 0 {
      r := Nil;
    } else {
      r := Grow(s, src, n);
    }
  }

  /** The reallocating case. How much room Go adds is its own choice, so any sufficient capacity is allowed. */
  method Grow(s: Slice, src: array<Byte>, n: nat) returns (r: Slice)
    requires s.InBounds() && n <= src.Length
    ensures r.Slice? && r.off == 0 && r.InBounds() && fresh(r.arr)
    ensures r.View() == s.View() + src[..n]
  {
    var at := s.Len();
    var room: nat :| at + n <= room;
    var arr := new Byte[room];
    if s.Slice? {
      forall i | 0 <= i < at {
        arr[i] := s.arr[s.off + i];
      }
      assert arr[..at] == s.View();
    }
    CopyInto(arr, at, src, n);
    r := Slice(arr, 0, at + n);
    assert arr[..at + n] == arr[..at] + arr[at..at + n];
  }

  class OutputBuffer {
    var data: Slice

    ghost predicate Valid()
      reads this, data.Backing()
    {
      data.InBounds() && data.Len() <= CAP
    }

    ghost function Contents(): (s: seq<Byte>)
      requires Valid()
      reads this, data.Backing()
    {
      data.View()
    }

    constructor ()
      ensures Valid() && Contents() == [] && data == Nil
    {
      data := Nil;
    }

    /** Appends `src[:n]` and keeps the last mebibyte. The source array never becomes part of the buffer. */
    method Write(src: array<Byte>, n: nat)
      requires Valid() && n <= src.Length && src !in data.Backing()
      modifies this, data.Backing()
      ensures Valid() && Contents() == Tail(old(Contents()) + old(src[..n]), CAP)
      ensures data.Backing() == old(data.Backing()) || fresh(data.Backing())
      ensures src !in data.Backing()
    {
      var grown := Append(data, src, n);
      data := grown;
      if grown.Len() > CAP {
        data := Slice(grown.arr, grown.off + (grown.len - CAP), CAP);
        assert data.View() == grown.View()[grown.len - CAP..];
      }
    }

    /** Hands the whole slice to the caller and forgets it: no copy is made, so later writes must not reach it. */
    method Read() returns (drained: Slice)
      requires Valid()
      modifies this
      ensures drained == old(data) && drained.InBounds() && drained.View() == old(Contents())
      ensures Valid() && Contents() == [] && data.Backing() == {}
    {
      drained := data;
      data := Nil;
    }
  }

  /** What the buffer holds after a run of writes that started from `buffer`. */
  function WriteAll(buffer: seq<Byte>, chunks: seq<seq<Byte>>): (s: seq<Byte>)
  {
    if chunks == [] then buffer
    else Tail(WriteAll(buffer, chunks[..|chunks| - 1]) + chunks[|chunks| - 1], CAP)
  }

  /** Truncating after every write is the same as truncating once: only the bytes matter, not the chunking. */
  lemma {:induction false} BoundedTailRefinement(buffer: seq<Byte>, chunks: seq<seq<Byte>>)
    requires |buffer| <= CAP
    ensures WriteAll(buffer, chunks) == Tail(buffer + Flatten(chunks), CAP)
    ensures var n := |buffer + Flatten(chunks)|; |WriteAll(buffer, chunks)| == if n <= 1048576 then n else 1048576
  {
    if chunks == [] {
      assert buffer + Flatten(chunks) == buffer;
    } else {
      var c0, last := chunks[..|chunks| - 1], chunks[|chunks| - 1];
      BoundedTailRefinement(buffer, c0);
      TailStep(buffer, Flatten(c0), last);
    }
  }

  lemma TailStep(buffer: seq<Byte>, more: seq<Byte>, last: seq<Byte>)
    ensures Tail(Tail(buffer + more, CAP) + last, CAP) == Tail(buffer + (more + last), CAP)
  {
    TailAbsorbs(buffer + more, last, CAP);
    assert (buffer + more) + last == buffer + (more + last);
  }

  lemma ChunkingIrrelevant(buffer: seq<Byte>, chunks: seq<seq<Byte>>, others: seq<seq<Byte>>)
    requires |buffer| <= CAP && Flatten(chunks) == Flatten(others)
    ensures WriteAll(buffer, chunks) == WriteAll(buffer, others)
  {
    BoundedTailRefinement(buffer, chunks);
    BoundedTailRefinement(buffer, others);
  }

  lemma NextBurst(bursts: seq<seq<Byte>>, k: nat)
    requires k < |bursts|
    ensures Flatten(bursts[..k + 1]) == Flatten(bursts[..k]) + bursts[k]
  {
    assert bursts[..k + 1][..k] == bursts[..k];
  }

  /** One turn of the reader's loop: the PTY fills the reused array, and what it read is buffered. */
  method ReadOnce(output: OutputBuffer, buf: array<Byte>, burst: seq<Byte>)
    requires output.Valid() && buf !in output.data.Backing() && |burst| <= buf.Length
    modifies output, output.data.Backing(), buf
    ensures output.Valid() && output.Contents() == Tail(old(output.Contents()) + burst, CAP)
    ensures output.data.Backing() == old(output.data.Backing()) || fresh(output.data.Backing())
    ensures buf !in output.data.Backing()
  {
    forall i | 0 <= i < |burst| {
      buf[i] := burst[i];
    }
    assert buf[..|burst|] == burst;
    if |burst| > 0 {
      output.Write(buf, |burst|);
    } else {
      assert output.Contents() + burst == output.Contents();
    }
  }

  /** The reader's loop over what successive PTY reads return. One 32 KiB array serves every read. */
  method ReadPtyOutput(output: OutputBuffer, bursts: seq<seq<Byte>>)
    requires output.Valid()
    requires forall k | 0 <= k < |bursts| :: |bursts[k]| <= READ_SIZE
    modifies output, output.data.Backing()
    ensures output.Valid() && output.Contents() == Tail(old(output.Contents()) + Flatten(bursts), CAP)
    ensures output.data.Backing() == old(output.data.Backing()) || fresh(output.data.Backing())
  {
    var buf := new Byte[READ_SIZE];
    assert buf !in output.data.Backing() && output.Contents() + [] == output.Contents();
    ghost var start: seq<Byte>, read: seq<Byte> := output.Contents(), [];
    var k := 0;
    while k < |bursts|
      invariant 0 <= k <= |bursts| && read == Flatten(bursts[..k])
      invariant output.Valid() && buf !in output.data.Backing() && fresh(buf)
      invariant output.data.Backing() == old(output.data.Backing()) || fresh(output.data.Backing())
      invariant output.Contents() == Tail(start + read, CAP)
    {
      ReadOnce(output, buf, bursts[k]);
      TailStep(start, read, bursts[k]);
      NextBurst(bursts, k);
      read := read + bursts[k];
      k := k + 1;
    }
    assert bursts[..k] == bursts;
  }

  /** A drained slice still shows the drained bytes after any later writes, and shares no array with the buffer. */
  method DrainThenKeepWriting(output: OutputBuffer, bursts: seq<seq<Byte>>) returns (drained: Slice)
    requires output.Valid()
    requires forall k | 0 <= k < |bursts| :: |bursts[k]| <= READ_SIZE
    modifies output
    ensures drained.InBounds() && drained.View() == old(output.Contents())
    ensures output.Valid() && output.Contents() == Tail(Flatten(bursts), CAP)
    ensures output.data.Backing() !! drained.Backing()
  {
    drained := output.Read();
    assert output.Contents() + Flatten(bursts) == Flatten(bursts);
    ReadPtyOutput(output, bursts);
  }
}
