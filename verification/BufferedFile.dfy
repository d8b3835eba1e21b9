/** The buffered file: a 4096-byte write buffer with an appending and a prepending flush, and a read-ahead
    buffer, over a file with a descriptor offset. */
module BufferedFile {
  import opened Bytes

  const BUFFER_SIZE: nat := 4096

  /** The chunks one after another. */
  function Concat(chunks: seq<seq<byte>>): seq<byte> {
    if chunks == [] then [] else Concat(chunks[..|chunks| - 1]) + chunks[|chunks| - 1]
  }

  /** The chunks in reverse order. */
  function Reversed(chunks: seq<seq<byte>>): seq<byte> {
    if chunks == [] then [] else chunks[|chunks| - 1] + Reversed(chunks[..|chunks| - 1])
  }

  /** Writing data at an offset within the file, or at its end. */
  function Overwrite(content: seq<byte>, at: nat, data: seq<byte>): (r: seq<byte>)
    requires at <= |content|
    ensures |r| == if at + |data| <= |content| then |content| else at + |data|
    ensures forall k: nat | k < |r| :: r[k] == if at <= k < at + |data| then data[k - at] else content[k]
  {
    content[..at] + data + if at + |data| <= |content| then content[at + |data|..] else []
  }

  /** What a write-only session leaves in the file once the chunks are flushed. */
  function Flushed(original: seq<byte>, chunks: seq<seq<byte>>, preappend: bool, append: bool): seq<byte> {
    if preappend then Reversed(chunks) + original
    else if append then original + Concat(chunks)
    else Overwrite(original, 0, Concat(chunks))
  }

  lemma ConcatPush(chunks: seq<seq<byte>>, c: seq<byte>)
    ensures Concat(chunks + [c]) == Concat(chunks) + c && Reversed(chunks + [c]) == c + Reversed(chunks)
  {
    assert (chunks + [c])[..|chunks|] == chunks;
  }

  /** Sequential writes without O_APPEND add up to one write at the start. */
  lemma OverwriteTwice(original: seq<byte>, a: seq<byte>, b: seq<byte>)
    ensures |a| <= |Overwrite(original, 0, a)|
    ensures Overwrite(Overwrite(original, 0, a), |a|, b) == Overwrite(original, 0, a + b)
  {
  }

  lemma OverwriteEnd(content: seq<byte>, data: seq<byte>)
    ensures Overwrite(content, |content|, data) == content + data
  {
  }

  /** One more chunk, in terms of the file as it is. */
  lemma FlushedPush(original: seq<byte>, chunks: seq<seq<byte>>, c: seq<byte>, preappend: bool, append: bool)
    requires !(preappend && append)
    ensures var was, now := Flushed(original, chunks, preappend, append), Flushed(original, chunks + [c], preappend, append);
            if preappend then now == c + was
            else if append then now == Overwrite(was, |was|, c)
            else |Concat(chunks)| <= |was| && now == Overwrite(was, |Concat(chunks)|, c)
  {
    hide Concat, Reversed, Overwrite;
    ConcatPush(chunks, c);
    if preappend {
      assert (c + Reversed(chunks)) + original == c + (Reversed(chunks) + original);
    } else if append {
      assert original + (Concat(chunks) + c) == (original + Concat(chunks)) + c;
      OverwriteEnd(original + Concat(chunks), c);
    } else {
      OverwriteTwice(original, Concat(chunks), c);
    }
  }

  class BufferedFile {
    const preappend: bool
    const append: bool
    const readBuffer: array<byte>
    const writeBuffer: array<byte>
    var readBufferSize: nat
    var readBufferPos: nat
    var writeBufferPos: nat

    // The file behind the descriptor.
    var content: seq<byte>
    var offset: nat

    ghost var original: seq<byte>
    ghost var chunks: seq<seq<byte>>
    ghost var written: seq<byte>

    ghost predicate Shaped()
      reads this, readBuffer, writeBuffer
    {
      && readBuffer.Length == writeBuffer.Length == BUFFER_SIZE && readBuffer != writeBuffer
      && writeBufferPos <= BUFFER_SIZE && readBufferPos <= readBufferSize <= BUFFER_SIZE
      && !(preappend && append) && offset <= |content|
    }

    /** A session that has only written: what is flushed is in the file, and with what is
        buffered it is everything written. */
    ghost predicate Writing()
      reads this, readBuffer, writeBuffer
    {
      && Shaped()
      && content == Flushed(original, chunks, preappend, append)
      && Concat(chunks) + writeBuffer[..writeBufferPos] == written
      && (!preappend && !append ==> offset == |Concat(chunks)|)
    }

    /** How far a session that has only read has come in the file. */
    ghost function Position(): int
      reads this
    {
      offset - (readBufferSize - readBufferPos)
    }

    ghost predicate Reading()
      reads this, readBuffer, writeBuffer
    {
      && Shaped() && writeBufferPos == 0 && Position() >= 0
      && readBuffer[readBufferPos..readBufferSize] == content[Position()..offset]
    }

    /** buffered_open on a file with the given content, which O_TRUNC has emptied if asked to. */
    constructor (existing: seq<byte>, preappend: bool, append: bool)
      requires !(preappend && append)
      ensures Writing() && Reading() && fresh(readBuffer) && fresh(writeBuffer)
      ensures this.preappend == preappend && this.append == append
      ensures content == original == existing && chunks == [] && written == [] && Position() == 0 && writeBufferPos == 0
    {
      this.preappend, this.append := preappend, append;
      readBuffer := new byte[BUFFER_SIZE](_ => 0);
      writeBuffer := new byte[BUFFER_SIZE](_ => 0);
      readBufferSize, readBufferPos, writeBufferPos := 0, 0, 0;
      content, offset := existing, 0;
      original, chunks, written := existing, [], [];
    }

    /** A complete write to the descriptor. */
    method WriteFile(data: seq<byte>)
      requires offset <= |content|
      modifies this`content, this`offset
      ensures var at := if append then |old(content)| else old(offset);
              && content == Overwrite(old(content), at, data) && offset == at + |data| <= |content|
              && (forall k: nat | k < |content| :: content[k] == if at <= k < at + |data| then data[k - at] else old(content)[k])
    {
      var at := if append then |content| else offset;
      content := Overwrite(content, at, data);
      offset := at + |data|;
    }

    method ReadFile(n: nat) returns (data: seq<byte>)
      requires offset <= |content|
      modifies this`offset
      ensures offset == (if old(offset) + n <= |content| then old(offset) + n else |content|)
      ensures data == content[old(offset)..offset]
    {
      var end := if offset + n <= |content| then offset + n else |content|;
      data := content[offset..end];
      offset := end;
    }

    /** The preappend branch of the flush: read everything, then write the buffer and everything from the start. */
    method Prepend(data: seq<byte>)
      requires !append && offset <= |content|
      modifies this`content, this`offset
      ensures content == data + old(content) && offset == |content|
    {
      ghost var was := content;
      offset := |content|;
      var fileLen := offset;
      var temp: seq<byte> := [];
      if fileLen > 0 {
        offset := 0;
        temp := ReadFile(fileLen);
      }
      assert temp == was;
      offset := 0;
      WriteFile(data);
      assert content[..|data|] == data;
      if fileLen > 0 {
        WriteFile(temp);
      }
      assert content == data + was;
    }

    /** The buffer goes to the file: before everything there in preappend mode, else where the
        descriptor stands. */
    method Flush() returns (r: int)
      requires Writing()
      modifies this`content, this`offset, this`writeBufferPos, this`chunks
      ensures r == 0 && Writing() && writeBufferPos == 0
      ensures chunks == old(chunks) + if old(writeBufferPos) == 0 then [] else [old(writeBuffer[..writeBufferPos])]
    {
      hide Overwrite, Concat, Reversed;
      if writeBufferPos == 0 {
        return 0;
      }
      ghost var chunk := writeBuffer[..writeBufferPos];
      ConcatPush(chunks, chunk);
      FlushedPush(original, chunks, chunk, preappend, append);
      if preappend {
        Prepend(writeBuffer[..writeBufferPos]);
      } else {
        WriteFile(writeBuffer[..writeBufferPos]);
      }
      writeBufferPos := 0;
      chunks := chunks + [chunk];
      assert writeBuffer[..writeBufferPos] == [];
      return 0;
    }

    /** One turn of the write loop: copy what fits, and flush a buffer that is full. */
    method WriteSome(data: seq<byte>) returns (r: int)
      requires Writing() && 0 < |data| <= BUFFER_SIZE - writeBufferPos
      modifies this`content, this`offset, this`writeBufferPos, this`chunks, this`written, writeBuffer
      ensures r == 0 && Writing() && writeBufferPos < BUFFER_SIZE && written == old(written) + data
      ensures old(chunks) <= chunks && (FullBlocks(old(chunks)) ==> FullBlocks(chunks))
    {
      hide Flushed, Concat;
      ghost var before := writeBuffer[..writeBufferPos];
      CopyIn(data);
      assert Concat(chunks) + (before + data) == (Concat(chunks) + before) + data;
      written := written + data;
      r := 0;
      if writeBufferPos == BUFFER_SIZE {
        r := Flush();
      }
    }

    /** As much as fits goes into the buffer; a full buffer is flushed at once. */
    method Write(data: seq<byte>) returns (n: int)
      requires Writing() && writeBufferPos < BUFFER_SIZE
      modifies this`content, this`offset, this`writeBufferPos, this`chunks, this`written, writeBuffer
      ensures n == |data| && Writing() && writeBufferPos < BUFFER_SIZE
      ensures written == old(written) + data
      ensures old(chunks) <= chunks && (FullBlocks(old(chunks)) ==> FullBlocks(chunks))
    {
      hide Flushed, Concat, FullBlocks;
      var done := 0;
      while done < |data|
        invariant 0 <= done <= |data| && Writing() && writeBufferPos < BUFFER_SIZE
        invariant written == old(written) + data[..done]
        invariant old(chunks) <= chunks && (FullBlocks(old(chunks)) ==> FullBlocks(chunks))
      {
        var space := BUFFER_SIZE - writeBufferPos;
        var count := if |data| - done < space then |data| - done else space;
        var r := WriteSome(data[done..done + count]);
        if r == -1 {
          return -1;
        }
        assert data[..done] + data[done..done + count] == data[..done + count];
        done := done + count;
      }
      return done;
    }

    /** The memcpy into the write buffer. */
    method CopyIn(data: seq<byte>)
      requires Shaped() && writeBufferPos + |data| <= BUFFER_SIZE
      modifies this`writeBufferPos, writeBuffer
      ensures writeBufferPos == old(writeBufferPos) + |data|
      ensures writeBuffer[..writeBufferPos] == old(writeBuffer[..writeBufferPos]) + data
      ensures readBuffer[..] == old(readBuffer[..])
    {
      ghost var was := writeBuffer[..];
      forall k | 0 <= k < |data| {
        writeBuffer[writeBufferPos + k] := data[k];
      }
      writeBufferPos := writeBufferPos + |data|;
    }

    /** buffered_close: the file holds the whole session. */
    method Close() returns (r: int)
      requires Writing()
      modifies this`content, this`offset, this`writeBufferPos, this`chunks
      ensures r == 0 && Concat(chunks) == written
      ensures chunks == old(chunks) + if old(writeBufferPos) == 0 then [] else [old(writeBuffer[..writeBufferPos])]
      ensures content == Flushed(original, chunks, preappend, append)
    {
      r := 0;
      if writeBufferPos > 0 {
        r := Flush();
      }
    }

    /** An empty read buffer is filled from the file; nothing is read only at the end. */
    method Refill() returns (r: nat)
      requires Reading() && readBufferPos == readBufferSize
      modifies this`offset, this`readBufferSize, this`readBufferPos, readBuffer
      ensures Reading() && Position() == old(Position())
      ensures r == readBufferSize - readBufferPos && (r == 0 <==> Position() == |content|)
    {
      var data := ReadFile(BUFFER_SIZE);
      r := |data|;
      if r > 0 {
        forall k | 0 <= k < |data| {
          readBuffer[k] := data[k];
        }
        readBufferSize, readBufferPos := r, 0;
        assert readBuffer[readBufferPos..readBufferSize] == data;
      }
    }

    /** The memcpy out of the read buffer. */
    method CopyOut(n: nat) returns (data: seq<byte>)
      requires Reading() && n <= readBufferSize - readBufferPos
      modifies this`readBufferPos
      ensures Reading() && Position() == old(Position()) + n && data == content[old(Position())..Position()]
    {
      ghost var ahead := readBuffer[readBufferPos..readBufferSize];
      data := readBuffer[readBufferPos..readBufferPos + n];
      assert data == ahead[..n];
      readBufferPos := readBufferPos + n;
      assert readBuffer[readBufferPos..readBufferSize] == ahead[n..];
    }

    /** A session that only reads gets the file's bytes in order, whatever the sizes asked for. */
    method Read(count: nat) returns (data: seq<byte>)
      requires Reading()
      modifies this`offset, this`readBufferSize, this`readBufferPos, readBuffer
      ensures Reading() && content == old(content)
      ensures var end := if old(Position()) + count <= |content| then old(Position()) + count else |content|;
              data == content[old(Position())..end] && Position() == end
    {
      ghost var start := Position();
      data := [];
      while |data| < count
        invariant Reading() && |data| <= count && content == old(content)
        invariant Position() == start + |data| && data == content[start..Position()]
        decreases count - |data|
      {
        var available := readBufferSize - readBufferPos;
        if available == 0 {
          available := Refill();
          if available == 0 {
            break;
          }
        }
        ghost var at := Position();
        var more := CopyOut(if count - |data| < available then count - |data| else available);
        assert content[start..at] + content[at..Position()] == content[start..Position()];
        data := data + more;
      }
    }
  }

  // --- what a preappend session leaves ------------------------------------------------------

  /** Only whole buffers have been flushed: no flush was asked for. */
  predicate FullBlocks(chunks: seq<seq<byte>>) {
    forall k: nat | k < |chunks| :: |chunks[k]| == BUFFER_SIZE
  }

  /** The chunks of a session closed without an earlier flush: whole buffers, then the rest. */
  predicate Unflushed(chunks: seq<seq<byte>>) {
    chunks == [] || (FullBlocks(chunks[..|chunks| - 1]) && 0 < |chunks[|chunks| - 1]| <= BUFFER_SIZE)
  }

  /** Such chunks are the data cut every BUFFER_SIZE bytes. */
  function Cut(data: seq<byte>): seq<seq<byte>>
    decreases |data|
  {
    if data == [] then []
    else
      var last := (|data| - 1) / BUFFER_SIZE * BUFFER_SIZE;
      Cut(data[..last]) + [data[last..]]
  }

  lemma {:induction false} FullLength(chunks: seq<seq<byte>>)
    requires FullBlocks(chunks)
    ensures |Concat(chunks)| == |chunks| * BUFFER_SIZE
    decreases |chunks|
  {
    if chunks != [] {
      FullLength(chunks[..|chunks| - 1]);
    }
  }

  lemma {:induction false} UnflushedIsCut(chunks: seq<seq<byte>>)
    requires Unflushed(chunks)
    ensures chunks == Cut(Concat(chunks))
    decreases |chunks|
  {
    if chunks != [] {
      var n := |chunks| - 1;
      var front, c, data := chunks[..n], chunks[n], Concat(chunks);
      FullLength(front);
      assert data == Concat(front) + c;
      var last := (|data| - 1) / BUFFER_SIZE * BUFFER_SIZE;
      assert last == n * BUFFER_SIZE;
      assert data[..last] == Concat(front) && data[last..] == c;
      assert front == [] || (front[..n - 1] == chunks[..n - 1] && FullBlocks(front[..n - 1]) && |front[n - 1]| == BUFFER_SIZE);
      UnflushedIsCut(front);
      assert chunks == front + [c];
    }
  }

  /** What one preappend session leaves before the original: the blocks in reverse order. */
  function PrependResult(data: seq<byte>): seq<byte> {
    Reversed(Cut(data))
  }

  /** A session of at most one buffer really prepends its data. */
  lemma SmallPrepends(data: seq<byte>)
    requires |data| <= BUFFER_SIZE
    ensures PrependResult(data) == data
  {
    if data != [] {
      assert Cut(data) == [data] by {
        assert (|data| - 1) / BUFFER_SIZE == 0;
        assert data[..0] == [] && data[0..] == data;
      }
      assert [data][..0] == [];
      assert Reversed([data]) == data + Reversed([]);
    }
  }

  /** The last block of a longer session comes out first. */
  lemma LastBlockFirst(data: seq<byte>)
    requires |data| > BUFFER_SIZE
    ensures var last := (|data| - 1) / BUFFER_SIZE * BUFFER_SIZE;
            && BUFFER_SIZE <= last < |data|
            && PrependResult(data) == data[last..] + PrependResult(data[..last])
  {
    var last := (|data| - 1) / BUFFER_SIZE * BUFFER_SIZE;
    assert Cut(data)[..|Cut(data)| - 1] == Cut(data[..last]);
  }

  function Marked(n: nat): (r: seq<byte>)
    ensures |r| == n
  {
    seq(n, (k: int) requires 0 <= k < n => if k == 0 then 1 else 0)
  }

  /** Preappending every text of a length works exactly up to the size of one buffer: beyond it, one
      that starts with a 1 and goes on with 0s comes out starting with a 0. */
  lemma PrependExact(n: nat)
    ensures (forall data: seq<byte> | |data| == n :: PrependResult(data) == data) <==> n <= BUFFER_SIZE
  {
    if n <= BUFFER_SIZE {
      forall data: seq<byte> | |data| == n
        ensures PrependResult(data) == data
      {
        SmallPrepends(data);
      }
    } else {
      var data := Marked(n);
      LastBlockFirst(data);
      assert PrependResult(data)[0] == 0 && data[0] == 1;
    }
  }

  /** What a closed session leaves, by mode: its data in front of the file, after it, or byte for byte over
      its start. */
  ghost predicate Leaves(existing: seq<byte>, preappend: bool, append: bool, data: seq<byte>, after: seq<byte>) {
    if preappend then after == PrependResult(data) + existing && (|data| <= BUFFER_SIZE ==> after == data + existing)
    else if append then after == existing + data
    else
      && |after| == (if |data| <= |existing| then |existing| else |data|)
      && forall k: nat | k < |after| :: after[k] == if k < |data| then data[k] else existing[k]
  }

  /** Whole buffers and a rest, flushed, leave that. */
  lemma FlushedLeaves(existing: seq<byte>, preappend: bool, append: bool, chunks: seq<seq<byte>>)
    requires !(preappend && append) && Unflushed(chunks)
    ensures Leaves(existing, preappend, append, Concat(chunks), Flushed(existing, chunks, preappend, append))
  {
    hide Cut, Concat, Reversed;
    UnflushedIsCut(chunks);
    if |Concat(chunks)| <= BUFFER_SIZE {
      SmallPrepends(Concat(chunks));
    }
  }

  /** A write-only session: open, any writes, close, without a flush of its own. */
  method Session(existing: seq<byte>, preappend: bool, append: bool, writes: seq<seq<byte>>) returns (after: seq<byte>)
    requires !(preappend && append)
    ensures Leaves(existing, preappend, append, Concat(writes), after)
  {
    hide Flushed, Leaves;
    var f := new BufferedFile(existing, preappend, append);
    var i := 0;
    assert writes[..0] == [];
    while i < |writes|
      invariant 0 <= i <= |writes| && f.Writing() && f.writeBufferPos < BUFFER_SIZE && fresh(f.writeBuffer) && fresh(f)
      invariant f.written == Concat(writes[..i]) && f.original == existing && FullBlocks(f.chunks)
    {
      var n := f.Write(writes[i]);
      assert writes[..i + 1][..i] == writes[..i];
      i := i + 1;
    }
    assert writes[..|writes|] == writes;
    ghost var was := f.chunks;
    var r := f.Close();
    assert f.chunks == was || f.chunks[..|f.chunks| - 1] == was;
    assert Unflushed(f.chunks);
    FlushedLeaves(existing, preappend, append, f.chunks);
    after := f.content;
  }
}
