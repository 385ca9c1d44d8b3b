/** A StringBuffer is a queue of non-empty chunks; how its text is cut into chunks is up to
    whoever fills it. A cursor is a current chunk and an offset into it, or no chunk yet. */
module StringBuffers {
  import opened ByteStrings
  import opened Wrappers

  predicate NonEmpty(chunks: seq<Bytes>) {
    forall i :: 0 <= i < |chunks| ==> chunks[i] != []
  }

  class StringBuffer {
    var chunks: seq<Bytes>

    ghost predicate Valid()
      reads this
    {
      NonEmpty(chunks)
    }

    ghost function Text(): Bytes
      reads this
    {
      Concat(chunks)
    }

    constructor (str: Bytes)
      ensures Valid() && Text() == str
    {
      chunks := if str == [] then [] else [str];
      new;
      assert str != [] ==> Concat(chunks[1..]) == [];
    }

    constructor FromChunks(chunks: seq<Bytes>)
      requires NonEmpty(chunks)
      ensures Valid() && this.chunks == chunks
    {
      this.chunks := chunks;
    }

    /** The next chunk, taken out of the buffer; none is left when the text is empty. */
    method Chunk() returns (chunk: Option<Bytes>)
      requires Valid()
      modifies this
      ensures Valid()
      ensures chunk.None? <==> old(Text()) == []
      ensures chunk.None? ==> Text() == []
      ensures chunk.Some? ==> chunk.value != [] && old(Text()) == chunk.value + Text()
    {
      if chunks == [] {
        return None;
      }
      chunk := Some(chunks[0]);
      chunks := chunks[1..];
    }

    method Append(str: Bytes)
      requires Valid()
      modifies this
      ensures Valid() && Text() == old(Text()) + str
    {
      if str != [] {
        ConcatAppend(chunks, [str]);
        assert Concat([str]) == str;
        chunks := chunks + [str];
      }
    }

    method AppendBuffer(other: StringBuffer)
      requires Valid() && other.Valid()
      modifies this
      ensures Valid() && Text() == old(Text()) + old(other.Text())
    {
      ConcatAppend(chunks, other.chunks);
      chunks := chunks + other.chunks;
    }

    method Length() returns (length: nat)
      requires Valid()
      ensures length == |Text()|
    {
      length := 0;
      for i := 0 to |chunks|
        invariant length == |Concat(chunks[..i])|
      {
        ConcatAppend(chunks[..i], [chunks[i]]);
        assert chunks[..i + 1] == chunks[..i] + [chunks[i]];
        assert Concat([chunks[i]]) == chunks[i];
        length := length + |chunks[i]|;
      }
      assert chunks[..|chunks|] == chunks;
    }
  }

  datatype Cursor = Cursor(buf: Option<Bytes>, offset: nat) {
    ghost predicate Valid() {
      buf.Some? ==> offset <= |buf.value|
    }

    ghost function Ahead(): Bytes
      requires Valid()
    {
      if buf.Some? then buf.value[offset..] else []
    }
  }

  /** What is left to read: the current chunk from the offset, then the buffer. */
  ghost function Rest(chunk: StringBuffer, at: Cursor): Bytes
    requires at.Valid()
    reads chunk
  {
    at.Ahead() + chunk.Text()
  }
}
