/** net::Buffer: a byte queue in a vector, with space kept free in front and content moved to the front when
    there is no room behind it. Whatever is moved or resized, it behaves as a queue of bytes. */
module NetBuffer {
  import opened Lz77

  const CHEAP_PREPEND: nat := 8
  const INITIAL_SIZE: nat := 1024

  function Zeros(n: nat): (r: seq<byte>)
    ensures |r| == n
  {
    seq(n, i => 0)
  }

  /** std::copy of bs to index i. */
  function Overlay(s: seq<byte>, i: nat, bs: seq<byte>): (r: seq<byte>)
    requires i + |bs| <= |s|
    ensures |r| == |s| && r[..i] == s[..i] && r[i..i + |bs|] == bs && r[i + |bs|..] == s[i + |bs|..]
  {
    s[..i] + bs + s[i + |bs|..]
  }

  class Buffer {
    var buffer: seq<byte>
    var reader: nat
    var writer: nat

    ghost predicate Valid()
      reads this
    {
      reader <= writer <= |buffer| && CHEAP_PREPEND <= |buffer|
    }

    /** The bytes queued. */
    ghost function Contents(): seq<byte>
      reads this
      requires Valid()
    {
      buffer[reader..writer]
    }

    constructor (initialSize: nat)
      ensures Valid() && Contents() == [] && reader == CHEAP_PREPEND && |buffer| == CHEAP_PREPEND + initialSize
    {
      buffer := Zeros(CHEAP_PREPEND + initialSize);
      reader, writer := CHEAP_PREPEND, CHEAP_PREPEND;
    }

    function Readable(): (n: nat)
      reads this
      requires Valid()
      ensures n == |Contents()|
    {
      writer - reader
    }

    function Writable(): nat
      reads this
      requires Valid()
    {
      |buffer| - writer
    }

    method RetrieveAll()
      requires Valid()
      modifies this`reader, this`writer
      ensures Valid() && Contents() == [] && reader == CHEAP_PREPEND
    {
      reader, writer := CHEAP_PREPEND, CHEAP_PREPEND;
    }

    /** retrieve: all or nothing. */
    method Retrieve(len: nat) returns (ok: bool)
      requires Valid()
      modifies this`reader, this`writer
      ensures Valid() && (ok <==> len <= |old(Contents())|)
      ensures Contents() == if ok then old(Contents())[len..] else old(Contents())
    {
      ok := len <= Readable();
      if ok {
        if len < Readable() { reader := reader + len; } else { RetrieveAll(); }
      }
    }

    /** retrieveAsString: the first bytes, or nothing if there are not so many. */
    method RetrieveAsString(len: nat) returns (s: seq<byte>)
      requires Valid()
      modifies this`reader, this`writer
      ensures Valid()
      ensures len <= |old(Contents())| ==> s == old(Contents())[..len] && Contents() == old(Contents())[len..]
      ensures len > |old(Contents())| ==> s == [] && Contents() == old(Contents())
    {
      s := [];
      if len <= Readable() {
        s := buffer[reader..reader + len];
        var _ := Retrieve(len);
      }
    }

    /** makeSpace: grow, or move the content to the front. The move is never skipped: when it is reached,
        there is space in front to gain. */
    method MakeSpace(len: nat)
      requires Valid() && Writable() < len
      modifies this
      ensures Valid() && Contents() == old(Contents()) && Writable() >= len
      ensures reader <= old(reader) && (old(reader) >= CHEAP_PREPEND ==> reader >= CHEAP_PREPEND)
      ensures Writable() > len ==> reader == CHEAP_PREPEND < old(reader) && |buffer| == |old(buffer)|
    {
      ghost var content := Contents();
      if Writable() + reader < len + CHEAP_PREPEND {
        buffer := buffer + Zeros(writer + len - |buffer|);
      } else if CHEAP_PREPEND < reader {
        var readable := Readable();
        buffer := Overlay(buffer, CHEAP_PREPEND, buffer[reader..writer]);
        reader := CHEAP_PREPEND;
        writer := reader + readable;
      }
      assert Contents() == content;
    }

    method EnsureWritable(len: nat)
      requires Valid()
      modifies this
      ensures Valid() && Contents() == old(Contents()) && Writable() >= len && reader <= old(reader)
      ensures old(reader) >= CHEAP_PREPEND ==> reader >= CHEAP_PREPEND
    {
      if Writable() < len { MakeSpace(len); }
    }

    method Append(data: seq<byte>)
      requires Valid()
      modifies this
      ensures Valid() && Contents() == old(Contents()) + data && reader <= old(reader)
      ensures old(reader) >= CHEAP_PREPEND ==> reader >= CHEAP_PREPEND
    {
      EnsureWritable(|data|);
      ghost var content := Contents();
      buffer := Overlay(buffer, writer, data);
      writer := writer + |data|;
      assert buffer[reader..writer - |data|] == content;
    }

    /** unwrite: take bytes back from the end. */
    method Unwrite(len: nat) returns (ok: bool)
      requires Valid()
      modifies this`writer
      ensures Valid() && (ok <==> len <= |old(Contents())|)
      ensures Contents() == if ok then old(Contents())[..|old(Contents())| - len] else old(Contents())
    {
      ok := len <= Readable();
      if ok { writer := writer - len; }
    }

    /** prepend: into the space in front, if there is enough. */
    method Prepend(data: seq<byte>) returns (ok: bool)
      requires Valid()
      modifies this
      ensures Valid() && (ok <==> |data| <= old(reader))
      ensures Contents() == if ok then data + old(Contents()) else old(Contents())
    {
      ok := |data| <= reader;
      if ok {
        ghost var content := Contents();
        reader := reader - |data|;
        buffer := Overlay(buffer, reader, data);
        assert buffer[reader + |data|..writer] == content;
      }
    }

    /** shrink: the same content in a new buffer. */
    method Shrink(reserve: nat)
      requires Valid()
      modifies this
      ensures Valid() && Contents() == old(Contents()) && reader == CHEAP_PREPEND
    {
      var content := buffer[reader..writer];
      var other := new Buffer(INITIAL_SIZE);
      other.EnsureWritable(|content| + reserve);
      other.Append(content);
      buffer, writer := other.buffer, other.writer;
      reader := other.reader;
    }
  }
}
