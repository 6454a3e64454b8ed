/** I420Buffer and V4L2FrameBuffer: their memory, and the copies into it. */
module FrameBuffers {
  import opened Alignment
  import opened I420Layout
  import opened I420Samples

  newtype Byte = b: int | 0 <= b < 256

  const SIZE_BITS: nat := 64
  const BUFFER_ALIGNMENT: nat := 64

  lemma SizeIsWide()
    ensures Pow2(SIZE_BITS) == 0x1_0000_0000_0000_0000 && Pow2(6) == BUFFER_ALIGNMENT
  {
    PowerValue();
  }

  /** memcpy. */
  method CopyBytes(dst: array<Byte>, src: array<Byte>, n: nat)
    requires n <= dst.Length && n <= src.Length && dst != src
    modifies dst
    ensures dst[..n] == src[..n] && dst[n..] == old(dst[n..])
  {
    forall i | 0 <= i < n {
      dst[i] := src[i];
    }
  }

  /** The planes are offsets into the one allocation. */
  class I420Buffer {
    const layout: Layout
    const mem: array<Byte>
    const u: nat
    const v: nat

    ghost predicate Valid() {
      && mem.Length == layout.total && u == Start(layout, ChromaU) && v == Start(layout, ChromaV)
      && exists k: nat :: Accepted(layout, k)
    }

    constructor (layout: Layout)
      requires exists k: nat :: Accepted(layout, k)
      ensures Valid() && fresh(mem) && this.layout == layout
    {
      this.layout := layout;
      mem := new Byte[layout.total];
      u := layout.yBytes;
      v := layout.yBytes + layout.uBytes;
    }

    /** The allocation fails where memory says so. */
    static method Create(width: int, height: int, align: int, memory: bool) returns (r: Result<I420Buffer>)
      ensures var plan := Plan(width, height, align, SIZE_BITS);
              match r
              case Success(buffer) =>
                memory && plan == Success(buffer.layout) && buffer.Valid() && fresh(buffer) && fresh(buffer.mem)
              case Failure(error) => plan == Failure(error) || (!memory && plan.Success? && error.BadAlloc?)
    {
      var plan := Plan(width, height, align, SIZE_BITS);
      match plan {
        case Failure(error) => r := Failure(error);
        case Success(layout) =>
          if !memory {
            return Failure(BadAlloc);
          }
          SizeIsWide();
          GuardsAreExact(width, height, align, SIZE_BITS);
          ghost var k: nat :| align == Pow2(k);
          assert Accepted(layout, k);
          var buffer := new I420Buffer(layout);
          r := Success(buffer);
      }
    }

    /** MutableDataY, MutableDataU and MutableDataV, indexed by row and column. */
    function At(plane: Plane, x: nat, y: nat): nat {
      (match plane case Luma => 0 case ChromaU => u case ChromaV => v) + y * Stride(layout, plane) + x
    }
  }

  /** Every sample of the packed frame is where the buffer's planes have it. */
  ghost predicate Holds(buffer: I420Buffer, frame: seq<Byte>)
    reads buffer.mem
  {
    var width, height := buffer.layout.width, buffer.layout.height;
    forall plane, x: nat, y: nat :: IsSample(width, height, plane, x, y) ==>
      && PackedOffset(width, height, plane, x, y) < |frame|
      && buffer.At(plane, x, y) < buffer.mem.Length
      && buffer.mem[buffer.At(plane, x, y)] == frame[PackedOffset(width, height, plane, x, y)]
  }

  lemma EverySampleRight(buffer: I420Buffer, frame: seq<Byte>)
    requires buffer.Valid() && Accepted(buffer.layout, 6)
    requires |frame| <= buffer.mem.Length && buffer.mem[..|frame|] == frame
    ensures buffer.layout.width % 64 == 0 && |frame| == PackedSize(buffer.layout.width, buffer.layout.height) ==>
              Holds(buffer, frame)
  {
    var l := buffer.layout;
    if l.width % 64 == 0 && |frame| == PackedSize(l.width, l.height) {
      PlacedExactly(l);
      forall plane, x: nat, y: nat | IsSample(l.width, l.height, plane, x, y)
        ensures PackedOffset(l.width, l.height, plane, x, y) < |frame|
        ensures buffer.At(plane, x, y) == PackedOffset(l.width, l.height, plane, x, y)
      {
        PackedInFrame(l.width, l.height, plane, x, y);
        assert buffer.At(plane, x, y) == Offset(l, plane, x, y);
      }
    }
  }

  datatype Format = Yuv420 | H264 | Mjpeg

  /** A captured frame: the driver's memory, and a buffer of its own for a copy. */
  class V4L2FrameBuffer {
    const width: int
    const height: int
    const format: Format
    const size: nat
    const start: array<Byte>
    const data: array<Byte>
    var isBufferCopied: bool

    ghost predicate Valid() {
      size <= start.Length && size <= data.Length && data != start
    }

    /** length is an unsigned int: rounding it up cannot wrap a 64-bit size_t. */
    constructor (width: int, height: int, format: Format, length: nat, start: array<Byte>)
      requires length <= start.Length && length < Pow2(32)
      ensures Valid() && !isBufferCopied && fresh(data)
      ensures this.width == width && this.height == height && this.format == format
      ensures this.size == length && this.start == start
      ensures data.Length == AlignUp(length, BUFFER_ALIGNMENT)
    {
      SizeIsWide();
      PowerValue();
      AlignUpsAgree(length, 6, SIZE_BITS);
      AlignUpIsNext(length, BUFFER_ALIGNMENT);
      this.width, this.height, this.format, this.size, this.start := width, height, format, length, start;
      data := new Byte[MaskAlignUp(length, BUFFER_ALIGNMENT, SIZE_BITS)];
      isBufferCopied := false;
    }

    /** The frame's bytes: the driver's until they are copied, its own from then on. */
    ghost function Bytes(): seq<Byte>
      requires Valid()
      reads this, if isBufferCopied then data else start
    {
      if isBufferCopied then data[..size] else start[..size]
    }

    method CopyBufferData()
      requires Valid()
      modifies this, data
      ensures Valid() && isBufferCopied && Bytes() == old(start[..size])
    {
      CopyBytes(data, start, size);
      isBufferCopied := true;
    }

    /**
    A YUV420 frame is copied in one piece, whatever its size. For a packed frame whose width is a
    multiple of 64 that puts every sample of every plane where the strides expect it.
    */
    method ToI420(memory: bool) returns (r: Result<I420Buffer>)
      requires Valid()
      ensures var plan := Plan(width, height, BUFFER_ALIGNMENT, SIZE_BITS);
              var fits := plan.Success? && (format.Yuv420? ==> size <= plan.value.total);
              match r
              case Success(buffer) =>
                memory && fits && plan == Success(buffer.layout) && buffer.Valid() && fresh(buffer.mem)
              case Failure(error) =>
                || plan == Failure(error)
                || (plan.Success? && if memory then !fits && error.BufferOverrun? else error.BadAlloc?)
      ensures r.Success? && format.Yuv420? ==>
                size <= r.value.mem.Length && r.value.mem[..size] == Bytes()
      ensures r.Success? && format.Yuv420? && width % 64 == 0 && size == PackedSize(width, height) ==>
                Holds(r.value, Bytes())
    {
      r := I420Buffer.Create(width, height, BUFFER_ALIGNMENT, memory);
      if r.Failure? {
        return;
      }
      var buffer := r.value;
      match format {
        case Yuv420 =>
          if size > buffer.mem.Length {
            return Failure(BufferOverrun);
          }
          if isBufferCopied {
            CopyBytes(buffer.mem, data, size);
          } else {
            CopyBytes(buffer.mem, start, size);
          }
          EverySampleRight(buffer, Bytes());
        case H264 =>  // the decoded frame comes from elsewhere
        case Mjpeg =>  // converted by the library
      }
    }
  }

}
