/**
 * The telemetry frame of the breathing sensor: four signed 16-bit
 * little-endian integers (pressure and three gyroscope axes) at the start of
 * the buffer read from the data characteristic, plus the time elapsed since
 * polling started.
 */
module TrainingData {
  import opened Wrappers

  type Byte = b: int | 0 <= b < 0x100
  type Int16 = x: int | -0x8000 <= x < 0x8000

  /** Number of bytes of a telemetry frame that carry data. */
  const FrameLength: nat := 8

  /** The 16-bit two's-complement bit pattern of `v`. */
  function BitPattern(v: Int16): (u: nat)
    ensures u < 0x1_0000
    ensures (u - v) % 0x1_0000 == 0
  {
    if v < 0 then v + 0x1_0000 else v
  }

  /**
   * Loading an `Int16` from two bytes in little-endian order, as the host
   * (every Apple platform is little-endian) does: the value whose bit pattern
   * is `lo + 256 * hi`; it is negative exactly when the top bit of `hi` is set.
   */
  function Int16FromLE(lo: Byte, hi: Byte): (v: Int16)
    ensures BitPattern(v) == lo + 0x100 * hi
    ensures v < 0 <==> hi >= 0x80
  {
    var u := lo + 0x100 * hi;
    if u < 0x8000 then u else u - 0x1_0000
  }

  /** The two bytes, low byte first, that store `v`. */
  function Int16ToLE(v: Int16): (b: seq<Byte>)
    ensures |b| == 2
    ensures b[0] as int + 0x100 * b[1] as int == BitPattern(v)
  {
    var u := BitPattern(v);
    [u % 0x100, u / 0x100]
  }

  /** Storing and then loading an `Int16` gives it back. */
  lemma Int16RoundTrip(v: Int16)
    ensures var b := Int16ToLE(v); Int16FromLE(b[0], b[1]) == v
  {
  }

  /** Loading and then storing two bytes gives them back. */
  lemma BytesRoundTrip(lo: Byte, hi: Byte)
    ensures Int16ToLE(Int16FromLE(lo, hi)) == [lo, hi]
  {
  }

  /** One decoded telemetry frame; the four readings are raw sensor values. */
  datatype TrainingDataItem = TrainingDataItem(
    pressure: Int16,
    gyroX: Int16,
    gyroY: Int16,
    gyroZ: Int16,
    elapsedSeconds: real)

  /** The `Int16` stored at `data[offset..offset + 2]`. */
  function LoadInt16(data: seq<Byte>, offset: nat): (v: Int16)
    requires offset + 2 <= |data|
    ensures Int16ToLE(v) == data[offset..offset + 2]
  {
    Int16FromLE(data[offset], data[offset + 1])
  }

  /** The eight bytes a sensor sends for the four readings of `item`. */
  function EncodeFrame(item: TrainingDataItem): (frame: seq<Byte>)
    ensures |frame| == FrameLength
  {
    Int16ToLE(item.pressure) + Int16ToLE(item.gyroX) + Int16ToLE(item.gyroY) + Int16ToLE(item.gyroZ)
  }

  /**
   * The failable initialiser of the training item: no item for a buffer
   * shorter than eight bytes, otherwise the four readings whose encoding is
   * the first eight bytes, with the elapsed time passed through.
   */
  function DecodeFrame(data: seq<Byte>, elapsedSeconds: real): (r: Option<TrainingDataItem>)
    ensures r.None? <==> |data| < FrameLength
    ensures r.Some? ==> EncodeFrame(r.value) == data[..FrameLength]
    ensures r.Some? ==> r.value.elapsedSeconds == elapsedSeconds
  {
    if |data| < FrameLength then None
    else
      var item := TrainingDataItem(
        LoadInt16(data, 0), LoadInt16(data, 2), LoadInt16(data, 4), LoadInt16(data, 6),
        elapsedSeconds);
      BytesRoundTrip(data[0], data[1]);
      BytesRoundTrip(data[2], data[3]);
      BytesRoundTrip(data[4], data[5]);
      BytesRoundTrip(data[6], data[7]);
      assert EncodeFrame(item) == data[..FrameLength];
      Some(item)
  }

  /**
   * Field layout: pressure, gyroX, gyroY and gyroZ are the little-endian
   * `Int16`s of bytes [0,2), [2,4), [4,6) and [6,8).
   */
  lemma DecodeFieldLayout(data: seq<Byte>, elapsedSeconds: real)
    requires |data| >= FrameLength
    ensures DecodeFrame(data, elapsedSeconds).Some?
    ensures var item := DecodeFrame(data, elapsedSeconds).value;
      && item.pressure == Int16FromLE(data[0], data[1])
      && item.gyroX == Int16FromLE(data[2], data[3])
      && item.gyroY == Int16FromLE(data[4], data[5])
      && item.gyroZ == Int16FromLE(data[6], data[7])
  {
  }

  /** Bytes after the eighth never influence the decoded item. */
  lemma DecodeIgnoresTail(a: seq<Byte>, b: seq<Byte>, elapsedSeconds: real)
    requires |a| >= FrameLength && |b| >= FrameLength
    requires a[..FrameLength] == b[..FrameLength]
    ensures DecodeFrame(a, elapsedSeconds) == DecodeFrame(b, elapsedSeconds)
  {
  }

  /** Encoding an item and decoding the frame (with any trailing bytes) gives the item back. */
  lemma EncodeDecodeRoundTrip(item: TrainingDataItem, tail: seq<Byte>)
    ensures DecodeFrame(EncodeFrame(item) + tail, item.elapsedSeconds) == Some(item)
  {
  }

  /**
   * A concrete frame: bytes 10,0, 0xFB,0xFF, 0,0, 3,0 are pressure 10,
   * gyroX -5 (bit pattern 0xFFFB), gyroY 0 and gyroZ 3.
   */
  lemma DecodeSampleFrame()
    ensures DecodeFrame([10, 0, 0xFB, 0xFF, 0, 0, 3, 0], 0.0)
         == Some(TrainingDataItem(10, -5, 0, 3, 0.0))
  {
    DecodeFieldLayout([10, 0, 0xFB, 0xFF, 0, 0, 3, 0], 0.0);
  }
}
