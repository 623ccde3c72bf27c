/** Length-prefixed frames over byte streams (crates/ferrodoc-protocol/src/lib.rs). */
module Framing {
  import opened Collections

  type byte = x: int | 0 <= x < 256

  const MAX_FRAME_LENGTH: nat := 16 * 1024 * 1024
  const PREAMBLE: seq<byte> := [0x46, 0x45, 0x52, 0x52, 0x4F, 0x44, 0x4F, 0x43]

  datatype ProtocolError =
    | Io
    | InvalidPreamble
    | FrameLength(actual: nat, maximum: nat)
    | MalformedCbor

  /** What the serializer hands to its writer: chunks in order, and whether it gave up after them. */
  datatype Encoding = Encoding(chunks: seq<seq<byte>>, failed: bool)

  /** A value and the number of bytes the deserializer consumed for it. */
  datatype Decoded<+V> = Decoded(value: V, consumed: nat)

  function Flatten(chunks: seq<seq<byte>>): seq<byte> {
    if chunks == [] then [] else chunks[0] + Flatten(chunks[1..])
  }

  lemma {:induction false} FlattenConcat(a: seq<seq<byte>>, b: seq<seq<byte>>)
    ensures Flatten(a + b) == Flatten(a) + Flatten(b)
  {
    if a == [] {
      assert a + b == b;
    } else {
      assert (a + b)[1..] == a[1..] + b;
      FlattenConcat(a[1..], b);
    }
  }

  lemma FlattenPush(chunks: seq<seq<byte>>, i: nat)
    requires i < |chunks|
    ensures Flatten(chunks[..i + 1]) == Flatten(chunks[..i]) + chunks[i]
  {
    assert chunks[..i + 1] == chunks[..i] + [chunks[i]];
    FlattenConcat(chunks[..i], [chunks[i]]);
    assert Flatten([chunks[i]]) == chunks[i];
  }

  lemma FlattenGrows(chunks: seq<seq<byte>>, i: nat)
    requires i <= |chunks|
    ensures |Flatten(chunks[..i])| <= |Flatten(chunks)|
  {
    assert chunks == chunks[..i] + chunks[i..];
    FlattenConcat(chunks[..i], chunks[i..]);
  }

  // ---- Lengths ----

  function BigEndian(n: nat): seq<byte>
    requires n < 0x1_0000_0000
  {
    [n / 0x100_0000, n / 0x1_0000 % 0x100, n / 0x100 % 0x100, n % 0x100]
  }

  function FromBigEndian(b: seq<byte>): (n: nat)
    requires |b| == 4
    ensures n < 0x1_0000_0000
  {
    b[0] as int * 0x100_0000 + b[1] as int * 0x1_0000 + b[2] as int * 0x100 + b[3] as int
  }

  lemma LengthReadsBack(n: nat)
    requires n < 0x1_0000_0000
    ensures FromBigEndian(BigEndian(n)) == n
  {
    assert n / 0x1_0000 == n / 0x100_0000 * 0x100 + n / 0x1_0000 % 0x100;
    assert n / 0x100 == n / 0x1_0000 * 0x100 + n / 0x100 % 0x100;
  }

  lemma PrefixReadsBack(b: seq<byte>)
    requires |b| == 4
    ensures BigEndian(FromBigEndian(b)) == b
  {
    var n := FromBigEndian(b);
    var high := b[0] as int * 0x1_0000 + b[1] as int * 0x100 + b[2] as int;
    assert n == high * 0x100 + b[3] as int;
    assert n / 0x100 == high && n % 0x100 == b[3] as int;
    assert n / 0x1_0000 == high / 0x100 == b[0] as int * 0x100 + b[1] as int;
    assert n / 0x100_0000 == b[0] as int;
  }

  function Limit(negotiated: nat): nat {
    if negotiated < MAX_FRAME_LENGTH then negotiated else MAX_FRAME_LENGTH
  }

  // ---- Writing and reading one frame ----

  function Frame(payload: seq<byte>): seq<byte>
    requires |payload| < 0x1_0000_0000
  {
    BigEndian(|payload|) + payload
  }

  /** The bytes one call appends to the stream, or why it appends none. */
  function WriteFrame(encoding: Encoding, negotiated: nat): Result<seq<byte>, ProtocolError> {
    var maximum := Limit(negotiated);
    var payload := Flatten(encoding.chunks);
    if |payload| > maximum then Err(FrameLength(maximum + 1, maximum))
    else if encoding.failed then Err(MalformedCbor)
    else if payload == [] then Err(FrameLength(0, maximum))
    else Ok(Frame(payload))
  }

  datatype FrameRead<+V> = FrameRead(result: Result<V, ProtocolError>, rest: seq<byte>)

  function ReadFrame<V>(stream: seq<byte>, negotiated: nat, decode: seq<byte> -> Option<Decoded<V>>): FrameRead<V> {
    var maximum := Limit(negotiated);
    if |stream| < 4 then FrameRead(Err(Io), [])
    else
      var length := FromBigEndian(stream[..4]);
      if length == 0 || length > maximum then FrameRead(Err(FrameLength(length, maximum)), stream[4..])
      else if |stream| < 4 + length then FrameRead(Err(Io), [])
      else
        var payload := stream[4..4 + length];
        var rest := stream[4 + length..];
        match decode(payload)
        case None => FrameRead(Err(MalformedCbor), rest)
        case Some(d) => FrameRead(if d.consumed == length then Ok(d.value) else Err(MalformedCbor), rest)
  }

  /** Everything a reader gets from a stream: the values before its first failure, and that failure. */
  datatype StreamRead<+V> = StreamRead(values: seq<V>, failure: ProtocolError)

  function ReadAll<V>(stream: seq<byte>, negotiated: nat, decode: seq<byte> -> Option<Decoded<V>>): StreamRead<V>
    decreases |stream|
  {
    var first := ReadFrame(stream, negotiated, decode);
    match first.result
    case Err(e) => StreamRead([], e)
    case Ok(value) =>
      var more := ReadAll(first.rest, negotiated, decode);
      StreamRead([value] + more.values, more.failure)
  }

  // ---- A codec, and the stream of frames for a list of values ----

  ghost predicate Faithful<V(!new)>(encode: V -> Encoding, decode: seq<byte> -> Option<Decoded<V>>) {
    forall v :: !encode(v).failed ==> decode(Payload(encode, v)) == Some(Decoded(v, |Payload(encode, v)|))
  }

  function Payload<V>(encode: V -> Encoding, v: V): seq<byte> {
    Flatten(encode(v).chunks)
  }

  predicate Writable<V>(encode: V -> Encoding, negotiated: nat, v: V) {
    WriteFrame(encode(v), negotiated).Ok?
  }

  predicate AllWritable<V>(encode: V -> Encoding, negotiated: nat, values: seq<V>) {
    forall i: nat :: i < |values| ==> Writable(encode, negotiated, values[i])
  }

  function FrameOf<V>(encode: V -> Encoding, w: nat, v: V): seq<byte>
    requires Writable(encode, w, v)
  {
    WriteFrame(encode(v), w).value
  }

  /** The bytes left on a stream by writing the values one after the other. */
  function Written<V>(encode: V -> Encoding, negotiated: nat, values: seq<V>): seq<byte>
    requires AllWritable(encode, negotiated, values)
  {
    if values == [] then [] else
      assert Writable(encode, negotiated, values[0]);
      FrameOf(encode, negotiated, values[0]) + Written(encode, negotiated, values[1..])
  }

  /** The writer refuses exactly what a reader under the same limit would refuse by its length. */
  lemma WritableIff(encoding: Encoding, negotiated: nat)
    ensures WriteFrame(encoding, negotiated).Ok?
       <==> && !encoding.failed && 1 <= |Flatten(encoding.chunks)| <= negotiated
            && |Flatten(encoding.chunks)| <= 16_777_216
    ensures WriteFrame(encoding, negotiated).Ok? ==>
              var frame := WriteFrame(encoding, negotiated).value;
              |frame| == 4 + |Flatten(encoding.chunks)| && frame[4..] == Flatten(encoding.chunks)
              && LengthIn(frame) == |Flatten(encoding.chunks)|
  {
    if WriteFrame(encoding, negotiated).Ok? {
      LengthReadsBack(|Flatten(encoding.chunks)|);
    }
  }

  /** The length a stream begins with, its most significant byte first. */
  function LengthIn(stream: seq<byte>): int
    requires |stream| >= 4
  {
    ((stream[0] as int * 256 + stream[1]) * 256 + stream[2]) * 256 + stream[3]
  }

  /** The preamble spells the program's name. */
  lemma PreambleSpells()
    ensures |PREAMBLE| == 8 && forall k: nat :: k < 8 ==> PREAMBLE[k] == "FERRODOC"[k] as int
  {
  }

  /** What a reader makes of a stream: cut short, of a bad length, malformed, or a value. */
  lemma ReadFrameIff<V>(stream: seq<byte>, negotiated: nat, decode: seq<byte> -> Option<Decoded<V>>)
    ensures var read := ReadFrame(stream, negotiated, decode);
            if |stream| < 4 then read.result == Err(Io)
            else
              var n := LengthIn(stream);
              if n == 0 || n > negotiated || n > 16_777_216 then
                read.result.Err? && read.result.error.FrameLength? && read.result.error.actual == n
              else if |stream| < 4 + n then read.result == Err(Io)
              else
                && read.rest == stream[4 + n..]
                && match decode(stream[4..4 + n])
                   case None => read.result == Err(MalformedCbor)
                   case Some(d) => read.result == if d.consumed == n then Ok(d.value) else Err(MalformedCbor)
  {
  }

  lemma FrameReadsBack<V(
      !new)>(encode: V -> Encoding, decode: seq<byte> -> Option<Decoded<V>>, w: nat, r: nat, v: V, tail: seq<byte>)
    requires Faithful(encode, decode) && w <= r && Writable(encode, w, v)
    ensures ReadFrame(FrameOf(encode, w, v) + tail, r, decode) == FrameRead(Ok(v), tail)
  {
    var payload := Payload(encode, v);
    var n := |payload|;
    var stream := Frame(payload) + tail;
    assert stream[..4] == BigEndian(n);
    LengthReadsBack(n);
    assert stream[4..4 + n] == payload;
    assert stream[4 + n..] == tail;
    assert Payload(encode, v) == payload;
  }

  /** The converse: what a reader accepts is the frame of an admissible payload, decoded to its last byte. */
  lemma AcceptedIsFrame<V>(stream: seq<byte>, r: nat, decode: seq<byte> -> Option<Decoded<V>>)
    returns (payload: seq<byte>)
    requires ReadFrame(stream, r, decode).result.Ok?
    ensures 1 <= |payload| <= Limit(r)
    ensures stream == Frame(payload) + ReadFrame(stream, r, decode).rest
    ensures decode(payload) == Some(Decoded(ReadFrame(stream, r, decode).result.value, |payload|))
  {
    var n := FromBigEndian(stream[..4]);
    PrefixReadsBack(stream[..4]);
    payload := stream[4..4 + n];
    assert stream == stream[..4] + payload + stream[4 + n..];
  }

  /** A reader gets exactly the list written, whatever the writer's (not larger) limit; then the stream ends. */
  lemma {:induction false} StreamReadsBack<V(!new)>(
    encode: V -> Encoding, decode: seq<byte> -> Option<Decoded<V>>, w: nat, r: nat, values: seq<V>)
    requires Faithful(encode, decode) && w <= r && AllWritable(encode, w, values)
    ensures ReadAll(Written(encode, w, values), r, decode) == StreamRead(values, Io)
  {
    if values != [] {
      var v := values[0];
      assert Writable(encode, w, v);
      ReadPastFrame(encode, decode, w, r, v, Written(encode, w, values[1..]));
      StreamReadsBack(encode, decode, w, r, values[1..]);
      assert values == [v] + values[1..];
    }
  }

  /** How many of the frames lie wholly within the first `k` bytes. */
  function WholeFrames<V>(encode: V -> Encoding, w: nat, values: seq<V>, k: nat): (j: nat)
    requires AllWritable(encode, w, values)
    ensures j <= |values|
  {
    if values == [] then 0
    else
      assert Writable(encode, w, values[0]);
      var n := |FrameOf(encode, w, values[0])|;
      if k < n then 0 else 1 + WholeFrames(encode, w, values[1..], k - n)
  }

  lemma WrittenCons<V>(encode: V -> Encoding, w: nat, v: V, more: seq<V>)
    requires Writable(encode, w, v) && AllWritable(encode, w, more)
    ensures AllWritable(encode, w, [v] + more)
    ensures Written(encode, w, [v] + more) == FrameOf(encode, w, v) + Written(encode, w, more)
  {
    assert ([v] + more)[1..] == more;
  }

  lemma WrittenPrefix<V>(encode: V -> Encoding, w: nat, values: seq<V>, j: nat)
    requires values != [] && AllWritable(encode, w, values) && j < |values|
    ensures Writable(encode, w, values[0])
    ensures |Written(encode, w, values[..j + 1])| ==
            |FrameOf(encode, w, values[0])| + |Written(encode, w, values[1..][..j])|
  {
    assert Writable(encode, w, values[0]);
    assert values[..j + 1] == [values[0]] + values[1..][..j];
    WrittenCons(encode, w, values[0], values[1..][..j]);
  }

  /** The frames counted fit, and the next one does not. */
  lemma {:induction false} WholeFramesMost<V>(encode: V -> Encoding, w: nat, values: seq<V>, k: nat)
    requires AllWritable(encode, w, values)
    ensures var j := WholeFrames(encode, w, values, k);
            && |Written(encode, w, values[..j])| <= k
            && (j < |values| ==> k < |Written(encode, w, values[..j + 1])|)
  {
    if values != [] {
      WrittenPrefix(encode, w, values, 0);
      var n := |FrameOf(encode, w, values[0])|;
      if k >= n {
        WholeFramesMost(encode, w, values[1..], k - n);
        var j := WholeFrames(encode, w, values[1..], k - n);
        WrittenPrefix(encode, w, values, j);
        if j + 1 < |values| {
          WrittenPrefix(encode, w, values, j + 1);
        }
      }
    }
  }

  lemma TruncatedFrame<V(!new)>(
    encode: V -> Encoding, decode: seq<byte> -> Option<Decoded<V>>, w: nat, r: nat, v: V, stream: seq<byte>, k: nat)
    requires w <= r && Writable(encode, w, v)
    requires k < |FrameOf(encode, w, v)| && FrameOf(encode, w, v) <= stream
    ensures ReadFrame(stream[..k], r, decode) == FrameRead(Err(Io), [])
  {
    var n := |Payload(encode, v)|;
    if k >= 4 {
      assert stream[..k][..4] == stream[..4 + n][..4] == BigEndian(n);
      LengthReadsBack(n);
    }
  }

  lemma {:induction false} ReadPastFrame<V(!new)>(
    encode: V -> Encoding, decode: seq<byte> -> Option<Decoded<V>>, w: nat, r: nat, v: V, tail: seq<byte>)
    requires Faithful(encode, decode) && w <= r && Writable(encode, w, v)
    ensures var more := ReadAll(tail, r, decode);
            ReadAll(FrameOf(encode, w, v) + tail, r, decode) == StreamRead([v] + more.values, more.failure)
  {
    FrameReadsBack(encode, decode, w, r, v, tail);
  }

  lemma TakeCons<V>(values: seq<V>, j: nat)
    requires j < |values|
    ensures values[..1 + j] == [values[0]] + values[1..][..j]
  {
  }

  /** Where the cut lies in the first frame, and where it lies past it. */
  lemma CutStream<V(!new)>(
    encode: V -> Encoding, decode: seq<byte> -> Option<Decoded<V>>, w: nat, r: nat, v: V, tail: seq<byte>, k: nat)
    requires Faithful(encode, decode) && w <= r && Writable(encode, w, v)
    requires k <= |FrameOf(encode, w, v)| + |tail|
    ensures var n, cut := |FrameOf(encode, w, v)|, (FrameOf(encode, w, v) + tail)[..k];
            if k < n then ReadAll(cut, r, decode) == StreamRead([], Io)
            else
              var more := ReadAll(tail[..k - n], r, decode);
              ReadAll(cut, r, decode) == StreamRead([v] + more.values, more.failure)
  {
    var frame := FrameOf(encode, w, v);
    if k < |frame| {
      TruncatedFrame(encode, decode, w, r, v, frame + tail, k);
    } else {
      assert (frame + tail)[..k] == frame + tail[..k - |frame|];
      ReadPastFrame(encode, decode, w, r, v, tail[..k - |frame|]);
    }
  }

  /**
   * Cutting a stream anywhere, as killing its writer does, delivers the values whose frames are whole and then an
   * I/O failure: never a wrong value.
   */
  lemma {:induction false} TruncatedStream<V(!new)>(
    encode: V -> Encoding, decode: seq<byte> -> Option<Decoded<V>>, w: nat, r: nat, values: seq<V>, k: nat)
    requires Faithful(encode, decode) && w <= r && AllWritable(encode, w, values)
    requires k <= |Written(encode, w, values)|
    ensures ReadAll(Written(encode, w, values)[..k], r, decode)
         == StreamRead(values[..WholeFrames(encode, w, values, k)], Io)
  {
    if values != [] {
      var v, later := values[0], values[1..];
      assert Writable(encode, w, v);
      var n := |FrameOf(encode, w, v)|;
      CutStream(encode, decode, w, r, v, Written(encode, w, later), k);
      if k >= n {
        TruncatedStream(encode, decode, w, r, later, k - n);
        TakeCons(values, WholeFrames(encode, w, later, k - n));
      }
    }
  }

  /** Two lists of values never leave the same bytes. */
  lemma WrittenInjective<V(!new)>(
    encode: V -> Encoding, decode: seq<byte> -> Option<Decoded<V>>, w: nat, a: seq<V>, b: seq<V>)
    requires Faithful(encode, decode) && AllWritable(encode, w, a) && AllWritable(encode, w, b)
    requires Written(encode, w, a) == Written(encode, w, b)
    ensures a == b
  {
    StreamReadsBack(encode, decode, w, w, a);
    StreamReadsBack(encode, decode, w, w, b);
  }

  // ---- The preamble ----

  function ReadPreamble(stream: seq<byte>): FrameRead<()> {
    if |stream| < |PREAMBLE| then FrameRead(Err(Io), [])
    else FrameRead(if stream[..|PREAMBLE|] == PREAMBLE then Ok(()) else Err(InvalidPreamble), stream[|PREAMBLE|..])
  }

  /** Everything read from a stream that must open with the preamble. */
  function ReadSession<V>(stream: seq<byte>, negotiated: nat, decode: seq<byte> -> Option<Decoded<V>>): StreamRead<V> {
    var opening := ReadPreamble(stream);
    match opening.result
    case Err(e) => StreamRead([], e)
    case Ok(_) => ReadAll(opening.rest, negotiated, decode)
  }

  /**
   * A session delivers exactly the values written after its preamble; of a stream that does not open with the whole
   * preamble it delivers nothing, whatever frames follow.
   */
  lemma SessionReadsBack<V(!new)>(
      encode: V -> Encoding, decode: seq<byte> -> Option<Decoded<V>>, w: nat, r: nat, values: seq<V>, other: seq<byte>)
    requires Faithful(encode, decode) && w <= r && AllWritable(encode, w, values)
    ensures ReadSession(PREAMBLE + Written(encode, w, values), r, decode) == StreamRead(values, Io)
    ensures !(PREAMBLE <= other) ==>
              ReadSession(other, r, decode) == StreamRead([], if |other| < 8 then Io else InvalidPreamble)
    ensures PREAMBLE <= other ==> ReadSession(other, r, decode) == ReadAll(other[8..], r, decode)
  {
    var frames := Written(encode, w, values);
    assert (PREAMBLE + frames)[..|PREAMBLE|] == PREAMBLE && (PREAMBLE + frames)[|PREAMBLE|..] == frames;
    StreamReadsBack(encode, decode, w, r, values);
  }

  // ---- The loops and the bounded buffer ----

  /** The serializer's bounded sink. */
  class BoundedBuffer {
    var bytes: seq<byte>
    const maximum: nat
    var exceeded: bool

    constructor (maximum: nat)
      ensures this.maximum == maximum && bytes == [] && !exceeded
    {
      this.maximum := maximum;
      bytes, exceeded := [], false;
    }

    method Write(chunk: seq<byte>) returns (ok: bool)
      modifies this
      ensures ok == (|chunk| <= maximum - |old(bytes)| || chunk == [])
      ensures ok ==> bytes == old(bytes) + chunk && exceeded == old(exceeded)
      ensures !ok ==> bytes == old(bytes) && exceeded
    {
      if |chunk| > (if |bytes| > maximum then 0 else maximum - |bytes|) {
        exceeded := true;
        return false;
      }
      bytes := bytes + chunk;
      return true;
    }
  }

  /** Serializes through the bounded buffer: however the value is cut into chunks, only its total size matters. */
  method EncodeFrame(encoding: Encoding, negotiated: nat) returns (result: Result<seq<byte>, ProtocolError>)
    ensures result == WriteFrame(encoding, negotiated)
  {
    var maximum := Limit(negotiated);
    var buffer := new BoundedBuffer(maximum);
    var i := 0;
    while i < |encoding.chunks| && !buffer.exceeded
      invariant i <= |encoding.chunks|
      invariant !buffer.exceeded ==> buffer.bytes == Flatten(encoding.chunks[..i]) && |buffer.bytes| <= maximum
      invariant buffer.exceeded ==> |Flatten(encoding.chunks)| > maximum
      invariant buffer.maximum == maximum
    {
      FlattenPush(encoding.chunks, i);
      FlattenGrows(encoding.chunks, i + 1);
      var ok := buffer.Write(encoding.chunks[i]);
      i := i + 1;
    }
    assert encoding.chunks[..|encoding.chunks|] == encoding.chunks;
    if buffer.exceeded {
      return Err(FrameLength(maximum + 1, maximum));
    }
    if encoding.failed {
      return Err(MalformedCbor);
    }
    if |buffer.bytes| == 0 {
      return Err(FrameLength(0, maximum));
    }
    return Ok(BigEndian(|buffer.bytes|) + buffer.bytes);
  }

  lemma ReadAllStep<V>(stream: seq<byte>, negotiated: nat, decode: seq<byte> -> Option<Decoded<V>>, before: seq<V>)
    requires ReadFrame(stream, negotiated, decode).result.Ok?
    ensures var read := ReadFrame(stream, negotiated, decode);
            && |read.rest| < |stream|
            && before + ReadAll(stream, negotiated, decode).values
               == before + [read.result.value] + ReadAll(read.rest, negotiated, decode).values
            && ReadAll(stream, negotiated, decode).failure == ReadAll(read.rest, negotiated, decode).failure
  {
  }

  /** The reader thread: one event for each frame until the first failure. */
  method ReadFrames<V>(stream: seq<byte>, negotiated: nat, decode: seq<byte> -> Option<Decoded<V>>)
    returns (values: seq<V>, failure: ProtocolError)
    ensures StreamRead(values, failure) == ReadAll(stream, negotiated, decode)
  {
    values := [];
    var rest := stream;
    var read := ReadFrame(rest, negotiated, decode);
    while read.result.Ok?
      invariant read == ReadFrame(rest, negotiated, decode)
      invariant ReadAll(stream, negotiated, decode)
             == StreamRead(values + ReadAll(rest, negotiated, decode).values, ReadAll(rest, negotiated, decode).failure)
      decreases |rest|
    {
      ReadAllStep(rest, negotiated, decode, values);
      values := values + [read.result.value];
      rest := read.rest;
      read := ReadFrame(rest, negotiated, decode);
    }
    return values, read.result.error;
  }

  /** The last `limit` bytes. */
  function Tail(bytes: seq<byte>, limit: nat): seq<byte> {
    if |bytes| <= limit then bytes else bytes[|bytes| - limit..]
  }

  /** Trimming after every read keeps the same tail as trimming once. */
  lemma TailPush(bytes: seq<byte>, more: seq<byte>, limit: nat)
    ensures Tail(Tail(bytes, limit) + more, limit) == Tail(bytes + more, limit)
  {
    if |bytes| > limit {
      var dropped := |bytes| - limit;
      assert Tail(bytes, limit) + more == (bytes + more)[dropped..];
    }
  }

  /** The stderr reader: appends every read and drops what exceeds the limit from the front. */
  method DrainStderr(pieces: seq<seq<byte>>, limit: nat) returns (retained: seq<byte>)
    ensures retained == Tail(Flatten(pieces), limit)
  {
    retained := [];
    for i := 0 to |pieces|
      invariant retained == Tail(Flatten(pieces[..i]), limit)
    {
      FlattenPush(pieces, i);
      TailPush(Flatten(pieces[..i]), pieces[i], limit);
      retained := retained + pieces[i];
      if |retained| > limit {
        retained := retained[|retained| - limit..];
      }
    }
    assert pieces[..|pieces|] == pieces;
  }

  // ---- Negotiation ----

  datatype VersionRange = VersionRange(minimum: nat, maximum: nat)

  function Negotiate(local: VersionRange, peer: VersionRange): Option<nat> {
    var minimum := if local.minimum >= peer.minimum then local.minimum else peer.minimum;
    var maximum := if local.maximum <= peer.maximum then local.maximum else peer.maximum;
    if minimum <= maximum then Some(maximum) else None
  }

  predicate Supports(range: VersionRange, version: nat) {
    range.minimum <= version <= range.maximum
  }

  /** Negotiation picks the newest version both sides support, and fails only when there is none. */
  lemma NegotiatesNewest(local: VersionRange, peer: VersionRange, version: nat)
    ensures Negotiate(local, peer) == Negotiate(peer, local)
    ensures Negotiate(local, peer) == Some(version)
       <==> && Supports(local, version) && Supports(peer, version)
            && (forall newer: nat :: Supports(local, newer) && Supports(peer, newer) ==> newer <= version)
    ensures Negotiate(local, peer).None? ==> !(Supports(local, version) && Supports(peer, version))
  {
    var newest := Negotiate(local, peer);
    if newest.Some? {
      assert Supports(local, newest.value) && Supports(peer, newest.value);
    }
  }
}
