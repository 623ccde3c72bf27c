/** The byte strings from which content identities are hashed (crates/ferrodoc-core/src/id.rs). */
module Identity {
  import opened Framing

  /** The number of values of a `width`-byte integer. */
  function Range(width: nat): (r: nat)
    ensures r >= 1
  {
    if width == 0 then 1 else 256 * Range(width - 1)
  }

  /** `n` as `width` bytes, most significant first. */
  function BigEndianBytes(n: nat, width: nat): (b: seq<byte>)
    ensures |b| == width
  {
    if width == 0 then [] else BigEndianBytes(n / 256, width - 1) + [n % 256]
  }

  lemma {:induction false} BigEndianInjective(a: nat, b: nat, width: nat)
    requires a < Range(width) && b < Range(width)
    requires BigEndianBytes(a, width) == BigEndianBytes(b, width)
    ensures a == b
  {
    if width > 0 {
      var x, y := BigEndianBytes(a, width), BigEndianBytes(b, width);
      assert x[width - 1] == a % 256 && y[width - 1] == b % 256;
      assert x[..width - 1] == BigEndianBytes(a / 256, width - 1);
      assert y[..width - 1] == BigEndianBytes(b / 256, width - 1);
      BigEndianInjective(a / 256, b / 256, width - 1);
    }
  }

  /** What bytes are worth, most significant first. */
  ghost function Worth(bytes: seq<byte>): int {
    if bytes == [] then 0 else Worth(bytes[..|bytes| - 1]) * 256 + bytes[|bytes| - 1]
  }

  lemma {:induction false} BigEndianMeans(n: nat, width: nat)
    requires n < Range(width)
    ensures Worth(BigEndianBytes(n, width)) == n
  {
    if width > 0 {
      BigEndianMeans(n / 256, width - 1);
      assert BigEndianBytes(n, width)[..width - 1] == BigEndianBytes(n / 256, width - 1);
    }
  }

  /** The part lies here, behind its length in eight bytes. */
  ghost predicate PartLies(bytes: seq<byte>, at: nat, part: seq<byte>) {
    at + 8 + |part| <= |bytes| && Worth(bytes[at..at + 8]) == |part| && bytes[at + 8..at + 8 + |part|] == part
  }

  /** Every part lies in what is hashed. */
  lemma {:induction false} PartAt(parts: seq<seq<byte>>, i: nat) returns (at: nat)
    requires i < |parts| && Encodable(parts)
    ensures PartLies(EncodeParts(parts), at, parts[i])
  {
    if i == 0 {
      at := 0;
      BigEndianMeans(|parts[0]|, 8);
      assert EncodeParts(parts)[..8] == BigEndianBytes(|parts[0]|, 8);
    } else {
      var next := PartAt(parts[1..], i - 1);
      at := 8 + |parts[0]| + next;
      PartLater(EncodePart(parts[0]), EncodeParts(parts[1..]), next, parts[i]);
    }
  }

  lemma PartLater(before: seq<byte>, rest: seq<byte>, at: nat, part: seq<byte>)
    requires PartLies(rest, at, part)
    ensures PartLies(before + rest, |before| + at, part)
  {
    var n, whole := |before|, before + rest;
    assert whole[n + at..n + at + 8] == rest[at..at + 8];
    assert whole[n + at + 8..n + at + 8 + |part|] == rest[at + 8..at + 8 + |part|];
  }

  const LENGTH_WIDTH: nat := 8

  function EncodePart(part: seq<byte>): seq<byte> {
    BigEndianBytes(|part|, LENGTH_WIDTH) + part
  }

  function EncodeParts(parts: seq<seq<byte>>): seq<byte> {
    if parts == [] then [] else EncodePart(parts[0]) + EncodeParts(parts[1..])
  }

  /** What is hashed: the prefix, a zero byte, then each part behind its length. */
  function Preimage(prefix: seq<byte>, parts: seq<seq<byte>>): seq<byte> {
    prefix + [0] + EncodeParts(parts)
  }

  predicate ZeroFree(prefix: seq<byte>) {
    0 !in prefix
  }

  predicate Encodable(parts: seq<seq<byte>>) {
    forall i: nat :: i < |parts| ==> |parts[i]| < Range(LENGTH_WIDTH)
  }

  lemma {:induction false} EncodePartsInjective(a: seq<seq<byte>>, b: seq<seq<byte>>)
    requires Encodable(a) && Encodable(b) && EncodeParts(a) == EncodeParts(b)
    ensures a == b
  {
    if a != [] && b != [] {
      FirstPartInjective(a[0], EncodeParts(a[1..]), b[0], EncodeParts(b[1..]));
      EncodePartsInjective(a[1..], b[1..]);
      assert a == [a[0]] + a[1..] && b == [b[0]] + b[1..];
    }
  }

  lemma FirstPartInjective(p: seq<byte>, x: seq<byte>, q: seq<byte>, y: seq<byte>)
    requires |p| < Range(LENGTH_WIDTH) && |q| < Range(LENGTH_WIDTH)
    requires EncodePart(p) + x == EncodePart(q) + y
    ensures p == q && x == y
  {
    var s, t := EncodePart(p) + x, EncodePart(q) + y;
    assert s[..LENGTH_WIDTH] == BigEndianBytes(|p|, LENGTH_WIDTH);
    assert t[..LENGTH_WIDTH] == BigEndianBytes(|q|, LENGTH_WIDTH);
    BigEndianInjective(|p|, |q|, LENGTH_WIDTH);
    var end := LENGTH_WIDTH + |p|;
    assert s[LENGTH_WIDTH..end] == p && t[LENGTH_WIDTH..end] == q;
    assert s[end..] == x && t[end..] == y;
  }

  /** The zero that ends a shorter prefix would lie inside the longer one. */
  lemma ZeroInside(p: seq<byte>, x: seq<byte>, q: seq<byte>, y: seq<byte>)
    requires p + [0] + x == q + [0] + y
    ensures |p| < |q| ==> 0 in q
  {
    if |p| < |q| {
      assert (p + [0] + x)[|p|] == 0;
      assert (q + [0] + y)[|p|] == q[|p|];
    }
  }

  /** Different inputs are never hashed as the same bytes. */
  lemma PreimageInjective(prefix: seq<byte>, parts: seq<seq<byte>>, otherPrefix: seq<byte>, otherParts: seq<seq<byte>>)
    requires ZeroFree(prefix) && ZeroFree(otherPrefix) && Encodable(parts) && Encodable(otherParts)
    requires Preimage(prefix, parts) == Preimage(otherPrefix, otherParts)
    ensures prefix == otherPrefix && parts == otherParts
  {
    var s, t := Preimage(prefix, parts), Preimage(otherPrefix, otherParts);
    ZeroInside(prefix, EncodeParts(parts), otherPrefix, EncodeParts(otherParts));
    ZeroInside(otherPrefix, EncodeParts(otherParts), prefix, EncodeParts(parts));
    assert s[..|prefix|] == prefix && t[..|prefix|] == otherPrefix;
    assert s[|prefix| + 1..] == EncodeParts(parts) && t[|prefix| + 1..] == EncodeParts(otherParts);
    EncodePartsInjective(parts, otherParts);
  }

  lemma {:induction false} EncodePartsPush(parts: seq<seq<byte>>, i: nat)
    requires i < |parts|
    ensures EncodeParts(parts[..i + 1]) == EncodeParts(parts[..i]) + EncodePart(parts[i])
    decreases i
  {
    if i == 0 {
      assert parts[..1][1..] == [];
      assert EncodeParts(parts[..1]) == EncodePart(parts[0]);
    } else {
      assert parts[..i + 1][1..] == parts[1..][..i];
      assert parts[..i][1..] == parts[1..][..i - 1];
      EncodePartsPush(parts[1..], i - 1);
    }
  }

  method DerivePreimage(prefix: seq<byte>, parts: seq<seq<byte>>) returns (bytes: seq<byte>)
    ensures bytes == Preimage(prefix, parts)
  {
    bytes := prefix + [0];
    for i := 0 to |parts|
      invariant bytes == prefix + [0] + EncodeParts(parts[..i])
    {
      EncodePartsPush(parts, i);
      bytes := bytes + BigEndianBytes(|parts[i]|, LENGTH_WIDTH) + parts[i];
    }
    assert parts[..|parts|] == parts;
  }
}
