/** The DA batch codec: blocks stored on Walrus as Binary Canonical Serialization (BCS). */
module Wire {
  import opened Wrappers

  type Byte = b: nat | b < 256
  type Bytes = seq<Byte>
  type Hash32 = s: Bytes | |s| == 32 witness seq(32, _ => 0)
  type Signature = s: Bytes | |s| == 64 witness seq(64, _ => 0)
  type U64 = n: nat | n <= U64_MAX

  datatype Header = Header(height: U64, parentHash: Hash32, stateRoot: Hash32, timestamp: U64)

  datatype Block = Block(header: Header, data: Bytes, signature: Option<Signature>)

  /** On-blob form of a block: the signature is a byte vector of any length. */
  datatype WireBlock = WireBlock(
    height: U64, parentHash: Hash32, stateRoot: Hash32, timestamp: U64,
    data: Bytes, signature: Option<Bytes>)

  datatype Error = Serde | InvalidBatch

  /** Longest sequence BCS serializes. */
  const MAX_SEQUENCE_LENGTH: nat := 0x7fff_ffff

  function ToWire(b: Block): WireBlock {
    WireBlock(b.header.height, b.header.parentHash, b.header.stateRoot, b.header.timestamp, b.data,
      match b.signature case None => None case Some(s) => Some(s))
  }

  function FromWire(w: WireBlock): Block {
    Block(Header(w.height, w.parentHash, w.stateRoot, w.timestamp), w.data,
      match w.signature
      case None => None
      case Some(s) => if |s| == 64 then Some(s) else None)
  }

  predicate SignatureFits(w: WireBlock) {
    w.signature.Some? ==> |w.signature.value| == 64
  }

  // ---------- BCS primitives: an encoder and a parser each ----------

  function EncodeLe(n: nat, width: nat): (s: Bytes)
    ensures |s| == width
    decreases width, n
  {
    if width == 0 then [] else [n % 256] + EncodeLe(n / 256, width - 1)
  }

  function DecodeLe(s: Bytes): nat {
    if s == [] then 0 else s[0] + 256 * DecodeLe(s[1..])
  }

  function Pow256(k: nat): (p: nat)
    ensures p > 0
  {
    if k == 0 then 1 else 256 * Pow256(k - 1)
  }

  function EncodeUleb(n: nat): (s: Bytes)
    ensures s != []
  {
    if n < 128 then [n] else [n % 128 + 128] + EncodeUleb(n / 128)
  }

  /** ULEB128, at most five bytes, rejecting a zero heaviest digit; `k` bytes are already read. */
  function ParseUleb(s: Bytes, k: nat): Option<(nat, Bytes)>
    requires k <= 5
    decreases 5 - k, s
  {
    if k == 5 || s == [] then None
    else if s[0] < 128 then
      if k > 0 && s[0] == 0 then None else Some((s[0], s[1..]))
    else
      match ParseUleb(s[1..], k + 1)
      case None => None
      case Some((v, rest)) => Some((s[0] - 128 + 128 * v, rest))
  }

  function ParseLength(s: Bytes): Option<(nat, Bytes)> {
    match ParseUleb(s, 0)
    case None => None
    case Some((n, rest)) => if n <= MAX_SEQUENCE_LENGTH then Some((n, rest)) else None
  }

  function ParseU64(s: Bytes): Option<(U64, Bytes)> {
    if |s| < 8 then None
    else DecodeLeBound(s[..8]); Some((DecodeLe(s[..8]), s[8..]))
  }

  function ParseFixed(s: Bytes, n: nat): (r: Option<(Bytes, Bytes)>)
    ensures r.Some? ==> |r.value.0| == n
  {
    if |s| < n then None else Some((s[..n], s[n..]))
  }

  function EncodeVec(v: Bytes): Bytes {
    EncodeUleb(|v|) + v
  }

  function ParseVec(s: Bytes): Option<(Bytes, Bytes)> {
    match ParseLength(s)
    case None => None
    case Some((n, rest)) => ParseFixed(rest, n)
  }

  function EncodeOption(o: Option<Bytes>): Bytes {
    match o
    case None => [0]
    case Some(v) => [1] + EncodeVec(v)
  }

  function ParseOption(s: Bytes): Option<(Option<Bytes>, Bytes)> {
    if s == [] then None
    else if s[0] == 0 then Some((None, s[1..]))
    else if s[0] == 1 then
      match ParseVec(s[1..])
      case None => None
      case Some((v, rest)) => Some((Some(v), rest))
    else None
  }

  function EncodeWireBlock(w: WireBlock): Bytes {
    EncodeLe(w.height, 8) + (w.parentHash + (w.stateRoot + (EncodeLe(w.timestamp, 8) +
      (EncodeVec(w.data) + EncodeOption(w.signature)))))
  }

  function ParseWireBlock(s: Bytes): Option<(WireBlock, Bytes)> {
    match ParseU64(s) case None => None case Some((height, s1)) =>
    match ParseFixed(s1, 32) case None => None case Some((parentHash, s2)) =>
    match ParseFixed(s2, 32) case None => None case Some((stateRoot, s3)) =>
    match ParseU64(s3) case None => None case Some((timestamp, s4)) =>
    match ParseVec(s4) case None => None case Some((data, s5)) =>
    match ParseOption(s5) case None => None case Some((signature, s6)) =>
    Some((WireBlock(height, parentHash, stateRoot, timestamp, data, signature), s6))
  }

  /** The elements of a BCS sequence one after another; `encode` and `parse` are those of one element. */
  function EncodeMany<T>(encode: T -> Bytes, ts: seq<T>): Bytes {
    if ts == [] then [] else encode(ts[0]) + EncodeMany(encode, ts[1..])
  }

  function ParseMany<T>(parse: Bytes -> Option<(T, Bytes)>, n: nat, s: Bytes): Option<(seq<T>, Bytes)> {
    if n == 0 then Some(([], s))
    else
      match parse(s) case None => None case Some((t, rest)) =>
      match ParseMany(parse, n - 1, rest) case None => None case Some((ts, end)) =>
      Some(([t] + ts, end))
  }

  function EncodeAll(ws: seq<WireBlock>): Bytes {
    EncodeMany(EncodeWireBlock, ws)
  }

  function ParseAll(n: nat, s: Bytes): Option<(seq<WireBlock>, Bytes)> {
    ParseMany(ParseWireBlock, n, s)
  }

  // ---------- the codec ----------

  predicate Fits(w: WireBlock) {
    && |w.data| <= MAX_SEQUENCE_LENGTH
    && (w.signature.Some? ==> |w.signature.value| <= MAX_SEQUENCE_LENGTH)
  }

  function WireOf(blocks: seq<Block>): (ws: seq<WireBlock>)
    ensures |ws| == |blocks|
    ensures forall i :: 0 <= i < |ws| ==> ws[i] == ToWire(blocks[i])
  {
    seq(|blocks|, i requires 0 <= i < |blocks| => ToWire(blocks[i]))
  }

  /** Whether the serializer accepts the batch: every sequence is within the BCS limit. */
  predicate Encodable(blocks: seq<Block>) {
    |blocks| <= MAX_SEQUENCE_LENGTH && forall b :: b in blocks ==> |b.data| <= MAX_SEQUENCE_LENGTH
  }

  function EncodeWire(ws: seq<WireBlock>): Bytes {
    EncodeUleb(|ws|) + EncodeAll(ws)
  }

  function Encode(blocks: seq<Block>): (r: Result<Bytes, Error>)
    ensures r.Ok? <==> Encodable(blocks)
  {
    if Encodable(blocks) then Ok(EncodeWire(WireOf(blocks))) else Err(Serde)
  }

  /** The deserializer, which rejects trailing bytes. */
  function ParseBatch(s: Bytes): Option<seq<WireBlock>> {
    match ParseLength(s) case None => None case Some((n, rest)) =>
    match ParseAll(n, rest) case None => None case Some((ws, end)) =>
    if end == [] then Some(ws) else None
  }

  function Decode(s: Bytes): Result<seq<Block>, Error> {
    match ParseBatch(s)
    case None => Err(Serde)
    case Some(ws) =>
      if ws == [] || exists i :: 0 <= i < |ws| && !SignatureFits(ws[i]) then Err(InvalidBatch)
      else Ok(seq(|ws|, i requires 0 <= i < |ws| => FromWire(ws[i])))
  }

  // ---------- parsing what was encoded gives the value back ----------

  lemma {:induction false} DecodeLeBound(s: Bytes)
    ensures DecodeLe(s) < Pow256(|s|)
    ensures |s| == 8 ==> DecodeLe(s) <= U64_MAX
  {
    if s != [] {
      DecodeLeBound(s[1..]);
    }
    if |s| == 8 {
      assert Pow256(8) == 256 * (256 * (256 * (256 * Pow256(4))));
    }
  }

  lemma {:induction false} LeRoundTrip(n: nat, width: nat)
    requires n < Pow256(width)
    ensures DecodeLe(EncodeLe(n, width)) == n
  {
    if width > 0 {
      LeRoundTrip(n / 256, width - 1);
      assert EncodeLe(n, width)[1..] == EncodeLe(n / 256, width - 1);
    }
  }

  lemma {:induction false} LeCanonical(s: Bytes)
    ensures EncodeLe(DecodeLe(s), |s|) == s
  {
    if s != [] {
      LeCanonical(s[1..]);
      assert [s[0]] + s[1..] == s;
      assert DecodeLe(s) % 256 == s[0] && DecodeLe(s) / 256 == DecodeLe(s[1..]);
    }
  }

  function Pow128(k: nat): (p: nat)
    ensures p > 0
  {
    if k == 0 then 1 else 128 * Pow128(k - 1)
  }

  lemma {:induction false} UlebRoundTrip(n: nat, rest: Bytes, k: nat)
    requires k <= 5 && n < Pow128(5 - k) && (k > 0 ==> n > 0)
    ensures ParseUleb(EncodeUleb(n) + rest, k) == Some((n, rest))
    decreases n
  {
    if n < 128 {
      assert ([n] + rest)[1..] == rest;
    } else {
      assert n == n % 128 + 128 * (n / 128) && 0 < n / 128 < Pow128(4 - k);
      UlebRoundTrip(n / 128, rest, k + 1);
      assert (EncodeUleb(n) + rest)[1..] == EncodeUleb(n / 128) + rest;
    }
  }

  lemma {:induction false} UlebCanonical(s: Bytes, k: nat)
    requires k <= 5 && ParseUleb(s, k).Some?
    ensures var (n, rest) := ParseUleb(s, k).value; s == EncodeUleb(n) + rest && (k > 0 ==> n > 0)
    decreases 5 - k
  {
    if s[0] < 128 {
      assert s == [s[0]] + s[1..];
    } else {
      UlebCanonical(s[1..], k + 1);
      var (v, rest) := ParseUleb(s[1..], k + 1).value;
      var n := s[0] - 128 + 128 * v;
      assert n % 128 == s[0] - 128 && n / 128 == v;
      assert s == [s[0]] + s[1..];
      assert EncodeUleb(n) + rest == [s[0]] + (EncodeUleb(v) + rest);
    }
  }

  lemma LengthRoundTrip(n: nat, rest: Bytes)
    requires n <= MAX_SEQUENCE_LENGTH
    ensures ParseLength(EncodeUleb(n) + rest) == Some((n, rest))
  {
    assert Pow128(5) == 128 * (128 * (128 * Pow128(2)));
    UlebRoundTrip(n, rest, 0);
  }

  lemma U64RoundTrip(n: U64, rest: Bytes)
    ensures ParseU64(EncodeLe(n, 8) + rest) == Some((n, rest))
  {
    assert Pow256(8) == 256 * (256 * (256 * (256 * Pow256(4))));
    LeRoundTrip(n, 8);
    assert (EncodeLe(n, 8) + rest)[..8] == EncodeLe(n, 8);
    assert (EncodeLe(n, 8) + rest)[8..] == rest;
  }

  lemma FixedRoundTrip(v: Bytes, rest: Bytes)
    ensures ParseFixed(v + rest, |v|) == Some((v, rest))
  {
    assert (v + rest)[..|v|] == v && (v + rest)[|v|..] == rest;
  }

  lemma VecRoundTrip(v: Bytes, rest: Bytes)
    requires |v| <= MAX_SEQUENCE_LENGTH
    ensures ParseVec(EncodeVec(v) + rest) == Some((v, rest))
  {
    assert EncodeVec(v) + rest == EncodeUleb(|v|) + (v + rest);
    LengthRoundTrip(|v|, v + rest);
    FixedRoundTrip(v, rest);
  }

  lemma OptionRoundTrip(o: Option<Bytes>, rest: Bytes)
    requires o.Some? ==> |o.value| <= MAX_SEQUENCE_LENGTH
    ensures ParseOption(EncodeOption(o) + rest) == Some((o, rest))
  {
    match o
    case None => assert ([0] + rest)[1..] == rest;
    case Some(v) =>
      VecRoundTrip(v, rest);
      assert (EncodeOption(o) + rest)[1..] == EncodeVec(v) + rest;
  }

  lemma Assoc(a: Bytes, b: Bytes, c: Bytes)
    ensures (a + b) + c == a + (b + c)
  {
  }

  lemma WireBlockThen(w: WireBlock, rest: Bytes)
    ensures EncodeWireBlock(w) + rest ==
            EncodeLe(w.height, 8) + (w.parentHash + (w.stateRoot + (EncodeLe(w.timestamp, 8) +
              (EncodeVec(w.data) + (EncodeOption(w.signature) + rest)))))
  {
    var e5 := EncodeVec(w.data) + EncodeOption(w.signature);
    var e4 := EncodeLe(w.timestamp, 8) + e5;
    var e3 := w.stateRoot + e4;
    var e2 := w.parentHash + e3;
    Assoc(EncodeLe(w.height, 8), e2, rest);
    Assoc(w.parentHash, e3, rest);
    Assoc(w.stateRoot, e4, rest);
    Assoc(EncodeLe(w.timestamp, 8), e5, rest);
    Assoc(EncodeVec(w.data), EncodeOption(w.signature), rest);
  }

  lemma WireBlockRoundTrip(w: WireBlock, rest: Bytes)
    requires Fits(w)
    ensures ParseWireBlock(EncodeWireBlock(w) + rest) == Some((w, rest))
  {
    WireBlockThen(w, rest);
    var s5 := EncodeOption(w.signature) + rest;
    var s4 := EncodeVec(w.data) + s5;
    var s3 := EncodeLe(w.timestamp, 8) + s4;
    var s2 := w.stateRoot + s3;
    var s1 := w.parentHash + s2;
    U64RoundTrip(w.height, s1);
    FixedRoundTrip(w.parentHash, s2);
    FixedRoundTrip(w.stateRoot, s3);
    U64RoundTrip(w.timestamp, s4);
    VecRoundTrip(w.data, s5);
    OptionRoundTrip(w.signature, rest);
  }

  /** One element survives, whatever follows it. */
  ghost predicate Survives<T(!new)>(encode: T -> Bytes, parse: Bytes -> Option<(T, Bytes)>, t: T) {
    forall rest: Bytes :: parse(encode(t) + rest) == Some((t, rest))
  }

  lemma {:induction false} ManyRoundTrip<T(!new)>(encode: T -> Bytes, parse: Bytes -> Option<(T, Bytes)>,
                                                  ts: seq<T>, rest: Bytes)
    requires forall t :: t in ts ==> Survives(encode, parse, t)
    ensures ParseMany(parse, |ts|, EncodeMany(encode, ts) + rest) == Some((ts, rest))
  {
    if ts == [] {
      assert EncodeMany(encode, ts) + rest == rest;
    } else {
      assert Survives(encode, parse, ts[0]);
      Assoc(encode(ts[0]), EncodeMany(encode, ts[1..]), rest);
      ManyRoundTrip(encode, parse, ts[1..], rest);
      assert [ts[0]] + ts[1..] == ts;
    }
  }

  lemma AllRoundTrip(ws: seq<WireBlock>, rest: Bytes)
    requires forall w :: w in ws ==> Fits(w)
    ensures ParseAll(|ws|, EncodeAll(ws) + rest) == Some((ws, rest))
  {
    forall w | w in ws ensures Survives(EncodeWireBlock, ParseWireBlock, w) {
      forall rest: Bytes ensures ParseWireBlock(EncodeWireBlock(w) + rest) == Some((w, rest)) {
        WireBlockRoundTrip(w, rest);
      }
    }
    ManyRoundTrip(EncodeWireBlock, ParseWireBlock, ws, rest);
  }

  lemma BatchRoundTrip(ws: seq<WireBlock>)
    requires |ws| <= MAX_SEQUENCE_LENGTH && forall w :: w in ws ==> Fits(w)
    ensures ParseBatch(EncodeWire(ws)) == Some(ws)
  {
    LengthRoundTrip(|ws|, EncodeAll(ws));
    AllRoundTrip(ws, []);
    assert EncodeAll(ws) + [] == EncodeAll(ws);
  }

  // ---------- what parses is the encoding of its value ----------

  lemma VecCanonical(s: Bytes)
    requires ParseVec(s).Some?
    ensures var (v, rest) := ParseVec(s).value; s == EncodeVec(v) + rest && |v| <= MAX_SEQUENCE_LENGTH
  {
    UlebCanonical(s, 0);
    var (n, body) := ParseLength(s).value;
    assert body == body[..n] + body[n..];
  }

  lemma OptionCanonical(s: Bytes)
    requires ParseOption(s).Some?
    ensures var (o, rest) := ParseOption(s).value;
            s == EncodeOption(o) + rest && (o.Some? ==> |o.value| <= MAX_SEQUENCE_LENGTH)
  {
    assert s == [s[0]] + s[1..];
    if s[0] == 1 {
      VecCanonical(s[1..]);
    }
  }

  lemma U64Canonical(s: Bytes)
    requires ParseU64(s).Some?
    ensures s == EncodeLe(ParseU64(s).value.0, 8) + ParseU64(s).value.1
  {
    LeCanonical(s[..8]);
    assert s == s[..8] + s[8..];
  }

  lemma FixedCanonical(s: Bytes, n: nat)
    requires ParseFixed(s, n).Some?
    ensures s == ParseFixed(s, n).value.0 + ParseFixed(s, n).value.1
  {
    assert s == s[..n] + s[n..];
  }

  lemma WireBlockCanonical(s: Bytes)
    requires ParseWireBlock(s).Some?
    ensures s == EncodeWireBlock(ParseWireBlock(s).value.0) + ParseWireBlock(s).value.1
    ensures Fits(ParseWireBlock(s).value.0)
  {
    WireBlockThen(ParseWireBlock(s).value.0, ParseWireBlock(s).value.1);
    var s1 := ParseU64(s).value.1;
    var s2 := ParseFixed(s1, 32).value.1;
    var s3 := ParseFixed(s2, 32).value.1;
    var s4 := ParseU64(s3).value.1;
    var s5 := ParseVec(s4).value.1;
    U64Canonical(s);
    FixedCanonical(s1, 32);
    FixedCanonical(s2, 32);
    U64Canonical(s3);
    VecCanonical(s4);
    OptionCanonical(s5);
  }

  /** What parses as one element is the encoding of it and then the rest. */
  ghost predicate Canonical<T(!new)>(encode: T -> Bytes, parse: Bytes -> Option<(T, Bytes)>, fits: T -> bool) {
    forall s: Bytes :: parse(s).Some? ==>
      s == encode(parse(s).value.0) + parse(s).value.1 && fits(parse(s).value.0)
  }

  lemma {:induction false} ManyCanonical<T(!new)>(encode: T -> Bytes, parse: Bytes -> Option<(T, Bytes)>,
                                                  fits: T -> bool, n: nat, s: Bytes)
    requires Canonical(encode, parse, fits) && ParseMany(parse, n, s).Some?
    ensures var (ts, end) := ParseMany(parse, n, s).value;
      s == EncodeMany(encode, ts) + end && |ts| == n && forall t :: t in ts ==> fits(t)
  {
    if n > 0 {
      var (t, rest) := parse(s).value;
      ManyCanonical(encode, parse, fits, n - 1, rest);
      var (ts, end) := ParseMany(parse, n - 1, rest).value;
      assert ([t] + ts)[1..] == ts;
      Assoc(encode(t), EncodeMany(encode, ts), end);
    }
  }

  lemma AllCanonical(n: nat, s: Bytes)
    requires ParseAll(n, s).Some?
    ensures s == EncodeAll(ParseAll(n, s).value.0) + ParseAll(n, s).value.1
    ensures |ParseAll(n, s).value.0| == n
    ensures forall w :: w in ParseAll(n, s).value.0 ==> Fits(w)
  {
    BlocksCanonical();
    ManyCanonical(EncodeWireBlock, ParseWireBlock, Fits, n, s);
  }

  lemma BlocksCanonical()
    ensures Canonical(EncodeWireBlock, ParseWireBlock, Fits)
  {
    forall s: Bytes | ParseWireBlock(s).Some?
      ensures s == EncodeWireBlock(ParseWireBlock(s).value.0) + ParseWireBlock(s).value.1 &&
              Fits(ParseWireBlock(s).value.0)
    {
      WireBlockCanonical(s);
    }
  }

  lemma BatchCanonical(s: Bytes)
    requires ParseBatch(s).Some?
    ensures var ws := ParseBatch(s).value;
            s == EncodeWire(ws) && |ws| <= MAX_SEQUENCE_LENGTH && forall w :: w in ws ==> Fits(w)
  {
    UlebCanonical(s, 0);
    var (n, rest) := ParseLength(s).value;
    AllCanonical(n, rest);
    var (ws, end) := ParseAll(n, rest).value;
    assert EncodeAll(ws) + end == EncodeAll(ws);
  }

  // ---------- the promises of the codec ----------

  lemma BlockSurvivesWire(b: Block)
    ensures SignatureFits(ToWire(b)) && FromWire(ToWire(b)) == b
  {
  }

  lemma WireSurvivesBlock(w: WireBlock)
    requires SignatureFits(w)
    ensures ToWire(FromWire(w)) == w
  {
  }

  lemma WireFits(blocks: seq<Block>)
    requires Encodable(blocks)
    ensures forall w :: w in WireOf(blocks) ==> Fits(w)
  {
    forall w | w in WireOf(blocks) ensures Fits(w) {
      var i :| 0 <= i < |blocks| && WireOf(blocks)[i] == w;
      assert blocks[i] in blocks;
    }
  }

  /** Reading back a published batch gives the batch, signatures included. */
  lemma DecodeInvertsEncode(blocks: seq<Block>)
    requires blocks != [] && Encodable(blocks)
    ensures Decode(Encode(blocks).value) == Ok(blocks)
  {
    var ws := WireOf(blocks);
    WireFits(blocks);
    BatchRoundTrip(ws);
    forall i | 0 <= i < |ws| ensures SignatureFits(ws[i]) && FromWire(ws[i]) == blocks[i] {
      BlockSurvivesWire(blocks[i]);
    }
    assert seq(|ws|, i requires 0 <= i < |ws| => FromWire(ws[i])) == blocks;
  }

  /** Bytes that decode are exactly the encoding of what they decode to, so no two byte strings
      stand for one batch. */
  lemma EncodeInvertsDecode(s: Bytes)
    requires Decode(s).Ok?
    ensures Decode(s).value != []
    ensures Encode(Decode(s).value) == Ok(s)
  {
    BatchCanonical(s);
    var ws := ParseBatch(s).value;
    var blocks := Decode(s).value;
    forall i | 0 <= i < |ws| ensures blocks[i] == FromWire(ws[i]) && ToWire(blocks[i]) == ws[i] && Fits(ws[i]) {
      assert ws[i] in ws && SignatureFits(ws[i]);
      WireSurvivesBlock(ws[i]);
    }
    assert WireOf(blocks) == ws;
    assert Encodable(blocks);
  }

  /** A well-formed blob is accepted exactly when it holds a block and every signature in it is
      absent or 64 bytes long. */
  lemma DecodeAcceptsExactly(ws: seq<WireBlock>)
    requires |ws| <= MAX_SEQUENCE_LENGTH && forall w :: w in ws ==> Fits(w)
    ensures Decode(EncodeWire(ws)).Ok? <==> ws != [] && forall w :: w in ws ==> SignatureFits(w)
    ensures Decode(EncodeWire(ws)).Err? ==> Decode(EncodeWire(ws)).error == InvalidBatch
  {
    BatchRoundTrip(ws);
  }

  /** Distinct batches have distinct encodings. */
  lemma EncodeInjective(a: seq<Block>, b: seq<Block>)
    requires a != [] && b != [] && Encodable(a) && Encodable(b)
    requires Encode(a) == Encode(b)
    ensures a == b
  {
    DecodeInvertsEncode(a);
    DecodeInvertsEncode(b);
  }

  // ---------- the layout itself ----------

  function Power(base: nat, k: nat): nat {
    if k == 0 then 1 else base * Power(base, k - 1)
  }

  /** Digit `i` weighs the `i`-th power of the base. */
  function Number(digits: seq<nat>, base: nat): nat {
    if digits == [] then 0
    else Number(digits[..|digits| - 1], base) + digits[|digits| - 1] * Power(base, |digits| - 1)
  }

  lemma {:induction false} NumberThen(d: nat, digits: seq<nat>, base: nat)
    ensures Number([d] + digits, base) == d + base * Number(digits, base)
    decreases |digits|
  {
    if digits == [] {
      assert ([d] + digits)[..0] == [];
      assert Power(base, 0) == 1;
    } else {
      var before, last, k := digits[..|digits| - 1], digits[|digits| - 1], |digits| - 1;
      NumberThen(d, before, base);
      assert ([d] + digits)[..|digits|] == [d] + before;
      var p := Power(base, k);
      assert Power(base, k + 1) == base * p;
      Regroup(base, Number(before, base), last, p);
    }
  }

  lemma Regroup(base: nat, x: nat, d: nat, p: nat)
    ensures base * x + d * (base * p) == base * (x + d * p)
  {
    assert d * (base * p) == base * (d * p);
  }

  /** Eight bytes, the lowest first. */
  predicate LittleEndian(s: Bytes, n: nat) {
    |s| == 8 && Number(s, 256) == n
  }

  lemma {:induction false} LeNumber(s: Bytes)
    ensures DecodeLe(s) == Number(s, 256)
  {
    if s != [] {
      LeNumber(s[1..]);
      NumberThen(s[0], s[1..], 256);
      assert [s[0]] + s[1..] == s;
    }
  }

  lemma LeDigits(n: U64)
    ensures LittleEndian(EncodeLe(n, 8), n)
  {
    assert Pow256(8) == 256 * (256 * (256 * (256 * Pow256(4))));
    LeRoundTrip(n, 8);
    LeNumber(EncodeLe(n, 8));
  }

  function Septets(s: Bytes): (ds: seq<nat>)
    ensures |ds| == |s|
  {
    seq(|s|, i requires 0 <= i < |s| => s[i] % 128)
  }

  /** Seven bits a byte, the lowest first, with a high bit on all bytes but the last, and no byte to
      spare. */
  predicate Leb128(s: Bytes, n: nat) {
    && s != [] && Number(Septets(s), 128) == n
    && (forall i :: 0 <= i < |s| ==> (s[i] < 128 <==> i == |s| - 1))
    && (|s| > 1 ==> s[|s| - 1] > 0)
  }

  lemma LebThen(digit: nat, rest: Bytes, n: nat)
    requires digit < 128 && Leb128(rest, n) && n > 0
    ensures Leb128([digit + 128] + rest, digit + 128 * n)
  {
    var s := [digit + 128] + rest;
    assert Septets(s) == [digit] + Septets(rest);
    NumberThen(digit, Septets(rest), 128);
    if |rest| == 1 {
      assert rest[0] > 0 by {
        assert Septets(rest) == [rest[0] % 128] + [];
        NumberThen(rest[0] % 128, [], 128);
      }
    }
  }

  lemma {:induction false} UlebDigits(n: nat)
    ensures Leb128(EncodeUleb(n), n)
  {
    if n < 128 {
      assert Septets(EncodeUleb(n)) == [n] + [];
      NumberThen(n, [], 128);
    } else {
      UlebDigits(n / 128);
      LebThen(n % 128, EncodeUleb(n / 128), n / 128);
    }
  }

  /** The header fields lie at fixed offsets in the order of the struct, then the data with its length,
      then the signature with its tag and length. */
  lemma BlockLayout(b: Block)
    ensures var s := EncodeWireBlock(ToWire(b));
      && |s| > 80
      && LittleEndian(s[..8], b.header.height) && s[8..40] == b.header.parentHash
      && s[40..72] == b.header.stateRoot && LittleEndian(s[72..80], b.header.timestamp)
      && s[80..] == EncodeUleb(|b.data|) + b.data +
                    (match b.signature case None => [0] case Some(sig) => [1, 64] + sig)
  {
    LeDigits(b.header.height);
    LeDigits(b.header.timestamp);
    var s := EncodeWireBlock(ToWire(b));
    var h, t := EncodeLe(b.header.height, 8), EncodeLe(b.header.timestamp, 8);
    assert s[..8] == h;
    assert s[72..80] == t;
    assert s[80..] == EncodeVec(b.data) + EncodeOption(ToWire(b).signature);
    if b.signature.Some? {
      assert EncodeOption(ToWire(b).signature) == [1] + (EncodeUleb(64) + b.signature.value);
      assert EncodeUleb(64) == [64];
      assert [1] + ([64] + b.signature.value) == [1, 64] + b.signature.value;
    }
  }

  function Joined<T>(encode: T -> Bytes, ts: seq<T>): Bytes {
    if ts == [] then [] else Joined(encode, ts[..|ts| - 1]) + encode(ts[|ts| - 1])
  }

  lemma {:induction false} ManyThen<T>(encode: T -> Bytes, ts: seq<T>, t: T)
    ensures EncodeMany(encode, ts + [t]) == EncodeMany(encode, ts) + encode(t)
    decreases |ts|
  {
    if ts == [] {
      assert ts + [t] == [t] && [t][1..] == [];
      assert EncodeMany(encode, [t]) == encode(t) + EncodeMany(encode, [t][1..]);
    } else {
      ManyThen(encode, ts[1..], t);
      assert (ts + [t])[1..] == ts[1..] + [t];
    }
  }

  lemma {:induction false} ManyJoined<T>(encode: T -> Bytes, ts: seq<T>)
    ensures EncodeMany(encode, ts) == Joined(encode, ts)
    decreases |ts|
  {
    if ts != [] {
      var before, last := ts[..|ts| - 1], ts[|ts| - 1];
      ManyJoined(encode, before);
      ManyThen(encode, before, last);
      assert ts == before + [last];
    }
  }

  /** A batch is the number of its blocks and then the blocks, in order. */
  lemma BatchLayout(blocks: seq<Block>)
    requires Encodable(blocks)
    ensures var s := Encode(blocks).value;
      var count := |s| - |Joined(EncodeWireBlock, WireOf(blocks))|;
      count > 0 && s[count..] == Joined(EncodeWireBlock, WireOf(blocks)) && Leb128(s[..count], |blocks|)
  {
    ManyJoined(EncodeWireBlock, WireOf(blocks));
    UlebDigits(|blocks|);
    var s := Encode(blocks).value;
    assert s[..|EncodeUleb(|blocks|)|] == EncodeUleb(|blocks|);
  }
}
