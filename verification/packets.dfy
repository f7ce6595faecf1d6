/** DCC packets on the bit level, after section A of NMRA S-9.2: a preamble of 1s, then data bytes,
    each after a '0', then a '1' that ends the packet. The last byte is the XOR of the others. */
module Packets {
  import opened Signal

  /** The `k`th bit of a byte in sending order, most significant first. */
  function Mask(k: nat): bv8
    requires k < 8
  {
    match k
    case 0 => 0x80
    case 1 => 0x40
    case 2 => 0x20
    case 3 => 0x10
    case 4 => 0x08
    case 5 => 0x04
    case 6 => 0x02
    case 7 => 0x01
  }

  predicate Bit(v: bv8, k: nat)
    requires k < 8
  {
    v & Mask(k) != 0
  }

  function ByteBits(v: bv8): (s: Bits)
    ensures |s| == 8
  {
    seq(8, k requires 0 <= k < 8 => Bit(v, k))
  }

  function Part(x: bool, k: nat): bv8
    requires k < 8
  {
    if x then Mask(k) else 0
  }

  function ByteOf(s: Bits): bv8
    requires |s| == 8
  {
    Part(s[0], 0) | Part(s[1], 1) | Part(s[2], 2) | Part(s[3], 3)
    | Part(s[4], 4) | Part(s[5], 5) | Part(s[6], 6) | Part(s[7], 7)
  }

  lemma ByteRoundTrip(v: bv8)
    ensures ByteOf(ByteBits(v)) == v
  {
  }

  /** A packet as received: the length of its preamble and its bytes. */
  datatype Packet = Packet(lead: nat, bytes: seq<bv8>)

  datatype Body = Body(bytes: seq<bv8>, rest: Bits) | BrokenBody

  /** Reads the bytes of a packet; `s` starts with the '0' before the first. */
  function ReadBody(s: Bits): (r: Body)
    ensures r.Body? ==> |r.rest| + 10 <= |s|
    decreases |s|
  {
    if |s| < 10 || s[0] then BrokenBody
    else
      var b := ByteOf(s[1..9]);
      if s[9] then Body([b], s[10..])
      else
        match ReadBody(s[9..])
        case Body(bytes, rest) => Body([b] + bytes, rest)
        case BrokenBody => BrokenBody
  }

  datatype Parsed = Packets(packets: seq<Packet>) | Malformed

  function Prepend(p: Packet, r: Parsed): Parsed {
    if r.Packets? then Packets([p] + r.packets) else Malformed
  }

  /** The least number of 1s a decoder takes for a preamble. */
  const MIN_PREAMBLE: nat := 10

  function Parse(s: Bits): Parsed
    decreases |s|
  {
    var n := LeadingOnes(s);
    if n == |s| then Packets([])
    else if n < MIN_PREAMBLE then Malformed
    else
      match ReadBody(s[n..])
      case Body(bytes, rest) => Prepend(Packet(n, bytes), Parse(rest))
      case BrokenBody => Malformed
  }

  // ----- The bit string of a list of packets -----

  function Framed(bytes: seq<bv8>): (s: Bits)
    ensures |s| == 9 * |bytes|
  {
    if bytes == [] then [] else [false] + ByteBits(bytes[0]) + Framed(bytes[1..])
  }

  function Frame(p: Packet): Bits {
    Ones(p.lead) + Framed(p.bytes) + [true]
  }

  function Stream(ps: seq<Packet>): Bits {
    if ps == [] then [] else Frame(ps[0]) + Stream(ps[1..])
  }

  predicate Proper(ps: seq<Packet>) {
    forall i :: 0 <= i < |ps| ==> ps[i].lead >= MIN_PREAMBLE && ps[i].bytes != []
  }

  lemma {:induction false} ReadFramed(bytes: seq<bv8>, rest: Bits)
    requires bytes != []
    ensures ReadBody(Framed(bytes) + [true] + rest) == Body(bytes, rest)
    decreases |bytes|
  {
    hide ByteOf, ByteBits;
    var b, tail := bytes[0], bytes[1..];
    var s := Framed(bytes) + [true] + rest;
    var more := Framed(tail) + [true] + rest;
    assert s == [false] + ByteBits(b) + more;
    assert s[1..9] == ByteBits(b) && s[9..] == more;
    ByteRoundTrip(b);
    assert s[9] == more[0];
    if tail == [] {
      assert more == [true] + rest;
      assert s[10..] == rest;
    } else {
      assert Framed(tail) == [false] + ByteBits(tail[0]) + Framed(tail[1..]);
      ReadFramed(tail, rest);
      assert [b] + tail == bytes;
    }
  }

  lemma LeadOfOnes(n: nat, s: Bits)
    ensures LeadingOnes(Ones(n) + s) == n + LeadingOnes(s)
    decreases n
  {
    if n == 0 {
      assert Ones(n) + s == s;
    } else {
      assert (Ones(n) + s)[1..] == Ones(n - 1) + s;
      LeadOfOnes(n - 1, s);
    }
  }

  lemma ParseFrame(p: Packet, rest: Bits)
    requires p.lead >= MIN_PREAMBLE && p.bytes != []
    ensures Parse(Frame(p) + rest) == Prepend(p, Parse(rest))
  {
    hide LeadingOnes;
    var body := Framed(p.bytes) + [true] + rest;
    var s := Frame(p) + rest;
    assert s == Ones(p.lead) + body;
    assert !body[0];
    LeadOfOnes(p.lead, body);
    assert LeadingOnes(s) == p.lead;
    assert s[p.lead..] == body;
    ReadFramed(p.bytes, rest);
  }

  lemma OnlyOnes(k: nat)
    ensures LeadingOnes(Ones(k)) == k == |Ones(k)|
  {
    LeadOfOnes(k, []);
    assert Ones(k) + [] == Ones(k);
  }

  lemma ParseOnes(k: nat)
    ensures Parse(Ones(k)) == Packets([])
  {
    hide LeadingOnes, ReadBody, Ones;
    OnlyOnes(k);
  }

  /** A stream of packets, with any number of 1s behind it, parses back to the packets. */
  lemma {:induction false} ParseStream(ps: seq<Packet>, k: nat)
    requires Proper(ps)
    ensures Parse(Stream(ps) + Ones(k)) == Packets(ps)
    decreases |ps|
  {
    hide Parse, Frame, Ones;
    if ps == [] {
      ParseOnes(k);
      assert Stream(ps) + Ones(k) == Ones(k);
    } else {
      var p, tail := ps[0], ps[1..];
      var rest := Stream(tail) + Ones(k);
      assert Stream(ps) + Ones(k) == Frame(p) + rest;
      ParseFrame(p, rest);
      ParseStream(tail, k);
      assert [p] + tail == ps;
    }
  }

  /** 1s in front of a stream belong to the first preamble. */
  function Preceded(n: nat, ps: seq<Packet>): seq<Packet>
    requires ps != []
  {
    [Packet(ps[0].lead + n, ps[0].bytes)] + ps[1..]
  }

  lemma OnesBefore(n: nat, ps: seq<Packet>)
    requires ps != []
    ensures Ones(n) + Stream(ps) == Stream(Preceded(n, ps))
  {
    hide Framed;
    var p := ps[0];
    var q := Preceded(n, ps)[0];
    assert Ones(n) + Ones(p.lead) == Ones(q.lead);
    assert Ones(n) + Frame(p) == Frame(q);
    hide Ones, Frame;
    assert Preceded(n, ps)[1..] == ps[1..];
    assert Ones(n) + (Frame(p) + Stream(ps[1..])) == Ones(n) + Frame(p) + Stream(ps[1..]);
  }

  lemma LeadOfStream(ps: seq<Packet>)
    requires Proper(ps) && ps != []
    ensures LeadingOnes(Stream(ps)) == ps[0].lead < |Stream(ps)|
  {
    var p := ps[0];
    var rest := Framed(p.bytes) + [true] + Stream(ps[1..]);
    assert Stream(ps) == Ones(p.lead) + rest;
    LeadOfOnes(p.lead, rest);
    assert !rest[0];
  }

  // ----- The error detection byte -----

  function XorAll(bytes: seq<bv8>): bv8 {
    if bytes == [] then 0 else XorAll(bytes[..|bytes| - 1]) ^ bytes[|bytes| - 1]
  }

  function Sealed(data: seq<bv8>): (p: seq<bv8>) {
    data + [XorAll(data)]
  }

  lemma SealedChecks(data: seq<bv8>)
    ensures XorAll(Sealed(data)) == 0
  {
    assert Sealed(data)[..|data|] == data;
    var x := XorAll(data);
    assert x ^ x == 0;
  }
}
