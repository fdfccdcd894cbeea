/** The chat wire format: a big-endian 16-bit message id, a big-endian 16-bit length, the body. */
module Frames {
  import opened Bytes

  datatype Frame = Frame(id: nat, body: bytes)

  const HEAD := 4

  function Header(id: nat, len: nat): bytes
    requires id < 0x1_0000 && len < 0x1_0000
  {
    [id / 256, id % 256, len / 256, len % 256]
  }

  function Word(hi: byte, lo: byte): nat {
    var h: int, l: int := hi, lo;
    h * 256 + l
  }

  predicate Sendable(f: Frame) {
    f.id < 0x1_0000 && |f.body| < 0x1_0000
  }

  type Wire = f: Frame | Sendable(f) witness Frame(0, [])

  function Encode(f: Wire): bytes {
    Header(f.id, |f.body|) + f.body
  }

  function EncodeAll(frames: seq<Wire>): bytes {
    if frames == [] then [] else Encode(frames[0]) + EncodeAll(frames[1..])
  }

  lemma {:induction false} EncodeAllAppend(a: seq<Wire>, b: seq<Wire>)
    ensures EncodeAll(a + b) == EncodeAll(a) + EncodeAll(b)
  {
    if a == [] {
      assert a + b == b;
    } else {
      assert (a + b)[0] == a[0] && (a + b)[1..] == a[1..] + b;
      EncodeAllAppend(a[1..], b);
    }
  }

  /** What a receiver lets through: an id and a body length. */
  type Rule = (nat, nat) -> bool

  /** A byte stream read frame by frame: the frames, whether a header was refused, and what is
      left over because it is not yet a whole frame. */
  datatype Decoded = Decoded(frames: seq<Wire>, bad: bool, rest: bytes)

  function Decode(rule: Rule, s: bytes): (d: Decoded) {
    if |s| < HEAD then Decoded([], false, s)
    else
      var id, len := Word(s[0], s[1]), Word(s[2], s[3]);
      if !rule(id, len) then Decoded([], true, s)
      else if |s| < HEAD + len then Decoded([], false, s)
      else
        After([Frame(id, s[HEAD..HEAD + len])], Decode(rule, s[HEAD + len..]))
  }

  function After(frames: seq<Wire>, d: Decoded): Decoded {
    d.(frames := frames + d.frames)
  }

  lemma HeaderReads(id: nat, len: nat, tail: bytes)
    requires id < 0x1_0000 && len < 0x1_0000
    ensures var s := Header(id, len) + tail;
            Word(s[0], s[1]) == id && Word(s[2], s[3]) == len && s[HEAD..] == tail
  {
  }

  /** Two headers that read the same are the same. */
  lemma HeaderWrites(s: bytes)
    requires |s| >= HEAD
    ensures s == Header(Word(s[0], s[1]), Word(s[2], s[3])) + s[HEAD..]
  {
    var a: int, b: int, c: int, d: int := s[0], s[1], s[2], s[3];
    assert (a * 256 + b) / 256 == a && (c * 256 + d) / 256 == c;
  }

  predicate Admitted(rule: Rule, frames: seq<Wire>) {
    forall f :: f in frames ==> rule(f.id, |f.body|)
  }

  lemma DecodeOne(rule: Rule, f: Wire, tail: bytes)
    requires rule(f.id, |f.body|)
    ensures Decode(rule, Encode(f) + tail) == After([f], Decode(rule, tail))
  {
    var s := Encode(f) + tail;
    assert s == Header(f.id, |f.body|) + (f.body + tail);
    HeaderReads(f.id, |f.body|, f.body + tail);
    assert s[HEAD..HEAD + |f.body|] == f.body && s[HEAD + |f.body|..] == tail;
  }

  lemma EncodeAllStep(frames: seq<Wire>, tail: bytes)
    requires frames != []
    ensures EncodeAll(frames) + tail == Encode(frames[0]) + (EncodeAll(frames[1..]) + tail)
  {
  }

  lemma AfterAfter(frames: seq<Wire>, d: Decoded)
    requires frames != []
    ensures After(frames[..1], After(frames[1..], d)) == After(frames, d)
  {
    assert frames[..1] + (frames[1..] + d.frames) == frames + d.frames;
  }

  lemma AfterNone(d: Decoded, tail: bytes)
    ensures After([], d) == d && EncodeAll([]) + tail == tail
  {
    assert [] + d.frames == d.frames;
  }

  /** Round trip: admitted frames, followed by anything, decode to themselves first. */
  lemma {:induction false} DecodeEncodes(rule: Rule, frames: seq<Wire>, tail: bytes)
    requires Admitted(rule, frames)
    ensures Decode(rule, EncodeAll(frames) + tail) == After(frames, Decode(rule, tail))
  {
    hide Decode, Encode, After, EncodeAll;
    if frames == [] {
      AfterNone(Decode(rule, tail), tail);
    } else {
      EncodeAllStep(frames, tail);
      DecodeOne(rule, frames[0], EncodeAll(frames[1..]) + tail);
      DecodeEncodes(rule, frames[1..], tail);
      assert frames[..1] == [frames[0]];
      AfterAfter(frames, Decode(rule, tail));
    }
  }

  /** The first frame of a stream, and what follows it. */
  lemma DecodeSplits(rule: Rule, s: bytes) returns (more: bytes)
    requires Decode(rule, s).frames != []
    ensures var d := Decode(rule, s);
            && |more| < |s| && s == Encode(d.frames[0]) + more && rule(d.frames[0].id, |d.frames[0].body|)
            && d.frames[1..] == Decode(rule, more).frames && d.rest == Decode(rule, more).rest && d.bad == Decode(rule, more).bad
  {
    HeaderWrites(s);
    more := s[HEAD + Word(s[2], s[3])..];
  }

  lemma DecodeNone(rule: Rule, s: bytes)
    requires Decode(rule, s).frames == []
    ensures Decode(rule, s).rest == s && EncodeAll([]) + s == s
  {
  }

  /** Unique decoding: the stream is exactly the encoding of what was read, then what is left;
      only admitted frames are read, and nothing readable is left. */
  lemma {:induction false} DecodeIsExact(rule: Rule, s: bytes)
    ensures var d := Decode(rule, s);
            && s == EncodeAll(d.frames) + d.rest
            && Admitted(rule, d.frames)
            && Decode(rule, d.rest) == Decoded([], d.bad, d.rest)
    decreases |s|
  {
    hide Decode, Encode, EncodeAll;
    var d := Decode(rule, s);
    if d.frames == [] {
      DecodeNone(rule, s);
    } else {
      var more := DecodeSplits(rule, s);
      DecodeIsExact(rule, more);
      EncodeAllStep(d.frames, d.rest);
    }
  }

  /** Reading on: a stream that arrives in two parts reads as one. */
  lemma DecodeAppend(rule: Rule, a: bytes, b: bytes)
    requires !Decode(rule, a).bad
    ensures Decode(rule, a + b) == After(Decode(rule, a).frames, Decode(rule, Decode(rule, a).rest + b))
  {
    hide Decode, EncodeAll, Encode;
    var d := Decode(rule, a);
    DecodeIsExact(rule, a);
    assert a + b == EncodeAll(d.frames) + (d.rest + b);
    DecodeEncodes(rule, d.frames, d.rest + b);
  }

  lemma BadHead(rule: Rule, s: bytes, b: bytes)
    requires Decode(rule, s) == Decoded([], true, s)
    ensures Decode(rule, s + b) == Decoded([], true, s + b)
  {
    var t := s + b;
    assert t[0] == s[0] && t[1] == s[1] && t[2] == s[2] && t[3] == s[3];
  }

  /** A refused header stays refused, whatever follows. */
  lemma BadStaysBad(rule: Rule, a: bytes, b: bytes)
    requires Decode(rule, a).bad
    ensures Decode(rule, a + b) == Decode(rule, a).(rest := Decode(rule, a).rest + b)
  {
    hide Decode, EncodeAll, Encode;
    var d := Decode(rule, a);
    DecodeIsExact(rule, a);
    assert a + b == EncodeAll(d.frames) + (d.rest + b);
    DecodeEncodes(rule, d.frames, d.rest + b);
    BadHead(rule, d.rest, b);
  }
}
