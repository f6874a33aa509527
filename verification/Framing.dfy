/** The byte strings fed to the request hash and to the output digest are uniquely decodable. */
module Framing {
  import opened Basics

  newtype Byte = x: int | 0 <= x < 256

  type Bytes = seq<Byte>

  const FRAME_LIMIT: int := 0x1_0000_0000

  /** A text constant of the program as bytes; every one of them is ASCII. */
  function Ascii(text: string): Bytes {
    seq(|text|, i requires 0 <= i < |text| => (text[i] as int % 256) as Byte)
  }

  // ---- Frames ----

  /** The low byte of a shifted length. */
  function LowByte(n: nat): Byte {
    (n % 256) as Byte
  }

  /** A big-endian 32-bit length; longer fields would lose their high bits here. */
  function Prefix(n: nat): Bytes {
    [LowByte(n / 0x100_0000), LowByte(n / 0x1_0000), LowByte(n / 0x100), LowByte(n)]
  }

  function Frame(field: Bytes): Bytes {
    Prefix(|field|) + field
  }

  function Frames(fields: seq<Bytes>): Bytes {
    if fields == [] then [] else Frames(fields[..|fields| - 1]) + Frame(fields[|fields| - 1])
  }

  function Length(prefix: Bytes): nat
    requires |prefix| == 4
  {
    prefix[0] as int * 0x100_0000 + prefix[1] as int * 0x1_0000 + prefix[2] as int * 0x100 + prefix[3] as int
  }

  lemma PrefixRoundTrip(n: nat)
    ensures Length(Prefix(n)) == n % FRAME_LIMIT
  {
    var a, b, c := n / 0x100, n / 0x1_0000, n / 0x100_0000;
    assert n == a * 0x100 + n % 0x100;
    assert b == a / 0x100 && a == b * 0x100 + a % 0x100;
    assert c == b / 0x100 && b == c * 0x100 + b % 0x100;
    assert c == (n / FRAME_LIMIT) * 0x100 + c % 0x100;
  }

  /** Split framed bytes back into their fields; None when they are not frames. */
  function Unframe(bytes: Bytes): Option<seq<Bytes>>
    decreases |bytes|
  {
    if bytes == [] then Some([])
    else if |bytes| < 4 then None
    else
      var n := Length(bytes[..4]);
      if |bytes| < 4 + n then None
      else
        var rest :- Unframe(bytes[4 + n..]);
        Some([bytes[4..4 + n]] + rest)
  }

  predicate Framable(fields: seq<Bytes>) {
    forall i :: 0 <= i < |fields| ==> |fields[i]| < FRAME_LIMIT
  }

  lemma Assoc(a: Bytes, b: Bytes, c: Bytes)
    ensures a + b + c == a + (b + c)
  {
  }

  lemma {:induction false} FramesFront(fields: seq<Bytes>)
    requires fields != []
    ensures Frames(fields) == Frame(fields[0]) + Frames(fields[1..])
    decreases |fields|
  {
    hide Frame;
    var n := |fields| - 1;
    if n == 0 {
      assert fields[..0] == [] && fields[1..] == [];
    } else {
      FramesFront(fields[..n]);
      var middle := fields[1..][..n - 1];
      assert fields[..n][1..] == middle;
      assert Frames(fields[1..]) == Frames(middle) + Frame(fields[n]);
      Assoc(Frame(fields[0]), Frames(middle), Frame(fields[n]));
    }
  }

  /** One frame in front of anything is read back first. */
  lemma UnframeFront(field: Bytes, rest: Bytes)
    requires |field| < FRAME_LIMIT
    ensures var tail := Unframe(rest);
            Unframe(Frame(field) + rest) == if tail.None? then None else Some([field] + tail.value)
  {
    hide Prefix, Length, Unframe;
    var bytes := Frame(field) + rest;
    PrefixRoundTrip(|field|);
    PrefixLength(|field|);
    Slices(Prefix(|field|), field, rest);
    ReadFrame(bytes, field, rest);
  }

  lemma ReadFrame(bytes: Bytes, field: Bytes, rest: Bytes)
    requires |bytes| == 4 + |field| + |rest| && Length(bytes[..4]) == |field|
    requires bytes[4..4 + |field|] == field && bytes[4 + |field|..] == rest
    ensures var tail := Unframe(rest);
            Unframe(bytes) == if tail.None? then None else Some([field] + tail.value)
  {
    hide Length;
  }

  lemma Slices(prefix: Bytes, field: Bytes, rest: Bytes)
    requires |prefix| == 4
    ensures var bytes := prefix + field + rest;
            bytes[..4] == prefix && bytes[4..4 + |field|] == field && bytes[4 + |field|..] == rest
  {
  }

  lemma {:induction false} FramesRoundTrip(fields: seq<Bytes>)
    requires Framable(fields)
    ensures Unframe(Frames(fields)) == Some(fields)
    decreases |fields|
  {
    hide Frame, Unframe, Frames;
    if fields == [] {
      NoFrames();
    } else {
      FramesFront(fields);
      FramesRoundTrip(fields[1..]);
      UnframeFront(fields[0], Frames(fields[1..]));
      assert fields == [fields[0]] + fields[1..];
    }
  }

  lemma NoFrames()
    ensures Frames([]) == [] && Unframe([]) == Some([])
  {
  }

  lemma PrefixLength(n: nat)
    ensures |Prefix(n)| == 4
  {
  }

  // ---- The hash writer ----

  datatype Code = Code(language: Bytes, filename: Bytes, source: Bytes)

  class Hash {
    var written: Bytes

    constructor ()
      ensures written == []
    {
      written := [];
    }

    method WriteField(value: Bytes)
      modifies this
      ensures written == old(written) + Frame(value)
    {
      var n := |value|;
      written := written + [LowByte(n / 0x100_0000), LowByte(n / 0x1_0000), LowByte(n / 0x100), LowByte(n)];
      written := written + value;
    }

    method WriteOptionalID(id: Option<Bytes>)
      modifies this
      ensures written == old(written) + Frames(IdFields(id))
    {
      if id.None? {
        WriteField([]);
        OneFrame([]);
        return;
      }
      WriteField(Ascii("id"));
      WriteField(id.value);
      TwoFrames(Ascii("id"), id.value);
    }

    method WriteCode(code: Option<Code>)
      modifies this
      ensures written == old(written) + Frames(CodeFields(code))
    {
      ghost var before := written;
      if code.None? {
        WriteField([]);
        OneFrame([]);
        return;
      }
      ghost var fields := CodeFields(code);
      WriteField(Ascii("code"));
      OneFrame(fields[0]);
      assert fields[..1] == [fields[0]];
      WriteField(code.value.language);
      NextFrame(before, fields, 1);
      WriteField(code.value.filename);
      NextFrame(before, fields, 2);
      WriteField(code.value.source);
      NextFrame(before, fields, 3);
      assert fields[..4] == fields;
    }
  }

  lemma OneFrame(a: Bytes)
    ensures Frames([a]) == Frame(a)
  {
    assert [a][..0] == [];
  }

  lemma TwoFrames(a: Bytes, b: Bytes)
    ensures Frames([a, b]) == Frame(a) + Frame(b)
  {
    assert [a, b][..1] == [a];
    OneFrame(a);
  }

  /** Writing one more field extends the framed front by one. */
  lemma NextFrame(before: Bytes, fields: seq<Bytes>, n: nat)
    requires n < |fields|
    ensures Frames(fields[..n + 1]) == Frames(fields[..n]) + Frame(fields[n])
    ensures before + Frames(fields[..n]) + Frame(fields[n]) == before + Frames(fields[..n + 1])
  {
    assert fields[..n + 1][..n] == fields[..n];
  }

  lemma {:induction false} FramesAppend(a: seq<Bytes>, b: seq<Bytes>)
    ensures Frames(a + b) == Frames(a) + Frames(b)
    decreases |b|
  {
    hide Frame;
    if b == [] {
      assert a + b == a;
    } else {
      var front, last := b[..|b| - 1], b[|b| - 1];
      FramesAppend(a, front);
      assert (a + b)[..|a + b| - 1] == a + front && (a + b)[|a + b| - 1] == last;
      Assoc(Frames(a), Frames(front), Frame(last));
    }
  }

  // ---- Creation requests ----

  datatype Creation = Creation(operation: Bytes, body: Bytes, quote: Option<Bytes>, replyPost: Option<Bytes>, code: Option<Code>)

  function IdFields(id: Option<Bytes>): seq<Bytes> {
    if id.None? then [[]] else [Ascii("id"), id.value]
  }

  function CodeFields(code: Option<Code>): seq<Bytes> {
    if code.None? then [[]] else [Ascii("code"), code.value.language, code.value.filename, code.value.source]
  }

  function CreationFields(c: Creation): seq<Bytes> {
    [Ascii("stacktrace-content-v1"), c.operation, c.body] + IdFields(c.quote) + IdFields(c.replyPost) + CodeFields(c.code)
  }

  method HashCreation(c: Creation) returns (preimage: Bytes)
    ensures preimage == Frames(CreationFields(c))
  {
    var hash := new Hash();
    var front := [Ascii("stacktrace-content-v1"), c.operation, c.body];
    for i := 0 to |front|
      invariant hash.written == Frames(front[..i])
    {
      hash.WriteField(front[i]);
      assert front[..i + 1][..i] == front[..i];
    }
    assert front[..|front|] == front;
    hash.WriteOptionalID(c.quote);
    FramesAppend(front, IdFields(c.quote));
    hash.WriteOptionalID(c.replyPost);
    FramesAppend(front + IdFields(c.quote), IdFields(c.replyPost));
    hash.WriteCode(c.code);
    FramesAppend(front + IdFields(c.quote) + IdFields(c.replyPost), CodeFields(c.code));
    preimage := hash.written;
  }

  /** Read an optional id back from the front of a field list, with what follows it. */
  function ParseId(fields: seq<Bytes>): Option<(Option<Bytes>, seq<Bytes>)> {
    if |fields| >= 1 && fields[0] == [] then Some((None, fields[1..]))
    else if |fields| >= 2 && fields[0] == Ascii("id") then Some((Some(fields[1]), fields[2..]))
    else None
  }

  function ParseCode(fields: seq<Bytes>): Option<Option<Code>> {
    if fields == [[]] then Some(None)
    else if |fields| == 4 && fields[0] == Ascii("code") then Some(Some(Code(fields[1], fields[2], fields[3])))
    else None
  }

  function ParseCreation(fields: seq<Bytes>): Option<Creation> {
    if |fields| < 3 || fields[0] != Ascii("stacktrace-content-v1") then None
    else
      var quote :- ParseId(fields[3..]);
      var reply :- ParseId(quote.1);
      var code :- ParseCode(reply.1);
      Some(Creation(fields[1], fields[2], quote.0, reply.0, code))
  }

  function DecodeCreation(preimage: Bytes): Option<Creation> {
    var fields :- Unframe(preimage);
    ParseCreation(fields)
  }

  lemma ParseIdBack(id: Option<Bytes>, rest: seq<Bytes>)
    ensures ParseId(IdFields(id) + rest) == Some((id, rest))
  {
    assert |Ascii("id")| == 2;
    assert (IdFields(id) + rest)[|IdFields(id)|..] == rest;
  }

  lemma ParseCodeBack(code: Option<Code>)
    ensures ParseCode(CodeFields(code)) == Some(code)
  {
    assert |Ascii("code")| == 4;
  }

  /** Every creation request with fields under 2^32 bytes is read back from its preimage. */
  lemma CreationRoundTrip(c: Creation)
    requires Framable(CreationFields(c))
    ensures DecodeCreation(Frames(CreationFields(c))) == Some(c)
  {
    hide Unframe, Frames;
    var fields := CreationFields(c);
    FramesRoundTrip(fields);
    assert fields[3..] == IdFields(c.quote) + (IdFields(c.replyPost) + CodeFields(c.code));
    ParseIdBack(c.quote, IdFields(c.replyPost) + CodeFields(c.code));
    ParseIdBack(c.replyPost, CodeFields(c.code));
    ParseCodeBack(c.code);
  }

  /** So two requests share a preimage only when operation, body, both ids and the whole attachment agree. */
  lemma CreationInjective(a: Creation, b: Creation)
    requires Framable(CreationFields(a)) && Framable(CreationFields(b))
    ensures Frames(CreationFields(a)) == Frames(CreationFields(b)) <==> a == b
  {
    CreationRoundTrip(a);
    CreationRoundTrip(b);
  }

  // ---- Output digests ----

  datatype Output = Output(decision: Bytes, kind: Bytes, reason: Bytes, body: Bytes, code: Option<Code>)

  function OutputFields(o: Output): seq<Bytes> {
    [Ascii("generation_output_v1"), o.decision, o.kind, o.reason, o.body] + CodeFields(o.code)
  }

  /** Only a decided result has a digest. */
  function DigestPreimage(o: Output): Option<Bytes> {
    if o.decision == Ascii("publish") || o.decision == Ascii("skip") then Some(Frames(OutputFields(o))) else None
  }

  method Digest(o: Output) returns (preimage: Option<Bytes>)
    ensures preimage == DigestPreimage(o)
  {
    if o.decision != Ascii("publish") && o.decision != Ascii("skip") {
      return None;
    }
    var hash := new Hash();
    var fields := [Ascii("generation_output_v1"), o.decision, o.kind, o.reason, o.body];
    for i := 0 to |fields|
      invariant hash.written == Frames(fields[..i])
    {
      hash.WriteField(fields[i]);
      assert fields[..i + 1][..i] == fields[..i];
    }
    assert fields[..|fields|] == fields;
    hash.WriteCode(o.code);
    FramesAppend(fields, CodeFields(o.code));
    preimage := Some(hash.written);
  }

  function DecodeOutput(preimage: Bytes): Option<Output> {
    var fields :- Unframe(preimage);
    if |fields| < 5 || fields[0] != Ascii("generation_output_v1") then None
    else
      var code :- ParseCode(fields[5..]);
      Some(Output(fields[1], fields[2], fields[3], fields[4], code))
  }

  lemma OutputRoundTrip(o: Output)
    requires Framable(OutputFields(o))
    ensures DecodeOutput(Frames(OutputFields(o))) == Some(o)
  {
    hide Unframe, Frames;
    FramesRoundTrip(OutputFields(o));
    assert OutputFields(o)[5..] == CodeFields(o.code);
    ParseCodeBack(o.code);
  }

  /** Decided results share a digest preimage exactly when they are equal, attachment and all. */
  lemma OutputInjective(a: Output, b: Output)
    requires Framable(OutputFields(a)) && Framable(OutputFields(b)) && DigestPreimage(a).Some?
    ensures DigestPreimage(a) == DigestPreimage(b) <==> a == b
  {
    OutputRoundTrip(a);
    OutputRoundTrip(b);
  }

  /** A request and a result never share a preimage. */
  lemma DomainsApart(c: Creation, o: Output)
    requires Framable(CreationFields(c)) && Framable(OutputFields(o))
    ensures Frames(CreationFields(c)) != Frames(OutputFields(o))
  {
    hide Unframe, Frames;
    FramesRoundTrip(CreationFields(c));
    FramesRoundTrip(OutputFields(o));
    assert |CreationFields(c)[0]| == 21;
    assert |OutputFields(o)[0]| == 20;
  }

  /** At 2^32 bytes the length prefix wraps to that of an empty field, so the bound is exact. */
  lemma LengthDetermined(n: nat)
    ensures Length(Prefix(n)) == n <==> n < FRAME_LIMIT
  {
    PrefixRoundTrip(n);
  }
}
