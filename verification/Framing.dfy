/** The message framing of protobuf.py: a delimiter, a type byte, a four-byte big-endian length, the payload. */
module Framing {
  import opened Wrappers
  import opened Facts

  type byte = x: int | 0 <= x < 0x100

  const LEAD: byte := 0x3b  // ';'
  const HEADER_LENGTH := 6
  const LENGTH_LIMIT := 0x1_0000_0000

  /** struct.pack('>I', n) */
  function PackLength(n: nat): (r: seq<byte>)
    requires n < LENGTH_LIMIT
    ensures |r| == 4
  {
    var q1 := n / 0x100;
    var q2 := q1 / 0x100;
    [q2 / 0x100, q2 % 0x100, q1 % 0x100, n % 0x100]
  }

  /** struct.unpack('>I', s) */
  function UnpackLength(s: seq<byte>): nat
    requires |s| == 4
  {
    var a: int, b: int, c: int, d: int := s[0], s[1], s[2], s[3];
    ((a * 0x100 + b) * 0x100 + c) * 0x100 + d
  }

  lemma LengthRoundTrip(n: nat)
    requires n < LENGTH_LIMIT
    ensures UnpackLength(PackLength(n)) == n
  {
  }

  lemma Digit(q: nat, d: byte)
    ensures (q * 0x100 + d) / 0x100 == q && (q * 0x100 + d) % 0x100 == d
  {
  }

  lemma LengthRoundTripBack(s: seq<byte>)
    requires |s| == 4
    ensures UnpackLength(s) < LENGTH_LIMIT && PackLength(UnpackLength(s)) == s
  {
    var a: int, b: int, c: int := s[0], s[1], s[2];
    Digit((a * 0x100 + b) * 0x100 + c, s[3]);
    Digit(a * 0x100 + b, s[2]);
    Digit(a, s[1]);
  }

  /** make_message on a serialized record; None stands for the struct.error of a length that does not fit. */
  function MakeMessage(msgType: byte, payload: seq<byte>): Option<seq<byte>> {
    if |payload| < LENGTH_LIMIT then Some([LEAD, msgType] + PackLength(|payload|) + payload) else None
  }

  /** A message is ';', the type, the length of the payload with the highest byte first, and the payload. */
  lemma MessageBytes(msgType: byte, payload: seq<byte>)
    ensures MakeMessage(msgType, payload).None? <==> |payload| >= 4294967296
    ensures |payload| < 4294967296 ==>
              var m := MakeMessage(msgType, payload).value;
              |m| == 6 + |payload| &&
              var a: int, b: int, c: int, d: int := m[2], m[3], m[4], m[5];
              && m[0] == ';' as int && m[1] == msgType
              && a * 16777216 + b * 65536 + c * 256 + d == |payload|
              && m[6..] == payload
  {
    if |payload| < LENGTH_LIMIT {
      LengthRoundTrip(|payload|);
    }
  }

  /** The messages of all payloads one after the other. */
  function Encode(msgType: byte, payloads: seq<seq<byte>>): seq<byte>
    requires forall p :: p in payloads ==> |p| < LENGTH_LIMIT
  {
    if payloads == [] then [] else
      assert payloads[0] in payloads;
      MakeMessage(msgType, payloads[0]).value + Encode(msgType, payloads[1..])
  }

  /** How the generator ends: it returns, or it raises one of its errors. */
  datatype Ending =
    | Exhausted
    | BadDelimiter     // DeserializeException
    | MissingType      // IndexError: the blob ends behind a delimiter
    | UnexpectedType   // DeserializeException
    | ShortLength      // struct.error: fewer than four length bytes

  /** What the generator yields, how it ends, and by how many bytes the last payload falls short. */
  datatype Decoded = Decoded(payloads: seq<seq<byte>>, ending: Ending, shortBy: nat)

  /** get_next_message from position i on. A payload the blob cuts off is yielded as far as it goes. */
  function DecodeFrom(msgType: byte, blob: seq<byte>, i: nat): Decoded
    decreases |blob| - i
  {
    if i >= |blob| then Decoded([], Exhausted, i - |blob|)
    else if blob[i] != LEAD then Decoded([], BadDelimiter, 0)
    else if i + 1 >= |blob| then Decoded([], MissingType, 0)
    else if blob[i + 1] != msgType then Decoded([], UnexpectedType, 0)
    else if i + HEADER_LENGTH > |blob| then Decoded([], ShortLength, 0)
    else
      var end := i + HEADER_LENGTH + UnpackLength(blob[i + 2..i + 6]);
      var rest := DecodeFrom(msgType, blob, end);
      rest.(payloads := [blob[i + HEADER_LENGTH..if end <= |blob| then end else |blob|]] + rest.payloads)
  }

  function Decode(msgType: byte, blob: seq<byte>): Decoded {
    DecodeFrom(msgType, blob, 0)
  }

  /** These payloads, and then what decoding gives from position i on. */
  ghost predicate Decoding(msgType: byte, blob: seq<byte>, payloads: seq<seq<byte>>, i: nat) {
    var rest := DecodeFrom(msgType, blob, i);
    Decode(msgType, blob).payloads == payloads + rest.payloads && Decode(msgType, blob).ending == rest.ending
  }

  lemma {:induction false} DecodingNext(msgType: byte, blob: seq<byte>, payloads: seq<seq<byte>>, i: nat, end: nat,
                                        data: seq<byte>)
    requires Decoding(msgType, blob, payloads, i)
    requires i + HEADER_LENGTH <= |blob| && blob[i] == LEAD && blob[i + 1] == msgType
    requires end == i + HEADER_LENGTH + UnpackLength(blob[i + 2..i + 6])
    requires data == blob[i + HEADER_LENGTH..if end <= |blob| then end else |blob|]
    ensures Decoding(msgType, blob, payloads + [data], end)
  {
    Regroup(payloads, [data], DecodeFrom(msgType, blob, end).payloads);
  }

  lemma {:induction false} DecodingEnds(msgType: byte, blob: seq<byte>, payloads: seq<seq<byte>>, i: nat,
                                        ending: Ending)
    requires Decoding(msgType, blob, payloads, i)
    requires DecodeFrom(msgType, blob, i).payloads == [] && DecodeFrom(msgType, blob, i).ending == ending
    ensures Decode(msgType, blob).payloads == payloads && Decode(msgType, blob).ending == ending
  {
  }

  /** The generator's loop, run to its end. */
  method GetMessages(msgType: byte, blob: seq<byte>) returns (payloads: seq<seq<byte>>, ending: Ending)
    ensures payloads == Decode(msgType, blob).payloads && ending == Decode(msgType, blob).ending
  {
    payloads := [];
    var i := 0;
    while true
      invariant 0 <= i && Decoding(msgType, blob, payloads, i)
      decreases |blob| - i
    {
      if i >= |blob| {
        DecodingEnds(msgType, blob, payloads, i, Exhausted);
        return payloads, Exhausted;
      }
      if blob[i] != LEAD {
        DecodingEnds(msgType, blob, payloads, i, BadDelimiter);
        return payloads, BadDelimiter;
      }
      if i + 1 >= |blob| {
        DecodingEnds(msgType, blob, payloads, i, MissingType);
        return payloads, MissingType;
      }
      if blob[i + 1] != msgType {
        DecodingEnds(msgType, blob, payloads, i, UnexpectedType);
        return payloads, UnexpectedType;
      }
      if |blob| < i + HEADER_LENGTH {
        DecodingEnds(msgType, blob, payloads, i, ShortLength);
        return payloads, ShortLength;
      }
      var msgLen := UnpackLength(blob[i + 2..i + 6]);
      var msgEnd := i + HEADER_LENGTH + msgLen;
      var data := blob[i + HEADER_LENGTH..if msgEnd <= |blob| then msgEnd else |blob|];
      DecodingNext(msgType, blob, payloads, i, msgEnd, data);
      payloads := payloads + [data];
      i := msgEnd;
    }
  }

  /** Where decoding stands does not depend on the bytes before the position. */
  lemma {:induction false} DecodeSuffix(msgType: byte, blob: seq<byte>, i: nat)
    requires i <= |blob|
    ensures DecodeFrom(msgType, blob, i) == Decode(msgType, blob[i..])
    decreases |blob| - i
  {
    DecodeShift(msgType, blob, i, 0);
  }

  lemma {:induction false} DecodeShift(msgType: byte, blob: seq<byte>, start: nat, i: nat)
    requires start <= |blob|
    ensures DecodeFrom(msgType, blob, start + i) == DecodeFrom(msgType, blob[start..], i)
    decreases |blob| - start - i
  {
    if start + i + HEADER_LENGTH <= |blob| && blob[start + i] == LEAD && blob[start + i + 1] == msgType {
      assert blob[start..][i + 2..i + 6] == blob[start + i + 2..start + i + 6];
      var end := i + HEADER_LENGTH + UnpackLength(blob[start..][i + 2..i + 6]);
      DecodeShift(msgType, blob, start, end);
      var stop := if start + end <= |blob| then start + end else |blob|;
      assert blob[start..][i + HEADER_LENGTH..stop - start] == blob[start + i + HEADER_LENGTH..stop];
    }
  }

  /** A message at the front of a blob decodes to its payload, and the rest decodes as it would alone. */
  lemma DecodeMessage(msgType: byte, payload: seq<byte>, tail: seq<byte>)
    requires |payload| < LENGTH_LIMIT
    ensures var rest := Decode(msgType, tail);
            Decode(msgType, MakeMessage(msgType, payload).value + tail) == rest.(payloads := [payload] + rest.payloads)
  {
    var message := MakeMessage(msgType, payload).value;
    var blob := message + tail;
    assert blob[2..6] == PackLength(|payload|);
    LengthRoundTrip(|payload|);
    assert blob[HEADER_LENGTH..|message|] == payload;
    DecodeSuffix(msgType, blob, |message|);
    assert blob[|message|..] == tail;
  }

  /** Decoding gives back every list of payloads, and then goes on with whatever follows. */
  lemma {:induction false} DecodeEncode(msgType: byte, payloads: seq<seq<byte>>, tail: seq<byte>)
    requires forall p :: p in payloads ==> |p| < LENGTH_LIMIT
    ensures var rest := Decode(msgType, tail);
            Decode(msgType, Encode(msgType, payloads) + tail) == rest.(payloads := payloads + rest.payloads)
  {
    if payloads == [] {
      assert Encode(msgType, payloads) + tail == tail;
    } else {
      assert payloads[0] in payloads;
      DecodeEncode(msgType, payloads[1..], tail);
      var message, others := MakeMessage(msgType, payloads[0]).value, Encode(msgType, payloads[1..]);
      DecodeMessage(msgType, payloads[0], others + tail);
      Regroup(message, others, tail);
      Regroup([payloads[0]], payloads[1..], Decode(msgType, tail).payloads);
      assert [payloads[0]] + payloads[1..] == payloads;
    }
  }

  /** What ends the decoding behind complete messages, by the bytes found there. */
  lemma FaultsNamed(msgType: byte, payloads: seq<seq<byte>>, tail: seq<byte>)
    requires forall p :: p in payloads ==> |p| < LENGTH_LIMIT
    ensures var d := Decode(msgType, Encode(msgType, payloads) + tail);
            && (tail == [] ==> d == Decoded(payloads, Exhausted, 0))
            && (tail != [] && tail[0] != ';' as int ==> d == Decoded(payloads, BadDelimiter, 0))
            && (tail == [';' as int] ==> d == Decoded(payloads, MissingType, 0))
            && (|tail| >= 2 && tail[0] == ';' as int && tail[1] != msgType ==>
                  d == Decoded(payloads, UnexpectedType, 0))
            && (2 <= |tail| < 6 && tail[0] == ';' as int && tail[1] == msgType ==>
                  d == Decoded(payloads, ShortLength, 0))
  {
    DecodeEncode(msgType, payloads, tail);
    assert payloads + [] == payloads;
  }

  lemma RoundTrip(msgType: byte, payloads: seq<seq<byte>>)
    requires forall p :: p in payloads ==> |p| < LENGTH_LIMIT
    ensures Decode(msgType, Encode(msgType, payloads)) == Decoded(payloads, Exhausted, 0)
  {
    DecodeEncode(msgType, payloads, []);
    assert Encode(msgType, payloads) + [] == Encode(msgType, payloads);
  }

  lemma {:induction false} PayloadsFit(msgType: byte, blob: seq<byte>, i: nat)
    ensures forall p :: p in DecodeFrom(msgType, blob, i).payloads ==> |p| < LENGTH_LIMIT
    decreases |blob| - i
  {
    if i + HEADER_LENGTH <= |blob| && blob[i] == LEAD && blob[i + 1] == msgType {
      LengthRoundTripBack(blob[i + 2..i + 6]);
      PayloadsFit(msgType, blob, i + HEADER_LENGTH + UnpackLength(blob[i + 2..i + 6]));
    }
  }

  /** A complete message at position i is the message made from the payload it holds. */
  lemma MessageAt(msgType: byte, blob: seq<byte>, i: nat)
    requires i + HEADER_LENGTH <= |blob| && blob[i] == LEAD && blob[i + 1] == msgType
    requires i + HEADER_LENGTH + UnpackLength(blob[i + 2..i + 6]) <= |blob|
    ensures var end := i + HEADER_LENGTH + UnpackLength(blob[i + 2..i + 6]);
            && |blob[i + HEADER_LENGTH..end]| < LENGTH_LIMIT
            && MakeMessage(msgType, blob[i + HEADER_LENGTH..end]).value == blob[i..end]
  {
    LengthRoundTripBack(blob[i + 2..i + 6]);
    var end := i + HEADER_LENGTH + UnpackLength(blob[i + 2..i + 6]);
    assert blob[i..end] == [LEAD, msgType] + blob[i + 2..i + 6] + blob[i + HEADER_LENGTH..end];
  }

  /** Where decoding goes on well to the end, it begins with one complete message. */
  lemma {:induction false} DecodeStep(msgType: byte, blob: seq<byte>, i: nat) returns (end: nat)
    requires i < |blob| && DecodeFrom(msgType, blob, i).ending == Exhausted && DecodeFrom(msgType, blob, i).shortBy == 0
    ensures i + HEADER_LENGTH <= end <= |blob| && |blob[i + HEADER_LENGTH..end]| < LENGTH_LIMIT
    ensures MakeMessage(msgType, blob[i + HEADER_LENGTH..end]).value == blob[i..end]
    ensures var rest := DecodeFrom(msgType, blob, end);
            && rest.ending == Exhausted && rest.shortBy == 0
            && DecodeFrom(msgType, blob, i).payloads == [blob[i + HEADER_LENGTH..end]] + rest.payloads
  {
    end := i + HEADER_LENGTH + UnpackLength(blob[i + 2..i + 6]);
    ShortWhenCut(msgType, blob, end);
    MessageAt(msgType, blob, i);
  }

  lemma {:induction false} EncodeDecodeFrom(msgType: byte, blob: seq<byte>, i: nat)
    requires i <= |blob|
    requires DecodeFrom(msgType, blob, i).ending == Exhausted && DecodeFrom(msgType, blob, i).shortBy == 0
    ensures forall p :: p in DecodeFrom(msgType, blob, i).payloads ==> |p| < LENGTH_LIMIT
    ensures Encode(msgType, DecodeFrom(msgType, blob, i).payloads) == blob[i..]
    decreases |blob| - i
  {
    PayloadsFit(msgType, blob, i);
    if i < |blob| {
      var end := DecodeStep(msgType, blob, i);
      EncodeDecodeFrom(msgType, blob, end);
      var rest := DecodeFrom(msgType, blob, end).payloads;
      EncodeCons(msgType, blob[i + HEADER_LENGTH..end], rest);
      assert blob[i..] == blob[i..end] + blob[end..];
    }
  }

  lemma EncodeCons(msgType: byte, payload: seq<byte>, rest: seq<seq<byte>>)
    requires |payload| < LENGTH_LIMIT && forall p :: p in rest ==> |p| < LENGTH_LIMIT
    ensures forall p :: p in [payload] + rest ==> |p| < LENGTH_LIMIT
    ensures Encode(msgType, [payload] + rest) == MakeMessage(msgType, payload).value + Encode(msgType, rest)
  {
    assert ([payload] + rest)[1..] == rest;
  }

  lemma ShortWhenCut(msgType: byte, blob: seq<byte>, end: nat)
    ensures end > |blob| ==> DecodeFrom(msgType, blob, end).shortBy > 0
  {
  }

  /**
   * A blob is the encoding of what it decodes to exactly when decoding ends without an error and its last
   * payload is not cut off.
   */
  lemma EncodeDecode(msgType: byte, blob: seq<byte>)
    ensures var d := Decode(msgType, blob);
            && (forall p :: p in d.payloads ==> |p| < LENGTH_LIMIT)
            && (Encode(msgType, d.payloads) == blob <==> d.ending == Exhausted && d.shortBy == 0)
  {
    var d := Decode(msgType, blob);
    PayloadsFit(msgType, blob, 0);
    if d.ending == Exhausted && d.shortBy == 0 {
      EncodeDecodeFrom(msgType, blob, 0);
      assert blob[0..] == blob;
    }
    if Encode(msgType, d.payloads) == blob {
      RoundTrip(msgType, d.payloads);
    }
  }
}
