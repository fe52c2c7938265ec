/**
 * The binary image decoder: a byte sequence of even length, read as
 * little-endian 16-bit words, each of which must be below 32776.
 */
module Parse {
  import opened Wrappers
  import opened Opcodes

  type Byte = b: nat | b < 256

  /** The two ways an image is rejected; `pos` is the byte offset of the offending word. */
  datatype ParseError = UnexpectedLength | UnexpectedToken(token: nat, pos: nat)

  /** `(higherByte << 8) + lowerByte`. */
  function Word(lower: Byte, higher: Byte): (w: nat)
    ensures w < 0x1_0000
    ensures w % 256 == lower && w / 256 == higher
  {
    higher * 256 + lower
  }

  /** The words of bytes[pos..], in order; the first invalid word aborts. */
  function DecodeFrom(bytes: seq<Byte>, pos: nat): (r: Result<seq<nat>, ParseError>)
    requires |bytes| % 2 == 0 && pos % 2 == 0 && pos <= |bytes|
    ensures r.Ok? ==> |r.value| == (|bytes| - pos) / 2 && forall i :: 0 <= i < |r.value| ==> r.value[i] < TokenLimit
    ensures r.Err? ==> r.error.UnexpectedToken? && r.error.token >= TokenLimit && pos <= r.error.pos < |bytes|
    decreases |bytes| - pos
  {
    if pos == |bytes| then Ok([])
    else
      var token := Word(bytes[pos], bytes[pos + 1]);
      if token >= TokenLimit then Err(UnexpectedToken(token, pos))
      else
        var rest :- DecodeFrom(bytes, pos + 2);
        Ok([token] + rest)
  }

  /** What `parse` returns for the image, or the error it reports. */
  function Decode(bytes: seq<Byte>): (r: Result<seq<nat>, ParseError>)
    ensures r == Err(UnexpectedLength) <==> |bytes| % 2 != 0
    ensures r.Ok? ==> |r.value| == |bytes| / 2 && forall i :: 0 <= i < |r.value| ==> r.value[i] < TokenLimit
  {
    if |bytes| % 2 != 0 then Err(UnexpectedLength) else DecodeFrom(bytes, 0)
  }

  /** Every word of the image is valid. */
  predicate AllValid(bytes: seq<Byte>)
    requires |bytes| % 2 == 0
  {
    forall k :: 0 <= k < |bytes| / 2 ==> Word(bytes[2 * k], bytes[2 * k + 1]) < TokenLimit
  }

  /** The word sequence the image encodes. */
  predicate IsWordsOf(words: seq<nat>, bytes: seq<Byte>)
    requires |bytes| % 2 == 0
  {
    |words| == |bytes| / 2 &&
    forall k :: 0 <= k < |words| ==> words[k] == bytes[2 * k] as nat + 256 * bytes[2 * k + 1] as nat
  }

  lemma {:induction false} DecodeFromFacts(bytes: seq<Byte>, pos: nat)
    requires |bytes| % 2 == 0 && pos % 2 == 0 && pos <= |bytes|
    ensures DecodeFrom(bytes, pos).Ok? <==>
      forall k :: pos / 2 <= k < |bytes| / 2 ==> Word(bytes[2 * k], bytes[2 * k + 1]) < TokenLimit
    ensures DecodeFrom(bytes, pos).Ok? ==>
      |DecodeFrom(bytes, pos).value| == (|bytes| - pos) / 2 &&
      forall k :: pos / 2 <= k < |bytes| / 2 ==>
        DecodeFrom(bytes, pos).value[k - pos / 2] == Word(bytes[2 * k], bytes[2 * k + 1])
    ensures DecodeFrom(bytes, pos).Err? ==>
      var e := DecodeFrom(bytes, pos).error;
      e.UnexpectedToken? && pos <= e.pos < |bytes| && e.pos % 2 == 0 &&
      e.token == Word(bytes[e.pos], bytes[e.pos + 1]) && e.token >= TokenLimit &&
      forall k :: pos / 2 <= k < e.pos / 2 ==> Word(bytes[2 * k], bytes[2 * k + 1]) < TokenLimit
    decreases |bytes| - pos
  {
    if pos < |bytes| {
      assert 2 * (pos / 2) == pos;
      DecodeFromFacts(bytes, pos + 2);
      var token := Word(bytes[pos], bytes[pos + 1]);
      if token < TokenLimit && DecodeFrom(bytes, pos + 2).Ok? {
        var rest := DecodeFrom(bytes, pos + 2).value;
        forall k | pos / 2 <= k < |bytes| / 2
          ensures DecodeFrom(bytes, pos).value[k - pos / 2] == Word(bytes[2 * k], bytes[2 * k + 1])
        {
          if k > pos / 2 {
            assert DecodeFrom(bytes, pos).value[k - pos / 2] == rest[k - (pos + 2) / 2];
          }
        }
      }
    }
  }

  /**
   * An image decodes exactly when its length is even and every word is below
   * 32776; the result is then its words, little-endian, in byte order.
   */
  lemma DecodeCorrect(bytes: seq<Byte>)
    ensures Decode(bytes).Ok? <==> |bytes| % 2 == 0 && AllValid(bytes)
    ensures Decode(bytes).Ok? ==> IsWordsOf(Decode(bytes).value, bytes)
    ensures |bytes| % 2 != 0 ==> Decode(bytes) == Err(UnexpectedLength)
  {
    if |bytes| % 2 == 0 {
      DecodeFromFacts(bytes, 0);
    }
  }

  /** A rejected image names the first invalid word and its byte offset. */
  lemma DecodeReportsFirstInvalid(bytes: seq<Byte>)
    requires |bytes| % 2 == 0 && Decode(bytes).Err?
    ensures var e := Decode(bytes).error;
      e.UnexpectedToken? && e.pos % 2 == 0 && e.pos < |bytes| &&
      e.token == Word(bytes[e.pos], bytes[e.pos + 1]) && e.token >= TokenLimit &&
      forall k :: 0 <= k < e.pos / 2 ==> Word(bytes[2 * k], bytes[2 * k + 1]) < TokenLimit
  {
    DecodeFromFacts(bytes, 0);
  }

  /** Each word as its low byte, then its high byte. */
  function Encode(words: seq<nat>): (bytes: seq<Byte>)
    requires forall i :: 0 <= i < |words| ==> words[i] < 0x1_0000
    ensures |bytes| == 2 * |words|
  {
    if words == [] then []
    else [words[0] % 256, words[0] / 256] + Encode(words[1..])
  }

  /** Encoding valid words and decoding the bytes gives the words back. */
  lemma {:induction false} DecodeEncode(words: seq<nat>)
    requires forall i :: 0 <= i < |words| ==> words[i] < TokenLimit
    ensures Decode(Encode(words)) == Ok(words)
  {
    if words != [] {
      var bytes := Encode(words);
      DecodeEncode(words[1..]);
      DecodeShift(words[1..], [words[0] % 256, words[0] / 256]);
      assert bytes == [words[0] % 256, words[0] / 256] + Encode(words[1..]);
      assert [words[0]] + words[1..] == words;
    }
  }

  /** A successful decoding is unchanged by a two-byte prefix that is skipped. */
  lemma DecodeShift(words: seq<nat>, prefix: seq<Byte>)
    requires forall i :: 0 <= i < |words| ==> words[i] < TokenLimit
    requires |prefix| == 2 && Decode(Encode(words)).Ok?
    ensures DecodeFrom(prefix + Encode(words), 2) == DecodeFrom(Encode(words), 0)
  {
    DecodeFromShift(prefix, Encode(words), 0);
  }

  lemma {:induction false} DecodeFromShift(prefix: seq<Byte>, bytes: seq<Byte>, pos: nat)
    requires |prefix| == 2 && |bytes| % 2 == 0 && pos % 2 == 0 && pos <= |bytes|
    requires DecodeFrom(bytes, pos).Ok?
    ensures DecodeFrom(prefix + bytes, pos + 2) == DecodeFrom(bytes, pos)
    decreases |bytes| - pos
  {
    assert |prefix + bytes| == |bytes| + 2;
    if pos < |bytes| {
      DecodeFromShift(prefix, bytes, pos + 2);
      assert (prefix + bytes)[pos + 2] == bytes[pos];
      assert (prefix + bytes)[pos + 3] == bytes[pos + 1];
    }
  }

  /** Decoding and encoding again gives back the image. */
  lemma {:induction false} EncodeDecode(bytes: seq<Byte>)
    requires Decode(bytes).Ok?
    ensures forall i :: 0 <= i < |Decode(bytes).value| ==> Decode(bytes).value[i] < TokenLimit
    ensures Encode(Decode(bytes).value) == bytes
  {
    DecodeCorrect(bytes);
    var words := Decode(bytes).value;
    EncodeWords(words, bytes);
  }

  lemma {:induction false} EncodeWords(words: seq<nat>, bytes: seq<Byte>)
    requires |bytes| % 2 == 0 && IsWordsOf(words, bytes)
    ensures forall i :: 0 <= i < |words| ==> words[i] < 0x1_0000
    ensures Encode(words) == bytes
  {
    if words != [] {
      assert words[0] == Word(bytes[0], bytes[1]);
      EncodeWords(words[1..], bytes[2..]);
      assert bytes == [bytes[0], bytes[1]] + bytes[2..];
    }
  }

  /**
   * `parse`: rejects an odd length before reading any word, then decodes word
   * by word, aborting without a result at the first invalid word.
   */
  method Parse(bytes: seq<Byte>) returns (r: Result<seq<nat>, ParseError>)
    ensures r == Decode(bytes)
  {
    if |bytes| % 2 != 0 {
      return Err(UnexpectedLength);
    }
    var result: seq<nat> := [];
    var pos := 0;
    match DecodeFrom(bytes, 0) {
      case Ok(all) => assert [] + all == all;
      case Err(_) =>
    }
    while pos < |bytes|
      invariant pos % 2 == 0 && pos <= |bytes|
      invariant DecodeFrom(bytes, 0) == PrependWords(result, DecodeFrom(bytes, pos))
      decreases |bytes| - pos
    {
      var lowerByte := bytes[pos];
      var higherByte := bytes[pos + 1];
      var token: nat := higherByte as nat * 256 + lowerByte as nat;
      ghost var rest := DecodeFrom(bytes, pos + 2);
      if rest.Ok? {
        assert result + ([token] + rest.value) == (result + [token]) + rest.value;
      }
      result := result + [token];
      if token >= TokenLimit {
        return Err(UnexpectedToken(token, pos));
      }
      pos := pos + 2;
    }
    assert result + [] == result;
    r := Ok(result);
  }

  /** Words already decoded, followed by the decoding of the rest. */
  function PrependWords(done: seq<nat>, rest: Result<seq<nat>, ParseError>): Result<seq<nat>, ParseError> {
    match rest
    case Ok(more) => Ok(done + more)
    case Err(e) => Err(e)
  }
}
