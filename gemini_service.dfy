/** The decode path of the speech reply and the guards around the two model
    calls (services/geminiService.ts). The network calls themselves are not
    modelled: their responses are inputs. */
module GeminiService {
  import opened Types

  /** A value stored in a `Uint8Array`. */
  type Byte = x: int | 0 <= x < 256

  /** The range of a value stored in an `Int16Array`. */
  predicate IsInt16(v: int) { -32768 <= v < 32768 }

  const NoTextMessage := "No text returned from model"
  const NoAudioMessage := "No audio data returned"
  /** Stands for the RangeError `new Int16Array` throws on an odd byte length. */
  const OddLengthMessage := "Int16Array byte length must be a multiple of 2"
  /** Stands for the InvalidCharacterError `atob` throws on malformed base64. */
  const InvalidBase64Message := "atob: invalid base64"

  /** The sample rate and channel count `speakSummary` decodes with. */
  const SpeechSampleRate := 24000
  const SpeechChannels := 1

  // ---------------------------------------------------------------------------
  // decode: binary string -> bytes

  /** `charCodeAt`, then the store into a `Uint8Array`, which keeps the value
      modulo 256. */
  function ByteOf(c: char): Byte { (c as int) % 256 }

  /** The bytes `decode` produces from the string `atob` returned. */
  function BinaryToBytes(binary: string): seq<Byte>
  {
    seq(|binary|, i requires 0 <= i < |binary| => ByteOf(binary[i]))
  }

  /** A "binary string": every character code fits in a byte, as in every
      string `atob` returns. */
  predicate IsBinaryString(s: string)
  {
    forall i :: 0 <= i < |s| ==> (s[i] as int) < 256
  }

  /** The inverse direction, `String.fromCharCode` applied byte by byte. */
  function BytesToBinary(bytes: seq<Byte>): (s: string)
    ensures IsBinaryString(s)
  {
    seq(|bytes|, i requires 0 <= i < |bytes| => bytes[i] as char)
  }

  /** decode, services/geminiService.ts:27-35: one byte per character, in
      order, filled by a counted loop into a fresh array. */
  method Decode(binary: string) returns (bytes: array<Byte>)
    ensures fresh(bytes)
    ensures bytes[..] == BinaryToBytes(binary)
  {
    var len := |binary|;
    bytes := new Byte[len];
    for i := 0 to len
      invariant forall k :: 0 <= k < i ==> bytes[k] == ByteOf(binary[k])
    {
      bytes[i] := ByteOf(binary[i]);
    }
  }

  /** On a binary string no code is truncated: byte i is the code of
      character i. */
  lemma BinaryStringBytes(binary: string)
    requires IsBinaryString(binary)
    ensures |BinaryToBytes(binary)| == |binary|
    ensures forall i :: 0 <= i < |binary| ==> BinaryToBytes(binary)[i] == binary[i] as int
  {
  }

  /** Bytes -> binary string -> bytes is the identity. */
  lemma BytesRoundTrip(bytes: seq<Byte>)
    ensures BinaryToBytes(BytesToBinary(bytes)) == bytes
  {
  }

  /** Binary string -> bytes -> binary string is the identity. */
  lemma BinaryRoundTrip(binary: string)
    requires IsBinaryString(binary)
    ensures BytesToBinary(BinaryToBytes(binary)) == binary
  {
  }

  // ---------------------------------------------------------------------------
  // The Int16Array view: little-endian signed 16-bit samples

  /** The signed 16-bit value whose little-endian encoding is `lo`, `hi`. */
  function Int16LE(lo: Byte, hi: Byte): (v: int)
    ensures IsInt16(v)
  {
    var u := lo + 256 * hi;
    if u < 32768 then u else u - 65536
  }

  /** The samples an `Int16Array` over `bytes` holds: sample k is made of
      bytes 2k (low) and 2k + 1 (high). */
  function Samples(bytes: seq<Byte>): (s: seq<int>)
    ensures |s| == |bytes| / 2
  {
    if |bytes| < 2 then [] else [Int16LE(bytes[0], bytes[1])] + Samples(bytes[2..])
  }

  /** The little-endian encoding of a run of 16-bit samples. */
  function EncodeInt16LE(samples: seq<int>): (bytes: seq<Byte>)
    requires forall k :: 0 <= k < |samples| ==> IsInt16(samples[k])
    ensures |bytes| == 2 * |samples|
  {
    if samples == [] then []
    else
      var u := if samples[0] < 0 then samples[0] + 65536 else samples[0];
      assert IsInt16(samples[0]);
      assert 0 <= u < 65536;
      var lo: Byte, hi: Byte := u % 256, u / 256;
      [lo, hi] + EncodeInt16LE(samples[1..])
  }

  /** There are half as many samples as bytes, every one in the 16-bit range,
      and sample k is the little-endian value of bytes 2k and 2k + 1. */
  lemma {:induction false} SamplesAt(bytes: seq<Byte>)
    ensures |Samples(bytes)| == |bytes| / 2
    ensures forall k :: 0 <= k < |bytes| / 2 ==>
      IsInt16(Samples(bytes)[k]) && Samples(bytes)[k] == Int16LE(bytes[2 * k], bytes[2 * k + 1])
  {
    if |bytes| >= 2 {
      SamplesAt(bytes[2..]);
      forall k | 1 <= k < |bytes| / 2
        ensures Samples(bytes)[k] == Int16LE(bytes[2 * k], bytes[2 * k + 1])
      {
        assert Samples(bytes)[k] == Samples(bytes[2..])[k - 1];
        assert bytes[2..][2 * (k - 1)] == bytes[2 * k];
        assert bytes[2..][2 * (k - 1) + 1] == bytes[2 * k + 1];
      }
    }
  }

  /** Reading encoded samples back gives the samples. */
  lemma {:induction false} SamplesOfEncoding(samples: seq<int>)
    requires forall k :: 0 <= k < |samples| ==> IsInt16(samples[k])
    ensures Samples(EncodeInt16LE(samples)) == samples
  {
    if samples != [] {
      var bytes := EncodeInt16LE(samples);
      var s := samples[0];
      var u := if s < 0 then s + 65536 else s;
      assert u % 256 + 256 * (u / 256) == u;
      assert bytes[2..] == EncodeInt16LE(samples[1..]);
      SamplesOfEncoding(samples[1..]);
      assert Int16LE(bytes[0], bytes[1]) == s;
      assert samples == [s] + samples[1..];
    }
  }

  /** Encoding the samples of an even run of bytes gives the bytes back. */
  lemma {:induction false} EncodingOfSamples(bytes: seq<Byte>)
    requires |bytes| % 2 == 0
    ensures forall k :: 0 <= k < |Samples(bytes)| ==> IsInt16(Samples(bytes)[k])
    ensures EncodeInt16LE(Samples(bytes)) == bytes
  {
    SamplesAt(bytes);
    if bytes != [] {
      var lo: int, hi: int := bytes[0], bytes[1];
      var s := Int16LE(bytes[0], bytes[1]);
      var u := if s < 0 then s + 65536 else s;
      assert u == lo + 256 * hi;
      assert u % 256 == lo && u / 256 == hi;
      EncodingOfSamples(bytes[2..]);
      assert Samples(bytes)[1..] == Samples(bytes[2..]);
      assert bytes == [lo, hi] + bytes[2..];
    }
  }

  // ---------------------------------------------------------------------------
  // decodeAudioData: de-interleave and scale

  /** A sample scaled by 1/32768, exactly, with no float rounding. */
  function Normalize(sample: int): real
  {
    sample as real / 32768.0
  }

  /** Every 16-bit sample scales into [-1, 1), and scaling loses nothing. */
  lemma NormalizeRange(sample: int)
    requires IsInt16(sample)
    ensures -1.0 <= Normalize(sample) < 1.0
    ensures Normalize(sample) * 32768.0 == sample as real
  {
  }

  lemma FrameIndexInRange(len: nat, numChannels: nat, i: nat, channel: nat)
    requires 0 < numChannels && channel < numChannels && i < len / numChannels
    ensures i * numChannels + channel < len
  {
    MulMonotone(i + 1, len / numChannels, numChannels);
    assert (len / numChannels) * numChannels <= len;
  }

  lemma {:induction false} MulMonotone(a: nat, b: nat, n: nat)
    requires a <= b
    ensures a * n <= b * n
  {
    if a < b {
      MulMonotone(a, b - 1, n);
      assert b * n == (b - 1) * n + n;
    }
  }

  /** What `decodeAudioData` writes into one channel: frame i is sample
      i * numChannels + channel, scaled. There are samples / numChannels
      frames, rounded down. */
  function ChannelData(samples: seq<int>, numChannels: nat, channel: nat): (data: seq<real>)
    requires 0 < numChannels && channel < numChannels
    ensures |data| == |samples| / numChannels
  {
    seq(|samples| / numChannels, i requires 0 <= i < |samples| / numChannels =>
      FrameIndexInRange(|samples|, numChannels, i, channel);
      Normalize(samples[i * numChannels + channel]))
  }

  /** The inverse view of the de-interleave: every sample in a whole frame
      lands in channel k % numChannels at frame k / numChannels. */
  lemma SampleLandsInFrame(samples: seq<int>, numChannels: nat, k: nat)
    requires 0 < numChannels && k < (|samples| / numChannels) * numChannels
    ensures k / numChannels < |samples| / numChannels
    ensures ChannelData(samples, numChannels, k % numChannels)[k / numChannels] == Normalize(samples[k])
  {
    var n := numChannels;
    assert k == (k / n) * n + k % n;
    if k / n >= |samples| / n {
      MulMonotone(|samples| / n, k / n, n);
      assert false;
    }
  }

  /** For mono data the channel is the sample run, scaled, in order. */
  lemma MonoChannel(samples: seq<int>)
    ensures |ChannelData(samples, 1, 0)| == |samples|
    ensures forall i :: 0 <= i < |samples| ==> ChannelData(samples, 1, 0)[i] == Normalize(samples[i])
  {
  }

  /** Every value decodeAudioData can write lies in [-1, 1). */
  lemma ChannelDataRange(bytes: seq<Byte>, numChannels: nat, channel: nat)
    requires 0 < numChannels && channel < numChannels
    ensures forall i :: 0 <= i < |ChannelData(Samples(bytes), numChannels, channel)| ==>
      -1.0 <= ChannelData(Samples(bytes), numChannels, channel)[i] < 1.0
  {
    var samples := Samples(bytes);
    SamplesAt(bytes);
    forall i | 0 <= i < |ChannelData(samples, numChannels, channel)|
      ensures -1.0 <= ChannelData(samples, numChannels, channel)[i] < 1.0
    {
      FrameIndexInRange(|samples|, numChannels, i, channel);
      NormalizeRange(samples[i * numChannels + channel]);
    }
  }

  /** Encoding samples, then reading them back as mono audio, gives each
      sample divided by 32768. */
  lemma PcmRoundTrip(samples: seq<int>)
    requires forall k :: 0 <= k < |samples| ==> IsInt16(samples[k])
    ensures |ChannelData(Samples(EncodeInt16LE(samples)), 1, 0)| == |samples|
    ensures forall i :: 0 <= i < |samples| ==>
      ChannelData(Samples(EncodeInt16LE(samples)), 1, 0)[i] == Normalize(samples[i])
  {
    SamplesOfEncoding(samples);
    MonoChannel(samples);
  }

  /** No bytes give no samples and no frames. */
  lemma ZeroBytesZeroFrames(numChannels: nat, channel: nat)
    requires 0 < numChannels && channel < numChannels
    ensures Samples([]) == [] && ChannelData(Samples([]), numChannels, channel) == []
  {
  }

  /** The bytes 00 40 00 C0 are the samples 16384 and -16384, which decode
      in mono to 0.5 and -0.5. */
  lemma WorkedExample()
    ensures Samples([0x00, 0x40, 0x00, 0xC0]) == [16384, -16384]
    ensures ChannelData(Samples([0x00, 0x40, 0x00, 0xC0]), 1, 0) == [0.5, -0.5]
  {
    var bytes: seq<Byte> := [0x00, 0x40, 0x00, 0xC0];
    assert bytes[2..] == [0x00, 0xC0];
    assert Samples(bytes[2..][2..]) == [];
    var data := ChannelData([16384, -16384], 1, 0);
    assert data[0] == 0.5 && data[1] == -0.5;
  }

  /** The `AudioBuffer` `createBuffer` allocates: `numberOfChannels` rows of
      `length` frames, zero-filled, at `sampleRate`. */
  class AudioBuffer {
    const sampleRate: int
    const numberOfChannels: nat
    const length: nat
    const channels: array2<real>

    ghost predicate Valid()
      reads this
    {
      channels.Length0 == numberOfChannels && channels.Length1 == length
    }

    constructor (numberOfChannels: nat, length: nat, sampleRate: int)
      ensures Valid() && fresh(channels)
      ensures this.numberOfChannels == numberOfChannels && this.length == length
      ensures this.sampleRate == sampleRate
      ensures forall c, i :: 0 <= c < numberOfChannels && 0 <= i < length ==> channels[c, i] == 0.0
    {
      this.sampleRate := sampleRate;
      this.numberOfChannels := numberOfChannels;
      this.length := length;
      channels := new real[numberOfChannels, length]((c, i) => 0.0);
    }

    /** `getChannelData(c)`, read back as a sequence. */
    function Channel(c: nat): (data: seq<real>)
      reads this, channels
      requires Valid() && c < numberOfChannels
    {
      seq(length, i requires 0 <= i < length reads channels => channels[c, i])
    }
  }

  /** decodeAudioData, services/geminiService.ts:8-25. An odd byte count is
      refused, as `new Int16Array` refuses it; otherwise the buffer has
      samples / numChannels frames per channel (the source's loop may run one
      iteration further, but typed arrays drop writes past their end), and
      channel c holds ChannelData of the samples. */
  method DecodeAudioData(data: array<Byte>, sampleRate: int, numChannels: nat) returns (r: Result<AudioBuffer>)
    requires 0 < numChannels
    ensures r.Err? <==> data.Length % 2 != 0
    ensures r.Err? ==> r.message == OddLengthMessage
    ensures r.Ok? ==> fresh(r.value) && fresh(r.value.channels) && r.value.Valid()
    ensures r.Ok? ==> r.value.sampleRate == sampleRate && r.value.numberOfChannels == numChannels
    ensures r.Ok? ==> r.value.length == (data.Length / 2) / numChannels
    ensures r.Ok? ==> forall c :: 0 <= c < numChannels ==>
      r.value.Channel(c) == ChannelData(Samples(data[..]), numChannels, c)
  {
    if data.Length % 2 != 0 {
      return Err(OddLengthMessage);
    }
    var dataInt16 := Samples(data[..]);
    SamplesAt(data[..]);
    var frameCount := |dataInt16| / numChannels;
    var buffer := new AudioBuffer(numChannels, frameCount, sampleRate);
    for channel := 0 to numChannels
      invariant forall c, i :: 0 <= c < channel && 0 <= i < frameCount ==>
        buffer.channels[c, i] == ChannelData(dataInt16, numChannels, c)[i]
    {
      for i := 0 to frameCount
        invariant forall c, j :: 0 <= c < channel && 0 <= j < frameCount ==>
          buffer.channels[c, j] == ChannelData(dataInt16, numChannels, c)[j]
        invariant forall j :: 0 <= j < i ==>
          buffer.channels[channel, j] == ChannelData(dataInt16, numChannels, channel)[j]
      {
        FrameIndexInRange(|dataInt16|, numChannels, i, channel);
        buffer.channels[channel, i] := Normalize(dataInt16[i * numChannels + channel]);
      }
    }
    r := Ok(buffer);
  }

  // ---------------------------------------------------------------------------
  // The guards around the two service calls

  /** The `response.text` guard of analyzeRisk, services/geminiService.ts:83-85:
      absent or empty text is an error, anything else goes on to be parsed. */
  function AnalysisText(text: Option<string>): (r: Result<string>)
    ensures r.Ok? <==> text.Some? && text.value != ""
    ensures r.Ok? ==> r.value == text.value
    ensures r.Err? ==> r.message == NoTextMessage
  {
    if text.None? || text.value == "" then Err(NoTextMessage) else Ok(text.value)
  }

  /** analyzeRisk after the request: the guard, then `JSON.parse`, which is a
      parameter because the parser is foreign and its result unchecked. */
  function AnalyzeRisk(text: Option<string>, jsonParse: string -> Result<PredictionResult>): (r: Result<PredictionResult>)
    ensures text.None? || text == Some("") ==> r == Err(NoTextMessage)
    ensures text.Some? && text.value != "" ==> r == jsonParse(text.value)
  {
    match AnalysisText(text)
    case Err(m) => Err(m)
    case Ok(t) => jsonParse(t)
  }

  /** The part of a speech reply that `speakSummary` reads. */
  datatype InlineData = InlineData(data: Option<string>)
  datatype Part = Part(inlineData: Option<InlineData>)
  datatype Content = Content(parts: Option<seq<Part>>)
  datatype Candidate = Candidate(content: Option<Content>)
  datatype SpeechResponse = SpeechResponse(candidates: Option<seq<Candidate>>)

  /** `response.candidates?.[0]?.content?.parts?.[0]?.inlineData?.data`; an
      index past the end of an array is `undefined` like a missing link. */
  function AudioPayload(response: SpeechResponse): (r: Option<string>)
    ensures r.Some? ==>
      && response.candidates.Some? && |response.candidates.value| > 0
      && response.candidates.value[0].content.Some?
      && response.candidates.value[0].content.value.parts.Some?
      && |response.candidates.value[0].content.value.parts.value| > 0
      && response.candidates.value[0].content.value.parts.value[0].inlineData.Some?
      && r == response.candidates.value[0].content.value.parts.value[0].inlineData.value.data
  {
    match response.candidates
    case None => None
    case Some(cs) =>
      if |cs| == 0 then None else
      match cs[0].content
      case None => None
      case Some(content) =>
        match content.parts
        case None => None
        case Some(ps) =>
          if |ps| == 0 then None else
          match ps[0].inlineData
          case None => None
          case Some(inline) => inline.data
  }

  /** The optional chain yields a payload exactly when every link is there. */
  lemma AudioPayloadPresent(response: SpeechResponse)
    ensures AudioPayload(response).Some? <==>
      && response.candidates.Some? && |response.candidates.value| > 0
      && response.candidates.value[0].content.Some?
      && response.candidates.value[0].content.value.parts.Some?
      && |response.candidates.value[0].content.value.parts.value| > 0
      && response.candidates.value[0].content.value.parts.value[0].inlineData.Some?
      && response.candidates.value[0].content.value.parts.value[0].inlineData.value.data.Some?
  {
    match response.candidates
    case None =>
    case Some(cs) =>
      if |cs| > 0 {
        match cs[0].content
        case None =>
        case Some(content) =>
          match content.parts
          case None =>
          case Some(ps) =>
      }
  }

  /** The `!base64Audio` guard of speakSummary, services/geminiService.ts:103-104. */
  function AudioGuard(response: SpeechResponse): (r: Result<string>)
    ensures r.Ok? <==> AudioPayload(response).Some? && AudioPayload(response).value != ""
    ensures r.Ok? ==> r.value == AudioPayload(response).value && |r.value| > 0
    ensures r.Err? ==> r.message == NoAudioMessage
  {
    match AudioPayload(response)
    case None => Err(NoAudioMessage)
    case Some(p) => if p == "" then Err(NoAudioMessage) else Ok(p)
  }

  /** speakSummary from the reply to the decoded buffer,
      services/geminiService.ts:103-112: no payload, an empty payload, a
      payload `atob` refuses or an odd byte count is an error; otherwise the
      buffer is the mono 24000 Hz decoding of the payload's bytes. `atob` is
      a parameter (`None` when it throws). */
  method SpeakSummary(response: SpeechResponse, atob: string -> Option<string>) returns (r: Result<AudioBuffer>)
    ensures AudioGuard(response).Err? ==> r == Err(NoAudioMessage)
    ensures AudioGuard(response).Ok? && atob(AudioGuard(response).value).None? ==> r == Err(InvalidBase64Message)
    ensures (AudioGuard(response).Ok? && atob(AudioGuard(response).value).Some? &&
             |atob(AudioGuard(response).value).value| % 2 != 0) ==> r == Err(OddLengthMessage)
    ensures r.Ok? <==>
      AudioGuard(response).Ok? && atob(AudioGuard(response).value).Some? &&
      |atob(AudioGuard(response).value).value| % 2 == 0
    ensures r.Ok? ==>
      var bytes := BinaryToBytes(atob(AudioGuard(response).value).value);
      && fresh(r.value) && r.value.Valid()
      && r.value.sampleRate == SpeechSampleRate && r.value.numberOfChannels == SpeechChannels
      && r.value.length == |bytes| / 2
      && r.value.Channel(0) == ChannelData(Samples(bytes), 1, 0)
  {
    var payload := AudioGuard(response);
    if payload.Err? {
      return Err(payload.message);
    }
    var binary := atob(payload.value);
    if binary.None? {
      return Err(InvalidBase64Message);
    }
    var bytes := Decode(binary.value);
    r := DecodeAudioData(bytes, SpeechSampleRate, SpeechChannels);
  }
}
