/**
 * `FormatConverter.Convert`: the PulseAudio sample format for a wave
 * format encoding, for the four encodings the converter knows.
 */
module FormatConversion {
  import opened Common

  /**
   * A `WaveFormatEncoding`: a 16-bit format tag of the RIFF/WAVE
   * registry (RFC 2361), of which the converter names four.
   */
  type WaveFormatEncoding = x: int | 0 <= x < 0x1_0000

  const UnknownEncoding: WaveFormatEncoding := 0
  const PcmEncoding: WaveFormatEncoding := 1
  const ALawEncoding: WaveFormatEncoding := 6
  const MuLawEncoding: WaveFormatEncoding := 7

  /** PulseAudio's `SampleFormat`. */
  datatype SampleFormat =
    | U8 | ALaw | ULaw | S16Le | S16Be | Float32Le | Float32Be
    | S32Le | S32Be | S24Le | S24Be | S2432Le | S2432Be | Max | Invalid

  /** The enum's numbering: `U8 = 0` and the next ones in order, `Invalid = -1`. */
  function SampleFormatValue(f: SampleFormat): (n: int)
    ensures -1 <= n <= 13 && (n == -1 <==> f == Invalid)
  {
    match f
    case U8 => 0 case ALaw => 1 case ULaw => 2 case S16Le => 3 case S16Be => 4
    case Float32Le => 5 case Float32Be => 6 case S32Le => 7 case S32Be => 8
    case S24Le => 9 case S24Be => 10 case S2432Le => 11 case S2432Be => 12
    case Max => 13 case Invalid => -1
  }

  /** `Convert`: only the four named encodings convert; any other throws `NotImplementedException`. */
  function Convert(from: WaveFormatEncoding): (r: Result<SampleFormat>)
    ensures r.Ok? <==> from == UnknownEncoding || from == PcmEncoding || from == ALawEncoding || from == MuLawEncoding
    ensures r.Err? ==> r.error == NotImplemented
  {
    if from == UnknownEncoding then Ok(Invalid)
    else if from == PcmEncoding then Ok(U8)
    else if from == MuLawEncoding then Ok(ULaw)
    else if from == ALawEncoding then Ok(ALaw)
    else Err(NotImplemented)
  }

  /**
   * The table: Unknown gives Invalid, PCM gives U8 (whatever its bit
   * depth, which the encoding does not carry), mu-law gives ULaw and
   * A-law gives ALaw; and distinct accepted encodings give distinct
   * formats, so the conversion can be undone on them.
   */
  lemma ConvertTable(a: WaveFormatEncoding, b: WaveFormatEncoding)
    ensures Convert(UnknownEncoding) == Ok(Invalid) && Convert(PcmEncoding) == Ok(U8)
    ensures Convert(MuLawEncoding) == Ok(ULaw) && Convert(ALawEncoding) == Ok(ALaw)
    ensures Convert(a).Ok? && Convert(a) == Convert(b) ==> a == b
    ensures Convert(a).Ok? ==> Unconvert(Convert(a).value) == Some(a)
  {
  }

  /** The encoding an accepted format came from. */
  function Unconvert(f: SampleFormat): (r: Option<WaveFormatEncoding>)
    ensures r.Some? ==> Convert(r.value) == Ok(f)
  {
    match f
    case Invalid => Some(UnknownEncoding)
    case U8 => Some(PcmEncoding)
    case ULaw => Some(MuLawEncoding)
    case ALaw => Some(ALawEncoding)
    case _ => None
  }
}
