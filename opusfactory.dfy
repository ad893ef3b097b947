/**
 * `OpusFactory`: argument checks for creating Opus encoders and decoders,
 * and the lazily created, shared packet API. The static fields of the
 * factory are the fields of one `OpusFactory` object here.
 */
module OpusFactoryModel {
  import opened Common

  /** The coding modes, with their libopus values. */
  datatype Application = VoIP | Audio | RestrictedLowLatency

  function ApplicationValue(a: Application): (n: int)
    ensures n in {2048, 2049, 2051}
  {
    match a
    case VoIP => 2048
    case Audio => 2049
    case RestrictedLowLatency => 2051
  }

  /** The sampling rates libopus accepts. */
  predicate SupportedRate(samplingRate: int)
  {
    samplingRate == 8000 || samplingRate == 12000 || samplingRate == 16000 || samplingRate == 24000 || samplingRate == 48000
  }

  /**
   * The checks shared by `CreateEncoder` and `CreateDecoder`: the rate is
   * checked first, so a bad rate is reported even when the channel count
   * is wrong too; the channel count must be 1 or 2.
   */
  function CheckArguments(samplingRate: int, channels: int): (r: Outcome)
    ensures r == Done <==> SupportedRate(samplingRate) && (channels == 1 || channels == 2)
    ensures !SupportedRate(samplingRate) ==> r == Threw(ArgumentOutOfRange("samplingRate"))
    ensures SupportedRate(samplingRate) && channels != 1 && channels != 2 ==>
      r == Threw(ArgumentOutOfRange("channels"))
  {
    if !SupportedRate(samplingRate) then Threw(ArgumentOutOfRange("samplingRate"))
    else if channels != 1 && channels != 2 then Threw(ArgumentOutOfRange("channels"))
    else Done
  }

  /** The parameters a native encoder or decoder is created with. */
  datatype Encoder = Encoder(samplingRate: int, channels: int, application: Application)
  datatype Decoder = Decoder(samplingRate: int, channels: int)

  /** `OpusPacketApi`: a wrapper over the native API. */
  class OpusPacketApi {
    constructor()
    {
    }
  }

  class OpusFactory {
    /** `_api` has been loaded. */
    var apiLoaded: bool
    var packetApi: OpusPacketApi?

    constructor()
      ensures !apiLoaded && packetApi == null
    {
      apiLoaded := false;
      packetApi := null;
    }

    /** `CreateEncoder`: the checks, then the native API is loaded if it was not, and the encoder created. */
    method CreateEncoder(samplingRate: int, channels: int, application: Application) returns (r: Result<Encoder>)
      modifies this`apiLoaded
      ensures CheckArguments(samplingRate, channels).Threw? ==>
        r == Err(CheckArguments(samplingRate, channels).error) && apiLoaded == old(apiLoaded)
      ensures CheckArguments(samplingRate, channels) == Done ==>
        r == Ok(Encoder(samplingRate, channels, application)) && apiLoaded
    {
      var check := CheckArguments(samplingRate, channels);
      if check.Threw? {
        return Err(check.error);
      }
      apiLoaded := true;
      r := Ok(Encoder(samplingRate, channels, application));
    }

    /** `CreateDecoder`: the same checks in the same order. */
    method CreateDecoder(samplingRate: int, channels: int) returns (r: Result<Decoder>)
      modifies this`apiLoaded
      ensures CheckArguments(samplingRate, channels).Threw? ==>
        r == Err(CheckArguments(samplingRate, channels).error) && apiLoaded == old(apiLoaded)
      ensures CheckArguments(samplingRate, channels) == Done ==>
        r == Ok(Decoder(samplingRate, channels)) && apiLoaded
    {
      var check := CheckArguments(samplingRate, channels);
      if check.Threw? {
        return Err(check.error);
      }
      apiLoaded := true;
      r := Ok(Decoder(samplingRate, channels));
    }

    /** `GetPacketApi`: created on the first call, the same object on every later one. */
    method GetPacketApi() returns (p: OpusPacketApi)
      modifies this`apiLoaded, this`packetApi
      ensures packetApi == p
      ensures old(packetApi) != null ==> p == old(packetApi) && apiLoaded == old(apiLoaded)
      ensures old(packetApi) == null ==> fresh(p) && apiLoaded
    {
      if packetApi == null {
        apiLoaded := true;
        packetApi := new OpusPacketApi();
      }
      p := packetApi;
    }
  }

  /** Encoder and decoder creation accept and reject exactly the same arguments, with the same error. */
  lemma EncoderDecoderAgree(samplingRate: int, channels: int, badChannels: int)
    requires badChannels != 1 && badChannels != 2
    ensures CheckArguments(samplingRate, channels) == Done <==> SupportedRate(samplingRate) && 1 <= channels <= 2
    ensures !SupportedRate(samplingRate) ==> CheckArguments(samplingRate, badChannels) == CheckArguments(samplingRate, 1)
  {
  }
}
