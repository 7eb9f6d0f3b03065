// The audio capture (MFAudioCapture::Impl): the endpoint collections the
// platform enumerates, the extraction of a device id from an endpoint id
// string, the WAVEFORMATEX classification, and the per-index session maps
// the start and stop operations maintain, once for microphones and once for
// speakers.
module AudioCapture {
  import opened Options
  import opened Align

  // ---------------------------------------------------------------------
  // Device ids: the text between the first ".{" and the last '}'

  /** size_t is 64 bits wide. */
  const SIZE_T_LIMIT: int := 0x1_0000_0000_0000_0000

  /** ".{" occurs at position p of s. */
  predicate OpensAt(s: string, p: int)
  {
    0 <= p && p + 1 < |s| && s[p] == '.' && s[p + 1] == '{'
  }

  /** s.find(".{", from): the first occurrence at or after from, None for
      npos. */
  function FindOpen(s: string, from: nat): (r: Option<nat>)
    ensures r.Some? ==> from <= r.value && OpensAt(s, r.value)
    ensures r.Some? ==> forall q | from <= q < r.value :: !OpensAt(s, q)
    ensures r.None? ==> forall q | from <= q :: !OpensAt(s, q)
    decreases |s| - from
  {
    if from + 1 >= |s| then None
    else if s[from] == '.' && s[from + 1] == '{' then Some(from)
    else FindOpen(s, from + 1)
  }

  /** s.find_last_of('}'): the last position holding '}', None for npos. */
  function FindLastClose(s: string): (r: Option<nat>)
    ensures r.Some? ==> r.value < |s| && s[r.value] == '}'
    ensures r.Some? ==> forall q | r.value < q < |s| :: s[q] != '}'
    ensures r.None? ==> forall q | 0 <= q < |s| :: s[q] != '}'
  {
    if s == [] then None
    else if s[|s| - 1] == '}' then Some(|s| - 1)
    else FindLastClose(s[..|s| - 1])
  }

  /** The id extraction get_mic_id, get_speaker_id and find_device_index
      all apply: when both ".{" (first occurrence p1) and '}' (last
      occurrence p2) are found, s.substr(p1 + 2, p2 - p1 - 2), the count
      computed in size_t, so that it wraps modulo 2^64 when p2
      lies before p1 and the substring then runs to the end of s; otherwise
      s itself. */
  function ExtractId(s: string): (r: string)
    ensures FindOpen(s, 0).None? || FindLastClose(s).None? ==> r == s
    ensures FindOpen(s, 0).Some? && FindLastClose(s).Some? ==>
      var p1, p2 := FindOpen(s, 0).value, FindLastClose(s).value;
      (p2 >= p1 + 2 ==> r == s[p1 + 2 .. p2]) &&
      (p2 < p1 && |s| < SIZE_T_LIMIT ==> r == s[p1 + 2 ..])
  {
    var p1, p2 := FindOpen(s, 0), FindLastClose(s);
    if p1.None? || p2.None? then s
    else
      var pos := p1.value + 2;
      var diff := p2.value - p1.value - 2;
      var count := if diff >= 0 then diff else diff % SIZE_T_LIMIT;
      var len := if count < |s| - pos then count else |s| - pos;
      s[pos .. pos + len]
  }

  /** The last '}' never sits on the ".{" it would close: either it comes
      after the brace, or before the dot. */
  lemma CloseAvoidsOpen(s: string)
    requires FindOpen(s, 0).Some? && FindLastClose(s).Some?
    ensures FindLastClose(s).value >= FindOpen(s, 0).value + 2 ||
            FindLastClose(s).value < FindOpen(s, 0).value
  {
  }

  /** An endpoint id of the form prefix + ".{" + guid + "}", whose prefix
      holds no ".{" and whose guid holds no '}', yields the guid. */
  lemma ExtractEndpointGuid(prefix: string, guid: string)
    requires forall q :: !OpensAt(prefix, q)
    requires forall q | 0 <= q < |guid| :: guid[q] != '}'
    ensures ExtractId(prefix + ".{" + guid + "}") == guid
  {
    var s := prefix + ".{" + guid + "}";
    var n := |prefix|;
    forall q | 0 <= q < n
      ensures !OpensAt(s, q)
    {
      if q + 1 < n {
        assert s[q] == prefix[q] && s[q + 1] == prefix[q + 1];
        assert !OpensAt(prefix, q);
      } else {
        assert s[q + 1] == '.';
      }
    }
    assert OpensAt(s, n);
    var p1 := FindOpen(s, 0);
    assert p1 == Some(n);
    assert s[|s| - 1] == '}';
    assert FindLastClose(s) == Some(|s| - 1);
    assert s[n + 2 .. |s| - 1] == guid;
  }

  /** When the last '}' precedes the first ".{", the id is everything after
      the brace: "}.{ab" yields "ab". */
  lemma ExtractWrapsToEnd()
    ensures ExtractId("}.{ab") == "ab"
  {
    var s := "}.{ab";
    assert OpensAt(s, 1) && !OpensAt(s, 0);
    assert FindOpen(s, 0) == Some(1);
    assert s[4] != '}' && s[3] != '}' && s[2] != '}' && s[1] != '}' && s[0] == '}';
    assert FindLastClose(s) == Some(0);
  }

  // ---------------------------------------------------------------------
  // Endpoints and find_device_index

  /** WAVEFORMATEX's wFormatTag values the classification tests. */
  const WAVE_FORMAT_PCM: int := 1
  const WAVE_FORMAT_IEEE_FLOAT: int := 3
  const WAVE_FORMAT_EXTENSIBLE: int := 0xFFFE

  /** A WORD of WAVEFORMATEX. */
  type Word = x: int | 0 <= x < 0x1_0000

  /** The SubFormat GUID of a WAVEFORMATEXTENSIBLE: the two the code
      compares against, or another. */
  datatype SubFormat = KsPcm | KsIeeeFloat | OtherSubFormat(id: nat)

  /** The mix format GetMixFormat reports. subFormat is read only when the
      tag says the structure is a WAVEFORMATEXTENSIBLE. */
  datatype WaveFormat = WaveFormat(tag: Word, channels: Word, samplesPerSec: UInt32,
                                   bitsPerSample: Word, subFormat: SubFormat)

  /** One IMMDevice of a collection: its endpoint id string, its friendly
      name (None when OpenPropertyStore gives no store), and how the
      IAudioClient activated on it answers: Activate, GetMixFormat (None
      when it fails), Initialize, GetService and Start. */
  datatype Endpoint = Endpoint(rawId: string, friendlyName: Option<string>,
                               activates: bool, mix: Option<WaveFormat>,
                               initializes: bool, service: bool, starts: bool)

  /** An IMMDeviceCollection: Item(i) gives None (a null device) for the
      entries it cannot produce; any index out of range gives null too. */
  type Collection = seq<Option<Endpoint>>

  /** Item k is a device whose extracted id is id. */
  predicate IdAt(items: Collection, k: int, id: string)
  {
    0 <= k < |items| && items[k].Some? && ExtractId(items[k].value.rawId) == id
  }

  /** find_device_index, as a specification: the first non-null item at or
      after from whose extracted id is id, or -1. */
  function DeviceIndexFrom(items: Collection, id: string, from: nat): (r: int)
    ensures r == -1 || from <= r < |items|
    ensures r >= 0 ==> IdAt(items, r, id) && forall k | from <= k < r :: !IdAt(items, k, id)
    ensures r == -1 <==> forall k | from <= k < |items| :: !IdAt(items, k, id)
    decreases |items| - from
  {
    if from >= |items| then -1
    else if IdAt(items, from, id) then from
    else DeviceIndexFrom(items, id, from + 1)
  }

  function DeviceIndex(items: Collection, id: string): int
  {
    DeviceIndexFrom(items, id, 0)
  }

  /** The id get_mic_id and get_speaker_id report for an index: the
      extracted id, or "" when Item gives a null device. */
  function ItemId(items: Collection, index: int): (id: string)
    ensures 0 <= index < |items| && items[index].Some? ==> IdAt(items, index, id)
    ensures !(0 <= index < |items| && items[index].Some?) ==> id == []
  {
    if 0 <= index < |items| && items[index].Some? then ExtractId(items[index].value.rawId) else []
  }

  /** Looking up the id reported for a device finds that device or an
      earlier one with the same id: never -1, never a later index. */
  lemma {:induction false} FindOwnId(items: Collection, i: int)
    requires 0 <= i < |items| && items[i].Some?
    ensures var j := DeviceIndex(items, ItemId(items, i));
      0 <= j <= i && ItemId(items, j) == ItemId(items, i)
  {
    var id := ItemId(items, i);
    assert IdAt(items, i, id);
  }

  /** Devices with distinct ids are found at their own indices. */
  lemma DistinctIdsFoundInPlace(items: Collection, i: int)
    requires 0 <= i < |items| && items[i].Some?
    requires forall k | 0 <= k < |items| && k != i && items[k].Some? ::
      ExtractId(items[k].value.rawId) != ExtractId(items[i].value.rawId)
    ensures DeviceIndex(items, ItemId(items, i)) == i
  {
    FindOwnId(items, i);
  }

  // ---------------------------------------------------------------------
  // get_pcm_format

  /** PCM_FORMAT. The P formats are those the code assigns to
      WAVE_FORMAT_EXTENSIBLE. */
  datatype PcmFormat =
    | PcmUnknown
    | PcmU8 | PcmS16 | PcmS32 | PcmFlt | PcmDbl
    | PcmU8P | PcmS16P | PcmS32P | PcmFltP | PcmDblP
    | PcmS64 | PcmS64P

  /** The bits per sample a format stands for. */
  function SampleBits(f: PcmFormat): nat
  {
    match f
    case PcmUnknown => 0
    case PcmU8 | PcmU8P => 8
    case PcmS16 | PcmS16P => 16
    case PcmS32 | PcmS32P | PcmFlt | PcmFltP => 32
    case PcmDbl | PcmDblP | PcmS64 | PcmS64P => 64
  }

  predicate IsFloatFormat(f: PcmFormat)
  {
    f == PcmFlt || f == PcmDbl || f == PcmFltP || f == PcmDblP
  }

  predicate IsPlanarFormat(f: PcmFormat)
  {
    f == PcmU8P || f == PcmS16P || f == PcmS32P || f == PcmS64P || f == PcmFltP || f == PcmDblP
  }

  /** Integer samples: the PCM tag, or the extensible tag with the PCM
      subformat. */
  predicate IntegerCoded(w: WaveFormat)
  {
    w.tag == WAVE_FORMAT_PCM || (w.tag == WAVE_FORMAT_EXTENSIBLE && w.subFormat == KsPcm)
  }

  /** Float samples: the IEEE-float tag, or the extensible tag with the
      IEEE-float subformat. */
  predicate FloatCoded(w: WaveFormat)
  {
    w.tag == WAVE_FORMAT_IEEE_FLOAT || (w.tag == WAVE_FORMAT_EXTENSIBLE && w.subFormat == KsIeeeFloat)
  }

  /** The formats PCM_FORMAT can name: integers of 8, 16, 32 or 64 bits,
      floats of 32 or 64. */
  predicate Classifiable(w: WaveFormat)
  {
    (IntegerCoded(w) && w.bitsPerSample in {8, 16, 32, 64}) ||
    (FloatCoded(w) && w.bitsPerSample in {32, 64})
  }

  /** get_pcm_format: the classification of a mix format, PCM_UNKNOWN for
      every tag, subformat or depth outside the table (24-bit PCM among
      them). A known result has the format's depth, is a float format
      exactly when the samples are floats, and is a P format exactly when
      the tag is WAVE_FORMAT_EXTENSIBLE. */
  function GetPcmFormat(w: WaveFormat): (r: PcmFormat)
    ensures r == PcmUnknown <==> !Classifiable(w)
    ensures r != PcmUnknown ==>
      SampleBits(r) == w.bitsPerSample &&
      (IsFloatFormat(r) <==> FloatCoded(w)) &&
      (IsPlanarFormat(r) <==> w.tag == WAVE_FORMAT_EXTENSIBLE)
  {
    if w.tag == WAVE_FORMAT_PCM then
      (if w.bitsPerSample == 8 then PcmU8
       else if w.bitsPerSample == 16 then PcmS16
       else if w.bitsPerSample == 32 then PcmS32
       else if w.bitsPerSample == 64 then PcmS64
       else PcmUnknown)
    else if w.tag == WAVE_FORMAT_IEEE_FLOAT then
      (if w.bitsPerSample == 32 then PcmFlt
       else if w.bitsPerSample == 64 then PcmDbl
       else PcmUnknown)
    else if w.tag == WAVE_FORMAT_EXTENSIBLE then
      (if w.subFormat == KsPcm then
         (if w.bitsPerSample == 8 then PcmU8P
          else if w.bitsPerSample == 16 then PcmS16P
          else if w.bitsPerSample == 32 then PcmS32P
          else if w.bitsPerSample == 64 then PcmS64P
          else PcmUnknown)
       else if w.subFormat == KsIeeeFloat then
         (if w.bitsPerSample == 32 then PcmFltP
          else if w.bitsPerSample == 64 then PcmDblP
          else PcmUnknown)
       else PcmUnknown)
    else PcmUnknown
  }

  /** Depth, float-ness and planarity pin a known format down: the
      contract of GetPcmFormat leaves exactly one answer. */
  lemma FormatDeterminedByTraits(f: PcmFormat, g: PcmFormat)
    requires f != PcmUnknown && g != PcmUnknown
    requires SampleBits(f) == SampleBits(g)
    requires IsFloatFormat(f) == IsFloatFormat(g) && IsPlanarFormat(f) == IsPlanarFormat(g)
    ensures f == g
  {
  }

  /** 24-bit integer PCM is not in the table. */
  lemma Pcm24IsUnknown(channels: Word, rate: UInt32, sub: SubFormat)
    ensures GetPcmFormat(WaveFormat(WAVE_FORMAT_PCM, channels, rate, 24, sub)) == PcmUnknown
  {
  }

  /** The AudioParam start records: nSamplesPerSec (a DWORD stored in an
      int), nChannels and the classification. */
  datatype AudioParam = AudioParam(sampleRate: Int32, channels: int, format: PcmFormat)

  function ParamOf(w: WaveFormat): (p: AudioParam)
    ensures p.format == GetPcmFormat(w) && p.channels == w.channels
    ensures w.samplesPerSec <= INT32_MAX ==> p.sampleRate == w.samplesPerSec
  {
    AudioParam(AsInt32(w.samplesPerSec), w.channels, GetPcmFormat(w))
  }

  // ---------------------------------------------------------------------
  // The sessions of one direction

  /** The sessions of one direction, microphones or speakers: the endpoint
      collection (None when its enumeration failed) and the three maps,
      keyed by device index, of audio clients, capture clients (render
      clients for speakers) and recorded parameters. A client is
      identified by the endpoint it was activated on. */
  class Endpoints {
    var items: Option<Collection>
    var audioClients: map<int, Endpoint>
    var streamClients: map<int, Endpoint>
    var params: map<int, AudioParam>

    /** Clients come in pairs, and every index with clients has its
        parameters. */
    predicate Valid()
      reads this
    {
      audioClients.Keys == streamClients.Keys && streamClients.Keys <= params.Keys
    }

    /** The enumeration the constructor performs. */
    constructor (found: Option<Collection>)
      ensures Valid() && items == found
      ensures audioClients == map[] && streamClients == map[] && params == map[]
    {
      items := found;
      audioClients, streamClients, params := map[], map[], map[];
    }

    /** get_mic_count / get_speaker_count: the collection is released and
        enumerated afresh; the maps keep their indices. */
    method Count(found: Collection) returns (count: int)
      requires items.Some? && |found| < UINT32_LIMIT
      modifies this
      ensures items == Some(found) && count == AsInt32(|found|)
      ensures |found| <= INT32_MAX ==> count == |found|
      ensures audioClients == old(audioClients) && streamClients == old(streamClients)
      ensures params == old(params)
    {
      items := Some(found);
      count := AsInt32(|found|);
    }

    /** get_mic_id / get_speaker_id. */
    function Id(index: int): (id: string)
      reads this
      requires items.Some?
      ensures 0 <= index < |items.value| && items.value[index].Some? ==> IdAt(items.value, index, id)
      ensures !(0 <= index < |items.value| && items.value[index].Some?) ==> id == []
    {
      ItemId(items.value, index)
    }

    /** get_mic_name / get_speaker_name: the friendly name, or "" for a
        null device or a missing property store. */
    function Name(index: int): (name: string)
      reads this
      requires items.Some?
      ensures !(0 <= index < |items.value| && items.value[index].Some?) ==> name == []
      ensures 0 <= index < |items.value| && items.value[index].Some? &&
              items.value[index].value.friendlyName.None? ==>
        name == []
      ensures 0 <= index < |items.value| && items.value[index].Some? &&
              items.value[index].value.friendlyName.Some? ==>
        name == items.value[index].value.friendlyName.value
    {
      var items := items.value;
      if 0 <= index < |items| && items[index].Some? && items[index].value.friendlyName.Some?
      then items[index].value.friendlyName.value
      else []
    }

    /** find_device_index over the collection: null items are skipped. */
    method FindDeviceIndex(deviceId: string) returns (r: int)
      requires items.Some?
      ensures r == DeviceIndex(items.value, deviceId)
    {
      var items := items.value;
      var i := 0;
      while i < |items|
        invariant 0 <= i <= |items|
        invariant DeviceIndexFrom(items, deviceId, 0) == DeviceIndexFrom(items, deviceId, i)
      {
        if items[i].Some? {
          var id := ExtractId(items[i].value.rawId);
          if id == deviceId {
            return i;
          }
        }
        i := i + 1;
      }
      return -1;
    }

    /** start_mic / start_speaker: find the device, activate an audio client
        on it, read the mix format and record its parameters, then
        initialise the client, get the capture (render) client and start;
        both clients are recorded only when every step succeeds, while the
        parameters stay recorded from the point they were read. */
    method Start(deviceId: string) returns (ok: bool)
      requires Valid()
      modifies this
      ensures Valid() && items == old(items)
      ensures var i := if items.Some? then DeviceIndex(items.value, deviceId) else -1;
        if i == -1 || !items.value[i].value.activates || items.value[i].value.mix.None? then
          !ok && audioClients == old(audioClients) && streamClients == old(streamClients)
          && params == old(params)
        else
          var e := items.value[i].value;
          params == old(params)[i := ParamOf(e.mix.value)]
          && (ok <==> e.initializes && e.service && e.starts)
          && audioClients == (if ok then old(audioClients)[i := e] else old(audioClients))
          && streamClients == (if ok then old(streamClients)[i := e] else old(streamClients))
    {
      if items.None? {
        return false;
      }
      var i := FindDeviceIndex(deviceId);
      if i == -1 {
        return false;
      }
      var e := items.value[i].value;
      if !e.activates {
        return false;
      }
      if e.mix.None? {
        return false;
      }
      params := params[i := ParamOf(e.mix.value)];
      if !e.initializes || !e.service || !e.starts {
        return false;
      }
      audioClients := audioClients[i := e];
      streamClients := streamClients[i := e];
      ok := true;
    }

    /** stop_mic / stop_speaker: erase the device's three entries. */
    method Stop(deviceId: string)
      requires Valid() && items.Some?
      modifies this
      ensures Valid() && items == old(items)
      ensures var i := DeviceIndex(items.value, deviceId);
        if i == -1 then
          audioClients == old(audioClients) && streamClients == old(streamClients) && params == old(params)
        else
          audioClients == old(audioClients) - {i} && streamClients == old(streamClients) - {i}
          && params == old(params) - {i}
    {
      var i := FindDeviceIndex(deviceId);
      if i == -1 {
        return;
      }
      audioClients := audioClients - {i};
      streamClients := streamClients - {i};
      params := params - {i};
    }
  }

  /** OutputAudioData: the buffer pointer (an address), the number of
      frames and the parameters. */
  class AudioOutput {
    var data: nat
    var samples: int
    var param: AudioParam

    constructor (requested: int)
      ensures data == 0 && samples == requested && param == AudioParam(0, 0, PcmUnknown)
    {
      data, samples, param := 0, requested, AudioParam(0, 0, PcmUnknown);
    }
  }

  /** What a capture client's GetBuffer grants: the buffer address and the
      number of frames available. */
  datatype Lease = Lease(data: nat, frames: UInt32)

  /** MFAudioCapture::Impl: the microphone and the speaker sessions. */
  class AudioCapturer {
    const mic: Endpoints
    const speaker: Endpoints

    /** The constructor's two enumerations; when the microphones cannot be
        enumerated the constructor stops before the speakers. */
    constructor (mics: Option<Collection>, speakers: Option<Collection>)
      requires mics.None? ==> speakers.None?
      ensures fresh(mic) && fresh(speaker) && mic != speaker
      ensures mic.Valid() && mic.items == mics && mic.params == map[] && mic.streamClients == map[]
      ensures speaker.Valid() && speaker.items == speakers && speaker.params == map[]
      ensures speaker.streamClients == map[]
    {
      mic := new Endpoints(mics);
      speaker := new Endpoints(speakers);
    }

    /** capture_mic: only a microphone with a capture client is read; its
        GetBuffer answer (None when it fails) gives the buffer and the
        number of frames available, and the recorded parameters go with
        them. A failure leaves the output as it was. */
    method CaptureMic(deviceId: string, out: AudioOutput, answer: Option<Lease>) returns (ok: bool)
      requires mic.Valid() && mic.items.Some?
      modifies out
      ensures var i := DeviceIndex(mic.items.value, deviceId);
        ok <==> i != -1 && i in mic.streamClients && answer.Some?
      ensures ok ==>
        var i := DeviceIndex(mic.items.value, deviceId);
        out.data == answer.value.data && out.samples == AsInt32(answer.value.frames)
        && out.param == mic.params[i]
      ensures !ok ==> out.data == old(out.data) && out.samples == old(out.samples) && out.param == old(out.param)
    {
      var i := mic.FindDeviceIndex(deviceId);
      if i == -1 {
        return false;
      }
      if i !in mic.streamClients {
        return false;
      }
      if answer.None? {
        return false;
      }
      out.data := answer.value.data;
      out.param := mic.params[i];
      out.samples := AsInt32(answer.value.frames);
      ok := true;
    }

    /** capture_speaker: the render client's GetBuffer for out.samples frames
        (answer: the buffer address, None when it fails); the frame count is
        the caller's and is left alone. */
    method CaptureSpeaker(deviceId: string, out: AudioOutput, answer: Option<nat>) returns (ok: bool)
      requires speaker.Valid() && speaker.items.Some?
      modifies out
      ensures var i := DeviceIndex(speaker.items.value, deviceId);
        ok <==> i != -1 && i in speaker.streamClients && answer.Some?
      ensures ok ==>
        out.data == answer.value && out.param == speaker.params[DeviceIndex(speaker.items.value, deviceId)]
      ensures out.samples == old(out.samples)
      ensures !ok ==> out.data == old(out.data) && out.param == old(out.param)
    {
      var i := speaker.FindDeviceIndex(deviceId);
      if i == -1 {
        return false;
      }
      if i !in speaker.streamClients {
        return false;
      }
      if answer.None? {
        return false;
      }
      out.data := answer.value;
      out.param := speaker.params[i];
      ok := true;
    }
  }
}
