/**
 The device settings that audio input and output start with. A refused
 configuration is not dropped: the same lookups are made in it.
 */
module Settings {
  import opened Config
  import opened Decimal
  import opened Options

  const SAMPLE_RATES := [8000, 16000, 24000, 32000, 44100, 48000, 96000]
  const DEFAULT_SAMPLE_RATE: int32 := 48000
  const DEFAULT_GAIN: int32 := 25
  const DEFAULT_CHN_CNT: int32 := 1
  const DEFAULT_AI_VOL: int32 := 100
  const DEFAULT_AO_VOL: int32 := 90
  const DEFAULT_AI_FRM_NUM: int32 := 40
  const DEFAULT_AO_FRM_NUM: int32 := 20
  const DEFAULT_ID: int32 := 0
  const DEFAULT_AI_USR_FRM_DEPTH: int32 := 40
  const AUDIO_BIT_WIDTH_16 := 16
  const AUDIO_SOUND_MODE_MONO := 1
  const DEFAULT_AO_MAX_FRAME_SIZE: int32 := 1280

  datatype DeviceSettings = DeviceSettings(
    bitwidth: int, soundmode: int,
    sampleRate: int32, numPerFrm: int, chnCnt: int32, vol: int32, gain: int32, frmNum: int32)

  /** Any other text is reported and taken for the one known bit width. */
  function StringToBitwidth(text: string): int {
    if text == "AUDIO_BIT_WIDTH_16" then AUDIO_BIT_WIDTH_16 else AUDIO_BIT_WIDTH_16
  }

  function StringToSoundmode(text: string): int {
    if text == "AUDIO_SOUND_MODE_MONO" then AUDIO_SOUND_MODE_MONO else AUDIO_SOUND_MODE_MONO
  }

  predicate IsValidSampleRate(rate: int) {
    rate in SAMPLE_RATES
  }

  /** Samples in 0.040 seconds, cut to an integer. */
  function ComputeNumPerFrm(rate: int): (n: int)
    requires rate >= 0
  {
    (rate as real * 0.040).Floor
  }

  /** The integer that the parser keeps for a value: a number's own, 1 for true, 0 for anything else. */
  function ValueInt(j: Json): int32 {
    if j.Number? then j.value else if j.Bool? && j.on then 1 else 0
  }

  function IntOr(item: Option<Json>, default: int32): int32 {
    if item.Some? then ValueInt(item.value) else default
  }

  /** Text attributes are compared as strings, which only a text value or a missing one survives. */
  predicate TextOrMissing(item: Option<Json>) {
    item.None? || item.value.Text?
  }

  predicate VolInRange(vol: int) {
    -30 <= vol <= 120
  }

  predicate GainInRange(gain: int) {
    0 <= gain <= 31
  }

  predicate Safe(s: DeviceSettings) {
    VolInRange(s.vol) && GainInRange(s.gain) && s.chnCnt <= 1 && IsValidSampleRate(s.sampleRate)
    && 25 * s.numPerFrm == s.sampleRate
    && s.bitwidth == AUDIO_BIT_WIDTH_16 && s.soundmode == AUDIO_SOUND_MODE_MONO
  }

  /** A setting follows the file where the file's value is in range, and its default otherwise. */
  predicate Follows(s: DeviceSettings, file: Option<Json>, section: string, defaultVol: int32, defaultFrmNum: int32) {
    var rate := IntOr(GetAudioAttribute(file, section, "sample_rate"), DEFAULT_SAMPLE_RATE);
    var vol := IntOr(GetAudioAttribute(file, section, "SetVol"), defaultVol);
    var gain := IntOr(GetAudioAttribute(file, section, "SetGain"), DEFAULT_GAIN);
    var chnCnt := IntOr(GetAudioAttribute(file, section, "chnCnt"), DEFAULT_CHN_CNT);
    && (s.sampleRate == if IsValidSampleRate(rate) then rate else DEFAULT_SAMPLE_RATE)
    && (s.vol == if VolInRange(vol) then vol else defaultVol)
    && (s.gain == if GainInRange(gain) then gain else DEFAULT_GAIN)
    && (s.chnCnt == if chnCnt <= 1 then chnCnt else DEFAULT_CHN_CNT)
    && s.frmNum == IntOr(GetAudioAttribute(file, section, "frmNum"), defaultFrmNum)
  }

  predicate TextsReadable(file: Option<Json>, section: string) {
    TextOrMissing(GetAudioAttribute(file, section, "bitwidth"))
    && TextOrMissing(GetAudioAttribute(file, section, "soundmode"))
  }

  // ---------- The same in numbers ----------

  /** The attribute of a section of the "audio" object of a loaded file. */
  function Item(file: Option<Json>, section: string, name: string): Option<Json> {
    Find(Find(Find(file, "audio"), section), name)
  }

  /** The integer read for an item: a number's own, 1 or 0 for a boolean, 0 for anything else, none if it is missing. */
  function Int(item: Option<Json>): Option<int> {
    if item.None? then None
    else if item.value.Number? then Some(item.value.value)
    else if item.value == Bool(true) then Some(1)
    else Some(0)
  }

  predicate Within(v: Option<int>, lo: int, hi: int) {
    v.Some? && lo <= v.value <= hi
  }

  predicate IsText(item: Option<Json>) {
    item.Some? && item.value.Text?
  }

  /** Each setting is the file's if that is in range, and the default otherwise. */
  predicate InNumbers(s: DeviceSettings, file: Option<Json>, section: string, vol: int, frmNum: int) {
    var rate := Int(Item(file, section, "sample_rate"));
    var newVol, gain := Int(Item(file, section, "SetVol")), Int(Item(file, section, "SetGain"));
    var chnCnt, num := Int(Item(file, section, "chnCnt")), Int(Item(file, section, "frmNum"));
    && s.bitwidth == 16 && s.soundmode == 1
    && s.sampleRate ==
       (if rate.Some? && rate.value in {8000, 16000, 24000, 32000, 44100, 48000, 96000} then rate.value else 48000)
    && s.numPerFrm == s.sampleRate / 25
    && s.vol == (if Within(newVol, -30, 120) then newVol.value else vol)
    && s.gain == (if Within(gain, 0, 31) then gain.value else 25)
    && s.chnCnt == (if chnCnt.Some? && chnCnt.value <= 1 then chnCnt.value else 1)
    && s.frmNum == (if num.Some? then num.value else frmNum)
  }

  /** There are settings unless a text attribute is present and no text. */
  predicate SetInNumbers(settings: Option<DeviceSettings>, file: Option<Json>, section: string, vol: int, frmNum: int) {
    var bitwidth, soundmode := Item(file, section, "bitwidth"), Item(file, section, "soundmode");
    && (settings.Some? <==> (bitwidth.None? || IsText(bitwidth)) && (soundmode.None? || IsText(soundmode)))
    && (settings.Some? ==> InNumbers(settings.value, file, section, vol, frmNum))
  }

  lemma FollowsInNumbers(s: DeviceSettings, file: Option<Json>, section: string, vol: int32, frmNum: int32)
    requires Safe(s) && Follows(s, file, section, vol, frmNum) && VolInRange(vol)
    ensures InNumbers(s, file, section, vol, frmNum)
  {
    RatesInNumbers(IntOr(GetAudioAttribute(file, section, "sample_rate"), 48000));
  }

  lemma RatesInNumbers(rate: int)
    ensures IsValidSampleRate(rate) <==> rate in {8000, 16000, 24000, 32000, 44100, 48000, 96000}
    ensures IsValidSampleRate(rate) ==> rate > 0 && rate % 25 == 0
  {
    assert SAMPLE_RATES[0] == 8000 && SAMPLE_RATES[1] == 16000 && SAMPLE_RATES[2] == 24000 && SAMPLE_RATES[3] == 32000;
    assert SAMPLE_RATES[4] == 44100 && SAMPLE_RATES[5] == 48000 && SAMPLE_RATES[6] == 96000;
  }

  /** A frame never holds more than its share of a second, and exactly that share for the rates divisible by 25. */
  lemma FrameShare(rate: nat)
    ensures 25 * ComputeNumPerFrm(rate) <= rate < 25 * ComputeNumPerFrm(rate) + 25
    ensures 25 * ComputeNumPerFrm(rate) == rate <==> rate % 25 == 0
  {
    var n := ComputeNumPerFrm(rate);
    assert n as real <= rate as real * 0.040 < n as real + 1.0;
    assert 25.0 * n as real <= rate as real < 25.0 * n as real + 25.0;
    assert (25 * n) as real == 25.0 * n as real;
  }

  /**
   The settings part of the two initialisers, which differ in section and
   defaults. There are none when a text attribute cannot be read as text: the
   original then compares a null string.
   */
  method Initialize(file: Option<Json>, section: string, defaultVol: int32, defaultFrmNum: int32)
    returns (settings: Option<DeviceSettings>)
    requires VolInRange(defaultVol)
    ensures settings.Some? <==> TextsReadable(file, section)
    ensures settings.Some? ==> Safe(settings.value)
    ensures settings.Some? ==> Follows(settings.value, file, section, defaultVol, defaultFrmNum)
    ensures SetInNumbers(settings, file, section, defaultVol, defaultFrmNum)
  {
    var bitwidthItem := GetAudioAttribute(file, section, "bitwidth");
    if !TextOrMissing(bitwidthItem) {
      return None;
    }
    var bitwidth := if bitwidthItem.Some? then StringToBitwidth(bitwidthItem.value.text) else AUDIO_BIT_WIDTH_16;
    var soundmodeItem := GetAudioAttribute(file, section, "soundmode");
    if !TextOrMissing(soundmodeItem) {
      return None;
    }
    var soundmode := if soundmodeItem.Some? then StringToSoundmode(soundmodeItem.value.text) else AUDIO_SOUND_MODE_MONO;
    var frmNum := IntOr(GetAudioAttribute(file, section, "frmNum"), defaultFrmNum);
    var sampleRate := IntOr(GetAudioAttribute(file, section, "sample_rate"), DEFAULT_SAMPLE_RATE);
    RatesInNumbers(DEFAULT_SAMPLE_RATE);
    if !IsValidSampleRate(sampleRate) {
      sampleRate := DEFAULT_SAMPLE_RATE;
    }
    RatesInNumbers(sampleRate);
    FrameShare(sampleRate);
    var numPerFrm := ComputeNumPerFrm(sampleRate);
    var chnCnt := IntOr(GetAudioAttribute(file, section, "chnCnt"), DEFAULT_CHN_CNT);
    if chnCnt > 1 {
      chnCnt := DEFAULT_CHN_CNT;
    }
    var vol := IntOr(GetAudioAttribute(file, section, "SetVol"), defaultVol);
    if vol < -30 || vol > 120 {
      vol := defaultVol;
    }
    var gain := IntOr(GetAudioAttribute(file, section, "SetGain"), DEFAULT_GAIN);
    if gain < 0 || gain > 31 {
      gain := DEFAULT_GAIN;
    }
    settings := Some(DeviceSettings(bitwidth, soundmode, sampleRate, numPerFrm, chnCnt, vol, gain, frmNum));
    assert Safe(settings.value);
    assert Follows(settings.value, file, section, defaultVol, defaultFrmNum);
    FollowsInNumbers(settings.value, file, section, defaultVol, defaultFrmNum);
  }

  /** What input starts with: whether at all, on which channel of which device, and how. */
  datatype InputStart = InputStart(
    enabled: bool, deviceId: int32, channelId: int32, settings: Option<DeviceSettings>, usrFrmDepth: int32)

  datatype OutputStart = OutputStart(
    enabled: bool, deviceId: int32, channelId: int32, settings: Option<DeviceSettings>, maxFrameSize: int32)

  /** A device is enabled if its section is missing, but not if the section does not say so. */
  predicate Enabled(file: Option<Json>, section: string) {
    Find(Find(file, "audio"), section).None? || GetAudioAttribute(file, section, "enabled") == Some(Bool(true))
  }

  /** Any number in the file is a frame size, whatever its value. */
  function FrameSize(file: Option<Json>): int32 {
    var size := GetAudioAttribute(file, AO, "frame_size");
    if size.Some? && size.value.Number? then size.value.value else DEFAULT_AO_MAX_FRAME_SIZE
  }

  ghost predicate StartsAs(settings: Option<DeviceSettings>, file: Option<Json>, section: string,
                           vol: int32, frmNum: int32)
  {
    && (settings.Some? <==> TextsReadable(file, section))
    && (settings.Some? ==> Safe(settings.value) && Follows(settings.value, file, section, vol, frmNum))
  }

  ghost predicate InputFollows(u: InputStart, file: Option<Json>) {
    && StartsAs(u.settings, file, AI, DEFAULT_AI_VOL, DEFAULT_AI_FRM_NUM)
    && u.enabled == Enabled(file, AI)
    && u.deviceId == IntOr(GetAudioAttribute(file, AI, "device_id"), DEFAULT_ID)
    && u.channelId == IntOr(GetAudioAttribute(file, AI, "channel_id"), DEFAULT_ID)
    && u.usrFrmDepth == IntOr(GetAudioAttribute(file, AI, "usrFrmDepth"), DEFAULT_AI_USR_FRM_DEPTH)
  }

  ghost predicate OutputFollows(u: OutputStart, file: Option<Json>) {
    && StartsAs(u.settings, file, AO, DEFAULT_AO_VOL, DEFAULT_AO_FRM_NUM)
    && u.enabled == Enabled(file, AO)
    && u.deviceId == IntOr(GetAudioAttribute(file, AO, "device_id"), DEFAULT_ID)
    && u.channelId == IntOr(GetAudioAttribute(file, AO, "channel_id"), DEFAULT_ID)
    && u.maxFrameSize == FrameSize(file)
  }

  /** What both starts have in common, in numbers. */
  predicate CommonInNumbers(enabled: bool, deviceId: int, channelId: int, file: Option<Json>, section: string) {
    var device, channel := Int(Item(file, section, "device_id")), Int(Item(file, section, "channel_id"));
    && (enabled <==> Find(Find(file, "audio"), section).None? || Item(file, section, "enabled") == Some(Bool(true)))
    && deviceId == (if device.Some? then device.value else 0)
    && channelId == (if channel.Some? then channel.value else 0)
  }

  predicate InputInNumbers(u: InputStart, file: Option<Json>) {
    var depth := Int(Item(file, "AI_attributes", "usrFrmDepth"));
    && CommonInNumbers(u.enabled, u.deviceId, u.channelId, file, "AI_attributes")
    && SetInNumbers(u.settings, file, "AI_attributes", 100, 40)
    && u.usrFrmDepth == (if depth.Some? then depth.value else 40)
  }

  predicate OutputInNumbers(u: OutputStart, file: Option<Json>) {
    var size := Item(file, "AO_attributes", "frame_size");
    && CommonInNumbers(u.enabled, u.deviceId, u.channelId, file, "AO_attributes")
    && SetInNumbers(u.settings, file, "AO_attributes", 90, 20)
    && u.maxFrameSize == (if size.Some? && size.value.Number? then size.value.value else 1280)
  }

  method InitializeAudioInput(file: Option<Json>) returns (u: InputStart)
    ensures InputFollows(u, file)
    ensures InputInNumbers(u, file)
  {
    var settings := Initialize(file, AI, DEFAULT_AI_VOL, DEFAULT_AI_FRM_NUM);
    var deviceId := IntOr(GetAudioAttribute(file, AI, "device_id"), DEFAULT_ID);
    var channelId := IntOr(GetAudioAttribute(file, AI, "channel_id"), DEFAULT_ID);
    var depth := IntOr(GetAudioAttribute(file, AI, "usrFrmDepth"), DEFAULT_AI_USR_FRM_DEPTH);
    u := InputStart(Enabled(file, AI), deviceId, channelId, settings, depth);
  }

  method InitializeAudioOutput(file: Option<Json>) returns (u: OutputStart)
    ensures OutputFollows(u, file)
    ensures OutputInNumbers(u, file)
  {
    var settings := Initialize(file, AO, DEFAULT_AO_VOL, DEFAULT_AO_FRM_NUM);
    var deviceId := IntOr(GetAudioAttribute(file, AO, "device_id"), DEFAULT_ID);
    var channelId := IntOr(GetAudioAttribute(file, AO, "channel_id"), DEFAULT_ID);
    u := OutputStart(Enabled(file, AO), deviceId, channelId, settings, FrameSize(file));
  }

  const BITWIDTH := Attribute("bitwidth", TextKind)
  const SOUNDMODE := Attribute("soundmode", TextKind)

  lemma TextsAreRequired()
    ensures forall section :: section in SECTIONS ==>
              BITWIDTH in AttributesOf(section) && SOUNDMODE in AttributesOf(section)
  {
    assert AO_ATTRIBUTES[5] == BITWIDTH && AI_ATTRIBUTES[5] == BITWIDTH;
    assert AO_ATTRIBUTES[6] == SOUNDMODE && AI_ATTRIBUTES[6] == SOUNDMODE;
  }

  /** An accepted file never stops the initialisers at a text attribute. */
  lemma AcceptedTextsReadable(file: Option<Json>, section: string)
    requires Accepted(file) && section in SECTIONS
    ensures TextsReadable(file, section)
  {
    TextsAreRequired();
    AcceptedLookupsSucceed(file, section, BITWIDTH);
    AcceptedLookupsSucceed(file, section, SOUNDMODE);
  }

  predicate AtMostOne(chnCnt: int) {
    chnCnt <= 1
  }

  predicate Unlimited(n: int) {
    true
  }

  /** An attribute that changes nothing: missing, out of its range, or the default itself. */
  predicate LeavesDefault(item: Option<Json>, inRange: int -> bool, default: int32) {
    item.None? || !inRange(ValueInt(item.value)) || ValueInt(item.value) == default
  }

  function Defaults(vol: int32, frmNum: int32): DeviceSettings {
    DeviceSettings(AUDIO_BIT_WIDTH_16, AUDIO_SOUND_MODE_MONO, DEFAULT_SAMPLE_RATE, DEFAULT_SAMPLE_RATE / 25,
                   DEFAULT_CHN_CNT, vol, DEFAULT_GAIN, frmNum)
  }

  const DEFAULT_INPUT :=
    InputStart(true, DEFAULT_ID, DEFAULT_ID,
               Some(Defaults(DEFAULT_AI_VOL, DEFAULT_AI_FRM_NUM)), DEFAULT_AI_USR_FRM_DEPTH)

  const DEFAULT_OUTPUT :=
    OutputStart(true, DEFAULT_ID, DEFAULT_ID,
                Some(Defaults(DEFAULT_AO_VOL, DEFAULT_AO_FRM_NUM)), DEFAULT_AO_MAX_FRAME_SIZE)

  /** The attributes that go into the settings of either device change nothing. */
  predicate SettingsLeaveDefaults(file: Option<Json>, section: string, vol: int32, frmNum: int32) {
    && LeavesDefault(GetAudioAttribute(file, section, "sample_rate"), IsValidSampleRate, DEFAULT_SAMPLE_RATE)
    && LeavesDefault(GetAudioAttribute(file, section, "SetVol"), VolInRange, vol)
    && LeavesDefault(GetAudioAttribute(file, section, "SetGain"), GainInRange, DEFAULT_GAIN)
    && LeavesDefault(GetAudioAttribute(file, section, "chnCnt"), AtMostOne, DEFAULT_CHN_CNT)
    && LeavesDefault(GetAudioAttribute(file, section, "frmNum"), Unlimited, frmNum)
  }

  /** Nor do the attributes that both devices read on the way to their settings. */
  predicate SectionLeavesDefaults(file: Option<Json>, section: string, vol: int32, frmNum: int32) {
    && (Find(Find(file, "audio"), section).None? || GetAudioAttribute(file, section, "enabled") == Some(Bool(true)))
    && LeavesDefault(GetAudioAttribute(file, section, "device_id"), Unlimited, DEFAULT_ID)
    && LeavesDefault(GetAudioAttribute(file, section, "channel_id"), Unlimited, DEFAULT_ID)
    && TextsReadable(file, section)
    && SettingsLeaveDefaults(file, section, vol, frmNum)
  }

  lemma SettingsDefaultsCondition(file: Option<Json>, section: string, s: DeviceSettings, vol: int32, frmNum: int32)
    requires Safe(s) && Follows(s, file, section, vol, frmNum)
    ensures s == Defaults(vol, frmNum) <==> SettingsLeaveDefaults(file, section, vol, frmNum)
  {
    FrameShare(DEFAULT_SAMPLE_RATE);
    FrameShare(s.sampleRate);
  }

  /**
   When input starts with all its defaults: exactly when every attribute read for
   it is missing, out of its range or the default itself. Whether the validator
   refused the file makes no difference.
   */
  lemma InputDefaultsCondition(file: Option<Json>, u: InputStart)
    requires InputFollows(u, file)
    ensures u == DEFAULT_INPUT <==>
            && SectionLeavesDefaults(file, AI, DEFAULT_AI_VOL, DEFAULT_AI_FRM_NUM)
            && LeavesDefault(GetAudioAttribute(file, AI, "usrFrmDepth"), Unlimited, DEFAULT_AI_USR_FRM_DEPTH)
  {
    if u.settings.Some? {
      SettingsDefaultsCondition(file, AI, u.settings.value, DEFAULT_AI_VOL, DEFAULT_AI_FRM_NUM);
    }
  }

  /** The same for output; a frame size that is not a number is as good as missing. */
  lemma OutputDefaultsCondition(file: Option<Json>, u: OutputStart)
    requires OutputFollows(u, file)
    ensures u == DEFAULT_OUTPUT <==>
            && SectionLeavesDefaults(file, AO, DEFAULT_AO_VOL, DEFAULT_AO_FRM_NUM)
            && var size := GetAudioAttribute(file, AO, "frame_size");
               size.None? || !size.value.Number? || size.value.value == DEFAULT_AO_MAX_FRAME_SIZE
  {
    if u.settings.Some? {
      SettingsDefaultsCondition(file, AO, u.settings.value, DEFAULT_AO_VOL, DEFAULT_AO_FRM_NUM);
    }
  }

  // ---------- Socket paths ----------

  const PATH_BUFFER := 32
  const DEFAULT_PATHS := ["ingenic_audio_input", "ingenic_audio_output", "ingenic_audio_control"]

  /** A path from the file is copied into a fixed buffer that keeps room for its terminator. */
  function SocketPath(file: Option<Json>, k: nat): string
    requires k < |NETWORK_KEYS|
  {
    var path := GetSocketPath(file, NETWORK_KEYS[k]);
    if path.None? then DEFAULT_PATHS[k]
    else if |path.value| < PATH_BUFFER then path.value
    else path.value[..PATH_BUFFER - 1]
  }

  /** A server listens on its default path exactly when the file has no text for it, or that very path. */
  lemma PathDefaultCondition(file: Option<Json>, k: nat)
    requires k < |NETWORK_KEYS|
    ensures |SocketPath(file, k)| < PATH_BUFFER
    ensures SocketPath(file, k) == DEFAULT_PATHS[k] <==>
              GetSocketPath(file, NETWORK_KEYS[k]) in [None, Some(DEFAULT_PATHS[k])]
  {
    assert |DEFAULT_PATHS[0]| < 31 && |DEFAULT_PATHS[1]| < 31 && |DEFAULT_PATHS[2]| < 31;
  }

  /** The first 31 characters of a text, and the given default for anything else. */
  function PathOr(item: Option<Json>, default: string): string {
    if !IsText(item) then default
    else if |item.value.text| <= 31 then item.value.text
    else item.value.text[..31]
  }

  /** Which path of the file serves which server, and what each falls back on. */
  lemma PathsSpelledOut(file: Option<Json>)
    ensures SocketPath(file, 0) == PathOr(Item(file, "network", "audio_input_socket_path"), "ingenic_audio_input")
    ensures SocketPath(file, 1) == PathOr(Item(file, "network", "audio_output_socket_path"), "ingenic_audio_output")
    ensures SocketPath(file, 2) == PathOr(Item(file, "network", "audio_control_socket_path"), "ingenic_audio_control")
  {
    assert NETWORK_KEYS[0] == "audio_input_socket_path" && NETWORK_KEYS[1] == "audio_output_socket_path";
    assert NETWORK_KEYS[2] == "audio_control_socket_path";
  }

  /** A refused file whose volume is used all the same. */
  lemma RefusedFileStillCounts()
    ensures var file := Some(Object([Member("audio", Object([Member(AI, Object([Member("SetVol", Number(7))]))]))]));
            !Accepted(file) && forall s: DeviceSettings, d, f :: Follows(s, file, AI, d, f) ==> s.vol == 7
  {
    var section := Object([Member("SetVol", Number(7))]);
    var audio := Object([Member(AI, section)]);
    var file := Some(Object([Member("audio", audio)]));
    assert Find(file, "audio") == Some(audio);
    assert FirstMatch(audio.members[1..], AO) == None;
    assert Lookup(audio, AO) == None;
    assert Lookup(audio, AI) == Some(section);
    assert Lookup(section, "SetVol") == Some(Number(7));
  }
}
