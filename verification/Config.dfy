/**
 The configuration: its validator, the lookups made in it, and the device
 settings that come out of it. Parsing JSON text is not part of this model.
 */
module Config {
  import opened Options
  import opened Decimal

  /** A parsed JSON tree. A number carries the integer the parser keeps of it. */
  datatype Json =
    | Null
    | Bool(on: bool)
    | Number(value: int32)
    | Text(text: string)
    | Array(items: seq<Json>)
    | Object(members: seq<Member>)

  datatype Member = Member(key: string, item: Json)

  datatype Kind = BoolKind | NumberKind | TextKind | ObjectKind

  datatype Attribute = Attribute(key: string, kind: Kind)

  predicate HasKind(j: Json, kind: Kind) {
    match kind
    case BoolKind => j.Bool?
    case NumberKind => j.Number?
    case TextKind => j.Text?
    case ObjectKind => j.Object?
  }

  function FirstMatch(members: seq<Member>, key: string): Option<Json> {
    if members == [] then None
    else if members[0].key == key then Some(members[0].item)
    else FirstMatch(members[1..], key)
  }

  /** The first member of that name, if the value is an object that has one. */
  function Lookup(j: Json, key: string): Option<Json> {
    if j.Object? then FirstMatch(j.members, key) else None
  }

  function Find(j: Option<Json>, key: string): Option<Json> {
    if j.None? then None else Lookup(j.value, key)
  }

  /** A lookup gives the first member whose key is exactly the one asked for, and nothing only if there is none. */
  lemma {:induction false} LookupIsFirst(j: Json, key: string)
    ensures Lookup(j, key).None? <==> !j.Object? || forall i :: 0 <= i < |j.members| ==> j.members[i].key != key
    ensures forall i :: j.Object? && 0 <= i < |j.members| && j.members[i].key == key
                        && (forall h :: 0 <= h < i ==> j.members[h].key != key) ==>
                        Lookup(j, key) == Some(j.members[i].item)
  {
    if j.Object? {
      FirstMatchIsFirst(j.members, key);
    }
  }

  lemma {:induction false} FirstMatchIsFirst(members: seq<Member>, key: string)
    ensures FirstMatch(members, key).None? <==> forall i :: 0 <= i < |members| ==> members[i].key != key
    ensures forall i :: 0 <= i < |members| && members[i].key == key
                        && (forall h :: 0 <= h < i ==> members[h].key != key) ==>
                        FirstMatch(members, key) == Some(members[i].item)
  {
    if members == [] {
    } else {
      var rest := members[1..];
      FirstMatchIsFirst(rest, key);
      assert forall i :: 0 < i < |members| ==> members[i] == rest[i - 1];
      forall i | 0 <= i < |members| && members[i].key == key && forall h :: 0 <= h < i ==> members[h].key != key
        ensures FirstMatch(members, key) == Some(members[i].item)
      {
        if i > 0 {
          assert rest[i - 1] == members[i];
          assert forall h :: 0 <= h < i - 1 ==> rest[h] == members[h + 1];
        }
      }
    }
  }

  const AO := "AO_attributes"
  const AI := "AI_attributes"
  const AGC := "AGC_attributes"
  const HPF := "HPF_attributes"
  const NETWORK := "network"
  const SECTIONS := [AO, AI]

  const AO_ATTRIBUTES := [
    Attribute("enabled", BoolKind), Attribute("device_id", NumberKind), Attribute("channel_id", NumberKind),
    Attribute("sample_rate", NumberKind), Attribute("frmNum", NumberKind), Attribute("bitwidth", TextKind),
    Attribute("soundmode", TextKind), Attribute("chnCnt", NumberKind), Attribute("SetVol", NumberKind),
    Attribute("SetGain", NumberKind), Attribute("Enable_Agc", BoolKind), Attribute(AGC, ObjectKind),
    Attribute("Enable_Hpf", BoolKind), Attribute(HPF, ObjectKind)]

  const AI_ATTRIBUTES := [
    Attribute("enabled", BoolKind), Attribute("device_id", NumberKind), Attribute("channel_id", NumberKind),
    Attribute("sample_rate", NumberKind), Attribute("frmNum", NumberKind), Attribute("bitwidth", TextKind),
    Attribute("soundmode", TextKind), Attribute("chnCnt", NumberKind), Attribute("SetVol", NumberKind),
    Attribute("SetGain", NumberKind), Attribute("SetAlcGain", NumberKind), Attribute("Enable_Ns", BoolKind),
    Attribute("Level_Ns", NumberKind), Attribute("Enable_Hpf", BoolKind), Attribute("EnableAec", BoolKind),
    Attribute("Enable_Agc", BoolKind), Attribute(AGC, ObjectKind)]

  const AGC_ATTRIBUTES := [Attribute("TargetLevelDbfs", NumberKind), Attribute("CompressionGaindB", NumberKind)]

  const HPF_ATTRIBUTES := [Attribute("SetHpfCoFrequency", NumberKind)]

  const NETWORK_KEYS := ["audio_input_socket_path", "audio_output_socket_path", "audio_control_socket_path"]

  function AttributesOf(section: string): seq<Attribute> {
    if section == AO then AO_ATTRIBUTES else AI_ATTRIBUTES
  }

  /** What is required inside an attribute of a section. */
  function Nested(section: string, key: string): seq<Attribute> {
    if key == AGC then AGC_ATTRIBUTES
    else if section == AO && key == HPF then HPF_ATTRIBUTES
    else []
  }

  predicate Has(parent: Json, a: Attribute) {
    var item := Lookup(parent, a.key);
    item.Some? && HasKind(item.value, a.kind)
  }

  predicate HasAll(parent: Json, attributes: seq<Attribute>) {
    forall i :: 0 <= i < |attributes| ==> Has(parent, attributes[i])
  }

  predicate Complete(section: string, parent: Json, a: Attribute) {
    Has(parent, a) && HasAll(Lookup(parent, a.key).value, Nested(section, a.key))
  }

  predicate SectionConforms(root: Json, section: string) {
    Has(root, Attribute(section, ObjectKind)) &&
    var parent, attributes := Lookup(root, section).value, AttributesOf(section);
    forall i :: 0 <= i < |attributes| ==> Complete(section, parent, attributes[i])
  }

  predicate NetworkConforms(root: Json) {
    Has(root, Attribute(NETWORK, ObjectKind)) &&
    var parent := Lookup(root, NETWORK).value;
    forall i :: 0 <= i < |NETWORK_KEYS| ==> Has(parent, Attribute(NETWORK_KEYS[i], TextKind))
  }

  predicate Conforms(root: Json) {
    root.Object? && SectionConforms(root, AO) && SectionConforms(root, AI) && NetworkConforms(root)
  }

  /** The value at the end of a path of keys. */
  function At(j: Json, path: seq<string>): Option<Json>
    decreases |path|
  {
    if path == [] then Some(j) else
      var child := Lookup(j, path[0]);
      if child.None? then None else At(child.value, path[1..])
  }

  /** The required paths and the kinds required of what they lead to. */
  predicate Required(path: seq<string>, kind: Kind) {
    if |path| == 1 then path[0] in [AO, AI, NETWORK] && kind == ObjectKind
    else if |path| == 2 then
      (path[0] in SECTIONS && Attribute(path[1], kind) in AttributesOf(path[0]))
      || (path[0] == NETWORK && path[1] in NETWORK_KEYS && kind == TextKind)
    else if |path| == 3 then
      path[0] in SECTIONS && Attribute(path[2], kind) in Nested(path[0], path[1])
    else false
  }

  predicate Leads(root: Json, path: seq<string>, kind: Kind) {
    At(root, path).Some? && HasKind(At(root, path).value, kind)
  }

  /** The schema: an object in which every required path leads to a value of its kind. */
  ghost predicate Schema(root: Json) {
    root.Object? && forall path, kind :: Required(path, kind) ==> Leads(root, path, kind)
  }

  lemma AlongOne(j: Json, a: string)
    ensures At(j, [a]) == Lookup(j, a)
  {
    assert [a][1..] == [];
  }

  lemma AlongTwo(j: Json, a: string, b: string)
    ensures At(j, [a, b]) == Find(Lookup(j, a), b)
  {
    assert [a, b][1..] == [b];
    if Lookup(j, a).Some? {
      AlongOne(Lookup(j, a).value, b);
    }
  }

  lemma AlongThree(j: Json, a: string, b: string, c: string)
    ensures At(j, [a, b, c]) == Find(Find(Lookup(j, a), b), c)
  {
    assert [a, b, c][1..] == [b, c];
    if Lookup(j, a).Some? {
      AlongTwo(Lookup(j, a).value, b, c);
    }
  }

  lemma NestingKeys(section: string, key: string)
    requires section in SECTIONS && Nested(section, key) != []
    ensures Attribute(key, ObjectKind) in AttributesOf(section)
  {
    assert AO_ATTRIBUTES[11].key == AGC && AO_ATTRIBUTES[13].key == HPF && AI_ATTRIBUTES[16].key == AGC;
  }

  lemma {:induction false} ConformingSection(root: Json, section: string, path: seq<string>, kind: Kind)
    requires SectionConforms(root, section) && section in SECTIONS
    requires |path| >= 2 && path[0] == section && Required(path, kind)
    ensures Leads(root, path, kind)
  {
    var parent := Lookup(root, section).value;
    if |path| == 2 {
      assert Complete(section, parent, Attribute(path[1], kind));
      AlongTwo(root, section, path[1]);
      assert path == [section, path[1]];
    } else {
      assert path == [section, path[1], path[2]];
      ConformingNested(root, section, path[1], Attribute(path[2], kind));
    }
  }

  lemma {:induction false} ConformingNested(root: Json, section: string, key: string, a: Attribute)
    requires SectionConforms(root, section) && section in SECTIONS && a in Nested(section, key)
    ensures Leads(root, [section, key, a.key], a.kind)
  {
    var parent := Lookup(root, section).value;
    NestingKeys(section, key);
    assert Complete(section, parent, Attribute(key, ObjectKind));
    assert Has(Lookup(parent, key).value, a);
    AlongThree(root, section, key, a.key);
  }

  lemma {:induction false} ConformingLeads(root: Json, path: seq<string>, kind: Kind)
    requires Required(path, kind)
    ensures Conforms(root) ==> Leads(root, path, kind)
  {
    if !Conforms(root) {
      return;
    }
    if |path| == 1 {
      AlongOne(root, path[0]);
      assert path == [path[0]];
    } else if path[0] == NETWORK {
      assert Has(Lookup(root, NETWORK).value, Attribute(path[1], TextKind));
      AlongTwo(root, NETWORK, path[1]);
      assert path == [NETWORK, path[1]];
    } else {
      ConformingSection(root, path[0], path, kind);
    }
  }

  lemma SchemaSection(root: Json, section: string)
    requires Schema(root) && section in SECTIONS
    ensures SectionConforms(root, section)
  {
    AlongOne(root, section);
    assert Required([section], ObjectKind);
    var parent, attributes := Lookup(root, section).value, AttributesOf(section);
    forall i | 0 <= i < |attributes| ensures Complete(section, parent, attributes[i]) {
      SchemaAttribute(root, section, attributes[i]);
    }
  }

  lemma SchemaAttribute(root: Json, section: string, a: Attribute)
    requires Schema(root) && section in SECTIONS && a in AttributesOf(section)
    requires Has(root, Attribute(section, ObjectKind))
    ensures Complete(section, Lookup(root, section).value, a)
  {
    assert Required([section, a.key], a.kind);
    AlongTwo(root, section, a.key);
    var nested := Nested(section, a.key);
    forall i | 0 <= i < |nested|
      ensures Has(Lookup(Lookup(root, section).value, a.key).value, nested[i])
    {
      var path := [section, a.key, nested[i].key];
      assert Attribute(path[2], nested[i].kind) == nested[i];
      assert Required(path, nested[i].kind);
      AlongThree(root, section, a.key, nested[i].key);
    }
  }

  lemma SchemaNetwork(root: Json)
    requires Schema(root)
    ensures NetworkConforms(root)
  {
    AlongOne(root, NETWORK);
    assert Required([NETWORK], ObjectKind);
    forall i | 0 <= i < |NETWORK_KEYS| ensures Has(Lookup(root, NETWORK).value, Attribute(NETWORK_KEYS[i], TextKind)) {
      AlongTwo(root, NETWORK, NETWORK_KEYS[i]);
      assert Required([NETWORK, NETWORK_KEYS[i]], TextKind);
    }
  }

  /** The nested tables say the same as the flat list of paths. */
  lemma ConformsIffSchema(root: Json)
    ensures Conforms(root) <==> Schema(root)
  {
    if Conforms(root) {
      forall path, kind | Required(path, kind) ensures Leads(root, path, kind) {
        ConformingLeads(root, path, kind);
      }
    }
    if Schema(root) {
      SchemaSection(root, AO);
      SchemaSection(root, AI);
      SchemaNetwork(root);
    }
  }

  // ---------- The schema spelled out ----------

  predicate IsBool(parent: Json, key: string) {
    var item := Lookup(parent, key);
    item.Some? && item.value.Bool?
  }

  predicate IsNumber(parent: Json, key: string) {
    var item := Lookup(parent, key);
    item.Some? && item.value.Number?
  }

  predicate IsText(parent: Json, key: string) {
    var item := Lookup(parent, key);
    item.Some? && item.value.Text?
  }

  predicate IsObject(parent: Json, key: string) {
    var item := Lookup(parent, key);
    item.Some? && item.value.Object?
  }

  predicate PlainAgc(section: Json) {
    IsObject(section, "AGC_attributes") &&
    var agc := Lookup(section, "AGC_attributes").value;
    IsNumber(agc, "TargetLevelDbfs") && IsNumber(agc, "CompressionGaindB")
  }

  predicate PlainHpf(section: Json) {
    IsObject(section, "HPF_attributes") && IsNumber(Lookup(section, "HPF_attributes").value, "SetHpfCoFrequency")
  }

  /** What both sections begin with. */
  predicate PlainBasics(section: Json) {
    && IsBool(section, "enabled") && IsNumber(section, "device_id") && IsNumber(section, "channel_id")
    && IsNumber(section, "sample_rate") && IsNumber(section, "frmNum")
    && IsText(section, "bitwidth") && IsText(section, "soundmode")
    && IsNumber(section, "chnCnt") && IsNumber(section, "SetVol") && IsNumber(section, "SetGain")
  }

  /** What both sections hold. */
  predicate PlainDevice(section: Json) {
    PlainBasics(section) && IsBool(section, "Enable_Agc") && IsBool(section, "Enable_Hpf") && PlainAgc(section)
  }

  predicate PlainOutput(root: Json) {
    IsObject(root, "AO_attributes") &&
    var section := Lookup(root, "AO_attributes").value;
    PlainDevice(section) && PlainHpf(section)
  }

  predicate PlainFilters(section: Json) {
    && IsNumber(section, "SetAlcGain") && IsNumber(section, "Level_Ns")
    && IsBool(section, "Enable_Ns") && IsBool(section, "EnableAec")
  }

  predicate PlainInput(root: Json) {
    IsObject(root, "AI_attributes") &&
    var section := Lookup(root, "AI_attributes").value;
    PlainDevice(section) && PlainFilters(section)
  }

  predicate PlainNetwork(root: Json) {
    IsObject(root, "network") &&
    var network := Lookup(root, "network").value;
    && IsText(network, "audio_input_socket_path")
    && IsText(network, "audio_output_socket_path")
    && IsText(network, "audio_control_socket_path")
  }

  /** Attribute by attribute what an accepted file has, and all that it needs to have. */
  predicate PlainSchema(root: Json) {
    root.Object? && PlainOutput(root) && PlainInput(root) && PlainNetwork(root)
  }

  lemma NothingNested()
    ensures forall i :: 0 <= i < |AO_ATTRIBUTES| && i != 11 && i != 13 ==> Nested(AO, AO_ATTRIBUTES[i].key) == []
    ensures forall i :: 0 <= i < |AI_ATTRIBUTES| && i != 16 ==> Nested(AI, AI_ATTRIBUTES[i].key) == []
  {
  }

  lemma AgcInPlainTerms(section: string, parent: Json)
    ensures Complete(section, parent, Attribute(AGC, ObjectKind)) <==> PlainAgc(parent)
  {
    assert AGC_ATTRIBUTES[0].kind == NumberKind && AGC_ATTRIBUTES[1].kind == NumberKind;
  }

  lemma HpfInPlainTerms(parent: Json)
    ensures Complete(AO, parent, Attribute(HPF, ObjectKind)) <==> PlainHpf(parent)
  {
    assert HPF_ATTRIBUTES[0].kind == NumberKind;
  }

  /** Attribute i of either section, for the first ten. */
  predicate BasicAt(parent: Json, i: nat) {
    if i == 0 then IsBool(parent, "enabled")
    else if i == 1 then IsNumber(parent, "device_id")
    else if i == 2 then IsNumber(parent, "channel_id")
    else if i == 3 then IsNumber(parent, "sample_rate")
    else if i == 4 then IsNumber(parent, "frmNum")
    else if i == 5 then IsText(parent, "bitwidth")
    else if i == 6 then IsText(parent, "soundmode")
    else if i == 7 then IsNumber(parent, "chnCnt")
    else if i == 8 then IsNumber(parent, "SetVol")
    else IsNumber(parent, "SetGain")
  }

  lemma BasicsSpelled(parent: Json)
    ensures PlainBasics(parent) <==> (
              && BasicAt(parent, 0) && BasicAt(parent, 1) && BasicAt(parent, 2) && BasicAt(parent, 3)
              && BasicAt(parent, 4) && BasicAt(parent, 5) && BasicAt(parent, 6) && BasicAt(parent, 7)
              && BasicAt(parent, 8) && BasicAt(parent, 9))
  {
  }

  /** Attribute i of the output section in plain terms. */
  predicate OutputAt(parent: Json, i: nat) {
    if i < 10 then BasicAt(parent, i)
    else if i == 10 then IsBool(parent, "Enable_Agc")
    else if i == 11 then PlainAgc(parent)
    else if i == 12 then IsBool(parent, "Enable_Hpf")
    else PlainHpf(parent)
  }

  lemma OutputAttributeInPlainTerms(parent: Json, i: nat)
    requires i < |AO_ATTRIBUTES|
    ensures Complete(AO, parent, AO_ATTRIBUTES[i]) <==> OutputAt(parent, i)
  {
    NothingNested();
    AgcInPlainTerms(AO, parent);
    HpfInPlainTerms(parent);
  }

  lemma OutputSpelled(parent: Json)
    ensures PlainDevice(parent) && PlainHpf(parent) <==> (
              && OutputAt(parent, 0) && OutputAt(parent, 1) && OutputAt(parent, 2) && OutputAt(parent, 3)
              && OutputAt(parent, 4) && OutputAt(parent, 5) && OutputAt(parent, 6) && OutputAt(parent, 7)
              && OutputAt(parent, 8) && OutputAt(parent, 9) && OutputAt(parent, 10) && OutputAt(parent, 11)
              && OutputAt(parent, 12) && OutputAt(parent, 13))
  {
    BasicsSpelled(parent);
  }

  lemma OutputInPlainTerms(root: Json)
    ensures SectionConforms(root, AO) <==> PlainOutput(root)
  {
    if IsObject(root, "AO_attributes") {
      var parent := Lookup(root, "AO_attributes").value;
      forall i: nat | i < |AO_ATTRIBUTES|
        ensures Complete(AO, parent, AO_ATTRIBUTES[i]) <==> OutputAt(parent, i)
      {
        OutputAttributeInPlainTerms(parent, i);
      }
      assert AttributesOf(AO) == AO_ATTRIBUTES;
      OutputSpelled(parent);
    }
  }

  /** Attribute i of the input section in plain terms. */
  predicate InputAt(parent: Json, i: nat) {
    if i < 10 then BasicAt(parent, i)
    else if i == 10 then IsNumber(parent, "SetAlcGain")
    else if i == 11 then IsBool(parent, "Enable_Ns")
    else if i == 12 then IsNumber(parent, "Level_Ns")
    else if i == 13 then IsBool(parent, "Enable_Hpf")
    else if i == 14 then IsBool(parent, "EnableAec")
    else if i == 15 then IsBool(parent, "Enable_Agc")
    else PlainAgc(parent)
  }

  lemma InputAttributeInPlainTerms(parent: Json, i: nat)
    requires i < |AI_ATTRIBUTES|
    ensures Complete(AI, parent, AI_ATTRIBUTES[i]) <==> InputAt(parent, i)
  {
    NothingNested();
    AgcInPlainTerms(AI, parent);
  }

  lemma InputSpelled(parent: Json)
    ensures PlainDevice(parent) && PlainFilters(parent) <==> (
              && InputAt(parent, 0) && InputAt(parent, 1) && InputAt(parent, 2) && InputAt(parent, 3)
              && InputAt(parent, 4) && InputAt(parent, 5) && InputAt(parent, 6) && InputAt(parent, 7)
              && InputAt(parent, 8) && InputAt(parent, 9) && InputAt(parent, 10) && InputAt(parent, 11)
              && InputAt(parent, 12) && InputAt(parent, 13) && InputAt(parent, 14) && InputAt(parent, 15)
              && InputAt(parent, 16))
  {
    BasicsSpelled(parent);
  }

  lemma InputInPlainTerms(root: Json)
    ensures SectionConforms(root, AI) <==> PlainInput(root)
  {
    if IsObject(root, "AI_attributes") {
      var parent := Lookup(root, "AI_attributes").value;
      forall i: nat | i < |AI_ATTRIBUTES|
        ensures Complete(AI, parent, AI_ATTRIBUTES[i]) <==> InputAt(parent, i)
      {
        InputAttributeInPlainTerms(parent, i);
      }
      assert AttributesOf(AI) == AI_ATTRIBUTES;
      InputSpelled(parent);
    }
  }

  lemma NetworkInPlainTerms(root: Json)
    ensures NetworkConforms(root) <==> PlainNetwork(root)
  {
    if IsObject(root, "network") {
      var parent := Lookup(root, "network").value;
      ghost var a := NETWORK_KEYS;
      assert a[0] == "audio_input_socket_path" && a[1] == "audio_output_socket_path";
      assert NetworkConforms(root) ==> Has(parent, Attribute(a[0], TextKind));
      assert NetworkConforms(root) ==> Has(parent, Attribute(a[1], TextKind));
      assert NetworkConforms(root) ==> Has(parent, Attribute(a[2], TextKind));
    }
  }

  lemma ConformsInPlainTerms(root: Json)
    ensures Conforms(root) <==> PlainSchema(root)
  {
    OutputInPlainTerms(root);
    InputInPlainTerms(root);
    NetworkInPlainTerms(root);
  }

  /** The innermost loops of the validator: the tables inside AGC_attributes and HPF_attributes. */
  method ValidateNested(parent: Json, attributes: seq<Attribute>) returns (ok: bool)
    ensures ok <==> HasAll(parent, attributes)
  {
    var j := 0;
    while j < |attributes|
      invariant 0 <= j <= |attributes|
      invariant forall k :: 0 <= k < j ==> Has(parent, attributes[k])
    {
      var item := Lookup(parent, attributes[j].key);
      if item.None? || !HasKind(item.value, attributes[j].kind) {
        assert !Has(parent, attributes[j]);
        return false;
      }
      j := j + 1;
    }
    return true;
  }

  /** The key that indexing the output table gives: past its end, whatever lies there. */
  function AoKeyAt(i: nat, beyond: nat -> string): string {
    if i < |AO_ATTRIBUTES| then AO_ATTRIBUTES[i].key else beyond(i)
  }

  /**
   One round of the validator's outer loop. The last comparison indexes the
   output table even while the longer input table is gone through; what lies
   past the end makes no difference to the result.
   */
  method ValidateSection(section: Json, name: string, attributes: seq<Attribute>, beyond: nat -> string)
    returns (ok: bool)
    requires name == AO ==> attributes == AO_ATTRIBUTES
    ensures ok <==> forall i :: 0 <= i < |attributes| ==> Complete(name, section, attributes[i])
  {
    var i := 0;
    while i < |attributes|
      invariant 0 <= i <= |attributes|
      invariant forall j :: 0 <= j < i ==> Complete(name, section, attributes[j])
    {
      var a := attributes[i];
      var item := Lookup(section, a.key);
      ok := item.Some? && HasKind(item.value, a.kind);
      if ok && a.key == AGC {
        ok := ValidateNested(item.value, AGC_ATTRIBUTES);
      }
      if ok && AoKeyAt(i, beyond) == HPF && name == AO {
        ok := ValidateNested(item.value, HPF_ATTRIBUTES);
      }
      assert ok == Complete(name, section, attributes[i]);
      if !ok {
        return;
      }
      i := i + 1;
    }
    ok := true;
  }

  /** The last part of the validator: an object with a text for each path. */
  method ValidateNetwork(audio: Json) returns (ok: bool)
    ensures ok <==> NetworkConforms(audio)
  {
    var network := Lookup(audio, NETWORK);
    if network.None? || !network.value.Object? {
      return false;
    }
    var i := 0;
    while i < |NETWORK_KEYS|
      invariant 0 <= i <= |NETWORK_KEYS|
      invariant forall j :: 0 <= j < i ==> Has(network.value, Attribute(NETWORK_KEYS[j], TextKind))
    {
      var item := Lookup(network.value, NETWORK_KEYS[i]);
      if item.None? || !item.value.Text? {
        assert !Has(network.value, Attribute(NETWORK_KEYS[i], TextKind));
        return false;
      }
      i := i + 1;
    }
    return true;
  }

  /** The validator accepts exactly the trees that meet the schema; a missing root is refused. */
  method ValidateJson(root: Option<Json>, beyond: nat -> string) returns (ok: bool)
    ensures ok <==> root.Some? && Schema(root.value)
    ensures ok <==> root.Some? && PlainSchema(root.value)
  {
    if root.None? || !root.value.Object? {
      return false;
    }
    var audio := root.value;
    ConformsIffSchema(audio);
    ConformsInPlainTerms(audio);
    var s := 0;
    while s < |SECTIONS|
      invariant 0 <= s <= |SECTIONS|
      invariant forall t :: 0 <= t < s ==> SectionConforms(audio, SECTIONS[t])
    {
      var section := Lookup(audio, SECTIONS[s]);
      if section.None? || !section.value.Object? {
        assert !SectionConforms(audio, SECTIONS[s]);
        return false;
      }
      var attributes := if SECTIONS[s] == AO then AO_ATTRIBUTES else AI_ATTRIBUTES;
      assert attributes == AttributesOf(SECTIONS[s]) && Has(audio, Attribute(SECTIONS[s], ObjectKind));
      var fine := ValidateSection(section.value, SECTIONS[s], attributes, beyond);
      assert fine == SectionConforms(audio, SECTIONS[s]);
      if !fine {
        return false;
      }
      s := s + 1;
    }
    assert SectionConforms(audio, SECTIONS[0]) && SectionConforms(audio, SECTIONS[1]);
    ok := ValidateNetwork(audio);
  }

  /** What the rest of the program reads: an attribute of a section of the loaded file's "audio" object. */
  function GetAudioAttribute(file: Option<Json>, section: string, name: string): Option<Json> {
    Find(Find(Find(file, "audio"), section), name)
  }

  function GetSocketPath(file: Option<Json>, name: string): Option<string> {
    var item := Find(Find(Find(file, "audio"), NETWORK), name);
    if item.Some? && item.value.Text? then Some(item.value.text) else None
  }

  predicate Accepted(file: Option<Json>) {
    var audio := Find(file, "audio");
    audio.Some? && Conforms(audio.value)
  }

  /** In an accepted file every lookup of a required key finds a value of its kind. */
  lemma AcceptedLookupsSucceed(file: Option<Json>, section: string, a: Attribute)
    requires section in SECTIONS && a in AttributesOf(section)
    ensures Accepted(file) ==> var item := GetAudioAttribute(file, section, a.key);
              item.Some? && HasKind(item.value, a.kind) && HasAll(item.value, Nested(section, a.key))
    ensures Accepted(file) ==> forall k :: k in NETWORK_KEYS ==> GetSocketPath(file, k).Some?
  {
    if Accepted(file) {
      var audio := Find(file, "audio").value;
      assert Complete(section, Lookup(audio, section).value, a);
      forall k | k in NETWORK_KEYS ensures GetSocketPath(file, k).Some? {
        assert Has(Lookup(audio, NETWORK).value, Attribute(k, TextKind));
      }
    }
  }
}
