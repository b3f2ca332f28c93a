/**
  `get_device_type` of config_backup.py: the prompt check, the show-version
  result check, and the ordered if/elif chain that turns the first parsed
  show-version record into one of five netmiko device-type tags.
 */
module DeviceClassifier {
  import opened Wrappers
  import opened Text

  /** The five device types the classifier can report. */
  datatype DeviceType = CiscoIos | CiscoNxos | CiscoWlc | CiscoMds | JuniperJunos {
    /** The netmiko `device_type` string. */
    function Tag(): string {
      match this
      case CiscoIos => "cisco_ios"
      case CiscoNxos => "cisco_nxos"
      case CiscoWlc => "cisco_wlc"
      case CiscoMds => "cisco_mds"
      case JuniperJunos => "juniper_junos"
    }
  }

  /** The device type a tag names, if any. */
  function DeviceTypeOf(tag: string): (r: Option<DeviceType>)
    ensures r.Some? ==> r.value.Tag() == tag
    ensures r.None? ==> forall d: DeviceType :: d.Tag() != tag
  {
    if tag == "cisco_ios" then Some(CiscoIos)
    else if tag == "cisco_nxos" then Some(CiscoNxos)
    else if tag == "cisco_wlc" then Some(CiscoWlc)
    else if tag == "cisco_mds" then Some(CiscoMds)
    else if tag == "juniper_junos" then Some(JuniperJunos)
    else None
  }

  /** Tags identify device types: reading a tag back gives the type it came from. */
  lemma TagRoundTrip(d: DeviceType)
    ensures DeviceTypeOf(d.Tag()) == Some(d)
  {
    match d
    case CiscoIos =>
    case CiscoNxos => assert d.Tag() != "cisco_ios";
    case CiscoWlc => assert d.Tag()[6] != "cisco_ios"[6];
    case CiscoMds => assert d.Tag()[6] != "cisco_ios"[6] && d.Tag()[6] != "cisco_nxos"[6];
    case JuniperJunos => assert d.Tag()[0] != 'c';
  }

  /**
    A value of a TextFSM record: a string, or anything else (a list, say), on
    which `.lower()` raises.
   */
  datatype FieldValue = Str(s: string) | Other

  /** One parsed row of `show version`: field name to value. */
  type Record = map<string, FieldValue>

  /**
    What `send_command('show version', use_textfsm=True)` returns: the raw text
    when no template applies, or the list of parsed records.
   */
  datatype ShowVersion = Raw(text: string) | Parsed(records: seq<Record>)

  /** `record.get(key, '').lower()`: `None` where `.lower()` raises. */
  function LoweredField(rec: Record, key: string): Option<string> {
    if key !in rec then Some("")
    else match rec[key]
      case Str(s) => Some(Lower(s))
      case Other => None
  }

  /** The if/elif chain on the lowercased `hardware` (the platform) and `version` fields. */
  function ClassifyFields(platform: string, version: string): (d: DeviceType)
    ensures SignatureMatches(d, platform, version)
  {
    if Contains(platform, "nexus") || Contains(version, "nx-os") then CiscoNxos
    else if Contains(platform, "wlc") || Contains(version, "aireos") then CiscoWlc
    else if Contains(platform, "fibre channel") || Contains(platform, "mds") then CiscoMds
    else if Contains(platform, "juniper") || Contains(version, "junos") then JuniperJunos
    else CiscoIos
  }

  /** The signature of each device type; `cisco_ios` is the catch-all. */
  predicate SignatureMatches(d: DeviceType, platform: string, version: string) {
    match d
    case CiscoNxos => Contains(platform, "nexus") || Contains(version, "nx-os")
    case CiscoWlc => Contains(platform, "wlc") || Contains(version, "aireos")
    case CiscoMds => Contains(platform, "fibre channel") || Contains(platform, "mds")
    case JuniperJunos => Contains(platform, "juniper") || Contains(version, "junos")
    case CiscoIos => true
  }

  /** The order in which the signatures are tried. */
  function Priority(d: DeviceType): nat {
    match d
    case CiscoNxos => 0
    case CiscoWlc => 1
    case CiscoMds => 2
    case JuniperJunos => 3
    case CiscoIos => 4
  }

  /**
    The chain reports `d` exactly when `d`'s signature matches and no signature
    tried before it does: earlier branches win, and `cisco_ios` is reported
    exactly when no vendor signature matches.
   */
  lemma ClassifyFieldsFirstMatch(platform: string, version: string, d: DeviceType)
    ensures ClassifyFields(platform, version) == d <==>
      SignatureMatches(d, platform, version) &&
      forall e: DeviceType :: Priority(e) < Priority(d) ==> !SignatureMatches(e, platform, version)
  {
    var r := ClassifyFields(platform, version);
    assert SignatureMatches(r, platform, version);
    assert forall e: DeviceType :: Priority(e) < Priority(r) ==> !SignatureMatches(e, platform, version) by {
      forall e: DeviceType | Priority(e) < Priority(r) ensures !SignatureMatches(e, platform, version) {
        match e
        case CiscoNxos =>
        case CiscoWlc =>
        case CiscoMds =>
        case JuniperJunos =>
        case CiscoIos =>
      }
    }
    if SignatureMatches(d, platform, version) &&
      forall e: DeviceType :: Priority(e) < Priority(d) ==> !SignatureMatches(e, platform, version)
    {
      assert !(Priority(r) < Priority(d)) && !(Priority(d) < Priority(r));
    }
  }

  /** The prompt check: a user (`>`) or privileged (`#`) prompt. */
  predicate IsCliPrompt(prompt: string) {
    '>' in prompt || '#' in prompt
  }

  /**
    The part of `get_device_type` inside the connection: `None` where the
    function falls off its end or where reading a field raises.
   */
  function Classify(prompt: string, output: Option<ShowVersion>): (r: Option<DeviceType>)
    ensures r.Some? <==>
      && IsCliPrompt(prompt) && output.Some? && output.value.Parsed? && output.value.records != []
      && LoweredField(output.value.records[0], "version").Some?
      && LoweredField(output.value.records[0], "hardware").Some?
    ensures r.Some? ==> r == Some(ClassifyFields(
      LoweredField(output.value.records[0], "hardware").value,
      LoweredField(output.value.records[0], "version").value))
  {
    if !IsCliPrompt(prompt) then None
    else match output
      case None => None
      case Some(Raw(_)) => None
      case Some(Parsed(records)) =>
        if records == [] then None
        else
          var version := LoweredField(records[0], "version");
          var platform := LoweredField(records[0], "hardware");
          if version.None? || platform.None? then None
          else Some(ClassifyFields(platform.value, version.value))
  }

  /** Only the first parsed record is inspected. */
  lemma ClassifyReadsFirstRecord(prompt: string, first: Record, rest1: seq<Record>, rest2: seq<Record>)
    ensures Classify(prompt, Some(Parsed([first] + rest1))) == Classify(prompt, Some(Parsed([first] + rest2)))
  {
    assert ([first] + rest1)[0] == first && ([first] + rest2)[0] == first;
  }

  /**
    A first record, whatever other fields it holds, whose lowercased `hardware`
    and `version` match no vendor signature is `cisco_ios`.
   */
  lemma ClassifyDefaultsToIos(prompt: string, records: seq<Record>, hardware: string, version: string)
    requires IsCliPrompt(prompt) && records != []
    requires LoweredField(records[0], "hardware") == Some(hardware)
    requires LoweredField(records[0], "version") == Some(version)
    requires forall d: DeviceType :: d != CiscoIos ==> !SignatureMatches(d, hardware, version)
    ensures Classify(prompt, Some(Parsed(records))) == Some(CiscoIos)
  {
    ClassifyFieldsFirstMatch(hardware, version, CiscoIos);
    assert Priority(CiscoNxos) < Priority(CiscoIos) && !SignatureMatches(CiscoNxos, hardware, version);
  }

  /** A missing field reads as the empty string, which no vendor signature matches. */
  lemma ClassifyEmptyRecord(prompt: string, rest: seq<Record>)
    requires IsCliPrompt(prompt)
    ensures Classify(prompt, Some(Parsed([map[]] + rest))) == Some(CiscoIos)
  {
    assert ([map[]] + rest)[0] == map[];
    assert forall t: string :: t != [] ==> !Contains("", t);
  }

  /** A record with every string field lowercased and every other field unchanged. */
  function LowerFields(rec: Record): Record {
    map k | k in rec :: match rec[k] case Str(s) => Str(Lower(s)) case Other => Other
  }

  /** Reading a field of the lowercased record gives what reading the original gives. */
  lemma LoweredFieldOfLowerFields(rec: Record, key: string)
    ensures LoweredField(LowerFields(rec), key) == LoweredField(rec, key)
  {
    if key in rec && rec[key].Str? {
      LowerIdempotent(rec[key].s);
    }
  }

  /**
    Matching is case-insensitive: lowercasing every string field of the first
    record beforehand changes nothing.
   */
  lemma ClassifyIgnoresCase(prompt: string, first: Record, rest: seq<Record>)
    ensures Classify(prompt, Some(Parsed([first] + rest))) == Classify(prompt, Some(Parsed([LowerFields(first)] + rest)))
  {
    LoweredFieldOfLowerFields(first, "hardware");
    LoweredFieldOfLowerFields(first, "version");
    assert ([first] + rest)[0] == first && ([LowerFields(first)] + rest)[0] == LowerFields(first);
  }

  /**
    The probe of one device: the prompt the session shows and what
    `show version` returned (`None` where sending it raised).
   */
  datatype Probe = Probe(prompt: string, showVersion: Option<ShowVersion>)

  /**
    `get_device_type(ip, username, password)`: `probe` is `None` where connecting
    or reading the prompt raised, and every exception gives `None`.
   */
  function GetDeviceType(probe: Option<Probe>): (r: Option<DeviceType>)
    ensures r.Some? <==>
      && probe.Some? && IsCliPrompt(probe.value.prompt)
      && probe.value.showVersion.Some? && probe.value.showVersion.value.Parsed?
      && probe.value.showVersion.value.records != []
      && LoweredField(probe.value.showVersion.value.records[0], "version").Some?
      && LoweredField(probe.value.showVersion.value.records[0], "hardware").Some?
    ensures r.Some? ==> r.value == ClassifyFields(
      LoweredField(probe.value.showVersion.value.records[0], "hardware").value,
      LoweredField(probe.value.showVersion.value.records[0], "version").value)
  {
    match probe
    case None => None
    case Some(Probe(prompt, output)) => Classify(prompt, output)
  }
}
