/** The `config_commands` table of `get_config` in config_backup.py. */
module ConfigCommands {
  import opened Wrappers
  import opened DeviceClassifier

  /** The command that prints a device's configuration, by netmiko device-type tag. */
  const ConfigCommands: map<string, string> := map[
    "cisco_ios" := "show running-config",
    "cisco_nxos" := "show running-config",
    "cisco_wlc" := "show run-config commands",
    "cisco_mds" := "show running-config",
    "juniper_junos" := "show configuration | display set"
  ]

  /** `config_commands[device_type]`: `None` where the lookup raises `KeyError`. */
  function CommandFor(tag: string): Option<string> {
    if tag in ConfigCommands then Some(ConfigCommands[tag]) else None
  }

  /** The vendor's command for each device type, stated per vendor family. */
  function VendorCommand(d: DeviceType): (c: string)
    ensures d.CiscoWlc? ==> c == "show run-config commands"
    ensures d.JuniperJunos? ==> c == "show configuration | display set"
    ensures !d.CiscoWlc? && !d.JuniperJunos? ==> c == "show running-config"
  {
    match d
    case CiscoWlc => "show run-config commands"
    case JuniperJunos => "show configuration | display set"
    case _ => "show running-config"
  }

  /** The table holds exactly the five tags the classifier can report. */
  lemma TableKeysAreTags(tag: string)
    ensures tag in ConfigCommands <==> DeviceTypeOf(tag).Some?
  {
  }

  /** The lookup never misses for the classifier's output, and gives the vendor's command. */
  lemma CommandForEveryType(d: DeviceType)
    ensures CommandFor(d.Tag()) == Some(VendorCommand(d))
  {
    match d
    case CiscoIos =>
    case CiscoNxos =>
    case CiscoWlc =>
    case CiscoMds =>
    case JuniperJunos =>
  }

  /**
    `get_config(ip, username, password, device_type)`: `reply` is what sending
    the command returned, `None` where connecting or sending raised; a
    missing table entry would raise too.
   */
  function GetConfig(d: DeviceType, reply: Option<string>): (r: Option<string>)
    ensures r == reply
  {
    CommandForEveryType(d);
    match CommandFor(d.Tag())
    case None => None
    case Some(_) => reply
  }
}
