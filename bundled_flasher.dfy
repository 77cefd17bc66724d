/**
 * The stand-alone flasher that ships its own avrdude. Its command builder
 * keeps the program, the configuration option, the error hint and the
 * command in module globals, so a call can see what an earlier call left
 * there; the globals are the fields of a class, None meaning never
 * assigned. `os.path.join` is a parameter and `resourcePath('avrdude')` is
 * the directory it gives.
 */
module BundledFlasher {
  import opened Wrappers
  import opened Text
  import ListUArms
  import AvrdudeCommand

  /** `default_config["hardware_id"]` */
  const DefaultHardwareId: string := "USB VID:PID=0403:6001"

  /** `os.path.join(a, b, c)`, which joins from the left. */
  function Join3(join: (string, string) -> string, a: string, b: string, c: string): string {
    join(join(a, b), c)
  }

  /** The program the builder picks: the bundled one under `mac` or
      `windows`, the installed `avrdude` on Linux, none on another system. */
  function BundledBinary(system: AvrdudeCommand.Platform, path: string, join: (string, string) -> string): Option<string> {
    match system
    case Darwin => Some(Join3(join, path, "mac", "avrdude"))
    case Windows => Some(Join3(join, path, "windows", "avrdude.exe"))
    case Linux => Some("avrdude")
    case OtherSystem(_) => None
  }

  /** The configuration option: `-C` and the bundled file on Darwin and
      Windows, empty otherwise. */
  function BundledConf(system: AvrdudeCommand.Platform, path: string, join: (string, string) -> string): string {
    match system
    case Darwin => "-C" + Join3(join, path, "mac", "avrdude.conf")
    case Windows => "-C" + Join3(join, path, "windows", "avrdude.conf")
    case _ => ""
  }

  /** The hints shown when the chosen avrdude does not start. */
  const MacHint: string := "built-in avrdude is not working, Please install avrdude..."
  const WindowsHint: string := "built-in avrdude is not working, Please install winavr..."
  const LinuxHint: string := "Please install avrdude first..."

  function BundledErrorText(system: AvrdudeCommand.Platform): Option<string> {
    match system
    case Darwin => Some(MacHint)
    case Windows => Some(WindowsHint)
    case Linux => Some(LinuxHint)
    case OtherSystem(_) => None
  }

  /** The nine-element command: program, configuration option, verbose,
      then the same six flashing options as the other builders. */
  function BundledCommand(bin: string, conf: string, port: string, firmwarePath: string): seq<string> {
    [bin, conf, "-v"] + AvrdudeCommand.FlashOptions(port, firmwarePath)
  }

  /** A port is used when it is given and not empty. */
  predicate Truthy(port: Option<string>) {
    port.Some? && port.value != ""
  }

  /** The command always has nine elements; the options sit after the
      program, its configuration option and `-v`. On Linux the
      configuration option is the empty string; on Darwin and Windows it is
      `-C` followed by the bundled file. */
  lemma BundledCommandShape(system: AvrdudeCommand.Platform, path: string, join: (string, string) -> string,
                            port: string, firmwarePath: string)
    requires BundledBinary(system, path, join).Some?
    ensures var c := BundledCommand(BundledBinary(system, path, join).value, BundledConf(system, path, join), port, firmwarePath);
      && |c| == 9
      && c[2] == "-v"
      && c[3..] == ["-patmega328p", "-carduino", "-P" + port, "-b115200", "-D", "-Uflash:w:" + firmwarePath + ":i"]
      && (system == AvrdudeCommand.Linux <==> c[0] == "avrdude" && c[1] == "")
      && (system != AvrdudeCommand.Linux ==> StartsWith(c[1], "-C"))
  {
    var c := BundledCommand(BundledBinary(system, path, join).value, BundledConf(system, path, join), port, firmwarePath);
    assert c[3..] == AvrdudeCommand.FlashOptions(port, firmwarePath);
    if system != AvrdudeCommand.Linux {
      assert c[1][..2] == "-C";
    }
  }

  /** The command element by element, as the builder writes it out. */
  lemma BundledCommandElements(bin: string, conf: string, port: string, firmwarePath: string)
    ensures BundledCommand(bin, conf, port, firmwarePath)
      == [bin, conf, "-v", "-patmega328p", "-carduino", "-P" + port, "-b115200", "-D", "-Uflash:w:" + firmwarePath + ":i"]
  {
  }

  /** What the builder can raise: a global read before any assignment. */
  datatype FlashError = NameError

  class FlasherGlobals {
    var avrdudeBin: Option<string>
    var avrdudeConf: Option<string>
    var errorDescription: Option<string>
    var cmd: Option<seq<string>>

    /** The module as imported: none of the globals assigned. */
    constructor ()
      ensures avrdudeBin == None && avrdudeConf == None && errorDescription == None && cmd == None
    {
      avrdudeBin := None;
      avrdudeConf := None;
      errorDescription := None;
      cmd := None;
    }

    /** `gen_flash_cmd(port, firmware_path, avrdude_path)`: the configuration
        option is reset to empty; a missing directory becomes `resourceDir`;
        with a port, the system's program, option and hint are assigned (an
        unknown system assigns none and keeps what an earlier call left) and
        the command is built; the global command is returned. */
    method GenFlashCmd(port: Option<string>, firmwarePath: string, avrdudePath: Option<string>,
                       system: AvrdudeCommand.Platform, resourceDir: string, join: (string, string) -> string)
      returns (r: Result<seq<string>, FlashError>)
      modifies this
      ensures var path := if avrdudePath.Some? then avrdudePath.value else resourceDir;
        && avrdudeConf == Some(if Truthy(port) then BundledConf(system, path, join) else "")
        && avrdudeBin == (if Truthy(port) && BundledBinary(system, path, join).Some? then BundledBinary(system, path, join) else old(avrdudeBin))
        && errorDescription == (if Truthy(port) && BundledErrorText(system).Some? then BundledErrorText(system) else old(errorDescription))
        && cmd == (if Truthy(port) && avrdudeBin.Some? then Some(BundledCommand(avrdudeBin.value, avrdudeConf.value, port.value, firmwarePath)) else old(cmd))
        && r == (if (Truthy(port) && avrdudeBin.None?) || cmd.None? then Err(NameError) else Ok(cmd.value))
    {
      avrdudeConf := Some("");
      var path := if avrdudePath.Some? then avrdudePath.value else resourceDir;
      if !Truthy(port) {
        if cmd.None? {
          return Err(NameError);
        }
        return Ok(cmd.value);
      }
      match system {
        case Darwin =>
          avrdudeBin := Some(Join3(join, path, "mac", "avrdude"));
          avrdudeConf := Some(Join3(join, path, "mac", "avrdude.conf"));
          avrdudeConf := Some("-C" + avrdudeConf.value);
          errorDescription := Some(MacHint);
        case Windows =>
          avrdudeBin := Some(Join3(join, path, "windows", "avrdude.exe"));
          avrdudeConf := Some(Join3(join, path, "windows", "avrdude.conf"));
          avrdudeConf := Some("-C" + avrdudeConf.value);
          errorDescription := Some(WindowsHint);
        case Linux =>
          avrdudeBin := Some("avrdude");
          errorDescription := Some(LinuxHint);
        case OtherSystem(_) =>
      }
      assert avrdudeConf == Some(BundledConf(system, path, join));
      if avrdudeBin.None? {
        return Err(NameError);
      }
      var built := [avrdudeBin.value, avrdudeConf.value, "-v", "-patmega328p", "-carduino", "-P" + port.value,
                    "-b115200", "-D", "-Uflash:w:" + firmwarePath + ":i"];
      BundledCommandElements(avrdudeBin.value, avrdudeConf.value, port.value, firmwarePath);
      cmd := Some(built);
      return Ok(built);
    }
  }

  /** The globals leak between calls: after a Darwin build, a build on an
      unknown system runs the bundled mac program without its configuration
      option; on a fresh module the same build is a NameError. */
  method UnknownSystemAfterDarwin(port: string, firmwarePath: string, path: string, join: (string, string) -> string, name: string)
    returns (firstUse: Result<seq<string>, FlashError>, afterDarwin: Result<seq<string>, FlashError>)
    requires port != ""
    ensures firstUse == Err(NameError)
    ensures afterDarwin == Ok(BundledCommand(Join3(join, path, "mac", "avrdude"), "", port, firmwarePath))
  {
    var g := new FlasherGlobals();
    firstUse := g.GenFlashCmd(Some(port), firmwarePath, Some(path), AvrdudeCommand.OtherSystem(name), path, join);
    var h := new FlasherGlobals();
    var first := h.GenFlashCmd(Some(port), firmwarePath, Some(path), AvrdudeCommand.Darwin, path, join);
    afterDarwin := h.GenFlashCmd(Some(port), firmwarePath, Some(path), AvrdudeCommand.OtherSystem(name), path, join);
  }

  /** This flasher's `get_uarm_port_cli`: the same selection over the ports
      matching the default hardware id, with a message when there is none. */
  method GetUarmPortCli(ports: seq<ListUArms.PortInfo>, choice: string)
    returns (output: seq<string>, r: Result<Option<string>, ListUArms.CliError>)
    ensures var names := ListUArms.MatchingDevices(ports, DefaultHardwareId);
      && (|names| == 0 ==> output == ["No uArm ports is found."] && r == Ok(None))
      && (|names| == 1 ==> output == [] && r == Ok(Some(names[0])))
      && (|names| > 1 ==>
            |output| == |names|
            && (forall i :: 0 <= i < |names| ==> output[i] == ListUArms.MenuLine(i + 1, names[i]))
            && (r.Ok? ==> exists k :: ParseInt(choice) == Some(k) && 1 <= k <= |names| && r.value == Some(names[k - 1]))
            && ((exists k :: ParseInt(choice) == Some(k) && 1 <= k <= |names|) ==> r.Ok?))
  {
    var names := ListUArms.UarmPorts(ports, DefaultHardwareId);
    output := [];
    if |names| > 1 {
      var i := 1;
      for n := 0 to |names|
        invariant i == n + 1
        invariant |output| == n
        invariant forall j :: 0 <= j < n ==> output[j] == ListUArms.MenuLine(j + 1, names[j])
      {
        output := output + [ListUArms.MenuLine(i, names[n])];
        i := i + 1;
      }
      match ListUArms.ChosenPort(names, choice)
      case Ok(name) => r := Ok(Some(name));
      case Err(e) => r := Err(e);
    } else if |names| == 1 {
      r := Ok(Some(names[0]));
    } else {
      output := ["No uArm ports is found."];
      r := Ok(None);
    }
  }
}
