/**
 * The avrdude command line of the firmware tools: the program (with its
 * configuration file when a directory is given), the fixed options for an
 * ATmega328P behind an Arduino bootloader at 115200 baud, and `-v` when
 * debugging. `os.path.join` is a parameter.
 */
module AvrdudeCommand {
  import opened Wrappers

  /** `platform.system()`; `OtherSystem` carries any name other than
      "Darwin", "Windows" and "Linux", which have their own constructors. */
  datatype Platform = Darwin | Windows | Linux | OtherSystem(name: string)

  /** The avrdude executable of each supported system. */
  function AvrdudeBinary(system: Platform): string
    requires !system.OtherSystem?
  {
    if system == Windows then "avrdude.exe" else "avrdude"
  }

  /** The hint shown when avrdude cannot be started. */
  const MacHint: string := "avrdude is required, Please use `brew install avrdude`"
  const WindowsHint: string := "avrdude is required, Please install winavr..."
  const LinuxHint: string := "avrdude is required, Please use `sudo apt-get install avrdude`"

  function MissingAvrdudeText(system: Platform): string
    requires !system.OtherSystem?
  {
    match system
    case Darwin => MacHint
    case Windows => WindowsHint
    case Linux => LinuxHint
  }

  /** The options after the program: part, programmer, port, baud rate,
      no chip erase, and the flash write of the Intel hex file. */
  function FlashOptions(port: string, firmwarePath: string): seq<string> {
    ["-patmega328p", "-carduino", "-P" + port, "-b115200", "-D", "-Uflash:w:" + firmwarePath + ":i"]
  }

  /** The program part: joined program and configuration file when a
      directory is given, the bare program name otherwise. */
  function ProgramPart(avrdudePath: Option<string>, binary: string, join: (string, string) -> string): seq<string> {
    if avrdudePath.Some? then [join(avrdudePath.value, binary), join(avrdudePath.value, "avrdude.conf")]
    else [binary]
  }

  /** The command `gen_flash_cmd` returns, None on an unknown system. */
  function FlashCommand(port: string, firmwarePath: string, avrdudePath: Option<string>, debug: bool,
                        system: Platform, join: (string, string) -> string): Option<seq<string>>
  {
    if system.OtherSystem? then None
    else Some(ProgramPart(avrdudePath, AvrdudeBinary(system), join) + FlashOptions(port, firmwarePath)
              + (if debug then ["-v"] else []))
  }

  /** `gen_flash_cmd(port, firmware_path, avrdude_path, debug)`: the list is
      built by appending one element at a time. */
  method GenFlashCmd(port: string, firmwarePath: string, avrdudePath: Option<string>, debug: bool,
                     system: Platform, join: (string, string) -> string)
    returns (cmd: Option<seq<string>>, errorDescription: string)
    ensures cmd == FlashCommand(port, firmwarePath, avrdudePath, debug, system, join)
    ensures system.OtherSystem? ==> errorDescription == "Not support System"
    ensures !system.OtherSystem? ==> errorDescription == MissingAvrdudeText(system)
  {
    var avrdudeBin: string;
    match system {
      case Darwin =>
        avrdudeBin := "avrdude";
        errorDescription := MacHint;
      case Windows =>
        avrdudeBin := "avrdude.exe";
        errorDescription := WindowsHint;
      case Linux =>
        avrdudeBin := "avrdude";
        errorDescription := LinuxHint;
      case OtherSystem(_) =>
        return None, "Not support System";
    }
    assert avrdudeBin == AvrdudeBinary(system);
    var built: seq<string> := [];
    if avrdudePath.Some? {
      built := built + [join(avrdudePath.value, avrdudeBin)];
      built := built + [join(avrdudePath.value, "avrdude.conf")];
    } else {
      built := built + [avrdudeBin];
    }
    built := built + ["-patmega328p"];
    built := built + ["-carduino"];
    assert built == ProgramPart(avrdudePath, avrdudeBin, join) + ["-patmega328p", "-carduino"];
    built := built + ["-P" + port];
    built := built + ["-b115200"];
    built := built + ["-D"];
    built := built + ["-Uflash:w:" + firmwarePath + ":i"];
    assert built == ProgramPart(avrdudePath, avrdudeBin, join) + FlashOptions(port, firmwarePath);
    if debug {
      built := built + ["-v"];
    }
    assert built == ProgramPart(avrdudePath, avrdudeBin, join) + FlashOptions(port, firmwarePath) + (if debug then ["-v"] else []);
    cmd := Some(built);
  }

  /** The shape of a command for a supported system: one program element
      without a directory and two with one, then the six options in order,
      then `-v` as the last element exactly when debugging. */
  lemma FlashCommandShape(port: string, firmwarePath: string, avrdudePath: Option<string>, debug: bool,
                          system: Platform, join: (string, string) -> string)
    requires !system.OtherSystem?
    ensures var cmd := FlashCommand(port, firmwarePath, avrdudePath, debug, system, join);
      var head := if avrdudePath.Some? then 2 else 1;
      && cmd.Some?
      && |cmd.value| == head + 6 + (if debug then 1 else 0)
      && cmd.value[head..head + 6] == FlashOptions(port, firmwarePath)
      && (cmd.value[|cmd.value| - 1] == "-v" <==> debug)
      && (avrdudePath.None? ==> cmd.value[0] == AvrdudeBinary(system))
      && (avrdudePath.Some? ==> cmd.value[..2] == [join(avrdudePath.value, AvrdudeBinary(system)), join(avrdudePath.value, "avrdude.conf")])
  {
    var cmd := FlashCommand(port, firmwarePath, avrdudePath, debug, system, join).value;
    var head := if avrdudePath.Some? then 2 else 1;
    var upload := "-Uflash:w:" + firmwarePath + ":i";
    assert upload[1] == 'U';
    if !debug {
      assert cmd[|cmd| - 1] == upload;
    }
  }

  /** Windows runs `avrdude.exe`, the other two systems `avrdude`, each with
      its own installation hint; an unknown system gets no command. */
  lemma BinaryPerSystem(port: string, firmwarePath: string, debug: bool, join: (string, string) -> string, name: string)
    ensures FlashCommand(port, firmwarePath, None, debug, Windows, join).value[0] == "avrdude.exe"
    ensures FlashCommand(port, firmwarePath, None, debug, Darwin, join).value[0] == "avrdude"
    ensures FlashCommand(port, firmwarePath, None, debug, Linux, join).value[0] == "avrdude"
    ensures FlashCommand(port, firmwarePath, None, debug, OtherSystem(name), join) == None
    ensures MissingAvrdudeText(Darwin) != MissingAvrdudeText(Linux)
    ensures MissingAvrdudeText(Linux) != MissingAvrdudeText(Windows)
    ensures MissingAvrdudeText(Windows) != MissingAvrdudeText(Darwin)
  {
    assert MissingAvrdudeText(Darwin)[33] != MissingAvrdudeText(Linux)[33];
    assert MissingAvrdudeText(Linux)[33] != MissingAvrdudeText(Windows)[33];
    assert MissingAvrdudeText(Windows)[33] != MissingAvrdudeText(Darwin)[33];
  }
}
