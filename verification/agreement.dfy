/** The host driver against the firmware: what the package's operations
    get when the bytes they read are the ones `src/main.cpp` writes in
    answer to the commands they send.

    Each lemma takes a firmware state with no command letter pending and
    a refreshed SWR flag `swr`; as written the firmware always refreshes it
    to true (`Firmware.LoopSetsSwrFlag`). */
module Agreement {
  import opened Outcomes
  import opened Bits
  import opened Text
  import opened Switches
  import opened Snapshots
  import opened Registers
  import opened Transport
  import opened Firmware

  /** A read command `R<target>` that the firmware handles: it echoes the
      command and answers one hex line, changing nothing but the SWR flag. */
  lemma FirmwareReply(c: Controller, target: char, swr: bool)
    requires c.commandByte == '\0' && target != '\r' && target != '\n'
    requires Report(c, target).Some?
    ensures RunWith(c, ['R', target], swr)
      == Step(c.(daOverSwr := swr), QueryWire(['R', target], FormatHex(Report(c.(daOverSwr := swr), target).value)))
  {
    var c1 := c.(daOverSwr := swr);
    var pending := c.(commandByte := 'R', daOverSwr := swr);
    RunCommand(c, 'R', target, swr);
    assert Report(pending, target) == Report(c1, target);
    assert pending.(commandByte := '\0', daOverSwr := swr) == c1;
  }

  /** A hold or release command: the firmware echoes it, prints the empty
      line and holds or releases the named button. */
  lemma FirmwareSwitch(c: Controller, letter: char, sw: Switch, swr: bool)
    requires c.commandByte == '\0' && (letter == 'S' || letter == 'U')
    ensures var c1 := c.(daOverSwr := swr);
      RunWith(c, Command(letter, sw), swr)
        == Step(if sw == DaEn then c1.(daSwitch := letter == 'S') else c1.(switches := SetButton(c.switches, sw, letter == 'S')),
             Line(Command(letter, sw)))
  {
    var c1 := c.(daOverSwr := swr);
    var pending := c.(commandByte := letter, daOverSwr := swr);
    var after := if sw == DaEn then pending.(daSwitch := letter == 'S') else pending.(switches := SetButton(c.switches, sw, letter == 'S'));
    assert Command(letter, sw) == [letter, Digit(sw)];
    RunCommand(c, letter, Digit(sw), swr);
    SwitchCommand(pending, letter, sw);
    assert "\r\n"[2..] == [];
    assert Line([letter, Digit(sw)]) + [] == Line(Command(letter, sw));
    assert after.(commandByte := '\0', daOverSwr := swr)
      == if sw == DaEn then c1.(daSwitch := letter == 'S') else c1.(switches := SetButton(c.switches, sw, letter == 'S'));
  }

  /** A two-letter command whose letter the firmware does not handle is
      echoed, followed by the empty line, and changes nothing. */
  lemma FirmwareIgnores(c: Controller, cmd: string, swr: bool)
    requires c.commandByte == '\0' && |cmd| == 2 && cmd[0] !in "RSU\0\r\n" && cmd[1] != '\r' && cmd[1] != '\n'
    ensures RunWith(c, cmd, swr) == Step(c.(daOverSwr := swr), Line(cmd))
  {
    RunCommand(c, cmd[0], cmd[1], swr);
    assert [cmd[0], cmd[1]] == cmd;
  }

  /** `Toptek(port)` accepts the firmware's start-up banner. */
  lemma OpenFirmware(rest: string, log: seq<string>)
    ensures Open(Link(Boot().out + rest, log)) == Ok(Link(rest, log))
  {
    assert Welcome == Banner;
    assert Trimmed(Banner) && '\n' !in Banner;
    ReadLineWire(Banner, rest, log);
  }

  /** `get_state` against the firmware: the SWR flag the firmware holds
      and the LED flags of the latched shift register, bit for bit. */
  lemma GetStateFirmware(c: Controller, swr: bool, rest: string, log: seq<string>)
    requires c.commandByte == '\0'
    ensures var c1 := c.(daOverSwr := swr);
      var r := GetState(Link(RunWith(c, "RS", swr).out + (RunWith(c1, "RA", swr).out + rest), log));
      && r == Ok(Answer(DecodeLeds(swr, c.shift), Link(rest, log + ["RS"] + ["RA"])))
      && r.value.value.daSwr == swr
      && (forall i :: 0 <= i < 12 ==> r.value.value.Led(i) == Bit(c.shift, i))
      && r.value.value.led10 == Bit(c.shift, ShiftLed10) && r.value.value.led20 == Bit(c.shift, ShiftLed20)
      && r.value.value.led30 == Bit(c.shift, ShiftLed30) && r.value.value.led40 == Bit(c.shift, ShiftLed40)
      && r.value.value.led50 == Bit(c.shift, ShiftLed50) && r.value.value.led60 == Bit(c.shift, ShiftLed60)
      && r.value.value.led70 == Bit(c.shift, ShiftLed70) && r.value.value.led80 == Bit(c.shift, ShiftLed80)
      && r.value.value.redEn == Bit(c.shift, ShiftRedEn) && r.value.value.lnaOn == Bit(c.shift, ShiftLnaOn)
      && r.value.value.txPa == Bit(c.shift, ShiftTxPa) && r.value.value.ssbOn == Bit(c.shift, ShiftSsbOn)
  {
    var c1 := c.(daOverSwr := swr);
    var da := FormatHex(Flag(swr));
    var ra := FormatHex(c.shift);
    FirmwareReply(c, 'S', swr);
    FirmwareReply(c1, 'A', swr);
    assert c1.(daOverSwr := swr) == c1;
    HexWireLine(Flag(swr));
    HexWireLine(c.shift);
    ParseFormatSmall(Flag(swr));
    ParseFormatHex(c.shift);
    GetStateAnswers(da, Flag(swr), ra, c.shift, rest, log);
    LedsOfShift(swr, c.shift);
  }

  lemma LedsOfShift(swr: bool, shift: int)
    ensures forall i :: 0 <= i < 12 ==> DecodeLeds(swr, shift).Led(i) == Bit(shift, i)
  {
    forall i | 0 <= i < 12
      ensures DecodeLeds(swr, shift).Led(i) == Bit(shift, i)
    {
      DecodeLedsBit(swr, shift, i);
    }
  }

  /** As written, the firmware's refresh leaves the host reading the DA's
      SWR flag as set, whatever the pin shows. */
  lemma GetStateFirmwareSwr(c: Controller, rest: string, log: seq<string>)
    requires c.commandByte == '\0'
    ensures var swr := DaSwrPin != 0; var c1 := c.(daOverSwr := swr);
      var r := GetState(Link(RunWith(c, "RS", swr).out + (RunWith(c1, "RA", swr).out + rest), log));
      r.Ok? && r.value.value.daSwr
  {
    GetStateFirmware(c, DaSwrPin != 0, rest, log);
  }

  /** `ReadSwitchRegister` against a device that answers `R6` and then the
      register command with one line each. */
  lemma SwitchAnswers(register: string, da: string, daValue: int, sw: string, swValue: int, rest: string, log: seq<string>)
    requires Trimmed(register) && '\n' !in register
    requires Trimmed(da) && '\n' !in da && ParseInt(da, 10) == Ok(daValue)
    requires Trimmed(sw) && '\n' !in sw && ParseInt(sw, 16) == Ok(swValue)
    ensures ReadSwitchRegister(Link(QueryWire("R6", da) + (QueryWire(register, sw) + rest), log), register)
      == Ok(Answer(DecodeSwitches(daValue != 0, swValue), Link(rest, log + ["R6"] + [register])))
  {
    var mid := QueryWire(register, sw) + rest;
    OneLineWord("R6");
    QueryWireAnswer("R6", da, mid, log);
    QueryWireAnswer(register, sw, rest, log + ["R6"]);
    SwitchSteps(Link(QueryWire("R6", da) + mid, log), register, da, daValue, Link(mid, log + ["R6"]), sw, swValue,
      Link(rest, log + ["R6"] + [register]));
  }

  lemma SwitchSteps(link: Link, register: string, da: string, daValue: int, mid: Link, sw: string, swValue: int, last: Link)
    requires Query(link, "R6") == Ok(Answer(da, mid)) && ParseInt(da, 10) == Ok(daValue)
    requires Query(mid, register) == Ok(Answer(sw, last)) && ParseInt(sw, 16) == Ok(swValue)
    ensures ReadSwitchRegister(link, register) == Ok(Answer(DecodeSwitches(daValue != 0, swValue), last))
  {
  }

  /** The firmware's answers to `R6` and a register read. */
  lemma SwitchFirmwareReplies(c: Controller, target: char, swr: bool)
    requires c.commandByte == '\0' && (target == 'S' || target == 'W')
    ensures var c1 := c.(daOverSwr := swr);
      && RunWith(c, "R6", swr) == Step(c1, QueryWire("R6", FormatHex(Flag(c.daSwitch))))
      && RunWith(c1, ['R', target], swr)
        == Step(c1, QueryWire(['R', target], FormatHex(if target == 'S' then Flag(swr) else c.switches)))
  {
    var c1 := c.(daOverSwr := swr);
    assert Digit(DaEn) == '6';
    FirmwareReply(c, '6', swr);
    FirmwareReply(c1, target, swr);
    assert c1.(daOverSwr := swr) == c1;
  }

  /** `get_switch_state` against the firmware, as written: `RS` returns the
      SWR flag, so SHOW SWR reads as that flag and the other four buttons
      read as released, whatever the switch register holds. */
  lemma GetSwitchStateFirmware(c: Controller, swr: bool, rest: string, log: seq<string>)
    requires c.commandByte == '\0'
    ensures var c1 := c.(daOverSwr := swr);
      var r := GetSwitchState(Link(RunWith(c, "R6", swr).out + (RunWith(c1, "RS", swr).out + rest), log));
      && r.Ok? && r.value.link == Link(rest, log + ["R6"] + ["RS"])
      && r.value.value.swDaOn == c.daSwitch
      && r.value.value.swShowSwr == swr
      && !r.value.value.swSsbOn && !r.value.value.swTxPa && !r.value.value.swSetPwr && !r.value.value.swRxLna
  {
    SwitchFirmwareReplies(c, 'S', swr);
    HexWireLine(Flag(c.daSwitch));
    HexWireLine(Flag(swr));
    ParseFormatSmall(Flag(c.daSwitch));
    ParseFormatHex(Flag(swr));
    OneLineWord("RS");
    SwitchAnswers("RS", FormatHex(Flag(c.daSwitch)), Flag(c.daSwitch), FormatHex(Flag(swr)), Flag(swr), rest, log);
    var s := DecodeSwitches(c.daSwitch, Flag(swr));
    FlagBits(swr);
  }

  /** The bits of `0` and `1`: only bit 0 can be set. */
  lemma FlagBits(b: bool)
    ensures Bit(Flag(b), 0) == b
    ensures forall k: nat :: 0 < k ==> !Bit(Flag(b), k)
  {
    forall k: nat | 0 < k
      ensures !Bit(Flag(b), k)
    {
      assert Pow2(1) == 2;
      BitAbove(Flag(b), 1, k);
    }
  }

  /** `get_switch_state` reading the button register from `RW`: every
      button flag is the firmware's register bit for that button. */
  lemma GetSwitchStateFixedFirmware(c: Controller, swr: bool, rest: string, log: seq<string>)
    requires c.commandByte == '\0'
    ensures var c1 := c.(daOverSwr := swr);
      var r := GetSwitchStateFixed(Link(RunWith(c, "R6", swr).out + (RunWith(c1, "RW", swr).out + rest), log));
      && r.Ok? && r.value.link == Link(rest, log + ["R6"] + ["RW"])
      && r.value.value.swDaOn == c.daSwitch
      && forall sw :: sw != DaEn ==> r.value.value.Flag(sw) == Bit(c.switches, RegisterBit(sw))
  {
    SwitchFirmwareReplies(c, 'W', swr);
    HexWireLine(Flag(c.daSwitch));
    HexWireLine(c.switches);
    ParseFormatSmall(Flag(c.daSwitch));
    ParseFormatHex(c.switches);
    OneLineWord("RW");
    SwitchAnswers("RW", FormatHex(Flag(c.daSwitch)), Flag(c.daSwitch), FormatHex(c.switches), c.switches, rest, log);
  }

  /** `get_switch` against the firmware reports every button pressed, while
      the numeric reading reports the firmware's flag for it. */
  lemma GetSwitchFirmware(c: Controller, sw: Switch, swr: bool, rest: string, log: seq<string>)
    requires c.commandByte == '\0'
    ensures var wire := RunWith(c, Command('R', sw), swr).out + rest;
      var held := if sw == DaEn then c.daSwitch else Bit(c.switches, RegisterBit(sw));
      && GetSwitch(Link(wire, log), sw) == Ok(Answer(true, Link(rest, log + [Command('R', sw)])))
      && GetSwitchNumeric(Link(wire, log), sw) == Ok(Answer(held, Link(rest, log + [Command('R', sw)])))
  {
    var c1 := c.(daOverSwr := swr);
    var held := if sw == DaEn then c.daSwitch else Bit(c.switches, RegisterBit(sw));
    assert Command('R', sw) == ['R', Digit(sw)];
    assert Report(c1, Digit(sw)) == Some(Flag(held));
    FirmwareReply(c, Digit(sw), swr);
    GetSwitchWire(sw, Flag(held), rest, log);
  }

  /** `press` against the firmware: the echo satisfies the host, but `P` is
      not a command the firmware handles, so no button moves. */
  lemma PressFirmware(c: Controller, sw: Switch, swr: bool, rest: string, log: seq<string>)
    requires c.commandByte == '\0'
    ensures RunWith(c, Command('P', sw), swr).c == c.(daOverSwr := swr)
    ensures Press(Link(RunWith(c, Command('P', sw), swr).out + rest, log), sw)
      == Ok(Link(rest, log + [Command('P', sw)]))
  {
    FirmwareIgnores(c, Command('P', sw), swr);
    CommandEcho('P', sw, rest, log);
  }

  /** `press_manual` against the firmware: both commands are echoed, and a
      button that was released is held and released again, leaving the
      firmware as it was. */
  lemma PressManualFirmware(c: Controller, sw: Switch, swr: bool, rest: string, log: seq<string>)
    requires c.commandByte == '\0' && sw != DaEn && !Bit(c.switches, RegisterBit(sw))
    ensures var c1 := c.(daOverSwr := swr);
      var held := RunWith(c, Command('S', sw), swr);
      var released := RunWith(held.c, Command('U', sw), swr);
      && held.c.switches == SetBit(c.switches, RegisterBit(sw))
      && released.c == c1
      && PressManual(Link(held.out + (released.out + rest), log), sw)
        == Ok(Link(rest, log + [Command('S', sw)] + [Command('U', sw)]))
  {
    var c1 := c.(daOverSwr := swr);
    FirmwareSwitch(c, 'S', sw, swr);
    var held := RunWith(c, Command('S', sw), swr);
    DigitNamesSwitch(Digit(sw), sw);
    FirmwareSwitch(held.c, 'U', sw, swr);
    HoldThenRelease(c1, sw);
    assert held.c.(daOverSwr := swr) == held.c;
    var released := RunWith(held.c, Command('U', sw), swr);
    CommandEcho('S', sw, released.out + rest, log);
    CommandEcho('U', sw, rest, log + [Command('S', sw)]);
    PressManualSteps(Link(held.out + (released.out + rest), log), sw, Link(released.out + rest, log + [Command('S', sw)]),
      Link(rest, log + [Command('S', sw)] + [Command('U', sw)]));
  }

  lemma PressManualSteps(link: Link, sw: Switch, mid: Link, last: Link)
    requires SwitchOn(link, sw) == Ok(mid) && SwitchOff(mid, sw) == Ok(last)
    ensures PressManual(link, sw) == Ok(last)
  {
  }

  /** `enable` against the firmware: `E` is not a command it handles, so
      after the echo nothing more arrives and the host reports the
      failure. */
  lemma EnableFirmware(c: Controller, swr: bool, log: seq<string>)
    requires c.commandByte == '\0'
    ensures Enable(Link(RunWith(c, "EN", swr).out, log)) == Err(EnableFailed)
  {
    FirmwareIgnores(c, "EN", swr);
    OneLineWord("EN");
    assert Line("EN") + [] == Line("EN");
    WriteEcho("EN", [], log);
    ReadLineTimeout(log + ["EN"]);
  }

  /** `disable` against the firmware fails the same way. */
  lemma DisableFirmware(c: Controller, swr: bool, log: seq<string>)
    requires c.commandByte == '\0'
    ensures Disable(Link(RunWith(c, "DS", swr).out, log)) == Err(DisableFailed)
  {
    FirmwareIgnores(c, "DS", swr);
    OneLineWord("DS");
    assert Line("DS") + [] == Line("DS");
    WriteEcho("DS", [], log);
    ReadLineTimeout(log + ["DS"]);
  }
}
