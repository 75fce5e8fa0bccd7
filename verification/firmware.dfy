/** The Arduino firmware `src/main.cpp` that sits between the amplifier's
    control panel and the serial line.

    The panel shifts out its LED state as two bytes over SPI; the firmware
    latches them into `curShiftState` and, for the switch row the panel is
    scanning, drives the two column pins of port D from `curSwitchState`.
    On the serial side every received byte is echoed; two non-line-end
    bytes make a command letter and a target, which `processCommand`
    answers. After each pass of `loop()` the DA outputs are refreshed. */
module Firmware {
  import opened Outcomes
  import opened Bits
  import opened Text
  import opened Switches

  type U8 = n: int | 0 <= n < 256
  type U16 = n: int | 0 <= n < 65536

  /** `SHIFT_ROW_*`: the bits of the shift register that select the row of
      buttons being scanned. */
  const ShiftRow3: nat := 15
  const ShiftRow2: nat := 14
  const ShiftRow1: nat := 13

  /** `SHIFT_*`: the bits of the shift register that drive the panel's
      LEDs, the bargraph from led_10 up, then the red, LNA, PA and SSB LEDs. */
  const ShiftLed10: nat := 0
  const ShiftLed20: nat := 1
  const ShiftLed30: nat := 2
  const ShiftLed40: nat := 3
  const ShiftLed50: nat := 4
  const ShiftLed60: nat := 5
  const ShiftLed70: nat := 6
  const ShiftLed80: nat := 7
  const ShiftRedEn: nat := 8
  const ShiftLnaOn: nat := 9
  const ShiftTxPa: nat := 10
  const ShiftSsbOn: nat := 11

  /** `DA_SWR_PIN`: the number of the DA's SWR input pin. */
  const DaSwrPin: nat := 4

  /** The line `setup()` prints. */
  const Welcome: string := "Toptek Switch Interface"

  /** The line printed for a target that a command does not handle. */
  const Unhandled: string := "Unhandled statement"

  /** The firmware's globals; `commandByte` is `'\0'` while no command
      letter is pending, and `portd` is the port-D output register. */
  datatype Controller = Controller(
    spi0: U8, spi1: U8, spiPos: bool,
    messageReady: bool,
    shift: U16, switches: U8, portd: U8,
    commandByte: char, daSwitch: bool, daOverSwr: bool)

  /** The globals as the C runtime zeroes them. */
  const Reset: Controller := Controller(0, 0, false, false, 0, 0, 0, '\0', false, false)

  /** A controller state together with the bytes written to the serial line. */
  datatype Step = Step(c: Controller, out: string)

  /** `setup()`: the banner line and nothing else. */
  function Boot(): (r: Step)
    ensures r.c == Reset && r.out == Line(Welcome)
  {
    Step(Reset, Line(Welcome))
  }

  /** The SPI interrupt: store the received byte at the current buffer
      position and flip the position. */
  function SpiReceive(c: Controller, b: U8): (r: Controller)
    ensures r.spiPos == !c.spiPos
    ensures if c.spiPos then r.spi1 == b && r.spi0 == c.spi0 else r.spi0 == b && r.spi1 == c.spi1
    ensures r.(spi0 := c.spi0, spi1 := c.spi1, spiPos := c.spiPos) == c
  {
    if c.spiPos then c.(spi1 := b, spiPos := false) else c.(spi0 := b, spiPos := true)
  }

  /** The switch-register bit of the button pair the column pins show while
      the panel scans the row selected in `shift`. */
  function RowBase(shift: int): (k: nat)
    ensures k == 0 || k == 2 || k == 4
  {
    if Bit(shift, ShiftRow3) then 4 else if Bit(shift, ShiftRow2) then 2 else 0
  }

  /** `writeValues`: the two switch bits of the scanned row, moved up to
      bits 6 and 7. */
  function ColumnBits(shift: int, switches: U8): (v: int)
  {
    (Shr(switches, RowBase(shift)) % 4) * 64
  }

  /** The "shift valid" interrupt: once both bytes have arrived, latch them
      as the 16-bit shift state, high byte first, and drive the column pins
      for the scanned row, leaving port D's other pins as they were. */
  function ShiftValid(c: Controller): (r: Controller)
    ensures c.spiPos ==> r == c
    ensures !c.spiPos ==> r.shift == c.spi0 * 256 + c.spi1 && r.messageReady
    ensures r.(shift := c.shift, portd := c.portd, messageReady := c.messageReady) == c
  {
    if c.spiPos then c
    else
      var shift := c.spi0 * 256 + c.spi1;
      var portd := c.portd % 64 + ColumnBits(shift, c.switches);
      c.(shift := shift, messageReady := true, portd := portd)
  }

  /** The latched shift state holds the first byte in bits 8..15 and the
      second in bits 0..7. */
  lemma ShiftValidBits(c: Controller, i: nat)
    requires !c.spiPos && i < 16
    ensures Bit(ShiftValid(c).shift, i) == if i < 8 then Bit(c.spi1, i) else Bit(c.spi0, i - 8)
  {
    assert Pow2(8) == 256;
    BitSplit(c.spi0, c.spi1, 8, i);
  }

  /** The column pins show the scanned row's two buttons (bit 6 the lower,
      bit 7 the upper) and port D's pins 0..5 keep their values. */
  lemma ShiftValidColumns(c: Controller, j: nat)
    requires !c.spiPos && j < 8
    ensures var r := ShiftValid(c); var base := RowBase(r.shift);
      Bit(r.portd, j) == if j < 6 then Bit(c.portd, j) else Bit(c.switches, base + j - 6)
  {
    var r := ShiftValid(c);
    var base := RowBase(r.shift);
    var pair := Shr(c.switches, base) % 4;
    assert Pow2(6) == 64;
    assert Pow2(2) == 4;
    assert r.portd == pair * Pow2(6) + c.portd % Pow2(6);
    BitSplit(pair, c.portd % Pow2(6), 6, j);
    if j < 6 {
      BitMod(c.portd, 6, j);
    } else {
      BitMod(Shr(c.switches, base), 2, j - 6);
      BitShr(c.switches, base, j - 6);
    }
  }

  /** Row by row, the buttons the column pins show: SSB and TX PA for row 3,
      SET PWR and RX LNA for row 2, SHOW SWR (and the unused bit 1)
      otherwise. */
  lemma ScannedButtons(shift: int, switches: U8)
    ensures Bit(shift, ShiftRow3) ==> RowBase(shift) == RegisterBit(SsbOn) && RowBase(shift) + 1 == RegisterBit(TxPa)
    ensures !Bit(shift, ShiftRow3) && Bit(shift, ShiftRow2)
      ==> RowBase(shift) == RegisterBit(SetPwr) && RowBase(shift) + 1 == RegisterBit(RxLna)
    ensures !Bit(shift, ShiftRow3) && !Bit(shift, ShiftRow2) ==> RowBase(shift) == RegisterBit(ShowSwr)
  {
  }

  /** `0` or `1`, as `println` prints a `bool` or a `bitRead`. */
  function Flag(b: bool): (n: nat)
    ensures n < 2 && (n == 1 <==> b)
  {
    if b then 1 else 0
  }

  /** The value `R<target>` prints in hex, if the target is handled. */
  function Report(c: Controller, target: char): (v: Option<nat>)
    ensures target == 'A' ==> v == Some(c.shift)
    ensures target == 'S' ==> v == Some(Flag(c.daOverSwr))
    ensures target == 'W' ==> v == Some(c.switches)
    ensures target == Digit(DaEn) ==> v == Some(Flag(c.daSwitch))
    ensures forall sw :: sw != DaEn && target == Digit(sw) ==> v == Some(Flag(Bit(c.switches, RegisterBit(sw))))
    ensures v.None? <==> target !in "ASW" && FromDigit(target).None?
  {
    match target
    case 'A' => Some(c.shift)
    case 'S' => Some(Flag(c.daOverSwr))
    case 'W' => Some(c.switches)
    case _ =>
      match FromDigit(target)
      case None => None
      case Some(sw) => if sw == DaEn then Some(Flag(c.daSwitch)) else Some(Flag(Bit(c.switches, RegisterBit(sw))))
  }

  /** `bitSet` (hold) or `bitClear` (release) of a button's register bit. */
  function SetButton(switches: U8, sw: Switch, hold: bool): U8
    requires sw != DaEn
  {
    var k := RegisterBit(sw);
    assert Pow2(8) == 256;
    if hold then
      SetBitBounded(switches, k, 8);
      SetBit(switches, k)
    else
      ClearBitBounded(switches, k);
      ClearBit(switches, k)
  }

  /** `processCommand`: an empty line, then for `R` the reported value, for
      `S` and `U` the button held or released, and for a target a command
      does not handle the line "Unhandled statement". Any other command
      letter prints the empty line only. */
  function ProcessCommand(c: Controller, command: char, target: char): (r: Step)
    ensures |r.out| >= 2 && r.out[..2] == "\r\n"
    ensures command != 'S' && command != 'U' ==> r.c == c
    ensures r.c.(switches := c.switches, daSwitch := c.daSwitch) == c
    ensures command !in "RSU" ==> r.out == "\r\n"
  {
    if command == 'R' then
      match Report(c, target)
      case Some(v) => Step(c, "\r\n" + Line(FormatHex(v)))
      case None => Step(c, "\r\n" + Line(Unhandled))
    else if command == 'S' || command == 'U' then
      match FromDigit(target)
      case None => Step(c, "\r\n" + Line(Unhandled))
      case Some(sw) =>
        if sw == DaEn then Step(c.(daSwitch := command == 'S'), "\r\n")
        else Step(c.(switches := SetButton(c.switches, sw, command == 'S')), "\r\n")
    else Step(c, "\r\n")
  }

  /** `S<digit>` holds exactly the named button and prints nothing more;
      `U<digit>` releases it. */
  lemma HoldRelease(c: Controller, command: char, sw: Switch, j: nat)
    requires command == 'S' || command == 'U'
    ensures var r := ProcessCommand(c, command, Digit(sw));
      && r.out == "\r\n"
      && (sw == DaEn ==> r.c == c.(daSwitch := command == 'S'))
      && (sw != DaEn ==>
            r.c.daSwitch == c.daSwitch
            && Bit(r.c.switches, j) == if j == RegisterBit(sw) then command == 'S' else Bit(c.switches, j))
  {
    DigitNamesSwitch(Digit(sw), sw);
    if sw != DaEn {
      SetBitBits(c.switches, RegisterBit(sw), j);
      ClearBitBits(c.switches, RegisterBit(sw), j);
    }
  }

  /** `S<digit>` and `U<digit>` print the empty line and set the named
      button to held or released. */
  lemma SwitchCommand(c: Controller, command: char, sw: Switch)
    requires command == 'S' || command == 'U'
    ensures ProcessCommand(c, command, Digit(sw))
      == Step(if sw == DaEn then c.(daSwitch := command == 'S') else c.(switches := SetButton(c.switches, sw, command == 'S')), "\r\n")
  {
    DigitNamesSwitch(Digit(sw), sw);
  }

  /** After `S<digit>` the button reads back as held, after `U<digit>` as
      released. */
  lemma ReadBack(c: Controller, command: char, sw: Switch)
    requires command == 'S' || command == 'U'
    ensures var held := ProcessCommand(c, command, Digit(sw)).c;
      ProcessCommand(held, 'R', Digit(sw)) == Step(held, "\r\n" + Line(FormatHex(Flag(command == 'S'))))
  {
    DigitNamesSwitch(Digit(sw), sw);
    var held := ProcessCommand(c, command, Digit(sw)).c;
    if sw != DaEn {
      HoldRelease(c, command, sw, RegisterBit(sw));
    }
  }

  /** Releasing a button that a hold pressed restores the register it was
      pressed from. */
  lemma HoldThenRelease(c: Controller, sw: Switch)
    requires sw != DaEn && !Bit(c.switches, RegisterBit(sw))
    ensures ProcessCommand(ProcessCommand(c, 'S', Digit(sw)).c, 'U', Digit(sw)).c == c
  {
    DigitNamesSwitch(Digit(sw), sw);
    var held := ProcessCommand(c, 'S', Digit(sw)).c;
    var k := RegisterBit(sw);
    assert held.switches == SetBit(c.switches, k);
    ClearAfterSet(c.switches, k);
  }

  /** A target that `S`, `U` or `R` does not handle changes nothing and
      prints "Unhandled statement". */
  lemma UnhandledTarget(c: Controller, command: char, target: char)
    requires command in "RSU" && FromDigit(target).None?
    requires command != 'R' || target !in "ASW"
    ensures ProcessCommand(c, command, target) == Step(c, "\r\n" + Line(Unhandled))
  {
  }

  /** The serial half of one pass of `loop()`: echo the byte; ignore line
      ends; take the first other byte as the command letter and the next as
      its target. */
  function Serve(c: Controller, b: char): (r: Step)
    ensures |r.out| >= 1 && r.out[0] == b
    ensures r.c.(switches := c.switches, daSwitch := c.daSwitch, commandByte := c.commandByte) == c
  {
    if b == '\r' || b == '\n' then Step(c, [b])
    else if c.commandByte == '\0' then Step(c.(commandByte := b), [b])
    else
      var done := ProcessCommand(c, c.commandByte, b);
      Step(done.c.(commandByte := '\0'), [b] + done.out)
  }

  /** A line end is echoed and leaves the pending command letter, and
      everything else, as it was. */
  lemma ServeLineEnd(c: Controller, b: char)
    requires b == '\r' || b == '\n'
    ensures Serve(c, b) == Step(c, [b])
  {
  }

  /** One pass of `loop()`, given whether a byte was available and what
      the refresh stores as the DA's SWR flag. */
  function LoopWith(c: Controller, available: Option<char>, swr: bool): (r: Step)
    ensures r.c.daOverSwr == swr
    ensures available.None? ==> r == Step(c.(daOverSwr := swr), [])
  {
    var served := match available
      case None => Step(c, [])
      case Some(b) => Serve(c, b);
    Step(served.c.(daOverSwr := swr), served.out)
  }

  /** `loop()` as written: the refresh stores `(DA_SWR_PIN)`, the pin's
      number, in the SWR flag. */
  function Loop(c: Controller, available: Option<char>): (r: Step)
  {
    LoopWith(c, available, DaSwrPin != 0)
  }

  /** `loop()` with the refresh reading the pin: `digitalRead(DA_SWR_PIN)`
      returns the level `swrLevel`. */
  function LoopFixed(c: Controller, available: Option<char>, swrLevel: bool): (r: Step)
    ensures r.c.daOverSwr == swrLevel
  {
    LoopWith(c, available, swrLevel)
  }

  /** As written, every pass of `loop()` sets the SWR flag, whatever the
      level on the DA's SWR pin. */
  lemma LoopSetsSwrFlag(c: Controller, available: Option<char>, swrLevel: bool)
    ensures Loop(c, available).c.daOverSwr
    ensures !swrLevel ==> Loop(c, available).c != LoopFixed(c, available, swrLevel).c
  {
  }

  /** The reading loop differs from the written one only in the SWR flag. */
  lemma LoopFixedReadsPin(c: Controller, available: Option<char>, swrLevel: bool)
    ensures LoopFixed(c, available, swrLevel) == Loop(c, available).(c := Loop(c, available).c.(daOverSwr := swrLevel))
  {
  }

  /** One pass of `loop()` that receives a byte. */
  type Pass = (Controller, char) -> Step

  /** The pass of `loop()` with the SWR flag refreshed to `swr`. */
  function PassWith(swr: bool): Pass {
    (c: Controller, b: char) => LoopWith(c, Some(b), swr)
  }

  /** The passes of `loop()` that receive the bytes of `input`, one byte
      per pass. */
  function Run(pass: Pass, c: Controller, input: string): (r: Step)
    decreases |input|
  {
    if |input| == 0 then Step(c, [])
    else
      var first := pass(c, input[0]);
      var later := Run(pass, first.c, input[1..]);
      Step(later.c, first.out + later.out)
  }

  /** `Run` with the SWR flag refreshed to `swr`. */
  function RunWith(c: Controller, input: string, swr: bool): (r: Step)
  {
    Run(PassWith(swr), c, input)
  }

  /** Running two pieces of input one after the other is running them
      together. */
  lemma {:induction false} RunAppend(pass: Pass, c: Controller, a: string, b: string)
    ensures var first := Run(pass, c, a); var second := Run(pass, first.c, b);
      Run(pass, c, a + b) == Step(second.c, first.out + second.out)
    decreases |a|
  {
    if |a| > 0 {
      var step := pass(c, a[0]);
      assert (a + b)[0] == a[0] && (a + b)[1..] == a[1..] + b;
      RunAppend(pass, step.c, a[1..], b);
      var rest := Run(pass, step.c, a[1..]);
      var second := Run(pass, rest.c, b);
      assert step.out + (rest.out + second.out) == (step.out + rest.out) + second.out;
    } else {
      assert a + b == b;
    }
  }

  /** Two bytes make two passes. */
  lemma RunTwo(pass: Pass, c: Controller, x: char, y: char)
    ensures Run(pass, c, [x, y])
      == Step(pass(pass(c, x).c, y).c, pass(c, x).out + pass(pass(c, x).c, y).out)
  {
    assert [x, y][1..] == [y];
    assert [y][1..] == [];
    var first := pass(c, x);
    var second := pass(first.c, y);
    assert Run(pass, first.c, [y]) == Step(second.c, second.out + []);
    assert second.out + [] == second.out;
  }

  /** Line ends are echoed and change nothing else. */
  lemma RunLineEnd(c: Controller, swr: bool)
    ensures RunWith(c, "\r\n", swr) == Step(c.(daOverSwr := swr), "\r\n")
  {
    RunTwo(PassWith(swr), c, '\r', '\n');
  }

  /** A byte that is not a line end, received while no letter is pending,
      becomes the pending command letter. */
  lemma PassLetter(c: Controller, letter: char, swr: bool)
    requires c.commandByte == '\0' && letter != '\r' && letter != '\n'
    ensures PassWith(swr)(c, letter) == Step(c.(commandByte := letter, daOverSwr := swr), [letter])
  {
  }

  /** A byte that is not a line end, received while a letter is pending,
      completes the command, which `processCommand` carries out. */
  lemma PassTarget(c: Controller, target: char, swr: bool)
    requires c.commandByte != '\0' && target != '\r' && target != '\n'
    ensures var done := ProcessCommand(c, c.commandByte, target);
      PassWith(swr)(c, target) == Step(done.c.(commandByte := '\0', daOverSwr := swr), [target] + done.out)
  {
  }

  /** Two bytes, a command letter and a target, sent while no letter is
      pending: both are echoed, then `processCommand` answers once and the
      firmware waits for a new letter. */
  lemma RunCommand(c: Controller, letter: char, target: char, swr: bool)
    requires c.commandByte == '\0' && letter != '\0'
    requires letter != '\r' && letter != '\n' && target != '\r' && target != '\n'
    ensures var pending := c.(commandByte := letter, daOverSwr := swr);
      var done := ProcessCommand(pending, letter, target);
      RunWith(c, [letter, target], swr) == Step(done.c.(commandByte := '\0', daOverSwr := swr), Line([letter, target]) + done.out[2..])
  {
    var pending := c.(commandByte := letter, daOverSwr := swr);
    var done := ProcessCommand(pending, letter, target);
    RunTwo(PassWith(swr), c, letter, target);
    PassLetter(c, letter, swr);
    PassTarget(pending, target, swr);
    assert done.out == "\r\n" + done.out[2..];
    assert [letter] + ([target] + done.out) == Line([letter, target]) + done.out[2..];
  }

  /** A command sent as a line, `S1\r\n` say: one dispatch, and the line
      end echoed after the command's output. */
  lemma RunCommandLine(c: Controller, letter: char, target: char, swr: bool)
    requires c.commandByte == '\0' && letter != '\0'
    requires letter != '\r' && letter != '\n' && target != '\r' && target != '\n'
    ensures var pending := c.(commandByte := letter, daOverSwr := swr);
      var done := ProcessCommand(pending, letter, target);
      RunWith(c, [letter, target] + "\r\n", swr)
        == Step(done.c.(commandByte := '\0', daOverSwr := swr), Line([letter, target]) + done.out[2..] + "\r\n")
  {
    var pending := c.(commandByte := letter, daOverSwr := swr);
    var done := ProcessCommand(pending, letter, target);
    RunAppend(PassWith(swr), c, [letter, target], "\r\n");
    RunCommand(c, letter, target, swr);
    var after := done.c.(commandByte := '\0', daOverSwr := swr);
    RunLineEnd(after, swr);
    assert after.(daOverSwr := swr) == after;
  }
}
