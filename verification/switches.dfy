/** The amplifier's front-panel buttons and how both ends of the serial line
    name them: the host writes `int(switch)` as a digit after a command
    letter, the firmware maps that digit back to a button and, for all but
    the DA enable, to a bit of its switch register. */
module Switches {
  import opened Outcomes

  datatype Switch = SsbOn | TxPa | SetPwr | RxLna | ShowSwr | DaEn

  /** `int(switch)` of the host's `ToptekSwitches` enumeration. */
  function Code(sw: Switch): (n: int)
    ensures 1 <= n <= 6
  {
    match sw
    case SsbOn => 1
    case TxPa => 2
    case SetPwr => 3
    case RxLna => 4
    case ShowSwr => 5
    case DaEn => 6
  }

  /** The single character `f"{int(switch)}"` writes. */
  function Digit(sw: Switch): char {
    ('0' as int + Code(sw)) as char
  }

  /** The firmware's `case '1'` ... `case '6'` arms: which button a target
      byte names, if any. */
  function FromDigit(c: char): Option<Switch> {
    match c
    case '1' => Some(SsbOn)
    case '2' => Some(TxPa)
    case '3' => Some(SetPwr)
    case '4' => Some(RxLna)
    case '5' => Some(ShowSwr)
    case '6' => Some(DaEn)
    case _ => None
  }

  /** The firmware reads a target byte as the button whose number the host
      wrote there, and only those six bytes name a button. */
  lemma DigitNamesSwitch(c: char, sw: Switch)
    ensures FromDigit(c) == Some(sw) <==> c == Digit(sw)
  {
  }

  /** A switch command: one command letter, then the button's digit. */
  function Command(letter: char, sw: Switch): (r: string)
    ensures |r| == 2 && r[0] == letter && '1' <= r[1] <= '6'
    ensures FromDigit(r[1]) == Some(sw)
  {
    [letter, Digit(sw)]
  }

  /** The bit of the firmware's `curSwitchState` that holds a button
      (`SWITCH_*`); the DA enable lives in the separate `daSwitch` flag. */
  function RegisterBit(sw: Switch): (k: nat)
    requires sw != DaEn
    ensures k < 6
  {
    match sw
    case SsbOn => 4
    case TxPa => 5
    case SetPwr => 2
    case RxLna => 3
    case ShowSwr => 0
  }

  /** No two buttons share a register bit, and bit 1 holds none. */
  lemma RegisterBitsDistinct(a: Switch, b: Switch)
    requires a != DaEn && b != DaEn
    ensures RegisterBit(a) == RegisterBit(b) <==> a == b
    ensures RegisterBit(a) != 1
  {
  }
}
