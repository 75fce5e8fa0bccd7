/** The check-act-verify switch helpers of the package driver: `pa_on`,
    `pa_off`, `lna_on`, `lna_off`, `ssb_on`, `ssb_off` on the LED register,
    `da_on`, `da_off` on the switch register, and the unchecked
    `da_on_fast`, `da_off_fast`.

    Each checked helper reads the flag it controls, acts only when the flag
    differs from the target, and then reads again and raises unless the flag
    now has the target value. */
module Toggles {
  import opened Outcomes
  import opened Text
  import opened Switches
  import opened Snapshots
  import opened Transport

  /** The LED flag an amplifier unit is read from. */
  function UnitLed(s: ToptekState, u: Unit): bool
    requires u != DA
  {
    match u
    case PA => s.txPa
    case LNA => s.lnaOn
    case SSB => s.ssbOn
  }

  /** The front-panel button that flips a unit. */
  function UnitButton(u: Unit): (sw: Switch)
    requires u != DA
    ensures sw != DaEn && sw != SetPwr && sw != ShowSwr
  {
    match u
    case PA => TxPa
    case LNA => RxLna
    case SSB => Switch.SsbOn
  }

  /** A unit that a toggle leaves alone in state `s`: SSB while the PA is off. */
  predicate Blocked(s: ToptekState, u: Unit) {
    u == SSB && !s.txPa
  }

  /** The LED toggles: read the state; unless SSB is asked for with the PA
      off, or the flag already has the target, press the unit's button,
      read again and insist on the target. */
  function Toggle(link: Link, u: Unit, on: bool): (r: Result<Link>)
    requires u != DA
    ensures r.Ok? ==> || r.value.log == link.log + ["RS"] + ["RA"]
                      || r.value.log == link.log + ["RS"] + ["RA"] + [Command('P', UnitButton(u))] + ["RS"] + ["RA"]
    ensures r.Err? ==> r.error.IsLinkError() || r.error == NotConfirmed(u, on)
  {
    var got :- GetState(link);
    if Blocked(got.value, u) || UnitLed(got.value, u) == on then Ok(got.link)
    else
      var pressed :- Press(got.link, UnitButton(u));
      var again :- GetState(pressed);
      if UnitLed(again.value, u) != on then Err(NotConfirmed(u, on))
      else Ok(again.link)
  }

  function PaOn(link: Link): Result<Link> { Toggle(link, PA, true) }
  function PaOff(link: Link): Result<Link> { Toggle(link, PA, false) }
  function LnaOn(link: Link): Result<Link> { Toggle(link, LNA, true) }
  function LnaOff(link: Link): Result<Link> { Toggle(link, LNA, false) }
  function SsbOn(link: Link): Result<Link> { Toggle(link, SSB, true) }
  function SsbOff(link: Link): Result<Link> { Toggle(link, SSB, false) }

  /** `da_on` and `da_off`: the same pattern on the DA flag of
      `get_switch_state`, acting by holding or releasing the DA button. */
  function DaToggle(link: Link, on: bool): (r: Result<Link>)
    ensures r.Ok? ==> || r.value.log == link.log + ["R6"] + ["RS"]
                      || r.value.log == link.log + ["R6"] + ["RS"] + [DaCommand(on)] + ["R6"] + ["RS"]
    ensures r.Err? ==> r.error.IsLinkError() || r.error == NotConfirmed(DA, on)
  {
    var got :- GetSwitchState(link);
    if got.value.swDaOn == on then Ok(got.link)
    else
      var acted :- DaFast(got.link, on);
      var again :- GetSwitchState(acted);
      if again.value.swDaOn != on then Err(NotConfirmed(DA, on))
      else Ok(again.link)
  }

  function DaOn(link: Link): Result<Link> { DaToggle(link, true) }
  function DaOff(link: Link): Result<Link> { DaToggle(link, false) }

  /** The command that sets the DA enable: hold to turn on, release to turn off. */
  function DaCommand(on: bool): (cmd: string)
    ensures |cmd| == 2 && cmd[0] == (if on then 'S' else 'U') && FromDigit(cmd[1]) == Some(DaEn)
  {
    Command(if on then 'S' else 'U', DaEn)
  }

  /** `da_on_fast` and `da_off_fast`: the command alone, unchecked. */
  function DaFast(link: Link, on: bool): (r: Result<Link>)
    ensures r.Ok? ==> r.value.log == link.log + [DaCommand(on)]
  {
    if on then SwitchOn(link, DaEn) else SwitchOff(link, DaEn)
  }

  /** A toggle whose first read already shows the target, or finds SSB
      blocked, sends no command after that read. */
  lemma ToggleIdle(link: Link, u: Unit, on: bool, s: ToptekState, after: Link)
    requires u != DA && GetState(link) == Ok(Answer(s, after))
    requires Blocked(s, u) || UnitLed(s, u) == on
    ensures Toggle(link, u, on) == Ok(after)
  {
  }

  /** Otherwise the toggle presses the unit's button once and succeeds
      exactly when the second read shows the target. */
  lemma ToggleActs(link: Link, u: Unit, on: bool, s: ToptekState, mid: Link, pressed: Link, t: ToptekState, last: Link)
    requires u != DA && GetState(link) == Ok(Answer(s, mid))
    requires !Blocked(s, u) && UnitLed(s, u) != on
    requires Press(mid, UnitButton(u)) == Ok(pressed) && GetState(pressed) == Ok(Answer(t, last))
    ensures Toggle(link, u, on) == if UnitLed(t, u) == on then Ok(last) else Err(NotConfirmed(u, on))
  {
  }

  /** Against a device that shows `s`, echoes the press and then shows `t`,
      a toggle that has to act succeeds exactly when `t` has the target. */
  lemma ToggleWire(u: Unit, on: bool, s: ToptekState, t: ToptekState, rest: string, log: seq<string>)
    requires u != DA && !Blocked(s, u) && UnitLed(s, u) != on
    ensures var r := Toggle(Link(StateWire(s) + (Line(Command('P', UnitButton(u))) + (StateWire(t) + rest)), log), u, on);
      && (r.Ok? <==> UnitLed(t, u) == on)
      && (r.Ok? ==> r.value == Link(rest, log + ["RS"] + ["RA"] + [Command('P', UnitButton(u))] + ["RS"] + ["RA"]))
      && (r.Err? ==> r.error == NotConfirmed(u, on))
  {
    var cmd := Command('P', UnitButton(u));
    var tail := Line(cmd) + (StateWire(t) + rest);
    var mid := Link(tail, log + ["RS"] + ["RA"]);
    var pressed := Link(StateWire(t) + rest, mid.log + [cmd]);
    GetStateWire(s, tail, log);
    CommandEcho('P', UnitButton(u), StateWire(t) + rest, mid.log);
    GetStateWire(t, rest, pressed.log);
    ToggleActs(Link(StateWire(s) + tail, log), u, on, s, mid, pressed, t, Link(rest, pressed.log + ["RS"] + ["RA"]));
  }

  /** Against a device that shows `s` with the unit already at its target, or
      SSB blocked, the toggle succeeds after the one read. */
  lemma ToggleWireIdle(u: Unit, on: bool, s: ToptekState, rest: string, log: seq<string>)
    requires u != DA && (Blocked(s, u) || UnitLed(s, u) == on)
    ensures Toggle(Link(StateWire(s) + rest, log), u, on) == Ok(Link(rest, log + ["RS"] + ["RA"]))
  {
    GetStateWire(s, rest, log);
    ToggleIdle(Link(StateWire(s) + rest, log), u, on, s, Link(rest, log + ["RS"] + ["RA"]));
  }

  /** `da_on`/`da_off` act once, with the DA command, and succeed exactly
      when the second read shows the target. */
  lemma DaToggleActs(link: Link, on: bool, s: ToptekSwitchState, mid: Link, acted: Link, t: ToptekSwitchState, last: Link)
    requires GetSwitchState(link) == Ok(Answer(s, mid)) && s.swDaOn != on
    requires DaFast(mid, on) == Ok(acted) && GetSwitchState(acted) == Ok(Answer(t, last))
    ensures DaToggle(link, on) == if t.swDaOn == on then Ok(last) else Err(NotConfirmed(DA, on))
  {
  }

  lemma DaToggleIdle(link: Link, on: bool, s: ToptekSwitchState, after: Link)
    requires GetSwitchState(link) == Ok(Answer(s, after)) && s.swDaOn == on
    ensures DaToggle(link, on) == Ok(after)
  {
  }
}
