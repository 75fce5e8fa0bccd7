/** The legacy driver `TopTek.py`. Its `write`, `query`, banner check,
    `get_power` and `get_swr` are the package's (`Transport`, `Snapshots`);
    what differs is modelled here: the fault list is not inverted, the DA
    flags are the truth of the raw reply, a press is the manual hold and
    release, `get_tx_power` polls at most ten times for a nonzero power,
    and `set_tx_power` counts presses without wrapping round the ladder. */
module Legacy {
  import opened Outcomes
  import opened Bits
  import opened Text
  import opened Switches
  import opened Snapshots
  import opened Registers
  import opened Transport
  import opened Bargraph
  import opened Power

  /** The legacy `get_errors`: refused unless red-LED mode is on; then the
      faults whose LED is lit, in the order of `FaultNames`. */
  function LegacyErrors(s: ToptekState): (r: Result<seq<string>>)
    ensures r.Err? <==> !s.redEn
    ensures r.Err? ==> r.error == NoErrorApparent
    ensures r.Ok? ==> |r.value| <= 5
  {
    if !s.redEn then Err(NoErrorApparent)
    else Ok(
      (if s.led10 then ["PA FAIL"] else [])
      + ((if s.led20 then ["HIGH TEMP"] else [])
      + ((if s.led30 then ["DC VOLTAGE"] else [])
      + ((if s.led40 then ["OVERDRIVE"] else [])
      + (if s.led50 then ["HIGH SWR"] else [])))))
  }

  /** The legacy fault list selects the lit LEDs among the first five. */
  lemma LegacyErrorsAreSelected(s: ToptekState)
    requires s.redEn
    ensures LegacyErrors(s).value == Select(s.Ladder()[..5], FaultNames, true)
  {
    SelectFive(s.Ladder()[..5], FaultNames, true);
  }

  /** Each fault is in exactly one of the two lists: the legacy list is the
      complement of the package's. */
  lemma LegacyErrorsComplement(s: ToptekState, k: nat)
    requires s.redEn && k < 5
    ensures FaultNames[k] in LegacyErrors(s).value <==> FaultNames[k] !in s.Errors().value
    ensures FaultNames[k] in LegacyErrors(s).value <==> s.Ladder()[k]
  {
    LegacyErrorsAreSelected(s);
    SelectMembership(s.Ladder()[..5], FaultNames, true, k);
    ErrorsAreDarkFaults(s, k);
  }

  /** `read_state`: the LED register as the package reads it, but the DA's
      SWR flag is the truth of the raw `RS` reply. */
  function LegacyReadState(link: Link): (r: Result<Answer<ToptekState>>)
    ensures r.Ok? ==> r.value.link.log == link.log + ["RS"] + ["RA"]
    ensures r.Err? ==> r.error.IsLinkError()
  {
    var da :- Query(link, "RS");
    var ra :- Query(da.link, "RA");
    var raValue :- ParseInt(ra.value, 16);
    Ok(Answer(DecodeLeds(da.value != [], raValue), ra.link))
  }

  /** `read_switch_state`: the button register from `RS`, as the package
      reads it, and the DA flag the truth of the raw `R6` reply. */
  function LegacyReadSwitchState(link: Link): (r: Result<Answer<ToptekSwitchState>>)
    ensures r.Ok? ==> r.value.link.log == link.log + ["R6"] + ["RS"]
    ensures r.Err? ==> r.error.IsLinkError()
  {
    var da :- Query(link, "R6");
    var sw :- Query(da.link, "RS");
    var swValue :- ParseInt(sw.value, 16);
    Ok(Answer(DecodeSwitches(da.value != [], swValue), sw.link))
  }

  /** Against a device that answers `RS` with a printed number, zero
      included, the legacy read reports the DA's SWR flag set. */
  lemma LegacyReadStateWire(s: ToptekState, rest: string, log: seq<string>)
    ensures LegacyReadState(Link(StateWire(s) + rest, log))
      == Ok(Answer(s.(daSwr := true), Link(rest, log + ["RS"] + ["RA"])))
  {
    var daFlag := if s.daSwr then 1 else 0;
    var da := FormatHex(daFlag);
    var ra := FormatHex(EncodeLeds(s));
    HexWireLine(daFlag);
    HexWireLine(EncodeLeds(s));
    ParseFormatHex(EncodeLeds(s));
    ConcatAssoc(QueryWire("RS", da), QueryWire("RA", ra), rest);
    var mid := QueryWire("RA", ra) + rest;
    OneLineWord("RS");
    OneLineWord("RA");
    QueryWireAnswer("RS", da, mid, log);
    QueryWireAnswer("RA", ra, rest, log + ["RS"]);
    LegacyReadStateSteps(Link(QueryWire("RS", da) + mid, log), da, Link(mid, log + ["RS"]), ra, EncodeLeds(s),
      Link(rest, log + ["RS"] + ["RA"]));
    DecodeEncodeLeds(s);
    DecodeLedsFlag(s.daSwr, true, EncodeLeds(s));
  }

  lemma LegacyReadStateSteps(link: Link, da: string, mid: Link, ra: string, raValue: int, last: Link)
    requires Query(link, "RS") == Ok(Answer(da, mid))
    requires Query(mid, "RA") == Ok(Answer(ra, last)) && ParseInt(ra, 16) == Ok(raValue)
    ensures LegacyReadState(link) == Ok(Answer(DecodeLeds(da != [], raValue), last))
  {
  }

  /** Against a device that answers `R6` with a printed flag and `RS` with
      the printed switch register, the legacy switch read reports the DA on,
      whatever the flag, and each button from its register bit. */
  lemma LegacyReadSwitchStateWire(d: nat, v: nat, rest: string, log: seq<string>)
    ensures var r := LegacyReadSwitchState(Link(QueryWire("R6", FormatHex(d)) + (QueryWire("RS", FormatHex(v)) + rest), log));
      && r == Ok(Answer(DecodeSwitches(true, v), Link(rest, log + ["R6"] + ["RS"])))
      && r.value.value.swDaOn
      && r.value.value.swSsbOn == Bit(v, 4) && r.value.value.swTxPa == Bit(v, 5)
      && r.value.value.swSetPwr == Bit(v, 2) && r.value.value.swRxLna == Bit(v, 3)
      && r.value.value.swShowSwr == Bit(v, 0)
  {
    var da := FormatHex(d);
    var sw := FormatHex(v);
    var mid := QueryWire("RS", sw) + rest;
    HexWireLine(d);
    HexWireLine(v);
    ParseFormatHex(v);
    OneLineWord("R6");
    OneLineWord("RS");
    QueryWireAnswer("R6", da, mid, log);
    QueryWireAnswer("RS", sw, rest, log + ["R6"]);
    LegacyReadSwitchStateSteps(Link(QueryWire("R6", da) + mid, log), da, Link(mid, log + ["R6"]), sw, v,
      Link(rest, log + ["R6"] + ["RS"]));
  }

  lemma LegacyReadSwitchStateSteps(link: Link, da: string, mid: Link, sw: string, swValue: int, last: Link)
    requires Query(link, "R6") == Ok(Answer(da, mid))
    requires Query(mid, "RS") == Ok(Answer(sw, last)) && ParseInt(sw, 16) == Ok(swValue)
    ensures LegacyReadSwitchState(link) == Ok(Answer(DecodeSwitches(da != [], swValue), last))
  {
  }

  /** The SWR flag is the only part of the snapshot it takes. */
  lemma DecodeLedsFlag(a: bool, b: bool, ra: int)
    ensures DecodeLeds(b, ra) == DecodeLeds(a, ra).(daSwr := b)
  {
  }

  /** The legacy `get_tx_power` loop from poll i on: read the state, take its
      power (refused in red-LED mode) and stop at the first nonzero power or
      after the tenth read. */
  function PowerPoll(read: Reader, link: Link, i: nat): (r: Result<(Answer<int>, nat)>)
    requires i < 10
    ensures r.Ok? ==> 1 <= r.value.1 <= 10 - i
    ensures r.Ok? && r.value.1 < 10 - i ==> r.value.0.value != 0
    ensures r.Ok? ==> 0 <= r.value.0.value <= 80
    decreases 10 - i
  {
    var got :- read(link);
    var power :- got.value.Power();
    if power != 0 || i + 1 == 10 then Ok((Answer(power, got.link), 1))
    else
      var later :- PowerPoll(read, got.link, i + 1);
      Ok((later.0, later.1 + 1))
  }

  /** Index of the first snapshot that ends the poll, by a nonzero power or
      by red-LED mode; -1 when there is none. */
  function FirstSettled(ss: seq<ToptekState>): (k: int)
    ensures -1 <= k < |ss|
    ensures k >= 0 ==> ss[k].redEn || ss[k].Power().value != 0
    ensures forall j :: 0 <= j < |ss| && (k < 0 || j < k) ==> !ss[j].redEn && ss[j].Power().value == 0
  {
    if |ss| == 0 then -1
    else if ss[0].redEn || ss[0].Power().value != 0 then 0
    else
      var k := FirstSettled(ss[1..]);
      if k < 0 then -1 else k + 1
  }

  /** Index of the read the poll stops at when the reads show `ss`. */
  function SettleAt(ss: seq<ToptekState>): (k: nat)
    requires |ss| > 0
    ensures k < |ss|
  {
    var f := FirstSettled(ss);
    if f >= 0 then f else |ss| - 1
  }

  /** Against a reader that shows `ss`, the poll stops at the first settled
      snapshot, or the last one: it refuses in red-LED mode and otherwise
      reports that snapshot's power after that many reads. */
  lemma {:induction false} PowerPollScripted(read: Reader, links: seq<Link>, ss: seq<ToptekState>, i: nat)
    requires i < 10 && |ss| == 10 - i && Scripted(read, links, ss)
    ensures var r := PowerPoll(read, links[0], i); var k := SettleAt(ss);
      && (r.Ok? <==> !ss[k].redEn)
      && (r.Err? ==> r.error == RedLedsOn)
      && (r.Ok? ==> r.value == (Answer(ss[k].Power().value, links[k + 1]), k + 1))
    decreases 10 - i
  {
    assert read(links[0]) == Ok(Answer(ss[0], links[1]));
    if ss[0].redEn || ss[0].Power().value != 0 {
      assert SettleAt(ss) == 0;
    } else if i + 1 == 10 {
      assert SettleAt(ss) == 0;
    } else {
      assert SettleAt(ss) == SettleAt(ss[1..]) + 1;
      assert Scripted(read, links[1..], ss[1..]) by {
        forall k | 0 <= k < |ss| - 1
          ensures read(links[1..][k]) == Ok(Answer(ss[1..][k], links[1..][k + 1]))
        {
          assert read(links[k + 1]) == Ok(Answer(ss[k + 1], links[k + 2]));
        }
      }
      PowerPollScripted(read, links[1..], ss[1..], i + 1);
    }
  }

  /** The legacy `get_tx_power`: a manual press of the set-power button,
      then the power poll. */
  function LegacyGetTxPower(link: Link): (r: Result<Answer<int>>)
    ensures r.Ok? ==> 0 <= r.value.value <= 80
  {
    var pressed :- PressManual(link, SetPwr);
    var polled :- PowerPoll(LegacyReadState, pressed, 0);
    Ok(polled.0)
  }

  /** Once the set-power button is held and released, the legacy
      `get_tx_power` is the power poll's answer from the first read. */
  lemma LegacyGetTxPowerSteps(link: Link, pressed: Link)
    requires PressManual(link, SetPwr) == Ok(pressed)
    ensures pressed.log == link.log + [Command('S', SetPwr)] + [Command('U', SetPwr)]
    ensures LegacyGetTxPower(link) == match PowerPoll(LegacyReadState, pressed, 0)
      case Ok(p) => Ok(p.0)
      case Err(e) => Err(e)
  {
  }

  /** The legacy press count: the distance to the target in ladder steps,
      with no way round the top. */
  function LegacyPressCount(current: int, target: int): int {
    Trunc(if current - target < 0 then target - current else current - target, 20)
  }

  /** On the ladder the legacy count reaches the target exactly when the
      target is not below the current power, where it is the corrected
      count, or lies two steps below it; a descent of one or three steps
      lands elsewhere. */
  lemma LegacyPressCountReaches(current: int, target: int)
    requires IsLadder(current) && IsLadder(target)
    ensures var n := LegacyPressCount(current, target);
      && 0 <= n <= 3
      && (AdvanceN(current, n) == target <==> current <= target || current - target == 40)
      && (current <= target ==> n == PressCountFixed(current, target))
  {
    var n := LegacyPressCount(current, target);
    var ci, ti := LadderIndex(current), LadderIndex(target);
    PressCountIndex(current, target);
    Twenties(ci - ti);
    Twenties(ti - ci);
    AdvanceNIndex(current, n);
    assert LadderIndex(AdvanceN(current, n)) == Wrap(ci + n);
    if current <= target {
      assert n == ti - ci;
    } else {
      assert n == ci - ti;
    }
  }

  /** Presses that hold and release one button, n times. */
  function ManualLog(sw: Switch, n: nat): (r: seq<string>)
    ensures |r| == 2 * n
  {
    if n == 0 then [] else [Command('S', sw), Command('U', sw)] + ManualLog(sw, n - 1)
  }

  /** The press loop of the legacy `set_tx_power`. */
  function PressManualRepeatedly(link: Link, sw: Switch, n: nat): (r: Result<Link>)
    ensures r.Ok? ==> r.value.log == link.log + ManualLog(sw, n)
    decreases n
  {
    if n == 0 then Ok(link)
    else
      var pressed :- PressManual(link, sw);
      var r := PressManualRepeatedly(pressed, sw, n - 1);
      ManualLogStep(link.log, pressed.log, sw, n, r);
      r
  }

  lemma ManualLogStep(log: seq<string>, mid: seq<string>, sw: Switch, n: nat, r: Result<Link>)
    requires n > 0 && mid == log + [Command('S', sw)] + [Command('U', sw)]
    requires r.Ok? ==> r.value.log == mid + ManualLog(sw, n - 1)
    ensures r.Ok? ==> r.value.log == log + ManualLog(sw, n)
  {
  }

  /** The legacy `get_cur_power`: refused in red-LED mode, otherwise the
      power shown now. */
  function LegacyGetCurPower(link: Link): (r: Result<Answer<int>>)
    ensures r.Ok? ==> 0 <= r.value.value <= 80 && r.value.value % 10 == 0
    ensures r.Ok? ==> r.value.link.log == link.log + ["RS"] + ["RA"]
    ensures r.Err? ==> r.error.IsLinkError() || r.error == ErrorOrSwrMode
  {
    var got :- LegacyReadState(link);
    if got.value.redEn then Err(ErrorOrSwrMode)
    else Ok(Answer(got.value.Power().value, got.link))
  }

  /** With the state read, the legacy `get_cur_power` is refused exactly in
      red-LED mode and otherwise reports the power the ladder shows. */
  lemma LegacyGetCurPowerSteps(link: Link, s: ToptekState, last: Link)
    requires LegacyReadState(link) == Ok(Answer(s, last))
    ensures var r := LegacyGetCurPower(link);
      && (r.Ok? <==> !s.redEn)
      && (r.Err? ==> r.error == ErrorOrSwrMode)
      && (r.Ok? ==> r.value == Answer(s.Power().value, last))
  {
  }

  /** The legacy `set_tx_power` as written: a target off the ladder is
      refused before any command; zero presses mean no press and no check;
      otherwise one press, n more, and the output power read back. */
  function LegacySetTxPower(link: Link, power: int): (r: Result<Link>)
    ensures !IsLadder(power) ==> r == Err(InvalidSetPower(power))
  {
    LegacySetTxPowerWith(link, power, LegacyPressCount)
  }

  /** The legacy `set_tx_power` counting round the ladder. */
  function LegacySetTxPowerFixed(link: Link, power: int): (r: Result<Link>)
    ensures !IsLadder(power) ==> r == Err(InvalidSetPower(power))
  {
    LegacySetTxPowerWith(link, power, PressCountFixed)
  }

  function LegacySetTxPowerWith(link: Link, power: int, count: (int, int) -> int): (r: Result<Link>)
    ensures !IsLadder(power) ==> r == Err(InvalidSetPower(power))
  {
    if !IsLadder(power) then Err(InvalidSetPower(power))
    else
      var setPower :- LegacyGetTxPower(link);
      var n := count(setPower.value, power);
      if n <= 0 then Ok(setPower.link)
      else
        var first :- PressManual(setPower.link, SetPwr);
        var pressed :- PressManualRepeatedly(first, SetPwr, n);
        LegacyCheckPower(pressed, power)
  }

  /** The closing check of the legacy `set_tx_power`. */
  function LegacyCheckPower(link: Link, power: int): (r: Result<Link>)
    ensures r.Ok? <==> LegacyGetCurPower(link).Ok? && LegacyGetCurPower(link).value.value == power
    ensures r.Ok? ==> r.value == LegacyGetCurPower(link).value.link
    ensures LegacyGetCurPower(link).Ok? && LegacyGetCurPower(link).value.value != power
      ==> r == Err(PowerNotSet(LegacyGetCurPower(link).value.value, power))
  {
    var actual :- LegacyGetCurPower(link);
    if actual.value != power then Err(PowerNotSet(actual.value, power))
    else Ok(actual.link)
  }

  /** With the set power read, a count of zero ends the call with no
      command; otherwise the presses and the check follow. */
  lemma LegacySetTxPowerSteps(link: Link, power: int, current: int, after: Link)
    requires IsLadder(power) && LegacyGetTxPower(link) == Ok(Answer(current, after))
    ensures LegacyPressCount(current, power) == 0 ==> LegacySetTxPower(link, power) == Ok(after)
    ensures LegacyPressCount(current, power) > 0 ==> (LegacySetTxPower(link, power)
      == match PressManual(after, SetPwr)
        case Err(e) => Err(e)
        case Ok(first) => match PressManualRepeatedly(first, SetPwr, LegacyPressCount(current, power))
          case Err(e) => Err(e)
          case Ok(pressed) => LegacyCheckPower(pressed, power))
  {
  }
}
