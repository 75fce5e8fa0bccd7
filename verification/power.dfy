/** The power helpers of the package driver: `get_errors`, `get_tx_power`,
    `set_tx_power` and `get_cur_power`, and the press-count arithmetic of
    the set-power button. */
module Power {
  import opened Outcomes
  import opened Text
  import opened Switches
  import opened Snapshots
  import opened Transport
  import opened Bargraph

  /** The set powers the amplifier offers. */
  predicate IsLadder(p: int) {
    p == 20 || p == 40 || p == 60 || p == 80
  }

  /** Position of a set power on the ladder, 20 W first. */
  function LadderIndex(p: int): (k: int)
    requires IsLadder(p)
    ensures 0 <= k < 4 && p == 20 * (k + 1)
  {
    p / 20 - 1
  }

  /** One step of the set-power button: the next power up, 80 W back to 20 W. */
  function Advance(p: int): (q: int)
    requires IsLadder(p)
    ensures IsLadder(q) && LadderIndex(q) == Wrap(LadderIndex(p) + 1)
  {
    if p == 80 then 20 else p + 20
  }

  /** A ladder position counted on past the top, brought back round. */
  function Wrap(k: int): int {
    if k < 4 then k else k - 4
  }

  /** The set power after n steps. */
  function AdvanceN(p: int, n: nat): (q: int)
    requires IsLadder(p)
    ensures IsLadder(q)
  {
    if n == 0 then p else Advance(AdvanceN(p, n - 1))
  }

  /** Up to one full cycle, n steps move the ladder position n places round. */
  lemma {:induction false} AdvanceNIndex(p: int, n: nat)
    requires IsLadder(p) && n <= 4
    ensures LadderIndex(AdvanceN(p, n)) == Wrap(LadderIndex(p) + n)
  {
    if n > 0 {
      AdvanceNIndex(p, n - 1);
    }
  }

  /** Python's and Dafny's `%` agree with a single wrap on small differences. */
  lemma ModFour(x: int)
    requires -4 < x < 4
    ensures x % 4 == if x < 0 then x + 4 else x
  {
    if x == -3 {} else if x == -2 {} else if x == -1 {} else if x == 0 {}
    else if x == 1 {} else if x == 2 {} else {}
  }

  /** Python's `int(a / d)`: the quotient truncated toward zero. */
  function Trunc(a: int, d: nat): int
    requires d > 0
  {
    if a >= 0 then a / d else -((-a) / d)
  }

  /** The presses `set_tx_power` makes after the first one, from set power
      `current` to `target`: up the ladder directly when the current power
      is below the target, otherwise up to 80 W and round again. */
  function PressCount(current: int, target: int): int {
    if current < target then Trunc(if current - target < 0 then target - current else current - target, 20)
    else Trunc(80 - current, 20) + Trunc(target, 20)
  }

  /** `PressCount` with the no-op the zero test evidently expects: a power
      already at its target takes no presses. */
  function PressCountFixed(current: int, target: int): int {
    if current <= target then Trunc(if current - target < 0 then target - current else current - target, 20)
    else Trunc(80 - current, 20) + Trunc(target, 20)
  }

  /** Between ladder powers the presses are the steps round the ladder, 1
      to 4, and a full cycle of 4 when the power is already at its target. */
  lemma PressCountCycles(current: int, target: int)
    requires IsLadder(current) && IsLadder(target)
    ensures var n := PressCount(current, target);
      && 1 <= n <= 4
      && n == (if current == target then 4 else (LadderIndex(target) - LadderIndex(current)) % 4)
      && AdvanceN(current, n) == target
  {
    var n := PressCount(current, target);
    PressCountIndex(current, target);
    ModFour(LadderIndex(target) - LadderIndex(current));
    AdvanceNIndex(current, n);
    LadderDetermined(AdvanceN(current, n), target);
  }

  /** The corrected count is the number of steps round the ladder, 0 when
      the power is already at its target. */
  lemma PressCountFixedSteps(current: int, target: int)
    requires IsLadder(current) && IsLadder(target)
    ensures var n := PressCountFixed(current, target);
      && 0 <= n <= 3
      && n == (LadderIndex(target) - LadderIndex(current)) % 4
      && AdvanceN(current, n) == target
  {
    var n := PressCountFixed(current, target);
    PressCountIndex(current, target);
    ModFour(LadderIndex(target) - LadderIndex(current));
    AdvanceNIndex(current, n);
    LadderDetermined(AdvanceN(current, n), target);
  }

  /** No fewer presses than the corrected count reach the target. */
  lemma PressCountFixedLeast(current: int, target: int, m: nat)
    requires IsLadder(current) && IsLadder(target)
    requires m < PressCountFixed(current, target)
    ensures AdvanceN(current, m) != target
  {
    PressCountIndex(current, target);
    AdvanceNIndex(current, m);
  }

  /** Both counts in ladder positions. */
  lemma PressCountIndex(current: int, target: int)
    requires IsLadder(current) && IsLadder(target)
    ensures var ci, ti := LadderIndex(current), LadderIndex(target);
      && PressCount(current, target) == (if current < target then ti - ci else 4 - ci + ti)
      && PressCountFixed(current, target) == (if current <= target then ti - ci else 4 - ci + ti)
  {
    var ci, ti := LadderIndex(current), LadderIndex(target);
    Twenties(ti - ci);
    Twenties(3 - ci);
    Twenties(ti + 1);
  }

  lemma Twenties(k: int)
    requires -4 <= k <= 4
    ensures Trunc(20 * k, 20) == k
  {
  }

  /** The two counts differ only when the power is already at its target. */
  lemma PressCountAgreesOffTarget(current: int, target: int)
    ensures current != target ==> PressCount(current, target) == PressCountFixed(current, target)
    ensures current == target ==> PressCountFixed(current, target) == 0
  {
  }

  lemma LadderDetermined(p: int, q: int)
    requires IsLadder(p) && IsLadder(q) && LadderIndex(p) == LadderIndex(q)
    ensures p == q
  {
  }

  /** Zero presses happen only when the set power reads less than one
      ladder step below a target. */
  lemma PressCountZero(current: int, target: int)
    requires current <= 80 && IsLadder(target)
    ensures PressCount(current, target) == 0 <==> current < target < current + 20
  {
  }

  /** `n` presses of one button. */
  function Repeat(cmd: string, n: nat): (r: seq<string>)
    ensures |r| == n && forall k :: 0 <= k < n ==> r[k] == cmd
  {
    if n == 0 then [] else [cmd] + Repeat(cmd, n - 1)
  }

  /** The loop of `set_tx_power`: `n` presses of the same button. */
  function PressRepeatedly(link: Link, sw: Switch, n: nat): (r: Result<Link>)
    ensures r.Ok? ==> r.value.log == link.log + Repeat(Command('P', sw), n)
    decreases n
  {
    if n == 0 then Ok(link)
    else
      var pressed :- Press(link, sw);
      var r := PressRepeatedly(pressed, sw, n - 1);
      assert r.Ok? ==> r.value.log == link.log + ([Command('P', sw)] + Repeat(Command('P', sw), n - 1));
      r
  }

  /** `Toptek.get_errors`: `[""]` when the red LEDs are off, otherwise the
      fault list of the bargraph once it has been caught lit. */
  function GetErrors(link: Link): (r: Result<Answer<seq<string>>>)
    ensures r.Ok? ==> |r.value.value| <= 5
  {
    var got :- GetState(link);
    if !got.value.redEn then Ok(Answer([""], got.link))
    else
      var shown :- GetFlashyBargraph(got.link);
      var errors :- shown.state.Errors();
      Ok(Answer(errors, shown.link))
  }

  /** `get_tx_power`: 0 when the PA is off; otherwise one press of the
      set-power button and the power the flashing bargraph shows. */
  function GetTxPower(link: Link): (r: Result<Answer<int>>)
    ensures r.Ok? ==> 0 <= r.value.value <= 80 && r.value.value % 10 == 0
  {
    var got :- GetState(link);
    if !got.value.txPa then Ok(Answer(0, got.link))
    else
      var pressed :- Press(got.link, SetPwr);
      var shown :- GetFlashyBargraph(pressed);
      var power :- shown.state.Power();
      Ok(Answer(power, shown.link))
  }

  /** `set_tx_power` as written: a target off the ladder is refused before
      any command, a PA that is off is refused after one read, and
      otherwise the press count from the set power read decides the rest. */
  function SetTxPower(link: Link, power: int): (r: Result<Link>)
    ensures !IsLadder(power) ==> r == Err(InvalidSetPower(power))
  {
    SetTxPowerWith(link, power, PressCount)
  }

  /** `set_tx_power` with the corrected press count. */
  function SetTxPowerFixed(link: Link, power: int): (r: Result<Link>)
    ensures !IsLadder(power) ==> r == Err(InvalidSetPower(power))
  {
    SetTxPowerWith(link, power, PressCountFixed)
  }

  function SetTxPowerWith(link: Link, power: int, count: (int, int) -> int): (r: Result<Link>)
    ensures !IsLadder(power) ==> r == Err(InvalidSetPower(power))
  {
    if !IsLadder(power) then Err(InvalidSetPower(power))
    else
      var got :- GetState(link);
      if !got.value.txPa then Err(PaOffCannotSetPower)
      else
        var setPower :- GetTxPower(got.link);
        AdjustPower(setPower.link, power, count(setPower.value, power))
  }

  /** The second half of `set_tx_power`: nothing when the count is zero,
      otherwise one press, `n` more, and the set power read back. */
  function AdjustPower(link: Link, power: int, n: int): (r: Result<Link>)
    ensures n == 0 ==> r == Ok(link)
  {
    if n == 0 then Ok(link)
    else
      var first :- Press(link, SetPwr);
      // `range` of a negative count is empty
      var pressed :- PressRepeatedly(first, SetPwr, if n < 0 then 0 else n);
      CheckPower(pressed, power)
  }

  /** The closing check of `set_tx_power`: the set power read back must be
      the target. */
  function CheckPower(link: Link, power: int): (r: Result<Link>)
    ensures r.Ok? <==> GetTxPower(link).Ok? && GetTxPower(link).value.value == power
    ensures r.Ok? ==> r.value == GetTxPower(link).value.link
    ensures GetTxPower(link).Ok? && GetTxPower(link).value.value != power
      ==> r == Err(PowerNotSet(GetTxPower(link).value.value, power))
  {
    var actual :- GetTxPower(link);
    if actual.value != power then Err(PowerNotSet(actual.value, power))
    else Ok(actual.link)
  }

  /** `get_cur_power`: the power output now, refused when the PA is off or
      the red LEDs are on. */
  function GetCurPower(link: Link): (r: Result<Answer<int>>)
    ensures r.Ok? ==> 0 <= r.value.value <= 80 && r.value.value % 10 == 0
    ensures r.Ok? ==> r.value.link.log == link.log + ["RS"] + ["RA"]
  {
    var got :- GetState(link);
    if !got.value.txPa then Err(AmplifierNotOn)
    else if got.value.redEn then Err(ErrorOrSwrMode)
    else
      var power := got.value.Power().value;
      Ok(Answer(power, got.link))
  }

  /** `get_tx_power` from the outcomes of its reads. */
  lemma GetTxPowerSteps(link: Link, s: ToptekState, mid: Link, pressed: Link, shown: Flashy)
    requires GetState(link) == Ok(Answer(s, mid)) && s.txPa
    requires Press(mid, SetPwr) == Ok(pressed) && GetFlashyBargraph(pressed) == Ok(shown)
    ensures GetTxPower(link) == match shown.state.Power()
      case Ok(p) => Ok(Answer(p, shown.link))
      case Err(e) => Err(e)
  {
  }

  /** Against a device that shows the PA on, echoes the set-power press and
      then shows 40 snapshots while it flashes, `get_tx_power` is the power
      of the snapshot the poll loop stops at. */
  lemma GetTxPowerWire(s: ToptekState, ss: seq<ToptekState>, rest: string, log: seq<string>)
    requires s.txPa && |ss| == Polls
    ensures var r := GetTxPower(Link(StateWire(s) + (Line(Command('P', SetPwr)) + (StatesWire(ss) + rest)), log));
      var k := StopAt(ss);
      && (r.Ok? <==> !ss[k].redEn)
      && (r.Ok? ==> r.value.value == ss[k].Power().value)
      && (r.Err? ==> r.error == RedLedsOn)
  {
    var tail := Line(Command('P', SetPwr)) + (StatesWire(ss) + rest);
    var mid := Link(tail, log + ["RS"] + ["RA"]);
    var pressed := Link(StatesWire(ss) + rest, mid.log + [Command('P', SetPwr)]);
    GetStateWire(s, tail, log);
    CommandEcho('P', SetPwr, StatesWire(ss) + rest, mid.log);
    GetFlashyBargraphWire(ss, rest, pressed.log);
    GetTxPowerSteps(Link(StateWire(s) + tail, log), s, mid, pressed, GetFlashyBargraph(pressed).value);
  }

  /** With the PA off `get_tx_power` is 0 after one read, and presses nothing. */
  lemma GetTxPowerPaOff(link: Link, s: ToptekState, after: Link)
    requires GetState(link) == Ok(Answer(s, after)) && !s.txPa
    ensures GetTxPower(link) == Ok(Answer(0, after))
  {
  }

  /** With the red LEDs off the wrapper answers `[""]` after one read. */
  lemma GetErrorsNoRed(link: Link, s: ToptekState, after: Link)
    requires GetState(link) == Ok(Answer(s, after)) && !s.redEn
    ensures GetErrors(link) == Ok(Answer([""], after))
  {
  }

  lemma GetErrorsSteps(link: Link, s: ToptekState, mid: Link, shown: Flashy)
    requires GetState(link) == Ok(Answer(s, mid)) && s.redEn
    requires GetFlashyBargraph(mid) == Ok(shown)
    ensures GetErrors(link) == match shown.state.Errors()
      case Ok(errors) => Ok(Answer(errors, shown.link))
      case Err(e) => Err(e)
  {
  }

  /** Against a device that shows the red LEDs on and then 40 snapshots while
      it flashes, the wrapper gives the fault list of the snapshot the poll
      loop stops at, and fails when that snapshot has the red LEDs off. */
  lemma GetErrorsWire(s: ToptekState, ss: seq<ToptekState>, rest: string, log: seq<string>)
    requires s.redEn && |ss| == Polls
    ensures var r := GetErrors(Link(StateWire(s) + (StatesWire(ss) + rest), log));
      var k := StopAt(ss);
      && (r.Ok? <==> ss[k].redEn)
      && (r.Ok? ==> r.value.value == ss[k].Errors().value)
      && (r.Err? ==> r.error == NoErrorApparent)
  {
    var tail := StatesWire(ss) + rest;
    var mid := Link(tail, log + ["RS"] + ["RA"]);
    GetStateWire(s, tail, log);
    GetFlashyBargraphWire(ss, rest, mid.log);
    GetErrorsSteps(Link(StateWire(s) + tail, log), s, mid, GetFlashyBargraph(mid).value);
  }

  /** The wrapper's no-error answer `[""]` is never a fault list. */
  lemma BlankIsNoFaultList(t: ToptekState)
    requires t.redEn
    ensures t.Errors().value != [""]
  {
    ErrorsAreFaultNames(t);
    assert "" !in FaultNames;
    assert "" !in t.Errors().value;
  }

  /** What a device that echoes n presses of one button sends. */
  function PressesWire(sw: Switch, n: nat): string {
    if n == 0 then [] else Line(Command('P', sw)) + PressesWire(sw, n - 1)
  }

  /** n presses against a device that echoes them are accepted and logged. */
  lemma PressRepeatedlyWire(sw: Switch, n: nat, rest: string, log: seq<string>)
    ensures PressRepeatedly(Link(PressesWire(sw, n) + rest, log), sw, n)
      == Ok(Link(rest, log + Repeat(Command('P', sw), n)))
  {
    var links := PressLinks(sw, n, rest, log);
    PressLinksScripted(sw, n, rest, log);
    PressRepeatedlyScripted(links, sw, n);
    assert PressesWire(sw, 0) + rest == rest;
  }

  /** The links between the presses of `PressRepeatedlyWire`. */
  function PressLinks(sw: Switch, n: nat, rest: string, log: seq<string>): (links: seq<Link>)
    ensures |links| == n + 1
    ensures forall k :: 0 <= k <= n ==> links[k] == Link(PressesWire(sw, n - k) + rest, log + Repeat(Command('P', sw), k))
  {
    seq(n + 1, k requires 0 <= k <= n => Link(PressesWire(sw, n - k) + rest, log + Repeat(Command('P', sw), k)))
  }

  lemma PressLinksScripted(sw: Switch, n: nat, rest: string, log: seq<string>)
    ensures var links := PressLinks(sw, n, rest, log);
      forall k :: 0 <= k < n ==> Press(links[k], sw) == Ok(links[k + 1])
  {
    var links := PressLinks(sw, n, rest, log);
    forall k | 0 <= k < n
      ensures Press(links[k], sw) == Ok(links[k + 1])
    {
      PressLinkStep(sw, n, k, rest, log);
    }
  }

  lemma PressLinkStep(sw: Switch, n: nat, k: nat, rest: string, log: seq<string>)
    requires k < n
    ensures Press(Link(PressesWire(sw, n - k) + rest, log + Repeat(Command('P', sw), k)), sw)
      == Ok(Link(PressesWire(sw, n - (k + 1)) + rest, log + Repeat(Command('P', sw), k + 1)))
  {
    var cmd := Command('P', sw);
    PressWireStep(sw, n - k, rest, log + Repeat(cmd, k));
    RepeatSnoc(cmd, k);
    assert log + Repeat(cmd, k) + [cmd] == log + Repeat(cmd, k + 1);
  }

  /** One press against a device that echoes it. */
  lemma PressWireStep(sw: Switch, m: nat, rest: string, log: seq<string>)
    requires m > 0
    ensures Press(Link(PressesWire(sw, m) + rest, log), sw)
      == Ok(Link(PressesWire(sw, m - 1) + rest, log + [Command('P', sw)]))
  {
    ConcatAssoc(Line(Command('P', sw)), PressesWire(sw, m - 1), rest);
    CommandEcho('P', sw, PressesWire(sw, m - 1) + rest, log);
  }

  lemma RepeatCons(log: seq<string>, cmd: string, n: nat)
    requires n > 0
    ensures log + [cmd] + Repeat(cmd, n - 1) == log + Repeat(cmd, n)
  {
    assert Repeat(cmd, n) == [cmd] + Repeat(cmd, n - 1);
  }

  lemma RepeatSnoc(cmd: string, k: nat)
    ensures Repeat(cmd, k) + [cmd] == Repeat(cmd, k + 1)
  {
  }

  /** n presses that each succeed, from one link to the next, make the loop
      succeed with the last link. */
  lemma {:induction false} PressRepeatedlyScripted(links: seq<Link>, sw: Switch, n: nat)
    requires |links| == n + 1
    requires forall k :: 0 <= k < n ==> Press(links[k], sw) == Ok(links[k + 1])
    ensures PressRepeatedly(links[0], sw, n) == Ok(links[n])
  {
    if n > 0 {
      assert Press(links[0], sw) == Ok(links[1]);
      PressRepeatedlyStep(links[0], sw, n, links[1]);
      forall k | 0 <= k < n - 1
        ensures Press(links[1..][k], sw) == Ok(links[1..][k + 1])
      {
        assert Press(links[k + 1], sw) == Ok(links[k + 2]);
      }
      PressRepeatedlyScripted(links[1..], sw, n - 1);
    }
  }

  lemma PressRepeatedlyStep(link: Link, sw: Switch, n: nat, next: Link)
    requires n > 0 && Press(link, sw) == Ok(next)
    ensures PressRepeatedly(link, sw, n) == PressRepeatedly(next, sw, n - 1)
  {
  }

  /** A PA that is off is refused after one read, with no press. */
  lemma SetTxPowerPaOff(link: Link, power: int, s: ToptekState, after: Link)
    requires IsLadder(power) && GetState(link) == Ok(Answer(s, after)) && !s.txPa
    ensures SetTxPower(link, power) == Err(PaOffCannotSetPower)
    ensures SetTxPowerFixed(link, power) == Err(PaOffCannotSetPower)
  {
  }

  /** Once the PA is seen on and the set power read, the press count from
      that power decides the rest. */
  lemma SetTxPowerSteps(link: Link, power: int, s: ToptekState, mid: Link, current: int, after: Link)
    requires IsLadder(power) && GetState(link) == Ok(Answer(s, mid)) && s.txPa
    requires GetTxPower(mid) == Ok(Answer(current, after))
    ensures SetTxPower(link, power) == AdjustPower(after, power, PressCount(current, power))
    ensures SetTxPowerFixed(link, power) == AdjustPower(after, power, PressCountFixed(current, power))
  {
  }

  /** A power already at its target: as written four presses follow the
      first, one full cycle; corrected, nothing is pressed. */
  lemma SetTxPowerAtTarget(link: Link, power: int, s: ToptekState, mid: Link, after: Link)
    requires IsLadder(power) && GetState(link) == Ok(Answer(s, mid)) && s.txPa
    requires GetTxPower(mid) == Ok(Answer(power, after))
    ensures SetTxPower(link, power) == AdjustPower(after, power, 4)
    ensures SetTxPowerFixed(link, power) == Ok(after)
  {
    SetTxPowerSteps(link, power, s, mid, power, after);
    PressCountCycles(power, power);
    PressCountFixedSteps(power, power);
  }

  /** Against a device that echoes the first press and n more, the
      adjustment logs 1 + n presses and ends in the closing check. */
  lemma AdjustPowerPresses(power: int, n: nat, rest: string, log: seq<string>)
    requires n > 0
    ensures AdjustPower(Link(PressesWire(SetPwr, n + 1) + rest, log), power, n)
      == CheckPower(Link(rest, log + Repeat(Command('P', SetPwr), n + 1)), power)
  {
    var cmd := Command('P', SetPwr);
    var link := Link(PressesWire(SetPwr, n + 1) + rest, log);
    PressWireStep(SetPwr, n + 1, rest, log);
    PressRepeatedlyWire(SetPwr, n, rest, log + [cmd]);
    RepeatCons(log, cmd, n + 1);
    AdjustPowerSteps(link, power, n, Link(PressesWire(SetPwr, n) + rest, log + [cmd]), Link(rest, log + Repeat(cmd, n + 1)));
  }

  /** The closing check against a device answering `get_tx_power` as in
      `GetTxPowerWire` succeeds exactly when the power shown is the target. */
  lemma CheckPowerWire(power: int, s: ToptekState, ss: seq<ToptekState>, rest: string, log: seq<string>)
    requires s.txPa && |ss| == Polls
    ensures var r := CheckPower(Link(StateWire(s) + (Line(Command('P', SetPwr)) + (StatesWire(ss) + rest)), log), power);
      var k := StopAt(ss);
      && (r.Ok? <==> !ss[k].redEn && ss[k].Power().value == power)
      && (r.Err? ==> r.error == RedLedsOn || (!ss[k].redEn && r.error == PowerNotSet(ss[k].Power().value, power)))
  {
    GetTxPowerWire(s, ss, rest, log);
  }

  lemma AdjustPowerSteps(link: Link, power: int, n: nat, first: Link, pressed: Link)
    requires n > 0 && Press(link, SetPwr) == Ok(first) && PressRepeatedly(first, SetPwr, n) == Ok(pressed)
    ensures AdjustPower(link, power, n) == CheckPower(pressed, power)
  {
  }

  /** `get_cur_power` from the one state it reads. */
  lemma GetCurPowerSteps(link: Link, s: ToptekState, after: Link)
    requires GetState(link) == Ok(Answer(s, after))
    ensures var r := GetCurPower(link);
      && (r.Ok? <==> s.txPa && !s.redEn)
      && (r.Ok? ==> r.value == Answer(s.Power().value, after))
      && (!s.txPa ==> r == Err(AmplifierNotOn))
      && (s.txPa && s.redEn ==> r == Err(ErrorOrSwrMode))
  {
  }
}
