/** Immutable snapshots of the amplifier's front panel and the views the
    drivers derive from them (`ToptekState`, `ToptekSwitchState`). */
module Snapshots {
  import opened Outcomes
  import opened Switches

  /** Fault names of the red-LED mode, led_10 to led_50 in that order. */
  const FaultNames: seq<string> := ["PA FAIL", "HIGH TEMP", "DC VOLTAGE", "OVERDRIVE", "HIGH SWR"]

  /** Index of the highest true entry, -1 when there is none: the reading of
      a priority-encoded bargraph. */
  function HighestLit(bs: seq<bool>): (k: int)
    ensures -1 <= k < |bs|
    ensures k >= 0 ==> bs[k]
    ensures forall j :: k < j < |bs| ==> !bs[j]
  {
    if |bs| == 0 then -1
    else if bs[|bs| - 1] then |bs| - 1
    else HighestLit(bs[..|bs| - 1])
  }

  lemma HighestLitStep(bs: seq<bool>, n: nat)
    requires n < |bs|
    ensures HighestLit(bs[..n + 1]) == if bs[n] then n else HighestLit(bs[..n])
  {
    assert bs[..n + 1][..n] == bs[..n];
  }

  /** The priority scan of an eight-LED bargraph, from led_80 down. */
  lemma LadderScan(bs: seq<bool>)
    requires |bs| == 8
    ensures HighestLit(bs) ==
      if bs[7] then 7 else if bs[6] then 6 else if bs[5] then 5 else if bs[4] then 4
      else if bs[3] then 3 else if bs[2] then 2 else if bs[1] then 1 else if bs[0] then 0
      else -1
  {
    HighestLitStep(bs, 0);
    HighestLitStep(bs, 1);
    HighestLitStep(bs, 2);
    HighestLitStep(bs, 3);
    HighestLitStep(bs, 4);
    HighestLitStep(bs, 5);
    HighestLitStep(bs, 6);
    HighestLitStep(bs, 7);
    assert bs[..8] == bs;
  }

  /** The names whose flag equals `flag`, in their original order. */
  function Select(flags: seq<bool>, names: seq<string>, flag: bool): (r: seq<string>)
    requires |flags| == |names|
    ensures |r| <= |names|
  {
    if |flags| == 0 then []
    else (if flags[0] == flag then [names[0]] else []) + Select(flags[1..], names[1..], flag)
  }

  lemma SelectStep(flags: seq<bool>, names: seq<string>, flag: bool, i: nat)
    requires |flags| == |names| && i < |flags|
    ensures Select(flags[i..], names[i..], flag)
      == (if flags[i] == flag then [names[i]] else []) + Select(flags[i + 1..], names[i + 1..], flag)
  {
    assert flags[i..][1..] == flags[i + 1..];
    assert names[i..][1..] == names[i + 1..];
  }

  lemma SelectFive(flags: seq<bool>, names: seq<string>, flag: bool)
    requires |flags| == |names| == 5
    ensures Select(flags, names, flag) ==
      (if flags[0] == flag then [names[0]] else [])
      + ((if flags[1] == flag then [names[1]] else [])
      + ((if flags[2] == flag then [names[2]] else [])
      + ((if flags[3] == flag then [names[3]] else [])
      + (if flags[4] == flag then [names[4]] else []))))
  {
    var e4 := if flags[4] == flag then [names[4]] else [];
    SelectStep(flags, names, flag, 4);
    assert flags[5..] == [] && names[5..] == [];
    assert Select(flags[4..], names[4..], flag) == e4 + [] == e4;
    SelectStep(flags, names, flag, 3);
    SelectStep(flags, names, flag, 2);
    SelectStep(flags, names, flag, 1);
    SelectStep(flags, names, flag, 0);
    assert flags[0..] == flags && names[0..] == names;
  }

  /** With distinct names, a name is selected exactly when its flag matches. */
  lemma {:induction false} SelectMembership(flags: seq<bool>, names: seq<string>, flag: bool, k: nat)
    requires |flags| == |names| && k < |names|
    requires forall i, j :: 0 <= i < j < |names| ==> names[i] != names[j]
    ensures names[k] in Select(flags, names, flag) <==> flags[k] == flag
  {
    var r := Select(flags, names, flag);
    var tail := Select(flags[1..], names[1..], flag);
    assert r == (if flags[0] == flag then [names[0]] else []) + tail;
    if k == 0 {
      if names[0] in tail {
        SelectOnlyNames(flags[1..], names[1..], flag, names[0]);
      }
    } else {
      SelectMembership(flags[1..], names[1..], flag, k - 1);
    }
  }

  lemma {:induction false} SelectOnlyNames(flags: seq<bool>, names: seq<string>, flag: bool, x: string)
    requires |flags| == |names|
    requires x in Select(flags, names, flag)
    ensures x in names
  {
    if |flags| > 0 {
      var tail := Select(flags[1..], names[1..], flag);
      if x != names[0] {
        assert x in tail;
        SelectOnlyNames(flags[1..], names[1..], flag, x);
      }
    }
  }

  /** The twelve LED flags of the RA register plus the DA's SWR flag. */
  datatype ToptekState = ToptekState(
    led10: bool, led20: bool, led30: bool, led40: bool,
    led50: bool, led60: bool, led70: bool, led80: bool,
    redEn: bool, lnaOn: bool, txPa: bool, ssbOn: bool,
    daSwr: bool)
  {
    /** The eight bargraph LEDs, led_10 first. */
    function Ladder(): (r: seq<bool>)
      ensures |r| == 8
    {
      [led10, led20, led30, led40, led50, led60, led70, led80]
    }

    /** Flag i of the RA register order: led_10 ... led_80, then red_en,
        lna_on, tx_pa and ssb_on. */
    function Led(i: nat): bool
      requires i < 12
    {
      match i
      case 0 => led10 case 1 => led20 case 2 => led30 case 3 => led40
      case 4 => led50 case 5 => led60 case 6 => led70 case 7 => led80
      case 8 => redEn case 9 => lnaOn case 10 => txPa case _ => ssbOn
    }

    /** The twelve register flags in bit order. */
    function Register(): (r: seq<bool>)
      ensures |r| == 12 && forall i :: 0 <= i < 12 ==> r[i] == Led(i)
    {
      seq(12, i requires 0 <= i < 12 => Led(i))
    }

    /** `get_power`: refused in red-LED mode, otherwise ten watts per step of
        the highest lit bargraph LED, 0 when none is lit. */
    function Power(): (r: Result<int>)
      ensures r.Err? <==> redEn
      ensures r.Err? ==> r.error == RedLedsOn
      ensures r.Ok? ==> 0 <= r.value <= 80 && r.value % 10 == 0
    {
      if redEn then Err(RedLedsOn)
      else if led80 then Ok(80)
      else if led70 then Ok(70)
      else if led60 then Ok(60)
      else if led50 then Ok(50)
      else if led40 then Ok(40)
      else if led30 then Ok(30)
      else if led20 then Ok(20)
      else if led10 then Ok(10)
      else Ok(0)
    }

    /** `get_swr` in tenths: the highest lit LED reads 1.2 (led_10) to 1.9
        (led_80), none lit reads 1.0; red-LED mode does not matter. */
    function Swr(): (r: int)
      ensures 10 <= r <= 19 && r != 11
    {
      if led80 then 19
      else if led70 then 18
      else if led60 then 17
      else if led50 then 16
      else if led40 then 15
      else if led30 then 14
      else if led20 then 13
      else if led10 then 12
      else 10
    }

    /** `get_errors`: refused unless red-LED mode is on; then the faults whose
        LED is dark, in the order of `FaultNames`. */
    function Errors(): (r: Result<seq<string>>)
      ensures r.Err? <==> !redEn
      ensures r.Err? ==> r.error == NoErrorApparent
      ensures r.Ok? ==> |r.value| <= 5
    {
      if !redEn then Err(NoErrorApparent)
      else Ok(
        (if !led10 then ["PA FAIL"] else [])
        + ((if !led20 then ["HIGH TEMP"] else [])
        + ((if !led30 then ["DC VOLTAGE"] else [])
        + ((if !led40 then ["OVERDRIVE"] else [])
        + (if !led50 then ["HIGH SWR"] else [])))))
    }

    /** `any_on`: some bargraph LED is lit. */
    predicate AnyOn() {
      led80 || led70 || led60 || led50 || led40 || led30 || led20 || led10
    }
  }

  /** The power view is the priority reading of the bargraph. */
  lemma PowerIsHighestLit(s: ToptekState)
    requires !s.redEn
    ensures s.Power().value == 10 * (HighestLit(s.Ladder()) + 1)
  {
    LadderScan(s.Ladder());
  }

  /** The SWR view is the priority reading of the bargraph on the SWR scale. */
  lemma SwrIsHighestLit(s: ToptekState)
    ensures var k := HighestLit(s.Ladder()); s.Swr() == if k < 0 then 10 else 12 + k
  {
    LadderScan(s.Ladder());
  }

  /** Some bargraph LED is lit exactly when the priority reading finds one. */
  lemma AnyOnIsHighestLit(s: ToptekState)
    ensures s.AnyOn() <==> HighestLit(s.Ladder()) >= 0
  {
    LadderScan(s.Ladder());
  }

  /** The fault list selects the dark LEDs among the first five. */
  lemma ErrorsAreSelected(s: ToptekState)
    requires s.redEn
    ensures s.Errors().value == Select(s.Ladder()[..5], FaultNames, false)
  {
    SelectFive(s.Ladder()[..5], FaultNames, false);
  }

  /** The fault list names a fault exactly when its LED is dark. */
  lemma ErrorsAreDarkFaults(s: ToptekState, k: nat)
    requires s.redEn && k < 5
    ensures FaultNames[k] in s.Errors().value <==> !s.Ladder()[k]
  {
    ErrorsAreSelected(s);
    SelectMembership(s.Ladder()[..5], FaultNames, false, k);
  }

  /** The fault list holds fault names only. */
  lemma ErrorsAreFaultNames(s: ToptekState)
    requires s.redEn
    ensures forall e :: e in s.Errors().value ==> e in FaultNames
  {
    ErrorsAreSelected(s);
    forall e | e in s.Errors().value
      ensures e in FaultNames
    {
      SelectOnlyNames(s.Ladder()[..5], FaultNames, false, e);
    }
  }

  /** led_60 to led_80 take no part in the fault list. */
  lemma ErrorsIgnoreUpperLadder(s: ToptekState, t: ToptekState)
    requires s.Ladder()[..5] == t.Ladder()[..5] && s.redEn == t.redEn
    ensures s.Errors() == t.Errors()
  {
    assert s.Ladder()[..5][0] == t.Ladder()[..5][0] && s.Ladder()[..5][1] == t.Ladder()[..5][1];
    assert s.Ladder()[..5][2] == t.Ladder()[..5][2] && s.Ladder()[..5][3] == t.Ladder()[..5][3];
    assert s.Ladder()[..5][4] == t.Ladder()[..5][4];
  }

  /** Outside red-LED mode the bargraph is lit exactly when the power view is
      nonzero, and the SWR view is the power view read on the other scale. */
  lemma PowerSwrAnyOnAgree(s: ToptekState)
    requires !s.redEn
    ensures s.AnyOn() <==> s.Power().value != 0
    ensures s.Swr() == if s.Power().value == 0 then 10 else 11 + s.Power().value / 10
  {
  }

  /** The six button flags of a switch snapshot. */
  datatype ToptekSwitchState = ToptekSwitchState(
    swSsbOn: bool, swTxPa: bool, swSetPwr: bool,
    swRxLna: bool, swShowSwr: bool, swDaOn: bool)
  {
    /** Bit i of the firmware's switch register (`SWITCH_*`); bit 1 holds
        no button. */
    function RegisterFlag(i: nat): bool
      requires i < 6
    {
      match i
      case 0 => swShowSwr case 1 => false case 2 => swSetPwr
      case 3 => swRxLna case 4 => swSsbOn case _ => swTxPa
    }

    /** The six switch register bits, least significant first. */
    function Register(): (r: seq<bool>)
      ensures |r| == 6 && forall i :: 0 <= i < 6 ==> r[i] == RegisterFlag(i)
    {
      seq(6, i requires 0 <= i < 6 => RegisterFlag(i))
    }

    /** The flag of one button. */
    function Flag(sw: Switch): bool {
      match sw
      case SsbOn => swSsbOn
      case TxPa => swTxPa
      case SetPwr => swSetPwr
      case RxLna => swRxLna
      case ShowSwr => swShowSwr
      case DaEn => swDaOn
    }
  }
}
