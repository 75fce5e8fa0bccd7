/** Bit layouts of the two raw registers and their decoding into snapshots:
    the LED register read with `RA` and the switch register. */
module Registers {
  import opened Bits
  import opened Switches
  import opened Snapshots

  /** The LED snapshot of an RA register value and the DA's SWR flag. */
  function DecodeLeds(daSwr: bool, ra: int): ToptekState
  {
    ToptekState(
      Bit(ra, 0), Bit(ra, 1), Bit(ra, 2), Bit(ra, 3),
      Bit(ra, 4), Bit(ra, 5), Bit(ra, 6), Bit(ra, 7),
      Bit(ra, 8), Bit(ra, 9), Bit(ra, 10), Bit(ra, 11),
      daSwr)
  }

  /** Flag i of the decoded snapshot, in register order, is bit i of RA. */
  lemma DecodeLedsBit(daSwr: bool, ra: int, i: nat)
    requires i < 12
    ensures DecodeLeds(daSwr, ra).Led(i) == Bit(ra, i)
  {
  }

  /** The register value that shows a snapshot's twelve LED flags. */
  function EncodeLeds(s: ToptekState): (ra: nat)
    ensures ra < 4096
  {
    assert Pow2(12) == 4096;
    FromBits(s.Register())
  }

  /** Bit i of the encoded register is flag i of the register order; the
      bits above are clear. */
  lemma EncodeLedsBit(s: ToptekState, i: nat)
    ensures Bit(EncodeLeds(s), i) == (i < 12 && s.Led(i))
  {
    BitOfFromBits(s.Register(), i);
  }

  /** Decoding inverts encoding: every snapshot survives the register. */
  lemma DecodeEncodeLeds(s: ToptekState)
    ensures DecodeLeds(s.daSwr, EncodeLeds(s)) == s
  {
    var t := DecodeLeds(s.daSwr, EncodeLeds(s));
    forall i | 0 <= i < 12
      ensures t.Led(i) == s.Led(i)
    {
      DecodeLedsBit(s.daSwr, EncodeLeds(s), i);
      EncodeLedsBit(s, i);
    }
    LedsDetermine(t, s);
  }

  /** Encoding inverts decoding on 12-bit values. */
  lemma EncodeDecodeLeds(daSwr: bool, ra: int)
    requires 0 <= ra < 4096
    ensures EncodeLeds(DecodeLeds(daSwr, ra)) == ra
  {
    var s := DecodeLeds(daSwr, ra);
    forall i | 0 <= i < 12
      ensures Bit(EncodeLeds(s), i) == Bit(ra, i)
    {
      DecodeLedsBit(daSwr, ra, i);
      EncodeLedsBit(s, i);
    }
    assert Pow2(12) == 4096;
    BitsDetermine(EncodeLeds(s), ra, 12);
  }

  /** Bits 12 and above of the RA value are ignored. */
  lemma DecodeLedsIgnoresHighBits(daSwr: bool, ra: int)
    ensures DecodeLeds(daSwr, ra) == DecodeLeds(daSwr, ra % 4096)
  {
    assert Pow2(12) == 4096;
    forall i | 0 <= i < 12
      ensures DecodeLeds(daSwr, ra).Led(i) == DecodeLeds(daSwr, ra % 4096).Led(i)
    {
      DecodeLedsBit(daSwr, ra, i);
      DecodeLedsBit(daSwr, ra % 4096, i);
      BitMod(ra, 12, i);
    }
    LedsDetermine(DecodeLeds(daSwr, ra), DecodeLeds(daSwr, ra % 4096));
  }

  /** Two snapshots that agree on every register flag and the SWR flag are equal. */
  lemma LedsDetermine(s: ToptekState, t: ToptekState)
    requires forall i :: 0 <= i < 12 ==> s.Led(i) == t.Led(i)
    requires s.daSwr == t.daSwr
    ensures s == t
  {
    LedsAgreeFrom(s, t, 0);
    LedsAgreeFrom(s, t, 4);
    LedsAgreeFrom(s, t, 8);
  }

  lemma LedsAgreeFrom(s: ToptekState, t: ToptekState, k: nat)
    requires k == 0 || k == 4 || k == 8
    requires forall i :: 0 <= i < 12 ==> s.Led(i) == t.Led(i)
    ensures k == 0 ==> s.led10 == t.led10 && s.led20 == t.led20 && s.led30 == t.led30 && s.led40 == t.led40
    ensures k == 4 ==> s.led50 == t.led50 && s.led60 == t.led60 && s.led70 == t.led70 && s.led80 == t.led80
    ensures k == 8 ==> s.redEn == t.redEn && s.lnaOn == t.lnaOn && s.txPa == t.txPa && s.ssbOn == t.ssbOn
  {
    assert s.Led(k) == t.Led(k);
    assert s.Led(k + 1) == t.Led(k + 1);
    assert s.Led(k + 2) == t.Led(k + 2);
    assert s.Led(k + 3) == t.Led(k + 3);
  }

  /** Two numbers of w bits that agree on every bit are equal. */
  lemma {:induction false} BitsDetermine(a: int, b: int, w: nat)
    requires 0 <= a < Pow2(w) && 0 <= b < Pow2(w)
    requires forall i :: 0 <= i < w ==> Bit(a, i) == Bit(b, i)
    ensures a == b
  {
    if w > 0 {
      forall i | 0 <= i < w - 1
        ensures Bit(a / 2, i) == Bit(b / 2, i)
      {
        assert Bit(a, i + 1) == Bit(b, i + 1);
      }
      BitsDetermine(a / 2, b / 2, w - 1);
      assert Bit(a, 0) == Bit(b, 0);
    }
  }

  /** The switch snapshot of a switch register value and a DA flag: each
      button is read from the bit the firmware keeps it in. */
  function DecodeSwitches(daOn: bool, reg: int): (s: ToptekSwitchState)
    ensures forall sw :: sw != DaEn ==> s.Flag(sw) == Bit(reg, RegisterBit(sw))
    ensures s.swDaOn == daOn
  {
    ToptekSwitchState(Bit(reg, 4), Bit(reg, 5), Bit(reg, 2), Bit(reg, 3), Bit(reg, 0), daOn)
  }

  /** The register value that shows a switch snapshot's five button flags. */
  function EncodeSwitches(s: ToptekSwitchState): (reg: nat)
    ensures reg < 64
  {
    assert Pow2(6) == 64;
    FromBits(s.Register())
  }

  /** Every button but the DA enable sits at its register bit. */
  lemma RegisterFlagIsFlag(s: ToptekSwitchState, sw: Switch)
    requires sw != DaEn
    ensures s.RegisterFlag(RegisterBit(sw)) == s.Flag(sw)
  {
  }

  /** Register bit i of the decoded snapshot is bit i of the value, except
      the unused bit 1. */
  lemma DecodeSwitchesBit(daOn: bool, reg: int, i: nat)
    requires i < 6 && i != 1
    ensures DecodeSwitches(daOn, reg).RegisterFlag(i) == Bit(reg, i)
  {
  }

  /** Decoding inverts encoding for switch snapshots. */
  lemma DecodeEncodeSwitches(s: ToptekSwitchState)
    ensures DecodeSwitches(s.swDaOn, EncodeSwitches(s)) == s
  {
    var t := DecodeSwitches(s.swDaOn, EncodeSwitches(s));
    forall sw | sw != DaEn
      ensures t.Flag(sw) == s.Flag(sw)
    {
      BitOfFromBits(s.Register(), RegisterBit(sw));
      RegisterFlagIsFlag(s, sw);
    }
    assert t.Flag(SsbOn) == s.Flag(SsbOn) && t.Flag(TxPa) == s.Flag(TxPa) && t.Flag(SetPwr) == s.Flag(SetPwr);
    assert t.Flag(RxLna) == s.Flag(RxLna) && t.Flag(ShowSwr) == s.Flag(ShowSwr);
  }

  /** Encoding inverts decoding on six-bit switch registers whose unused bit 1
      is clear. */
  lemma EncodeDecodeSwitches(daOn: bool, reg: int)
    requires 0 <= reg < 64 && !Bit(reg, 1)
    ensures EncodeSwitches(DecodeSwitches(daOn, reg)) == reg
  {
    var s := DecodeSwitches(daOn, reg);
    forall i | 0 <= i < 6
      ensures Bit(EncodeSwitches(s), i) == Bit(reg, i)
    {
      BitOfFromBits(s.Register(), i);
      if i != 1 {
        DecodeSwitchesBit(daOn, reg, i);
      }
    }
    assert Pow2(6) == 64;
    BitsDetermine(EncodeSwitches(s), reg, 6);
  }
}
