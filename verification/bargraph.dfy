/** `get_flashy_bargraph`: reading the LED bargraph while the amplifier
    flashes it. Time is counted in ticks of the poll delay: a poll every
    tick (`FLASHY_POLL_DELAY` = 0.05 s) and a display window of 40 ticks
    (`FLASHY_TOTAL_DELAY` = 2 s). */
module Bargraph {
  import opened Outcomes
  import opened Snapshots
  import opened Transport

  const PollTicks: nat := 1
  const TotalTicks: nat := 40

  /** `int(FLASHY_TOTAL_DELAY / FLASHY_POLL_DELAY)`: the number of polls. */
  const Polls: nat := TotalTicks / PollTicks

  /** One read of the panel: `get_state` in the driver. */
  type Reader = Link -> Result<Answer<ToptekState>>

  /** The state read, the link after it, how many polls were made and how
      many ticks were slept. */
  datatype Flashy = Flashy(state: ToptekState, link: Link, polls: nat, ticks: nat)

  /** The poll loop from iteration i on: sleep a tick, read the state, and
      once any bargraph LED is lit sleep out the rest of the window and stop. */
  function PollFrom(read: Reader, link: Link, i: nat): (r: Result<Flashy>)
    requires i < Polls
    ensures r.Ok? ==> 1 <= r.value.polls <= Polls - i
    ensures r.Ok? && r.value.state.AnyOn() ==> r.value.ticks == TotalTicks + PollTicks - i
    ensures r.Ok? && !r.value.state.AnyOn() ==> r.value.polls == Polls - i && r.value.ticks == TotalTicks - i
    decreases Polls - i
  {
    var got :- read(link);
    if got.value.AnyOn() then
      Ok(Flashy(got.value, got.link, 1, PollTicks + (TotalTicks - i * PollTicks)))
    else if i + 1 == Polls then
      Ok(Flashy(got.value, got.link, 1, PollTicks))
    else
      var later :- PollFrom(read, got.link, i + 1);
      Ok(later.(polls := later.polls + 1, ticks := later.ticks + PollTicks))
  }

  /** `get_flashy_bargraph`: at most 40 polls; 41 ticks in all when the
      bargraph lights at any poll, 40 when it never does. */
  function GetFlashyBargraph(link: Link): (r: Result<Flashy>)
    ensures r.Ok? ==> 1 <= r.value.polls <= 40
    ensures r.Ok? ==> r.value.ticks == if r.value.state.AnyOn() then 41 else 40
  {
    PollFrom(GetState, link, 0)
  }

  /** Index of the first snapshot with a lit bargraph, -1 when none is lit. */
  function FirstLit(ss: seq<ToptekState>): (k: int)
    ensures -1 <= k < |ss|
    ensures k >= 0 ==> ss[k].AnyOn()
    ensures forall j :: 0 <= j < |ss| && (k < 0 || j < k) ==> !ss[j].AnyOn()
  {
    if |ss| == 0 then -1
    else if ss[0].AnyOn() then 0
    else
      var k := FirstLit(ss[1..]);
      if k < 0 then -1 else k + 1
  }

  /** Index of the poll the loop stops at when the reads show `ss`. */
  function StopAt(ss: seq<ToptekState>): (k: nat)
    requires |ss| > 0
    ensures k < |ss|
  {
    var f := FirstLit(ss);
    if f >= 0 then f else |ss| - 1
  }

  /** A reader that, started on `links[0]`, shows `ss` in turn, each read
      leaving the link the next one starts from. */
  predicate Scripted(read: Reader, links: seq<Link>, ss: seq<ToptekState>) {
    && |links| == |ss| + 1
    && forall k :: 0 <= k < |ss| ==> read(links[k]) == Ok(Answer(ss[k], links[k + 1]))
  }

  /** Against a reader that shows `ss`, the loop returns the first lit
      snapshot after as many polls as it took, or the last snapshot after
      all polls, and leaves the link that read left. */
  lemma {:induction false} PollScripted(read: Reader, links: seq<Link>, ss: seq<ToptekState>, i: nat)
    requires i < Polls && |ss| == Polls - i && Scripted(read, links, ss)
    ensures var r := PollFrom(read, links[0], i); var k := StopAt(ss);
      && r.Ok?
      && r.value.state == ss[k]
      && r.value.polls == k + 1
      && r.value.link == links[k + 1]
    decreases Polls - i
  {
    assert read(links[0]) == Ok(Answer(ss[0], links[1]));
    if ss[0].AnyOn() {
      assert StopAt(ss) == 0;
    } else if i + 1 == Polls {
      assert StopAt(ss) == 0;
    } else {
      assert StopAt(ss) == StopAt(ss[1..]) + 1;
      assert Scripted(read, links[1..], ss[1..]) by {
        forall k | 0 <= k < |ss| - 1
          ensures read(links[1..][k]) == Ok(Answer(ss[1..][k], links[1..][k + 1]))
        {
          assert read(links[k + 1]) == Ok(Answer(ss[k + 1], links[k + 2]));
        }
      }
      PollScripted(read, links[1..], ss[1..], i + 1);
    }
  }

  /** What a device sends while showing the snapshots `ss` in turn, one per
      `get_state`. */
  function StatesWire(ss: seq<ToptekState>): string {
    if |ss| == 0 then [] else StateWire(ss[0]) + StatesWire(ss[1..])
  }

  /** The commands written after k reads of the state. */
  function PollLog(log: seq<string>, k: nat): (r: seq<string>)
    ensures |r| == |log| + 2 * k
  {
    if k == 0 then log else PollLog(log, k - 1) + ["RS"] + ["RA"]
  }

  /** The link before read k of a device that shows `ss`. */
  function WireLink(ss: seq<ToptekState>, rest: string, log: seq<string>, k: nat): Link
    requires k <= |ss|
  {
    Link(StatesWire(ss[k..]) + rest, PollLog(log, k))
  }

  function WireLinks(ss: seq<ToptekState>, rest: string, log: seq<string>): (links: seq<Link>)
    ensures |links| == |ss| + 1
    ensures forall k :: 0 <= k <= |ss| ==> links[k] == WireLink(ss, rest, log, k)
  {
    seq(|ss| + 1, k requires 0 <= k <= |ss| => WireLink(ss, rest, log, k))
  }

  /** Read k of a device that shows `ss` gives snapshot k and leaves the
      link of read k + 1. */
  lemma WireRead(ss: seq<ToptekState>, rest: string, log: seq<string>, k: nat)
    requires k < |ss|
    ensures GetState(WireLink(ss, rest, log, k)) == Ok(Answer(ss[k], WireLink(ss, rest, log, k + 1)))
  {
    assert ss[k..][1..] == ss[k + 1..];
    assert StatesWire(ss[k..]) == StateWire(ss[k]) + StatesWire(ss[k + 1..]);
    ConcatAssoc(StateWire(ss[k]), StatesWire(ss[k + 1..]), rest);
    GetStateWire(ss[k], StatesWire(ss[k + 1..]) + rest, PollLog(log, k));
  }

  /** A device showing `ss` is a scripted reader for `get_state`. */
  lemma WireScripted(ss: seq<ToptekState>, rest: string, log: seq<string>)
    ensures Scripted(GetState, WireLinks(ss, rest, log), ss)
  {
    var links := WireLinks(ss, rest, log);
    forall k | 0 <= k < |ss|
      ensures GetState(links[k]) == Ok(Answer(ss[k], links[k + 1]))
    {
      WireRead(ss, rest, log, k);
    }
  }

  /** `get_flashy_bargraph` against a device showing 40 snapshots, one per
      poll: the first lit snapshot after as many polls as it took, or the
      last one after all 40, with exactly the reads made consumed. */
  lemma GetFlashyBargraphWire(ss: seq<ToptekState>, rest: string, log: seq<string>)
    requires |ss| == Polls
    ensures var r := GetFlashyBargraph(Link(StatesWire(ss) + rest, log)); var k := StopAt(ss);
      && r.Ok?
      && r.value.state == ss[k]
      && r.value.polls == k + 1
      && r.value.link == Link(StatesWire(ss[k + 1..]) + rest, PollLog(log, k + 1))
  {
    var links := WireLinks(ss, rest, log);
    WireScripted(ss, rest, log);
    assert ss[0..] == ss;
    PollScripted(GetState, links, ss, 0);
  }
}
