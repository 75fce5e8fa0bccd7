/** The host's view of the serial line (`Toptek.readline/write/query` and the
    commands built on them).

    The line is modelled functionally: a `Link` holds the characters the
    device has still to send (`rx`, decided in advance, as an oracle) and
    the commands the host has written so far (`log`). Every operation takes
    a link and gives back the link after it, so a run of the driver is a
    chain of links. The port settings, the sleeps and the logging are not
    modelled; a read that finds no line end within the timeout returns
    what has arrived, which is what pyserial's `readline` does. */
module Transport {
  import opened Outcomes
  import opened Text
  import opened Switches
  import opened Snapshots
  import opened Registers

  datatype Link = Link(rx: string, log: seq<string>)

  /** A value read from the device together with the link after the read. */
  datatype Answer<T> = Answer(value: T, link: Link)

  /** Length of the first line of `rx`, its line feed included; all of `rx`
      when no line feed has arrived. */
  function LineEnd(rx: string): (n: nat)
    ensures n <= |rx|
  {
    if |rx| == 0 then 0
    else if rx[0] == '\n' then 1
    else 1 + LineEnd(rx[1..])
  }

  /** The first line ends at the first line feed, or runs to the end of
      what has arrived when there is none. */
  lemma {:induction false} LineEndFirstFeed(rx: string)
    ensures var n := LineEnd(rx);
      && (forall j :: 0 <= j < n - 1 ==> rx[j] != '\n')
      && ((0 < n && rx[n - 1] == '\n') || (n == |rx| && '\n' !in rx))
  {
    if |rx| > 0 && rx[0] != '\n' {
      LineEndFirstFeed(rx[1..]);
      assert forall j :: 1 <= j < |rx| ==> rx[j] == rx[1..][j - 1];
    }
  }

  /** `readline`: one line, decoded and stripped. */
  function ReadLine(link: Link): (r: Answer<string>)
    ensures r.link.log == link.log
    ensures |link.rx| > 0 ==> |r.link.rx| < |link.rx|
    ensures Trimmed(r.value)
  {
    var n := LineEnd(link.rx);
    Answer(Strip(link.rx[..n]), link.(rx := link.rx[n..]))
  }

  /** A read that finds nothing before the timeout yields the empty line. */
  lemma ReadLineTimeout(log: seq<string>)
    ensures ReadLine(Link([], log)) == Answer([], Link([], log))
  {
  }

  /** A println'd line is read back as its text, and the rest of the stream
      is left for the next read. */
  lemma ReadLineWire(text: string, rest: string, log: seq<string>)
    requires Trimmed(text) && '\n' !in text
    ensures ReadLine(Link(Line(text) + rest, log)) == Answer(text, Link(rest, log))
  {
    var rx := Line(text) + rest;
    LineEndOf(text, rest);
    assert rx[..|text| + 2] == Line(text);
    assert rx[|text| + 2..] == rest;
    StripLine(text);
  }

  lemma {:induction false} LineEndOf(text: string, rest: string)
    requires '\n' !in text
    ensures LineEnd(Line(text) + rest) == |text| + 2
  {
    var rx := Line(text) + rest;
    if |text| == 0 {
      assert rx[0] == '\r' && rx[1..] == "\n" + rest;
    } else {
      assert rx[0] == text[0];
      assert rx[1..] == Line(text[1..]) + rest;
      LineEndOf(text[1..], rest);
    }
  }

  /** `write`: send the command, then read its echo; anything but the
      command itself is an invalid response. */
  function Write(link: Link, cmd: string): (r: Result<Link>)
    ensures r.Ok? ==> r.value.log == link.log + [cmd]
    ensures r.Err? ==> r.error.InvalidResponse? && r.error.line != cmd
    ensures var echo := ReadLine(link.(log := link.log + [cmd]));
      && (r.Ok? <==> echo.value == cmd)
      && (r.Ok? ==> r.value == echo.link)
      && (r.Err? ==> r.error == InvalidResponse(echo.value))
  {
    var echo := ReadLine(link.(log := link.log + [cmd]));
    if echo.value != cmd then Err(InvalidResponse(echo.value))
    else Ok(echo.link)
  }

  /** `query`: a write followed by one more line, the answer. */
  function Query(link: Link, cmd: string): (r: Result<Answer<string>>)
    ensures r.Ok? ==> r.value.link.log == link.log + [cmd]
    ensures r.Err? ==> r.error.InvalidResponse?
    ensures Write(link, cmd).Err? ==> r == Err(Write(link, cmd).error)
    ensures Write(link, cmd).Ok? ==> r == Ok(ReadLine(Write(link, cmd).value))
  {
    var after :- Write(link, cmd);
    Ok(ReadLine(after))
  }

  /** What the firmware sends for one command whose output is one line:
      the echoed command, the empty line of `processCommand`, the answer. */
  function QueryWire(cmd: string, answer: string): string {
    Line(cmd) + Line(answer)
  }

  /** A device that echoes a command is written to successfully. */
  lemma WriteEcho(cmd: string, rest: string, log: seq<string>)
    requires Trimmed(cmd) && '\n' !in cmd
    ensures Write(Link(Line(cmd) + rest, log), cmd) == Ok(Link(rest, log + [cmd]))
  {
    ReadLineWire(cmd, rest, log + [cmd]);
  }

  /** A device that echoes any other line is refused, and the refusal
      carries the line it sent. */
  lemma WriteBadEcho(cmd: string, other: string, rest: string, log: seq<string>)
    requires Trimmed(other) && '\n' !in other && other != cmd
    ensures Write(Link(Line(other) + rest, log), cmd) == Err(InvalidResponse(other))
  {
    ReadLineWire(other, rest, log + [cmd]);
  }

  /** A device that answers one line after the echo gives that line to the
      query. */
  lemma QueryWireAnswer(cmd: string, answer: string, rest: string, log: seq<string>)
    requires Trimmed(cmd) && '\n' !in cmd
    requires Trimmed(answer) && '\n' !in answer
    ensures Query(Link(QueryWire(cmd, answer) + rest, log), cmd)
      == Ok(Answer(answer, Link(rest, log + [cmd])))
  {
    ConcatAssoc(Line(cmd), Line(answer), rest);
    WriteEcho(cmd, Line(answer) + rest, log);
    ReadLineWire(answer, rest, log + [cmd]);
  }

  /** `Toptek(port)`: the first line must be the firmware's banner. */
  function Open(link: Link): (r: Result<Link>)
    ensures r.Ok? <==> ReadLine(link).value == Banner
    ensures r.Ok? ==> r.value == ReadLine(link).link
    ensures r.Err? ==> r.error == InvalidWelcome
  {
    var first := ReadLine(link);
    if first.value != Banner then Err(InvalidWelcome) else Ok(first.link)
  }

  /** The line the firmware prints at start-up. */
  const Banner: string := "Toptek Switch Interface"

  /** `switch_on`: hold a button down. */
  function SwitchOn(link: Link, sw: Switch): (r: Result<Link>)
    ensures r.Ok? ==> r.value.log == link.log + [Command('S', sw)]
  {
    Write(link, Command('S', sw))
  }

  /** `switch_off`: release a button. */
  function SwitchOff(link: Link, sw: Switch): (r: Result<Link>)
    ensures r.Ok? ==> r.value.log == link.log + [Command('U', sw)]
  {
    Write(link, Command('U', sw))
  }

  /** `press`: one press of one keyboard-scan cycle, left to the firmware. */
  function Press(link: Link, sw: Switch): (r: Result<Link>)
    ensures r.Ok? ==> r.value.log == link.log + [Command('P', sw)]
  {
    Write(link, Command('P', sw))
  }

  /** `press_manual`, and the legacy driver's `press`: hold, then release,
      the same button. */
  function PressManual(link: Link, sw: Switch): (r: Result<Link>)
    ensures r.Ok? ==> r.value.log == link.log + [Command('S', sw)] + [Command('U', sw)]
  {
    var held :- SwitchOn(link, sw);
    var released :- SwitchOff(held, sw);
    Ok(released)
  }

  /** `get_switch`: the truth value of the raw answer string, so any
      non-empty answer, "0" included, reads as pressed. */
  function GetSwitch(link: Link, sw: Switch): (r: Result<Answer<bool>>)
    ensures r.Ok? ==> r.value.link.log == link.log + [Command('R', sw)]
  {
    var reply :- Query(link, Command('R', sw));
    Ok(Answer(reply.value != [], reply.link))
  }

  /** `get_switch` read as a number, as the firmware's "0"/"1" answer means. */
  function GetSwitchNumeric(link: Link, sw: Switch): (r: Result<Answer<bool>>)
    ensures r.Ok? ==> r.value.link.log == link.log + [Command('R', sw)]
  {
    var reply :- Query(link, Command('R', sw));
    var n :- ParseInt(reply.value, 10);
    Ok(Answer(n != 0, reply.link))
  }

  /** Against a device that answers a switch read with a printed 0 or 1,
      `get_switch` reports the switch pressed whatever the answer, while
      the numeric reading reports it pressed exactly for 1. */
  lemma GetSwitchWire(sw: Switch, v: nat, rest: string, log: seq<string>)
    requires v < 2
    ensures GetSwitch(Link(QueryWire(Command('R', sw), FormatHex(v)) + rest, log), sw)
      == Ok(Answer(true, Link(rest, log + [Command('R', sw)])))
    ensures GetSwitchNumeric(Link(QueryWire(Command('R', sw), FormatHex(v)) + rest, log), sw)
      == Ok(Answer(v == 1, Link(rest, log + [Command('R', sw)])))
  {
    CommandWord('R', sw);
    HexWireLine(v);
    QueryWireAnswer(Command('R', sw), FormatHex(v), rest, log);
    ParseFormatSmall(v);
  }

  /** `enable`: the firmware must answer "Remote keys enabled". */
  function Enable(link: Link): (r: Result<Link>)
    ensures r.Ok? <==> Query(link, "EN").Ok? && Query(link, "EN").value.value == EnabledReply
    ensures r.Ok? ==> r.value.log == link.log + ["EN"]
    ensures r.Err? ==> r.error.InvalidResponse? || r.error == EnableFailed
  {
    var reply :- Query(link, "EN");
    if reply.value != EnabledReply then Err(EnableFailed) else Ok(reply.link)
  }

  const EnabledReply: string := "Remote keys enabled"
  const DisabledReply: string := "Remote keys disabled"

  /** `disable`: the firmware must answer "Remote keys disabled". */
  function Disable(link: Link): (r: Result<Link>)
    ensures r.Ok? <==> Query(link, "DS").Ok? && Query(link, "DS").value.value == DisabledReply
    ensures r.Ok? ==> r.value.log == link.log + ["DS"]
    ensures r.Err? ==> r.error.InvalidResponse? || r.error == DisableFailed
  {
    var reply :- Query(link, "DS");
    if reply.value != DisabledReply then Err(DisableFailed) else Ok(reply.link)
  }

  /** Against a device that echoes `EN` and answers `reply`, `enable`
      succeeds exactly when the reply is the enabled line. */
  lemma EnableWire(reply: string, rest: string, log: seq<string>)
    requires Trimmed(reply) && '\n' !in reply
    ensures Enable(Link(QueryWire("EN", reply) + rest, log))
      == if reply == EnabledReply then Ok(Link(rest, log + ["EN"])) else Err(EnableFailed)
  {
    OneLineWord("EN");
    QueryWireAnswer("EN", reply, rest, log);
  }

  /** Against a device that echoes `DS` and answers `reply`, `disable`
      succeeds exactly when the reply is the disabled line. */
  lemma DisableWire(reply: string, rest: string, log: seq<string>)
    requires Trimmed(reply) && '\n' !in reply
    ensures Disable(Link(QueryWire("DS", reply) + rest, log))
      == if reply == DisabledReply then Ok(Link(rest, log + ["DS"])) else Err(DisableFailed)
  {
    OneLineWord("DS");
    QueryWireAnswer("DS", reply, rest, log);
  }

  /** `get_state`: the DA's SWR flag from `RS` read as a decimal, then the
      LED register from `RA` read as hex. */
  function GetState(link: Link): (r: Result<Answer<ToptekState>>)
    ensures r.Ok? ==> r.value.link.log == link.log + ["RS"] + ["RA"]
    ensures r.Err? ==> r.error.IsLinkError()
  {
    var da :- Query(link, "RS");
    var daValue :- ParseInt(da.value, 10);
    var ra :- Query(da.link, "RA");
    var raValue :- ParseInt(ra.value, 16);
    Ok(Answer(DecodeLeds(daValue != 0, raValue), ra.link))
  }

  /** What a device showing snapshot `s` sends for the two queries of
      `get_state`. */
  function StateWire(s: ToptekState): string {
    QueryWire("RS", FormatHex(if s.daSwr then 1 else 0)) + QueryWire("RA", FormatHex(EncodeLeds(s)))
  }

  /** Reading the state of a device that shows `s` gives `s` back. */
  lemma GetStateWire(s: ToptekState, rest: string, log: seq<string>)
    ensures GetState(Link(StateWire(s) + rest, log)) == Ok(Answer(s, Link(rest, log + ["RS"] + ["RA"])))
  {
    var daFlag := if s.daSwr then 1 else 0;
    HexWireLine(daFlag);
    HexWireLine(EncodeLeds(s));
    ParseFormatSmall(daFlag);
    ParseFormatHex(EncodeLeds(s));
    ConcatAssoc(QueryWire("RS", FormatHex(daFlag)), QueryWire("RA", FormatHex(EncodeLeds(s))), rest);
    GetStateAnswers(FormatHex(daFlag), daFlag, FormatHex(EncodeLeds(s)), EncodeLeds(s), rest, log);
    DecodeEncodeLeds(s);
  }

  /** `get_state` of a device that answers `da` to `RS` and `ra` to `RA`. */
  lemma GetStateAnswers(da: string, daValue: int, ra: string, raValue: int, rest: string, log: seq<string>)
    requires Trimmed(da) && '\n' !in da && ParseInt(da, 10) == Ok(daValue)
    requires Trimmed(ra) && '\n' !in ra && ParseInt(ra, 16) == Ok(raValue)
    ensures GetState(Link(QueryWire("RS", da) + (QueryWire("RA", ra) + rest), log))
      == Ok(Answer(DecodeLeds(daValue != 0, raValue), Link(rest, log + ["RS"] + ["RA"])))
  {
    var mid := QueryWire("RA", ra) + rest;
    OneLineWord("RS");
    OneLineWord("RA");
    QueryWireAnswer("RS", da, mid, log);
    QueryWireAnswer("RA", ra, rest, log + ["RS"]);
    GetStateSteps(Link(QueryWire("RS", da) + mid, log), da, daValue, Link(mid, log + ["RS"]), ra, raValue, Link(rest, log + ["RS"] + ["RA"]));
  }

  /** `get_state` from the outcomes of its two queries and two parses. */
  lemma GetStateSteps(link: Link, da: string, daValue: int, mid: Link, ra: string, raValue: int, last: Link)
    requires Query(link, "RS") == Ok(Answer(da, mid)) && ParseInt(da, 10) == Ok(daValue)
    requires Query(mid, "RA") == Ok(Answer(ra, last)) && ParseInt(ra, 16) == Ok(raValue)
    ensures GetState(link) == Ok(Answer(DecodeLeds(daValue != 0, raValue), last))
  {
  }

  /** A two-letter command word is a line of its own. */
  lemma OneLineWord(w: string)
    requires |w| == 2 && 'A' <= w[0] <= 'Z' && ('A' <= w[1] <= 'Z' || '0' <= w[1] <= '9')
    ensures Trimmed(w) && '\n' !in w
  {
  }

  /** A switch command is a line of its own. */
  lemma CommandWord(letter: char, sw: Switch)
    requires 'A' <= letter <= 'Z'
    ensures Trimmed(Command(letter, sw)) && '\n' !in Command(letter, sw)
  {
    OneLineWord(Command(letter, sw));
  }

  /** A device that echoes a switch command accepts it. */
  lemma CommandEcho(letter: char, sw: Switch, rest: string, log: seq<string>)
    requires 'A' <= letter <= 'Z'
    ensures Write(Link(Line(Command(letter, sw)) + rest, log), Command(letter, sw))
      == Ok(Link(rest, log + [Command(letter, sw)]))
  {
    CommandWord(letter, sw);
    WriteEcho(Command(letter, sw), rest, log);
  }

  lemma ConcatAssoc(a: string, b: string, c: string)
    ensures (a + b) + c == a + (b + c)
  {
  }

  /** Hex numbers are one-line answers. */
  lemma HexWireLine(n: nat)
    ensures Trimmed(FormatHex(n)) && '\n' !in FormatHex(n)
  {
    var h := FormatHex(n);
    assert !IsSpace(h[0]) && !IsSpace(h[|h| - 1]);
    assert forall k :: 0 <= k < |h| ==> h[k] != '\n' by {
      forall k | 0 <= k < |h|
        ensures h[k] != '\n'
      {
        assert !IsSpace(h[k]);
      }
    }
  }

  /** `get_switch_state`: the DA enable from `R6` read as a decimal, then the
      button register from `RS` read as hex. The firmware answers `RS` with
      the DA's SWR flag; its button register is `RW`. */
  function GetSwitchState(link: Link): (r: Result<Answer<ToptekSwitchState>>)
    ensures r.Ok? ==> r.value.link.log == link.log + ["R6"] + ["RS"]
    ensures r.Err? ==> r.error.IsLinkError()
  {
    ReadSwitchRegister(link, "RS")
  }

  /** `get_switch_state` with the button register read from `RW`. */
  function GetSwitchStateFixed(link: Link): (r: Result<Answer<ToptekSwitchState>>)
    ensures r.Ok? ==> r.value.link.log == link.log + ["R6"] + ["RW"]
    ensures r.Err? ==> r.error.IsLinkError()
  {
    ReadSwitchRegister(link, "RW")
  }

  function ReadSwitchRegister(link: Link, register: string): (r: Result<Answer<ToptekSwitchState>>)
    ensures r.Ok? ==> r.value.link.log == link.log + ["R6"] + [register]
    ensures r.Err? ==> r.error.IsLinkError()
  {
    var da :- Query(link, "R6");
    var daValue :- ParseInt(da.value, 10);
    var sw :- Query(da.link, register);
    var swValue :- ParseInt(sw.value, 16);
    Ok(Answer(DecodeSwitches(daValue != 0, swValue), sw.link))
  }
}
