/** The serial side of driver.py: the port the driver writes frames to and
    reads reply lines from, and the Driver object whose atomic and compound
    operations send the frames of module Codec and parse the replies. */
module PumpDriver {
  import opened Text
  import opened Py
  import opened Codec

  /** The line readline() returns: the next line the pump answers with, or
      b'' once it has nothing more to say (the read times out). */
  function NextLine(lines: seq<Bytes>): (line: Bytes)
    ensures lines != [] ==> line == lines[0]
    ensures lines == [] ==> line == ""
  {
    if lines == [] then "" else lines[0]
  }

  /** The answers still to come after `n` reads. */
  function DropLines(lines: seq<Bytes>, n: nat): (rest: seq<Bytes>)
    ensures |rest| == if n <= |lines| then |lines| - n else 0
  {
    if n <= |lines| then lines[n..] else []
  }

  /** Two reads in a row: the second answers with the line after the first. */
  lemma TwoReads(lines: seq<Bytes>)
    ensures DropLines(DropLines(lines, 1), 1) == DropLines(lines, 2)
    ensures DropLines(DropLines(lines, 1), 0) == DropLines(lines, 1)
  {
  }

  /** The speed home leaves the pump at: 25.0 µL/s. */
  const HomeSpeed: Num := Float(25000)

  /** Two writes in a row. */
  lemma TwoWrites(sent: seq<Bytes>, a: Bytes, b: Bytes)
    ensures sent + [a] + [b] == sent + [a, b]
  {
  }

  /** Two exchanges in a row: two frames written, two lines read. */
  lemma TwoExchanges(sent0: seq<Bytes>, lines0: seq<Bytes>, sent1: seq<Bytes>, lines1: seq<Bytes>,
                     sent2: seq<Bytes>, lines2: seq<Bytes>, a: Bytes, b: Bytes)
    requires sent1 == sent0 + [a] && lines1 == DropLines(lines0, 1)
    requires sent2 == sent1 + [b] && lines2 == DropLines(lines1, 1)
    ensures sent2 == sent0 + [a, b] && lines2 == DropLines(lines0, 2)
  {
    TwoReads(lines0);
  }

  /** An open serial connection to one pump: the frames written so far and
      the lines the pump answers with, in order. */
  class Port {
    var sent: seq<Bytes>
    var replies: seq<Bytes>

    constructor (replies: seq<Bytes>)
      ensures sent == [] && this.replies == replies
    {
      sent := [];
      this.replies := replies;
    }

    method Write(frame: Bytes)
      modifies this`sent
      ensures sent == old(sent) + [frame]
    {
      sent := sent + [frame];
    }

    method ReadLine() returns (line: Bytes)
      modifies this`replies
      ensures line == NextLine(old(replies))
      ensures replies == DropLines(old(replies), 1)
    {
      line := NextLine(replies);
      replies := DropLines(replies, 1);
    }
  }

  /** The two fixed parts of assign_volume's message around the size. */
  const VolumeMessageHead: Bytes := "volume of "
  const VolumeMessageTail: Bytes := " uL is not supported. Choose from dict_keys([50, 100, 250, 500])"

  lemma Joined(head: Bytes, mid: Bytes, tail: Bytes)
    ensures (head + mid + tail)[..|head|] == head && (head + mid + tail)[|head|..] == mid + tail
  {
    assert head + mid + tail == head + (mid + tail);
  }

  /** The reply `msg` of assign_volume for a size the pump does not have. */
  function UnsupportedVolume(volume: Num): (r: Reply)
    ensures r.value == Some("") && r.errorCode == Some("!") && r.busy.None?
    ensures r.error.Some? && |r.error.value| > 10 && r.error.value[..10] == "volume of "
    ensures Str(volume) <= r.error.value[10..]
  {
    Joined(VolumeMessageHead, Str(volume), VolumeMessageTail);
    Reply(Some(""), Some("!"), None, Some(VolumeMessageHead + Str(volume) + VolumeMessageTail))
  }

  /** A driver for one pump. A driver without a port (`port == null`)
      answers every query with "no device found". */
  class Driver {
    const port: Port?
    var pumpId: Option<int>
    var orientation: Bytes
    var backlash: Num
    /** Created by home; None until then. */
    var cmdPosition: Option<Num>
    var lastCommand: Option<Bytes>
    var lastReply: Option<Bytes>

    constructor (port: Port?, pumpId: Option<int>)
      ensures this.port == port && this.pumpId == pumpId
      ensures orientation == "" && backlash == NaN && cmdPosition.None?
      ensures lastCommand.None? && lastReply.None?
    {
      this.port := port;
      this.pumpId := pumpId;
      orientation := "";
      backlash := NaN;
      cmdPosition := None;
      lastCommand := None;
      lastReply := None;
    }

    /** The frames written to the port so far. */
    ghost function Sent(): seq<Bytes>
      reads port
    {
      if port == null then [] else port.sent
    }

    /** The lines the pump has yet to answer with. */
    ghost function Lines(): seq<Bytes>
      reads port
    {
      if port == null then [] else port.replies
    }

    /** What query returns for the (k+1)-th query from now. */
    ghost function Answer(k: nat): Result<Reply>
      reads port
    {
      if port == null then Ok(NoDevice) else DecodeReply(Some(NextLine(DropLines(port.replies, k))))
    }

    /** Since the pre-state, exactly `frames` were written and one line was
        read for each. */
    twostate predicate Exchanged(frames: seq<Bytes>)
      reads port
    {
      port != null ==>
        port.sent == old(port.sent) + frames && port.replies == DropLines(old(port.replies), |frames|)
    }

    /** write: the frame goes out on the port, if there is one. */
    method Write(frame: Bytes)
      modifies port, this`lastCommand
      ensures port != null ==> port.sent == old(port.sent) + [frame] && lastCommand == Some(frame)
      ensures port != null ==> port.replies == old(port.replies)
      ensures port == null ==> lastCommand == old(lastCommand)
    {
      if port != null {
        port.Write(frame);
        lastCommand := Some(frame);
      }
    }

    /** read: one line from the port, '' without a port. */
    method Read() returns (line: Bytes)
      modifies port, this`lastReply
      ensures port != null ==> line == NextLine(old(port.replies)) && lastReply == Some(line)
      ensures port != null ==> port.replies == DropLines(old(port.replies), 1) && port.sent == old(port.sent)
      ensures port == null ==> line == "" && lastReply == old(lastReply)
    {
      if port != null {
        line := port.ReadLine();
        lastReply := Some(line);
      } else {
        line := "";
      }
    }

    /** query: write the frame, read one line and parse it; without a port,
        nothing is sent and the result is "no device found". */
    method Query(frame: Bytes) returns (r: Result<Reply>)
      modifies port, this`lastCommand, this`lastReply
      ensures Exchanged([frame])
      ensures r == old(Answer(0))
      ensures port != null ==> lastCommand == Some(frame) && lastReply == Some(NextLine(old(port.replies)))
      ensures port == null ==> lastCommand == old(lastCommand) && lastReply == old(lastReply)
    {
      var raw: Option<Bytes> := None;
      if port != null {
        Write(frame);
        var line := Read();
        raw := Some(line);
      }
      r := DecodeReply(raw);
    }

    /** _get_position. */
    method GetPosition() returns (r: Result<Reply>)
      modifies port, this`lastCommand, this`lastReply
      ensures Exchanged([PositionQuery]) && r == old(Answer(0))
    {
      r := Query(PositionQuery);
    }

    /** _set_position: move to an absolute position. */
    method SetPosition(position: Num) returns (r: Result<Reply>)
      modifies port, this`lastCommand, this`lastReply
      ensures Exchanged([SetPositionCommand(position)]) && r == old(Answer(0))
    {
      r := Query(SetPositionCommand(position));
    }

    /** _get_speed. */
    method GetSpeed() returns (r: Result<Reply>)
      modifies port, this`lastCommand, this`lastReply
      ensures Exchanged([SpeedQuery]) && r == old(Answer(0))
    {
      r := Query(SpeedQuery);
    }

    /** _set_speed: a speed change executed as a command. */
    method SetSpeedAtomic(speed: Num) returns (r: Result<Reply>)
      modifies port, this`lastCommand, this`lastReply
      ensures Exchanged([SpeedCommand(speed, false)]) && r == old(Answer(0))
    {
      r := Query(SpeedCommand(speed, false));
    }

    /** _set_speed_on_the_fly: a speed change applied during a move. */
    method SetSpeedOnTheFly(speed: Num) returns (r: Result<Reply>)
      modifies port, this`lastCommand, this`lastReply
      ensures Exchanged([SpeedCommand(speed, true)]) && r == old(Answer(0))
    {
      r := Query(SpeedCommand(speed, true));
    }

    /** abort: stop the plunger. */
    method Abort() returns (r: Result<Reply>)
      modifies port, this`lastCommand, this`lastReply
      ensures Exchanged([AbortCommand]) && r == old(Answer(0))
    {
      r := Query(AbortCommand);
    }

    /** set_speed: on the fly, one 'F' frame; otherwise abort first, then an
        'R' frame, whose reply is the result. An exception of the abort
        query ends the call before the speed frame. */
    method SetSpeed(speed: Num, onTheFly: bool) returns (r: Result<Reply>)
      modifies port, this`lastCommand, this`lastReply
      ensures onTheFly ==> Exchanged([SpeedCommand(speed, true)]) && r == old(Answer(0))
      ensures !onTheFly && old(Answer(0)).Err? ==> Exchanged([AbortCommand]) && r == old(Answer(0))
      ensures !onTheFly && old(Answer(0)).Ok? ==>
        Exchanged([AbortCommand, SpeedCommand(speed, false)]) && r == old(Answer(1))
    {
      if onTheFly {
        r := SetSpeedOnTheFly(speed);
      } else {
        ghost var sent, lines := Sent(), Lines();
        var stopped :- Abort();
        r := SetSpeedAtomic(speed);
        TwoReads(lines);
        TwoWrites(sent, AbortCommand, SpeedCommand(speed, false));
      }
    }

    /** assign_volume: a supported size is sent as its U code; any other
        is answered locally and nothing is sent. */
    method AssignVolume(volume: Num) returns (r: Result<Reply>)
      modifies port, this`lastCommand, this`lastReply
      ensures VolumeCode(volume).Some? ==>
        Exchanged([VolumeCommand(VolumeCode(volume).value)]) && r == old(Answer(0))
      ensures VolumeCode(volume).None? ==>
        Exchanged([]) && r == Ok(UnsupportedVolume(volume)) && unchanged(this)
    {
      match VolumeCode(volume)
      case Some(code) =>
        r := Query(VolumeCommand(code));
      case None =>
        r := Ok(UnsupportedVolume(volume));
    }

    /** initialize: the orientation's initialization frame (a bare "/1R\r"
        for an unknown orientation), then the orientation is recorded. */
    method Initialize(orientation: Bytes) returns (r: Result<Reply>)
      modifies port, this`lastCommand, this`lastReply, this`orientation
      ensures Exchanged([InitializeCommand(orientation)]) && r == old(Answer(0))
      ensures this.orientation == if r.Ok? then orientation else old(this.orientation)
    {
      var reply :- Query(InitializeCommand(orientation));
      this.orientation := orientation;
      r := Ok(reply);
    }

    /** home: the pump's composed homing frame, then cmd_position 0.0 and
        the speed setter's on-the-fly frame for 25.0. A pump id outside 1..4
        has no frame and fails before anything is sent. */
    method Home() returns (r: Result<Reply>)
      modifies port, this`lastCommand, this`lastReply, this`cmdPosition
      ensures HomeCommand(pumpId, backlash).None? ==>
        r == Err(UnboundLocalError) && Exchanged([]) && cmdPosition == old(cmdPosition)
      ensures HomeCommand(pumpId, backlash).Some? && old(Answer(0)).Err? ==>
        r == old(Answer(0)) && Exchanged([HomeCommand(pumpId, backlash).value])
        && cmdPosition == old(cmdPosition)
      ensures HomeCommand(pumpId, backlash).Some? && old(Answer(0)).Ok? ==>
        Exchanged([HomeCommand(pumpId, backlash).value, SpeedCommand(HomeSpeed, true)])
        && cmdPosition == Some(Float(0))
        && r == (if old(Answer(1)).Err? then old(Answer(1)) else old(Answer(0)))
    {
      var frame := HomeCommand(pumpId, backlash);
      if frame.None? {
        return Err(UnboundLocalError);
      }
      r := SendHome(frame.value);
    }

    /** The exchanges of home once its frame is composed: the frame, then
        cmd_position 0.0 and the speed 25.0 on the fly. */
    method SendHome(frame: Bytes) returns (r: Result<Reply>)
      modifies port, this`lastCommand, this`lastReply, this`cmdPosition
      ensures old(Answer(0)).Err? ==>
        r == old(Answer(0)) && Exchanged([frame]) && cmdPosition == old(cmdPosition)
      ensures old(Answer(0)).Ok? ==>
        Exchanged([frame, SpeedCommand(HomeSpeed, true)]) && cmdPosition == Some(Float(0))
        && r == (if old(Answer(1)).Err? then old(Answer(1)) else old(Answer(0)))
    {
      ghost var sent0, lines0 := Sent(), Lines();
      var reply :- Query(frame);
      ghost var sent1, lines1 := Sent(), Lines();
      cmdPosition := Some(Float(0));
      var ignored :- SetSpeed(HomeSpeed, true);
      r := Ok(reply);
      if port != null {
        TwoReads(lines0);
        TwoExchanges(sent0, lines0, sent1, lines1, port.sent, port.replies, frame, SpeedCommand(HomeSpeed, true));
      }
    }

    /** busy: the status query "?29". */
    method Busy() returns (r: Result<Reply>)
      modifies port, this`lastCommand, this`lastReply
      ensures Exchanged([BusyQuery]) && r == old(Answer(0))
    {
      r := Query(BusyQuery);
    }

    /** get_valve. */
    method GetValve() returns (r: Result<Reply>)
      modifies port, this`lastCommand, this`lastReply
      ensures Exchanged([ValveQuery]) && r == old(Answer(0))
    {
      r := Query(ValveQuery);
    }

    /** set_valve: the valve letter, upper-cased. */
    method SetValve(valve: Bytes) returns (r: Result<Reply>)
      modifies port, this`lastCommand, this`lastReply
      ensures Exchanged([ValveCommand(valve)]) && r == old(Answer(0))
    {
      r := Query(ValveCommand(valve));
    }

    /** set_backlash: int(value) is sent and value itself recorded; int()
        of nan raises before anything is sent. No reply is returned. */
    method SetBacklash(value: Num) returns (r: Result<()>)
      modifies port, this`lastCommand, this`lastReply, this`backlash
      ensures Trunc(value).Err? ==> r == Err(ValueError) && Exchanged([]) && backlash == old(backlash)
      ensures Trunc(value).Ok? ==>
        Exchanged([BacklashCommand(Trunc(value).value)])
        && (r.Ok? <==> old(Answer(0)).Ok?)
        && backlash == if r.Ok? then value else old(backlash)
    {
      var steps :- Trunc(value);
      var reply :- Query(BacklashCommand(steps));
      backlash := value;
      r := Ok(());
    }

    /** reset: soft reset. */
    method Reset() returns (r: Result<Reply>)
      modifies port, this`lastCommand, this`lastReply
      ensures Exchanged([ResetCommand]) && r == old(Answer(0))
    {
      r := Query(ResetCommand);
    }

    /** move_abs: speed and absolute position in one frame. */
    method MoveAbs(position: Num, speed: Num) returns (r: Result<Reply>)
      modifies port, this`lastCommand, this`lastReply
      ensures Exchanged([MoveAbsCommand(position, speed)]) && r == old(Answer(0))
    {
      r := Query(MoveAbsCommand(position, speed));
    }

    /** move_rel: after the abort it reads self.position, an attribute a
        Driver never has, so it always fails there and the relative move
        frame is never sent. */
    method MoveRel(position: Num, speed: Num) returns (r: Result<Reply>)
      modifies port, this`lastCommand, this`lastReply
      ensures Exchanged([AbortCommand]) && r.Err?
      ensures r == if old(Answer(0)).Err? then old(Answer(0)) else Err(AttributeError)
    {
      var stopped :- Abort();
      r := Err(AttributeError);
    }
  }

  /** A line that query parses was really there: the empty read of an
      exhausted pump raises. */
  lemma AnsweredLineExists(lines: seq<Bytes>)
    requires DecodeReply(Some(NextLine(lines))).Ok?
    ensures lines != [] && |DropLines(lines, 1)| < |lines|
  {
    EmptyLineRaises();
  }
}
