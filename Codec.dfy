/** The vendor ASCII protocol as driver.py speaks it: the command frame each
    atomic operation writes, the reply parsing of Driver.query, the status
    table of Driver.convert_error_code and the pump-id field that
    Driver.discover reads from an identification reply. */
module Codec {
  import opened Text
  import opened Py

  /* ---------------------------------------------------------------------- */
  /* Command frames                                                          */
  /* ---------------------------------------------------------------------- */

  /** A command starts with '/' and the pump address '1' and ends with a
      carriage return. */
  predicate IsCommand(f: Bytes)
  {
    |f| >= 3 && f[..2] == "/1" && f[|f| - 1] == '\r'
  }

  /** The character before the carriage return: 'R' executes the command
      string, 'F' applies a change on the fly. */
  function Terminator(f: Bytes): char
    requires IsCommand(f)
  {
    f[|f| - 2]
  }

  const PositionQuery: Bytes := "/1?18\r"
  const SpeedQuery: Bytes := "/1?37\r"
  const BusyQuery: Bytes := "/1?29R\r"
  const ValveQuery: Bytes := "/1?20R\r"
  const AbortCommand: Bytes := "/1TR\r"
  const ResetCommand: Bytes := "/1!R\r"
  /** The identification probe written by discover. */
  const IdentityProbe: Bytes := "/1?80\r"

  /** _set_position: move to an absolute position in µL. */
  function SetPositionCommand(position: Num): (f: Bytes)
    ensures IsCommand(f) && Terminator(f) == 'R'
    ensures f[..3] == "/1A"
  {
    "/1A" + Str(position) + ",1R\r"
  }

  /** _set_speed and _set_speed_on_the_fly: speed in µL/s. */
  function SpeedCommand(speed: Num, onTheFly: bool): (f: Bytes)
    ensures IsCommand(f) && Terminator(f) == (if onTheFly then 'F' else 'R')
    ensures f[..3] == "/1V"
  {
    "/1V" + Str(speed) + (if onTheFly then ",1F\r" else ",1R\r")
  }

  /** The code that selects a syringe size; only four sizes exist. */
  function VolumeCode(volume: Num): (code: Option<Bytes>)
    ensures code.Some? <==> Milli(volume) in {Some(50000), Some(100000), Some(250000), Some(500000)}
  {
    match Milli(volume)
    case Some(50000) => Some("U93")
    case Some(100000) => Some("U94")
    case Some(250000) => Some("U90")
    case Some(500000) => Some("U95")
    case _ => None
  }

  function VolumeCommand(code: Bytes): (f: Bytes)
    ensures IsCommand(f) && Terminator(f) == 'R'
  {
    "/1" + code + "R\r"
  }

  /** The frames of the four supported sizes; a float size selects the
      same frame as the int of the same value, as a dict lookup does. */
  lemma VolumeFrames(volume: Num)
    ensures Milli(volume) == Some(50000) ==> VolumeCommand(VolumeCode(volume).value) == "/1U93R\r"
    ensures Milli(volume) == Some(100000) ==> VolumeCommand(VolumeCode(volume).value) == "/1U94R\r"
    ensures Milli(volume) == Some(250000) ==> VolumeCommand(VolumeCode(volume).value) == "/1U90R\r"
    ensures Milli(volume) == Some(500000) ==> VolumeCommand(VolumeCode(volume).value) == "/1U95R\r"
  {
  }

  /** The initialization string for each orientation: Y for pumps whose
      input is on the right, Z for those whose input is on the left. */
  function InitPayload(orientation: Bytes): Bytes
  {
    if orientation == "Y" then "Y7,0,0" else if orientation == "Z" then "Z7,0,0" else ""
  }

  /** initialize: the frame is sent whatever the orientation; an unknown one
      leaves the bare execute command. */
  function InitializeCommand(orientation: Bytes): (f: Bytes)
    ensures IsCommand(f) && Terminator(f) == 'R'
  {
    "/1" + InitPayload(orientation) + "R\r"
  }

  /** An orientation other than Y and Z still sends a frame: the bare
      execute command. */
  lemma UnknownOrientationSendsBareExecute(orientation: Bytes)
    requires orientation != "Y" && orientation != "Z"
    ensures InitializeCommand(orientation) == "/1R\r"
  {
  }

  /** home: one composed program per pump: initialize in the pump's
      orientation, turn the valve to input, set speed 25, load the backlash
      and move to 0. Pump 1 prints its numbers as floats, pumps 2 to 4 as
      ints. Any other pump id has no frame. */
  function HomeCommand(pumpId: Option<int>, backlash: Num): (f: Option<Bytes>)
    ensures f.Some? <==> pumpId.Some? && 1 <= pumpId.value <= 4
    ensures f.Some? ==> IsCommand(f.value) && Terminator(f.value) == 'R'
  {
    match pumpId
    case Some(p) =>
      if 1 <= p <= 4 then Some(HomePrefix(p) + Str(backlash) + HomeSuffix(p)) else None
    case None => None
  }

  /** The text of pump p's home frame before the backlash. Pump 1 writes
      its speed as 25.0, the others as 25. */
  function HomePrefix(p: int): Bytes
  {
    if p == 1 then "/1Y7,0,0IV25.0,1K"
    else if p == 3 then "/1Y7,0,0IV25,1K"
    else "/1Z7,0,0IV25,1K"
  }

  /** The text of pump p's home frame after the backlash. Pump 1 writes
      its target as 0.0, the others as 0. */
  function HomeSuffix(p: int): Bytes
  {
    if p == 1 then "A0.0,1R\r" else "A0,1R\r"
  }

  /** set_valve: the one-letter valve position, upper-cased. */
  function ValveCommand(valve: Bytes): (f: Bytes)
    ensures IsCommand(f) && Terminator(f) == 'R'
    ensures |f| == |valve| + 4
  {
    "/1" + Upper(valve) + "R\r"
  }

  /** set_backlash: the backlash as an int. */
  function BacklashCommand(steps: int): (f: Bytes)
    ensures IsCommand(f) && Terminator(f) == 'R'
  {
    "/1K" + Str(Int(steps)) + "R\r"
  }

  /** move_abs: speed and position in one program. */
  function MoveAbsCommand(position: Num, speed: Num): (f: Bytes)
    ensures IsCommand(f) && Terminator(f) == 'R'
    ensures f[..3] == "/1V"
  {
    "/1V" + Str(speed) + ",1A" + Str(position) + ",1R\r"
  }

  /** The relative move program of move_rel: dispense (D) the magnitude of a
      negative displacement, aspirate (P) a non-negative one. */
  function MoveRelCommand(position: Num, speed: Num): (f: Bytes)
    ensures IsCommand(f) && Terminator(f) == 'R'
  {
    "/1J2V" + Str(speed) + ",1"
    + (if IsNegative(position) then "D" + Str(Abs(position)) else "P" + Str(position))
    + ",1J0R\r"
  }

  /** Which frames of the core are queries and which issue a command. */
  lemma QueriesAreCommands()
    ensures IsCommand(PositionQuery) && IsCommand(SpeedQuery) && IsCommand(IdentityProbe)
    ensures IsCommand(BusyQuery) && Terminator(BusyQuery) == 'R'
    ensures IsCommand(ValveQuery) && Terminator(ValveQuery) == 'R'
    ensures IsCommand(AbortCommand) && Terminator(AbortCommand) == 'R'
    ensures IsCommand(ResetCommand) && Terminator(ResetCommand) == 'R'
  {
  }

  /** Bytes within a fixed head do not depend on what follows it. */
  lemma HeadBytes(head: Bytes, mid: Bytes, tail: Bytes)
    requires |head| >= 9
    ensures (head + mid + tail)[2..8] == head[2..8] && (head + mid + tail)[8] == head[8]
  {
    assert head + mid + tail == head + (mid + tail);
  }

  /** The opening of each pump's home text: its orientation's
      initialization, then the valve to input. */
  lemma HomePrefixOpens(p: int)
    requires 1 <= p <= 4
    ensures var h := HomePrefix(p);
            |h| >= 9 && h[2..8] == InitPayload(if p % 2 == 1 then "Y" else "Z") && h[8] == 'I'
  {
    if p == 1 {
      assert HomePrefix(p)[2..8] == "Y7,0,0";
    } else if p == 3 {
      assert HomePrefix(p)[2..8] == "Y7,0,0";
    } else {
      assert HomePrefix(p)[2..8] == "Z7,0,0";
    }
  }

  /** The home program begins with the initialization string of the pump's
      orientation, odd pumps Y and even pumps Z (the table of home's
      docstring), and then turns the valve to input. */
  lemma HomeFollowsOrientationTable(pumpId: int, backlash: Num)
    requires 1 <= pumpId <= 4
    ensures var f := HomeCommand(Some(pumpId), backlash).value;
            f[2..8] == InitPayload(if pumpId % 2 == 1 then "Y" else "Z") && f[8] == 'I'
  {
    HomePrefixOpens(pumpId);
    HeadBytes(HomePrefix(pumpId), Str(backlash), HomeSuffix(pumpId));
  }

  /** A fixed frame around one varying part determines that part. */
  lemma FrameCancel(pre: Bytes, a: Bytes, b: Bytes, post: Bytes)
    requires pre + a + post == pre + b + post
    ensures a == b
  {
    var x, y := pre + a + post, pre + b + post;
    assert |a| == |b|;
    assert a == x[|pre|..|pre| + |a|];
    assert b == y[|pre|..|pre| + |b|];
  }

  lemma SetPositionCommandInjective(p: Num, q: Num)
    requires SetPositionCommand(p) == SetPositionCommand(q)
    ensures p == q
  {
    FrameCancel("/1A", Str(p), Str(q), ",1R\r");
    StrInjective(p, q);
  }

  lemma SpeedCommandInjective(s: Num, t: Num, onTheFly: bool)
    requires SpeedCommand(s, onTheFly) == SpeedCommand(t, onTheFly)
    ensures s == t
  {
    FrameCancel("/1V", Str(s), Str(t), if onTheFly then ",1F\r" else ",1R\r");
    StrInjective(s, t);
  }

  lemma BacklashCommandInjective(m: int, n: int)
    requires BacklashCommand(m) == BacklashCommand(n)
    ensures m == n
  {
    FrameCancel("/1K", Str(Int(m)), Str(Int(n)), "R\r");
    StrInjective(Int(m), Int(n));
  }

  /** The home frame carries the driver's backlash (the Backlash column of
      home's docstring table): for a given pump it determines the value. */
  lemma HomeCommandInjective(p: int, b: Num, c: Num)
    requires 1 <= p <= 4 && HomeCommand(Some(p), b) == HomeCommand(Some(p), c)
    ensures b == c
  {
    FrameCancel(HomePrefix(p), Str(b), Str(c), HomeSuffix(p));
    StrInjective(b, c);
  }

  /** Two numerals followed by the same comma-led text: the numerals agree. */
  lemma NumeralsBeforeComma(x: Num, y: Num, u: Bytes, v: Bytes)
    requires Str(x) + u == Str(y) + v
    requires |u| > 0 && |v| > 0 && u[0] == ',' && v[0] == ','
    ensures x == y
  {
    StrNumerals(x);
    StrNumerals(y);
    var s := Str(x) + u;
    assert Str(x) == s[..|Str(x)|] && Str(y) == (Str(y) + v)[..|Str(y)|];
    StrInjective(x, y);
  }

  /** A fixed head determines the rest. */
  lemma PrefixCancel(pre: Bytes, a: Bytes, b: Bytes)
    requires pre + a == pre + b
    ensures a == b
  {
    assert a == (pre + a)[|pre|..];
  }

  /** The move_abs frame is "/1V", the speed, and the position part. */
  lemma MoveAbsShape(p: Num, s: Num)
    ensures MoveAbsCommand(p, s) == "/1V" + (Str(s) + (",1A" + Str(p) + ",1R\r"))
  {
  }

  /** A move_abs frame determines its speed and its position. */
  lemma MoveAbsCommandInjective(p: Num, s: Num, q: Num, t: Num)
    requires MoveAbsCommand(p, s) == MoveAbsCommand(q, t)
    ensures p == q && s == t
  {
    var u, v := ",1A" + Str(p) + ",1R\r", ",1A" + Str(q) + ",1R\r";
    MoveAbsShape(p, s);
    MoveAbsShape(q, t);
    PrefixCancel("/1V", Str(s) + u, Str(t) + v);
    NumeralsBeforeComma(s, t, u, v);
    PrefixCancel(Str(s), u, v);
    FrameCancel(",1A", Str(p), Str(q), ",1R\r");
    StrInjective(p, q);
  }

  /* ---------------------------------------------------------------------- */
  /* Status table                                                            */
  /* ---------------------------------------------------------------------- */

  /** The busy flag and error text of a status byte; None where unknown. */
  datatype Status = Status(busy: Option<bool>, error: Option<Bytes>)

  const StatusTable: map<Bytes, Status> := map[
    "`" := Status(Some(false), Some("No Error")),
    "@" := Status(Some(true), Some("No Error")),
    "a" := Status(Some(false), Some("Initialization Error")),
    "A" := Status(Some(true), Some("Initialization Error")),
    "b" := Status(Some(false), Some("Invalid Command")),
    "B" := Status(Some(true), Some("Invalid Command")),
    "c" := Status(Some(false), Some("Invalid Operand")),
    "C" := Status(Some(true), Some("Invalid Operand")),
    "o" := Status(Some(false), Some("Command Buffer Overflow")),
    "O" := Status(Some(true), Some("Command Buffer Overflow"))
  ]

  /** convert_error_code: a lookup that never fails. */
  function ConvertErrorCode(code: Bytes): (s: Status)
    ensures s.busy.None? <==> s.error.None?
    ensures s.busy.Some? <==> code in StatusTable
  {
    if code in StatusTable then StatusTable[code] else Status(None, None)
  }

  /** busy is reported exactly by '@' and the upper-case codes; any byte
      outside the table gives no busy flag and no error. */
  lemma BusyIsUpperCase(code: Bytes)
    ensures ConvertErrorCode(code).busy == Some(true) <==> code in {"@", "A", "B", "C", "O"}
    ensures ConvertErrorCode(code).busy == Some(false) <==> code in {"`", "a", "b", "c", "o"}
    ensures ConvertErrorCode(code).busy.Some? ==>
      |code| == 1 && (ConvertErrorCode(code).busy.value <==> code[0] == '@' || IsUpperLetter(code[0]))
  {
  }

  /** The busy and idle codes of one error differ only in bit 0x20. */
  function Twin(c: char): char
  {
    if c as int / 32 % 2 == 1 then (c as int - 32) as char else (c as int + 32) as char
  }

  lemma TwinCodesShareError(c: char)
    requires [c] in StatusTable
    ensures [Twin(c)] in StatusTable
    ensures ConvertErrorCode([Twin(c)]).error == ConvertErrorCode([c]).error
    ensures ConvertErrorCode([Twin(c)]).busy.value == !ConvertErrorCode([c]).busy.value
  {
    assert c in {'`', '@', 'a', 'A', 'b', 'B', 'c', 'C', 'o', 'O'} by {
      assert [c] in StatusTable.Keys;
    }
  }

  /* ---------------------------------------------------------------------- */
  /* Replies                                                                 */
  /* ---------------------------------------------------------------------- */

  const ReplyPrefix: Bytes := "\U{FF}/0"
  const ReplySuffix: Bytes := "\U{03}\r\n"

  /** The dictionary query returns: value, error_code, busy and error. */
  datatype Reply = Reply(value: Option<Bytes>, errorCode: Option<Bytes>, busy: Option<bool>, error: Option<Bytes>)

  /** query's result when no port is open. */
  const NoDevice: Reply := Reply(None, None, None, Some("no device found"))

  /** The reply parsing of query: the text between the first prefix and the
      first suffix (Python's split), whose first byte is the status and the
      rest the value. A line without the prefix raises IndexError. */
  function DecodeReply(raw: Option<Bytes>): (r: Result<Reply>)
    ensures raw.None? ==> r == Ok(NoDevice)
    ensures raw.Some? ==> (r.Err? <==> !Contains(SplitFirst(raw.value, ReplySuffix), ReplyPrefix))
    ensures raw.Some? && r.Ok? ==>
      r.value.value.Some? && r.value.errorCode.Some? && |r.value.errorCode.value| <= 1
      && Status(r.value.busy, r.value.error) == ConvertErrorCode(r.value.errorCode.value)
  {
    match raw
    case None => Ok(NoDevice)
    case Some(line) =>
      match SplitSecond(SplitFirst(line, ReplySuffix), ReplyPrefix)
      case None => Err(IndexError)
      case Some(body) =>
        var n := if |body| == 0 then 0 else 1;
        var status := ConvertErrorCode(body[..n]);
        Ok(Reply(Some(body[n..]), Some(body[..n]), status.busy, status.error))
  }

  /** The line the pump sends: prefix, status byte, value, suffix. */
  function EncodeReply(status: char, value: Bytes): Bytes
  {
    ReplyPrefix + [status] + value + ReplySuffix
  }

  lemma AbsentEverywhere(s: Bytes, pat: Bytes)
    requires !Contains(s, pat)
    ensures forall j: nat :: !OccursAt(s, pat, j)
  {
  }

  /** In prefix + b + suffix, the first suffix is the final one when b
      contains none. */
  lemma SuffixEndsFrame(b: Bytes)
    requires !Contains(b, ReplySuffix)
    ensures IndexOf(ReplyPrefix + b + ReplySuffix, ReplySuffix) == Some(3 + |b|)
  {
    var line := ReplyPrefix + b + ReplySuffix;
    AbsentEverywhere(b, ReplySuffix);
    assert OccursAt(line, ReplySuffix, 3 + |b|) by {
      assert line[3 + |b|..3 + |b| + 3] == ReplySuffix;
    }
    forall j: nat | j < 3 + |b| ensures !OccursAt(line, ReplySuffix, j) {
      if j < 3 {
        assert line[j..j + 3][0] == ReplyPrefix[j] != ReplySuffix[0];
      } else if j + 3 <= 3 + |b| {
        assert line[j..j + 3] == b[j - 3..j];
        assert !OccursAt(b, ReplySuffix, j - 3);
      } else {
        var k := 3 + |b| - j;
        assert 0 < k < 3 && line[j..j + 3][k] == line[3 + |b|] == '\U{03}' != ReplySuffix[k];
      }
    }
    IndexOfIs(line, ReplySuffix, 3 + |b|);
  }

  /** query decodes the pump's line: status byte and value come back as
      sent, with the busy flag and error text of the status table. The value
      must hold neither the prefix nor the suffix, or Python's split would
      cut it there. */
  lemma DecodeEncodedReply(status: char, value: Bytes)
    requires !Contains([status] + value, ReplyPrefix)
    requires !Contains([status] + value, ReplySuffix)
    ensures DecodeReply(Some(EncodeReply(status, value)))
         == Ok(Reply(Some(value), Some([status]), ConvertErrorCode([status]).busy, ConvertErrorCode([status]).error))
  {
    var b := [status] + value;
    var line := EncodeReply(status, value);
    assert line == ReplyPrefix + b + ReplySuffix;
    SuffixEndsFrame(b);
    assert SplitFirst(line, ReplySuffix) == ReplyPrefix + b;
    assert OccursAt(ReplyPrefix + b, ReplyPrefix, 0) by {
      assert (ReplyPrefix + b)[..3] == ReplyPrefix;
    }
    IndexOfIs(ReplyPrefix + b, ReplyPrefix, 0);
    assert (ReplyPrefix + b)[3..] == b;
    assert SplitFirst(b, ReplyPrefix) == b;
    assert b[..1] == [status] && b[1..] == value;
  }

  /** A read that timed out returns b'', and query raises IndexError on it
      rather than reporting "no device found". */
  lemma EmptyLineRaises()
    ensures DecodeReply(Some("")) == Err(IndexError)
  {
    assert !OccursAt("", ReplySuffix, 0);
    IndexOfAbsent("", ReplySuffix);
    IndexOfAbsent("", ReplyPrefix);
  }

  /* ---------------------------------------------------------------------- */
  /* Pump id of an identification reply                                     */
  /* ---------------------------------------------------------------------- */

  /** s[n:] in Python. */
  function DropFirst(s: Bytes, n: nat): Bytes
  {
    if n <= |s| then s[n..] else []
  }

  /** s[:-n] in Python, for n > 0. */
  function DropLast(s: Bytes, n: nat): Bytes
  {
    if n <= |s| then s[..|s| - n] else []
  }

  /** s[i:i+1] in Python. */
  function ByteAt(s: Bytes, i: nat): Bytes
  {
    if i < |s| then [s[i]] else []
  }

  /** The pump id discover reads from the identification reply: an empty
      reply counts as id 0; otherwise int() of the fourth byte after the
      three-byte prefix, with the three-byte suffix cut off. */
  function ReceivedPumpId(fullReply: Bytes): (r: Result<int>)
    ensures r.Ok? ==> 0 <= r.value <= 9
    ensures r.Err? ==> r.error == ValueError
  {
    if |fullReply| == 0 then Ok(0)
    else
      var field := ByteAt(DropLast(DropFirst(fullReply, 3), 3), 3);
      assert field != [] && AllDigits(field) ==> field[..|field| - 1] == [] && DigitsValue(field) == DigitValue(field[0]);
      IntOf(field)
  }

  /** The id is the digit at offset 6 of the raw line; a line too short to
      hold it, or another byte there, raises ValueError. */
  lemma PumpIdIsSeventhByte(fullReply: Bytes)
    ensures ReceivedPumpId(fullReply)
         == if |fullReply| == 0 then Ok(0)
            else if |fullReply| >= 10 && IsDigit(fullReply[6]) then Ok(DigitValue(fullReply[6]) as int)
            else Err(ValueError)
  {
    if |fullReply| > 0 {
      var field := ByteAt(DropLast(DropFirst(fullReply, 3), 3), 3);
      if |fullReply| >= 10 {
        assert field == [fullReply[6]];
        if IsDigit(fullReply[6]) {
          ShortDigitsValue(fullReply[6], fullReply[6], fullReply[6]);
        } else {
          assert !IsDigit(field[0]);
        }
      } else {
        assert field == [];
      }
    }
  }
}
