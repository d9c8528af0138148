/** device.py: the controller above the driver. It keeps the commanded and
    read-back position, speed, valve, the last status and the polling
    period, and runs the compound scripts fill, empty, prime and flow.

    Positions and speeds are in µL and µL/s, held as Num (thousandths);
    the scan period is in milliseconds. Publishing to the process-variable
    server is not modelled; run_once returns what it would publish. */
module PumpDevice {
  import opened Text
  import opened Py
  import opened Codec
  import opened PumpDriver

  /** flow_speed_high_limit = 5.0 */
  const FlowSpeedHighLimit: Num := Float(5000)
  /** dpos = 0.002, in thousandths */
  const DPos: int := 2
  /** low_level_limit_alarm = 5.0 */
  const LowLevelLimitAlarm: Num := Float(5000)
  /** low_level_limit_warning = 10.0 */
  const LowLevelLimitWarning: Num := Float(10000)
  /** scan_period 0.001 s while moving and 10.0 s at rest */
  const FastScan: int := 1
  const SlowScan: int := 10000

  /* ---------------------------------------------------------------------- */
  /* Pure state readings                                                     */
  /* ---------------------------------------------------------------------- */

  /** isdonemoving: abs(cmd_position - position) < dpos, false with nan. */
  function IsDoneMoving(cmd: Num, pos: Num): (done: bool)
    ensures done <==> Milli(cmd).Some? && Milli(pos).Some? && -DPos < Milli(cmd).value - Milli(pos).value < DPos
  {
    match Milli(Abs(Sub(cmd, pos)))
    case Some(d) => d < DPos
    case None => false
  }

  /** The text get_alarm and get_warning publish below a limit. */
  function BelowLimit(position: Num, limit: Num): Bytes
  {
    "current position " + Str(position) + " below low level limit " + Str(limit)
  }

  /** get_alarm: non-empty exactly at or below 5.0. */
  function Alarm(position: Num): (s: Bytes)
    ensures s != "" <==> LessEq(position, LowLevelLimitAlarm)
    ensures s != "" ==> s == BelowLimit(position, LowLevelLimitAlarm)
  {
    if LessEq(position, LowLevelLimitAlarm) then BelowLimit(position, LowLevelLimitAlarm) else ""
  }

  /** get_warning: non-empty exactly at or below 10.0. */
  function Warning(position: Num): (s: Bytes)
    ensures s != "" <==> LessEq(position, LowLevelLimitWarning)
    ensures s != "" ==> s == BelowLimit(position, LowLevelLimitWarning)
  {
    if LessEq(position, LowLevelLimitWarning) then BelowLimit(position, LowLevelLimitWarning) else ""
  }

  /** The alarm level lies below the warning level. */
  lemma AlarmImpliesWarning(position: Num)
    ensures Alarm(position) != "" ==> Warning(position) != ""
    ensures Warning(position) == "" ==> Alarm(position) == ""
  {
  }

  /** get_busy's answer for a reply value: None for None, otherwise
      bool(int(value)), which raises ValueError on a non-numeral. */
  function BusyFlag(value: Option<Bytes>): (r: Result<Option<bool>>)
    ensures value.None? ==> r == Ok(None)
    ensures value.Some? ==> (r.Ok? <==> ParseInt(value.value).Some?)
    ensures r.Ok? && value.Some? ==> r.value == Some(ParseInt(value.value).value != 0)
  {
    match value
    case None => Ok(None)
    case Some(v) =>
      match IntOf(v)
      case Ok(n) => Ok(Some(n != 0))
      case Err(e) => Err(e)
  }

  /** What get_busy returns for a query result. */
  function BusyReading(a: Result<Reply>): Result<Option<bool>>
  {
    match a
    case Err(e) => Err(e)
    case Ok(q) => BusyFlag(q.value)
  }

  /** What `n` busy polls in a row read, when the pump answers with
      `lines`: one line each. */
  function BusyReadings(lines: seq<Bytes>, n: nat): (rs: seq<Result<Option<bool>>>)
    ensures |rs| == n
  {
    if n == 0 then []
    else [BusyReading(DecodeReply(Some(NextLine(lines))))] + BusyReadings(DropLines(lines, 1), n - 1)
  }

  /** The flag abort returns for the readings of its busy polls: True at
      the first reading that is not True, False when every reading is True
      until the deadline; an exception of a poll ends it. */
  function RestFlag(readings: seq<Result<Option<bool>>>): (r: Result<bool>)
    ensures r.Err? ==> exists k :: 0 <= k < |readings| && readings[k] == Err(r.error)
  {
    if readings == [] then Ok(false)
    else
      match readings[0]
      case Err(e) => Err(e)
      case Ok(b) => if b != Some(true) then Ok(true) else RestFlag(readings[1..])
  }

  /** One poll of abort's loop: its reading decides, or the rest do. */
  lemma RestStep(lines: seq<Bytes>, m: nat, b: Result<Option<bool>>)
    requires m >= 1 && b == BusyReading(DecodeReply(Some(NextLine(DropLines(lines, 0)))))
    ensures RestFlag(BusyReadings(lines, m)) ==
              if b.Err? then Err(b.error)
              else if b.value != Some(true) then Ok(true)
              else RestFlag(BusyReadings(DropLines(lines, 1), m - 1))
  {
    assert DropLines(lines, 0) == lines;
    assert BusyReadings(lines, m)[1..] == BusyReadings(DropLines(lines, 1), m - 1);
  }

  /** abort reports a missed deadline exactly when every poll read busy. */
  lemma {:induction false} RestFlagFalse(readings: seq<Result<Option<bool>>>)
    ensures RestFlag(readings) == Ok(false) <==> forall k :: 0 <= k < |readings| ==> readings[k] == Ok(Some(true))
  {
    if readings != [] {
      RestFlagFalse(readings[1..]);
      if readings[0] == Ok(Some(true)) {
        assert forall k :: 1 <= k < |readings| ==> readings[k] == readings[1..][k - 1];
      }
    }
  }

  /** abort reports rest exactly when some poll reads not busy and every
      poll before it read busy. */
  lemma {:induction false} RestFlagTrue(readings: seq<Result<Option<bool>>>)
    ensures RestFlag(readings) == Ok(true) <==>
            exists i :: 0 <= i < |readings| && readings[i].Ok? && readings[i].value != Some(true) &&
                        forall k :: 0 <= k < i ==> readings[k] == Ok(Some(true))
  {
    if readings != [] {
      RestFlagTrue(readings[1..]);
      var rest := readings[1..];
      if readings[0] == Ok(Some(true)) {
        if RestFlag(rest) == Ok(true) {
          var j :| 0 <= j < |rest| && rest[j].Ok? && rest[j].value != Some(true) &&
                   forall k :: 0 <= k < j ==> rest[k] == Ok(Some(true));
          assert forall k :: 1 <= k < j + 1 ==> readings[k] == rest[k - 1];
          assert readings[j + 1] == rest[j];
        }
        if exists i :: 0 <= i < |readings| && readings[i].Ok? && readings[i].value != Some(true) &&
                       forall k :: 0 <= k < i ==> readings[k] == Ok(Some(true)) {
          var i :| 0 <= i < |readings| && readings[i].Ok? && readings[i].value != Some(true) &&
                   forall k :: 0 <= k < i ==> readings[k] == Ok(Some(true));
          assert i >= 1;
          assert rest[i - 1] == readings[i];
          assert forall k :: 0 <= k < i - 1 ==> rest[k] == readings[k + 1];
        }
      }
    }
  }

  /** A pump that answers busy status "0" or "1" (as str of an int) is
      read as idle or busy. */
  lemma BusyFlagOfNumeral(n: int)
    ensures BusyFlag(Some(Str(Int(n)))) == Ok(Some(n != 0))
  {
    IntOfStr(n);
  }

  /** The flag get_busy returns is the reply's value, not its status
      byte: a pump idle by status ('`') that answers "1" reads as busy. */
  lemma BusyFlagIgnoresStatus()
    ensures var q := DecodeReply(Some(EncodeReply('`', "1")));
            q.Ok? && q.value.busy == Some(false) && BusyFlag(q.value.value) == Ok(Some(true))
  {
    assert !Contains("`1", ReplyPrefix) by {
      assert forall j: nat :: !OccursAt("`1", ReplyPrefix, j);
      IndexOfAbsent("`1", ReplyPrefix);
    }
    assert !Contains("`1", ReplySuffix) by {
      assert forall j: nat :: !OccursAt("`1", ReplySuffix, j);
      IndexOfAbsent("`1", ReplySuffix);
    }
    DecodeEncodedReply('`', "1");
    assert ['`'] + "1" == "`1";
    BusyFlagOfNumeral(1);
    assert Str(Int(1)) == "1";
  }

  /** get_position's reading of a reply value: nan for None, otherwise
      round(float(value), 3). */
  function PositionValue(value: Option<Bytes>): (r: Result<Num>)
    ensures value.None? ==> r == Ok(NaN)
    ensures value.Some? ==> (r.Ok? <==> ParseMilli(value.value).Some?)
    ensures r.Ok? && value.Some? ==> r.value == Float(ParseMilli(value.value).value)
  {
    match value
    case None => Ok(NaN)
    case Some(v) => FloatOf(v)
  }

  /** What get_position returns for a query result. */
  function PositionReading(a: Result<Reply>): Result<Num>
  {
    match a
    case Err(e) => Err(e)
    case Ok(q) => PositionValue(q.value)
  }

  /** A position the pump prints as a float is read back exactly. */
  lemma PositionValueOfFloat(m: int)
    ensures PositionValue(Some(Str(Float(m)))) == Ok(Float(m))
  {
    FloatOfStr(m);
  }

  /* ---------------------------------------------------------------------- */
  /* Frames that change something                                            */
  /* ---------------------------------------------------------------------- */

  /** The polls: position and busy queries, which the background poller
      and the waits send without changing the pump. */
  predicate IsPoll(f: Bytes)
  {
    f == PositionQuery || f == BusyQuery
  }

  /** The frames of a transcript that are not polls, in order. */
  function Actions(frames: seq<Bytes>): (acts: seq<Bytes>)
    ensures |acts| <= |frames|
    ensures forall k :: 0 <= k < |acts| ==> !IsPoll(acts[k])
  {
    if frames == [] then []
    else
      var last := frames[|frames| - 1];
      Actions(frames[..|frames| - 1]) + (if IsPoll(last) then [] else [last])
  }

  lemma {:induction false} ActionsAppend(a: seq<Bytes>, b: seq<Bytes>)
    ensures Actions(a + b) == Actions(a) + Actions(b)
    decreases |b|
  {
    if b != [] {
      var last := b[|b| - 1];
      assert (a + b)[..|a + b| - 1] == a + b[..|b| - 1];
      ActionsAppend(a, b[..|b| - 1]);
    } else {
      assert a + b == a;
    }
  }

  /** `after` continues `before`, and its new frames carry the actions `acts`. */
  predicate Extends(before: seq<Bytes>, after: seq<Bytes>, acts: seq<Bytes>)
  {
    before <= after && Actions(after[|before|..]) == acts
  }

  lemma ExtendsTrans(a: seq<Bytes>, b: seq<Bytes>, c: seq<Bytes>, x: seq<Bytes>, y: seq<Bytes>)
    requires Extends(a, b, x) && Extends(b, c, y)
    ensures Extends(a, c, x + y)
  {
    assert c[|a|..] == b[|a|..] + c[|b|..];
    ActionsAppend(b[|a|..], c[|b|..]);
  }

  /** A poll adds no action. */
  lemma ExtendsByPoll(before: seq<Bytes>, after: seq<Bytes>, f: Bytes)
    requires after == before + [f] && IsPoll(f)
    ensures Extends(before, after, [])
  {
    assert after[|before|..] == [f];
    assert [f][..0] == [];
  }

  /** A frame that is not a poll adds itself. */
  lemma ExtendsByAction(before: seq<Bytes>, after: seq<Bytes>, f: Bytes)
    requires after == before + [f] && !IsPoll(f)
    ensures Extends(before, after, [f])
  {
    assert after[|before|..] == [f];
    assert [f][..0] == [];
  }

  /** A frame whose third byte is not '?' is no query, so no poll. */
  lemma NoQueryNoPoll(f: Bytes)
    requires |f| >= 3 && f[2] != '?'
    ensures !IsPoll(f)
  {
    assert PositionQuery[2] == '?' && BusyQuery[2] == '?';
  }

  /** The frames the scripts send that change something are no polls. */
  lemma ScriptFramesAreActions(speed: Num, onTheFly: bool, target: Num, position: Num)
    ensures !IsPoll(SpeedCommand(speed, onTheFly)) && !IsPoll(SetPositionCommand(target))
    ensures !IsPoll(MoveAbsCommand(position, speed)) && !IsPoll(AbortCommand)
    ensures !IsPoll(ValveCommand("i")) && !IsPoll(ValveCommand("o"))
  {
    var v, p, m := SpeedCommand(speed, onTheFly), SetPositionCommand(target), MoveAbsCommand(position, speed);
    assert v[2] == v[..3][2] == 'V';
    NoQueryNoPoll(v);
    assert p[2] == p[..3][2] == 'A';
    NoQueryNoPoll(p);
    assert m[2] == m[..3][2];
    NoQueryNoPoll(m);
    NoQueryNoPoll(AbortCommand);
    NoQueryNoPoll(ValveCommand("i"));
    NoQueryNoPoll(ValveCommand("o"));
  }

  /** Nothing sent yet, nothing done yet. */
  lemma ExtendsSelf(s: seq<Bytes>)
    ensures Extends(s, s, [])
  {
    assert s[|s|..] == [];
  }

  /** A poll after the actions `acts` leaves them as they are. */
  lemma PollAfter(s0: seq<Bytes>, s1: seq<Bytes>, s2: seq<Bytes>, acts: seq<Bytes>, f: Bytes)
    requires Extends(s0, s1, acts) && s2 == s1 + [f] && IsPoll(f)
    ensures Extends(s0, s2, acts)
  {
    ExtendsByPoll(s1, s2, f);
    ExtendsTrans(s0, s1, s2, acts, []);
    assert acts + [] == acts;
  }

  /** An action after the actions `acts` is added to them. */
  lemma ActionAfter(s0: seq<Bytes>, s1: seq<Bytes>, s2: seq<Bytes>, acts: seq<Bytes>, f: Bytes)
    requires Extends(s0, s1, acts) && s2 == s1 + [f] && !IsPoll(f)
    ensures Extends(s0, s2, acts + [f])
  {
    ExtendsByAction(s1, s2, f);
    ExtendsTrans(s0, s1, s2, acts, [f]);
  }

  /** Polls only, after the actions `acts`, leave them as they are. */
  lemma QuietAfter(s0: seq<Bytes>, s1: seq<Bytes>, s2: seq<Bytes>, acts: seq<Bytes>)
    requires Extends(s0, s1, acts) && Extends(s1, s2, [])
    ensures Extends(s0, s2, acts)
  {
    ExtendsTrans(s0, s1, s2, acts, []);
    assert acts + [] == acts;
  }

  /** Two actions in a row. */
  lemma TwoActions(s0: seq<Bytes>, s1: seq<Bytes>, s2: seq<Bytes>, a: Bytes, b: Bytes)
    requires s1 == s0 + [a] && s2 == s1 + [b] && !IsPoll(a) && !IsPoll(b)
    ensures Extends(s0, s2, [a, b])
  {
    ExtendsSelf(s0);
    ActionAfter(s0, s0, s1, [], a);
    ActionAfter(s0, s1, s2, [a], b);
  }

  /** Two actions sent together. */
  lemma PairOfActions(s0: seq<Bytes>, s2: seq<Bytes>, a: Bytes, b: Bytes)
    requires s2 == s0 + [a, b] && !IsPoll(a) && !IsPoll(b)
    ensures Extends(s0, s2, [a, b])
  {
    assert s2 == s0 + [a] + [b];
    TwoActions(s0, s0 + [a], s2, a, b);
  }

  /** An action and then polls only. */
  lemma ActionThenPolls(s0: seq<Bytes>, s1: seq<Bytes>, s2: seq<Bytes>, a: Bytes)
    requires s1 == s0 + [a] && !IsPoll(a) && Extends(s1, s2, [])
    ensures Extends(s0, s2, [a])
  {
    ExtendsByAction(s0, s1, a);
    QuietAfter(s0, s1, s2, [a]);
  }

  /** Two actions and then polls only. */
  lemma TwoActionsThenPolls(s0: seq<Bytes>, s1: seq<Bytes>, s2: seq<Bytes>, s3: seq<Bytes>, a: Bytes, b: Bytes)
    requires s1 == s0 + [a] && s2 == s1 + [b] && !IsPoll(a) && !IsPoll(b) && Extends(s2, s3, [])
    ensures Extends(s0, s3, [a, b])
  {
    TwoActions(s0, s1, s2, a, b);
    QuietAfter(s0, s2, s3, [a, b]);
  }

  /** `n` repetitions of the pair a, b. */
  function Pairs(n: nat, a: Bytes, b: Bytes): seq<Bytes>
  {
    if n == 0 then [] else Pairs(n - 1, a, b) + [a, b]
  }

  lemma {:induction false} PairsShape(n: nat, a: Bytes, b: Bytes, k: nat)
    requires k < n
    ensures |Pairs(n, a, b)| == 2 * n
    ensures Pairs(n, a, b)[2 * k] == a && Pairs(n, a, b)[2 * k + 1] == b
    decreases n
  {
    if k < n - 1 {
      PairsShape(n - 1, a, b, k);
    } else if n > 1 {
      PairsShape(n - 1, a, b, 0);
    }
  }

  /** The strokes of prime: N times to 0.0 then to 250.0. */
  function Strokes(n: nat): seq<Bytes>
  {
    Pairs(n, SetPositionCommand(Float(0)), SetPositionCommand(Float(250000)))
  }

  /** The actions of fill, empty and prime, from the starting speed. */
  function FillActions(start: Num): seq<Bytes>
  {
    [SpeedCommand(Float(100000), true), ValveCommand("i"),
     SetPositionCommand(Float(0)), SetPositionCommand(Float(250000)),
     SpeedCommand(start, true), ValveCommand("o")]
  }

  function EmptyActions(start: Num): seq<Bytes>
  {
    [SpeedCommand(Float(100000), true), ValveCommand("i"),
     SetPositionCommand(Float(0)),
     SpeedCommand(start, true), ValveCommand("o")]
  }

  function PrimeActions(n: nat, start: Num): seq<Bytes>
  {
    [SpeedCommand(Float(68000), true), ValveCommand("i")] + Strokes(n)
    + [SpeedCommand(start, true), ValveCommand("o")]
  }

  /** The actions of flow: the abort, the valve to output unless it was
      there, and the move when the speed is within the limit. */
  function FlowActions(valve: Bytes, position: Num, speed: Num): seq<Bytes>
  {
    [AbortCommand]
    + (if valve != "o" then [ValveCommand("o")] else [])
    + (if LessEq(speed, FlowSpeedHighLimit) then [AbortCommand, MoveAbsCommand(position, speed)] else [])
  }

  /* The lemmas below that put phases together are stated over arbitrary
     frames: on the literal frames of the scripts the solver would spell
     every frame out. The script lemmas only instantiate them. */

  /** Three phases in a row. */
  lemma ThreePhases(s0: seq<Bytes>, s1: seq<Bytes>, s2: seq<Bytes>, s3: seq<Bytes>,
                    w: seq<Bytes>, x: seq<Bytes>, y: seq<Bytes>)
    requires Extends(s0, s1, w) && Extends(s1, s2, x) && Extends(s2, s3, y)
    ensures Extends(s0, s3, w + x + y)
  {
    ExtendsTrans(s0, s1, s2, w, x);
    ExtendsTrans(s0, s2, s3, w + x, y);
  }

  /** One more pair a, b after i pairs. */
  lemma PairStep(s0: seq<Bytes>, s1: seq<Bytes>, s2: seq<Bytes>, s3: seq<Bytes>, i: nat, a: Bytes, b: Bytes)
    requires Extends(s0, s1, Pairs(i, a, b)) && Extends(s1, s2, [a]) && Extends(s2, s3, [b])
    ensures Extends(s0, s3, Pairs(i + 1, a, b))
  {
    ThreePhases(s0, s1, s2, s3, Pairs(i, a, b), [a], [b]);
    assert Pairs(i, a, b) + [a] + [b] == Pairs(i + 1, a, b);
  }

  /** One more stroke pair of prime. */
  lemma StrokeTrace(s0: seq<Bytes>, s1: seq<Bytes>, s2: seq<Bytes>, s3: seq<Bytes>, i: nat)
    requires Extends(s0, s1, Strokes(i))
    requires Extends(s1, s2, [SetPositionCommand(Float(0))])
    requires Extends(s2, s3, [SetPositionCommand(Float(250000))])
    ensures Extends(s0, s3, Strokes(i + 1))
  {
    PairStep(s0, s1, s2, s3, i, SetPositionCommand(Float(0)), SetPositionCommand(Float(250000)));
  }

  /** Every script opens at its speed with the valve to input, makes its
      strokes, and closes with the starting speed and the valve to output. */
  lemma PrimeShape(n: nat, start: Num)
    ensures var p := PrimeActions(n, start);
            |p| == 2 * n + 4 && p[0] == SpeedCommand(Float(68000), true) && p[1] == ValveCommand("i")
            && p[|p| - 2] == SpeedCommand(start, true) && p[|p| - 1] == ValveCommand("o")
    ensures forall k :: 0 <= k < n ==>
              PrimeActions(n, start)[2 + 2 * k] == SetPositionCommand(Float(0))
              && PrimeActions(n, start)[3 + 2 * k] == SetPositionCommand(Float(250000))
  {
    PairsBetween(n, SpeedCommand(Float(68000), true), ValveCommand("i"),
                 SetPositionCommand(Float(0)), SetPositionCommand(Float(250000)),
                 SpeedCommand(start, true), ValveCommand("o"));
  }

  /** Pairs between two frames before and two after. */
  lemma PairsBetween(n: nat, x: Bytes, v: Bytes, a: Bytes, b: Bytes, t: Bytes, u: Bytes)
    ensures var p := [x, v] + Pairs(n, a, b) + [t, u];
            |p| == 2 * n + 4 && p[0] == x && p[1] == v && p[|p| - 2] == t && p[|p| - 1] == u
            && forall k :: 0 <= k < n ==> p[2 + 2 * k] == a && p[3 + 2 * k] == b
  {
    var p := [x, v] + Pairs(n, a, b) + [t, u];
    if n == 0 {
      assert Pairs(n, a, b) == [];
    } else {
      PairsShape(n, a, b, 0);
    }
    forall k | 0 <= k < n
      ensures p[2 + 2 * k] == a && p[3 + 2 * k] == b
    {
      PairsShape(n, a, b, k);
    }
  }

  /** One prime stroke is fill at the prime speed. */
  lemma PrimeOnceIsFill(start: Num)
    ensures PrimeActions(1, start)[1..] == FillActions(start)[1..]
  {
    OnePair(SpeedCommand(Float(68000), true), ValveCommand("i"),
            SetPositionCommand(Float(0)), SetPositionCommand(Float(250000)),
            SpeedCommand(start, true), ValveCommand("o"));
  }

  lemma OnePair(x: Bytes, v: Bytes, a: Bytes, b: Bytes, t: Bytes, u: Bytes)
    ensures ([x, v] + Pairs(1, a, b) + [t, u])[1..] == [v, a, b, t, u]
  {
    assert Pairs(1, a, b) == [a, b] by { assert Pairs(0, a, b) == []; }
  }

  /* ---------------------------------------------------------------------- */
  /* Scripts cut short                                                       */
  /* ---------------------------------------------------------------------- */

  /** Since `before`, the frames sent carry a beginning of the actions
      `script`: what a script has done when an exception stops it. */
  predicate Begun(before: seq<Bytes>, after: seq<Bytes>, script: seq<Bytes>)
  {
    before <= after && Actions(after[|before|..]) <= script
  }

  /** A first phase `p`, begun, with `todo` still to come. */
  lemma FirstPhase(s0: seq<Bytes>, s1: seq<Bytes>, p: seq<Bytes>, todo: seq<Bytes>)
    requires Begun(s0, s1, p)
    ensures Begun(s0, s1, p + todo)
  {
    var a := Actions(s1[|s0|..]);
    assert a == (p + todo)[..|a|];
  }

  /** The first of two actions sent. */
  lemma FirstOfTwo(s0: seq<Bytes>, s1: seq<Bytes>, a: Bytes, b: Bytes)
    requires s1 == s0 + [a] && !IsPoll(a)
    ensures Begun(s0, s1, [a, b])
  {
    ExtendsByAction(s0, s1, a);
    assert [a, b][..1] == [a];
  }

  /** A phase `p` begun after the phases `done`, with `todo` still to
      come; when `p` ran to its end, the phases so far are done. */
  lemma Phase(s0: seq<Bytes>, s1: seq<Bytes>, s2: seq<Bytes>, done: seq<Bytes>, p: seq<Bytes>, todo: seq<Bytes>, ok: bool)
    requires Extends(s0, s1, done) && Begun(s1, s2, p) && (ok ==> Extends(s1, s2, p))
    ensures Begun(s0, s2, done + (p + todo))
    ensures ok ==> Extends(s0, s2, done + p)
  {
    assert s2[|s0|..] == s1[|s0|..] + s2[|s1|..];
    ActionsAppend(s1[|s0|..], s2[|s1|..]);
    var a := Actions(s2[|s1|..]);
    assert a == (p + todo)[..|a|];
    assert done + a == (done + (p + todo))[..|done| + |a|];
  }

  /** The ways the phases of fill put its six actions together. */
  lemma SixSplits(a: Bytes, b: Bytes, c: Bytes, d: Bytes, e: Bytes, f: Bytes)
    ensures [a, b, c, d, e, f] == [a, b] + ([c] + ([d] + [e, f]))
    ensures [a, b, c, d, e, f] == ([a, b] + [c]) + ([d] + [e, f])
    ensures [a, b, c, d, e, f] == ([a, b] + [c] + [d]) + ([e, f] + [])
    ensures [a, b, c, d, e, f] == [a, b] + [c] + [d] + [e, f]
  {
  }

  /** The ways the phases of empty put its five actions together. */
  lemma FiveSplits(a: Bytes, b: Bytes, c: Bytes, e: Bytes, f: Bytes)
    ensures [a, b, c, e, f] == [a, b] + ([c] + [e, f])
    ensures [a, b, c, e, f] == ([a, b] + [c]) + ([e, f] + [])
    ensures [a, b, c, e, f] == [a, b] + [c] + [e, f]
  {
  }

  /** The ways the phases of prime put its actions together. */
  lemma ThreeSplits(o: seq<Bytes>, b: seq<Bytes>, c: seq<Bytes>)
    ensures o + b + c == o + (b + c)
    ensures o + b + c == (o + b) + (c + [])
  {
  }

  /** A beginning of the strokes: i pairs and the next move down, or i + 1
      pairs, when i < n. */
  lemma {:induction false} PairsPrefix(i: nat, n: nat, a: Bytes, b: Bytes)
    requires i < n
    ensures Pairs(i, a, b) + [a] <= Pairs(n, a, b)
    ensures Pairs(i + 1, a, b) <= Pairs(n, a, b)
    decreases n
  {
    if i + 1 < n {
      PairsPrefix(i, n - 1, a, b);
      var q := Pairs(n - 1, a, b);
      assert Pairs(n, a, b) == q + [a, b];
      assert Pairs(i + 1, a, b) == Pairs(n, a, b)[..|Pairs(i + 1, a, b)|];
      assert Pairs(i, a, b) + [a] == Pairs(n, a, b)[..|Pairs(i, a, b)| + 1];
    } else {
      assert Pairs(n, a, b) == Pairs(i, a, b) + [a, b];
      assert Pairs(i, a, b) + [a] == Pairs(n, a, b)[..|Pairs(i, a, b)| + 1];
    }
  }

  lemma StrokesPrefix(i: nat, n: nat)
    requires i < n
    ensures Strokes(i) + [SetPositionCommand(Float(0))] <= Strokes(n)
    ensures Strokes(i + 1) <= Strokes(n)
  {
    PairsPrefix(i, n, SetPositionCommand(Float(0)), SetPositionCommand(Float(250000)));
  }

  /** flow's speed gate: its actions hold the move exactly when the speed
      is within the limit. */
  lemma FlowGate(valve: Bytes, position: Num, speed: Num)
    ensures MoveAbsCommand(position, speed) in FlowActions(valve, position, speed) <==> LessEq(speed, FlowSpeedHighLimit)
  {
    var m := MoveAbsCommand(position, speed);
    assert m[2] == m[..3][2] == 'V';
    assert AbortCommand[2] == 'T';
    assert ValveCommand("o")[2] == Upper("o")[0];
  }

  /** Above the limit, however far flow got, it never sent the move. */
  lemma NoMoveAboveLimit(s0: seq<Bytes>, s: seq<Bytes>, valve: Bytes, position: Num, speed: Num)
    requires Begun(s0, s, FlowActions(valve, position, speed)) && !LessEq(speed, FlowSpeedHighLimit)
    ensures MoveAbsCommand(position, speed) !in Actions(s[|s0|..])
  {
    FlowGate(valve, position, speed);
  }

  /** flow stopped by its abort: only the abort was done. */
  lemma FlowAborted(s0: seq<Bytes>, s1: seq<Bytes>, valve: Bytes, position: Num, speed: Num)
    requires Extends(s0, s1, [AbortCommand])
    ensures Begun(s0, s1, FlowActions(valve, position, speed))
    ensures !LessEq(speed, FlowSpeedHighLimit) ==> MoveAbsCommand(position, speed) !in Actions(s1[|s0|..])
  {
    var turn := if valve != "o" then [ValveCommand("o")] else [];
    var move := if LessEq(speed, FlowSpeedHighLimit) then [AbortCommand, MoveAbsCommand(position, speed)] else [];
    FirstPhase(s0, s1, [AbortCommand], turn + move);
    assert FlowActions(valve, position, speed) == [AbortCommand] + (turn + move);
    if !LessEq(speed, FlowSpeedHighLimit) { NoMoveAboveLimit(s0, s1, valve, position, speed); }
  }

  /** The phases of flow after its abort: the valve step, and, once the
      valve step returned, the move step. */
  lemma FlowStopped(s0: seq<Bytes>, s1: seq<Bytes>, s2: seq<Bytes>, s3: seq<Bytes>,
                    valve: Bytes, position: Num, speed: Num, turned: bool, moved: bool)
    requires Extends(s0, s1, [AbortCommand])
    requires Extends(s1, s2, if valve != "o" then [ValveCommand("o")] else [])
    requires turned ==> Begun(s2, s3, if LessEq(speed, FlowSpeedHighLimit) then [AbortCommand, MoveAbsCommand(position, speed)] else [])
    requires turned && moved ==> Extends(s2, s3, if LessEq(speed, FlowSpeedHighLimit) then [AbortCommand, MoveAbsCommand(position, speed)] else [])
    requires !turned ==> s3 == s2
    ensures Begun(s0, s3, FlowActions(valve, position, speed))
    ensures turned && moved ==> Extends(s0, s3, FlowActions(valve, position, speed))
    ensures !LessEq(speed, FlowSpeedHighLimit) ==> MoveAbsCommand(position, speed) !in Actions(s3[|s0|..])
  {
    var turn := if valve != "o" then [ValveCommand("o")] else [];
    var move := if LessEq(speed, FlowSpeedHighLimit) then [AbortCommand, MoveAbsCommand(position, speed)] else [];
    assert FlowActions(valve, position, speed) == [AbortCommand] + (turn + move);
    Phase(s0, s1, s2, [AbortCommand], turn, move, true);
    if turned {
      Phase(s0, s2, s3, [AbortCommand] + turn, move, [], moved);
      assert move + [] == move;
      assert [AbortCommand] + (turn + move) == [AbortCommand] + turn + move;
    }
    if !LessEq(speed, FlowSpeedHighLimit) { NoMoveAboveLimit(s0, s3, valve, position, speed); }
  }

  /** What run_once publishes: DMOV, RBV, ALARM and WARN. */
  datatype Snapshot = Snapshot(doneMoving: bool, readback: Num, alarm: Bytes, warning: Bytes)

  /* ---------------------------------------------------------------------- */
  /* The device                                                              */
  /* ---------------------------------------------------------------------- */

  class Device {
    const driver: Driver
    var position: Num
    var cmdPosition: Num
    var speed: Num
    var valve: Bytes
    var busy: Option<bool>
    var error: Option<Bytes>
    var errorCode: Option<Bytes>
    var scanPeriod: int

    /** __init__, with the settings init makes before its first poll. */
    constructor (driver: Driver, speed: Num)
      ensures this.driver == driver && this.speed == speed
      ensures position == Float(0) && cmdPosition == Float(0) && valve == "o"
      ensures busy.None? && error.None? && errorCode.None? && scanPeriod == FastScan
    {
      this.driver := driver;
      this.speed := speed;
      position := Float(0);
      cmdPosition := Float(0);
      valve := "o";
      busy := None;
      error := None;
      errorCode := None;
      scanPeriod := FastScan;
    }

    /** The status fields hold those of reply `q`. */
    ghost predicate Absorbed(q: Reply)
      reads this
    {
      busy == q.busy && error == q.error && errorCode == q.errorCode
    }

    /** process_driver_reply: copy the status of a reply and return its
        value; a missing reply changes nothing. */
    method ProcessDriverReply(reply: Option<Reply>) returns (value: Option<Bytes>)
      modifies this`busy, this`error, this`errorCode
      ensures reply.Some? ==> Absorbed(reply.value) && value == reply.value.value
      ensures reply.None? ==> value.None? && unchanged(this)
    {
      if reply.Some? {
        busy := reply.value.busy;
        errorCode := reply.value.errorCode;
        error := reply.value.error;
        value := reply.value.value;
      } else {
        value := None;
      }
    }

    /** get_busy: the busy query; the reply's status is absorbed and its
        value read as a flag. */
    method GetBusy() returns (r: Result<Option<bool>>)
      modifies this`busy, this`error, this`errorCode, driver`lastCommand, driver`lastReply, driver.port
      ensures driver.Exchanged([BusyQuery])
      ensures r == BusyReading(old(driver.Answer(0)))
      ensures old(driver.Answer(0)).Ok? ==> Absorbed(old(driver.Answer(0)).value)
      ensures old(driver.Answer(0)).Err? ==> unchanged(this)
    {
      var reply :- driver.Busy();
      var value := ProcessDriverReply(Some(reply));
      if value.None? {
        return Ok(None);
      }
      var again := ProcessDriverReply(Some(reply));
      var n :- IntOf(again.value);
      r := Ok(Some(n != 0));
    }

    /** get_position: the position query, read into `position`. */
    method GetPosition() returns (r: Result<Num>)
      modifies this`position, this`busy, this`error, this`errorCode,
               driver`lastCommand, driver`lastReply, driver.port
      ensures driver.Exchanged([PositionQuery])
      ensures r == PositionReading(old(driver.Answer(0)))
      ensures position == if r.Ok? then r.value else old(position)
      ensures old(driver.Answer(0)).Ok? ==> Absorbed(old(driver.Answer(0)).value)
      ensures old(driver.Answer(0)).Err? ==> unchanged(this)
    {
      var reply :- driver.GetPosition();
      var value := ProcessDriverReply(Some(reply));
      var reading :- PositionValue(value);
      position := reading;
      r := Ok(position);
    }

    /** run_once: read the position; at rest (busy not True) relax the scan
        period; return what is published. */
    method RunOnce() returns (r: Result<Snapshot>)
      modifies this`position, this`busy, this`error, this`errorCode, this`scanPeriod,
               driver`lastCommand, driver`lastReply, driver.port
      ensures driver.Exchanged([PositionQuery])
      ensures r.Ok? <==> PositionReading(old(driver.Answer(0))).Ok?
      ensures old(driver.Answer(0)).Ok? ==> Absorbed(old(driver.Answer(0)).value)
      ensures r.Ok? ==> position == PositionReading(old(driver.Answer(0))).value
      ensures r.Ok? ==> scanPeriod == if busy == Some(true) then old(scanPeriod) else SlowScan
      ensures r.Ok? ==> r.value == Snapshot(IsDoneMoving(cmdPosition, position), position, Alarm(position), Warning(position))
      ensures r.Err? ==> scanPeriod == old(scanPeriod)
    {
      var p :- GetPosition();
      if busy != Some(true) {
        scanPeriod := SlowScan;
      }
      r := Ok(Snapshot(IsDoneMoving(cmdPosition, position), position, Alarm(position), Warning(position)));
    }

    /** set_cmd_position: command the move (its reply is not absorbed),
        record the target and poll fast. */
    method SetCmdPosition(value: Num) returns (r: Result<()>)
      modifies this`cmdPosition, this`scanPeriod, driver`lastCommand, driver`lastReply, driver.port
      ensures driver.Exchanged([SetPositionCommand(value)])
      ensures r.Ok? <==> old(driver.Answer(0)).Ok?
      ensures r.Ok? ==> cmdPosition == value && scanPeriod == FastScan
      ensures r.Err? ==> unchanged(this)
    {
      var reply :- driver.SetPosition(value);
      cmdPosition := value;
      scanPeriod := FastScan;
      r := Ok(());
    }

    /** set_speed: the driver's set_speed with its default, on the fly. */
    method SetSpeed(value: Num) returns (r: Result<()>)
      modifies this`speed, this`busy, this`error, this`errorCode,
               driver`lastCommand, driver`lastReply, driver.port
      ensures driver.Exchanged([SpeedCommand(value, true)])
      ensures r.Ok? <==> old(driver.Answer(0)).Ok?
      ensures r.Ok? ==> speed == value && Absorbed(old(driver.Answer(0)).value)
      ensures r.Err? ==> unchanged(this)
    {
      var reply :- driver.SetSpeed(value, true);
      var ignored := ProcessDriverReply(Some(reply));
      speed := value;
      r := Ok(());
    }

    /** set_speed_on_the_fly. */
    method SetSpeedOnTheFly(value: Num) returns (r: Result<()>)
      modifies this`speed, this`busy, this`error, this`errorCode,
               driver`lastCommand, driver`lastReply, driver.port
      ensures driver.Exchanged([SpeedCommand(value, true)])
      ensures r.Ok? <==> old(driver.Answer(0)).Ok?
      ensures r.Ok? ==> speed == value && Absorbed(old(driver.Answer(0)).value)
      ensures r.Err? ==> unchanged(this)
    {
      var reply :- driver.SetSpeedOnTheFly(value);
      var ignored := ProcessDriverReply(Some(reply));
      speed := value;
      r := Ok(());
    }

    /** set_valve: the reply is not absorbed. */
    method SetValve(value: Bytes) returns (r: Result<()>)
      modifies this`valve, driver`lastCommand, driver`lastReply, driver.port
      ensures driver.Exchanged([ValveCommand(value)])
      ensures r.Ok? <==> old(driver.Answer(0)).Ok?
      ensures valve == if r.Ok? then value else old(valve)
    {
      var reply :- driver.SetValve(value);
      valve := value;
      r := Ok(());
    }

    /** move_abs: abort (reply not absorbed), default the speed to the
        device's, poll fast, record the target, then send the move. */
    method MoveAbs(position: Num, speed: Option<Num>) returns (r: Result<Reply>)
      modifies this`cmdPosition, this`scanPeriod, driver`lastCommand, driver`lastReply, driver.port
      ensures old(driver.Answer(0)).Err? ==>
        driver.Exchanged([AbortCommand]) && r == old(driver.Answer(0)) && unchanged(this)
      ensures old(driver.Answer(0)).Ok? ==>
        driver.Exchanged([AbortCommand, MoveAbsCommand(position, if speed.Some? then speed.value else this.speed)])
        && r == old(driver.Answer(1)) && cmdPosition == position && scanPeriod == FastScan
    {
      ghost var sent0, lines0 := driver.Sent(), driver.Lines();
      var stopped :- driver.Abort();
      ghost var sent1, lines1 := driver.Sent(), driver.Lines();
      var spd := if speed.None? then this.speed else speed.value;
      scanPeriod := FastScan;
      cmdPosition := position;
      r := driver.MoveAbs(position, spd);
      if driver.port != null {
        TwoReads(lines0);
        TwoExchanges(sent0, lines0, sent1, lines1, driver.Sent(), driver.Lines(), AbortCommand, MoveAbsCommand(position, spd));
      }
    }

    /** wait: read busy, then hold while busy is True. Only the background
        poller (run_once) can change busy meanwhile, so the loop runs its
        polls; then busy is read once more. Only polls are sent. */
    method Wait() returns (r: Result<()>)
      modifies this`position, this`busy, this`error, this`errorCode, this`scanPeriod,
               driver`lastCommand, driver`lastReply, driver.port
      ensures driver.port != null ==> Extends(old(driver.Sent()), driver.Sent(), [])
    {
      ghost var s0 := driver.Sent();
      if driver.port != null { ExtendsSelf(s0); }
      var first := GetBusy();
      if driver.port != null { PollAfter(s0, s0, driver.Sent(), [], BusyQuery); }
      if first.Err? { return Err(first.error); }
      while busy == Some(true)
        invariant driver.port != null ==> Extends(s0, driver.Sent(), [])
        decreases if driver.port == null then 0 else |driver.port.replies|, if busy == Some(true) then 1 else 0
      {
        ghost var s1, lines := driver.Sent(), driver.Lines();
        var snap := RunOnce();
        if driver.port != null { PollAfter(s0, s1, driver.Sent(), [], PositionQuery); }
        if snap.Err? { return Err(snap.error); }
        if driver.port != null { AnsweredLineExists(lines); }
      }
      ghost var s2 := driver.Sent();
      var last := GetBusy();
      if driver.port != null { PollAfter(s0, s2, driver.Sent(), [], BusyQuery); }
      if last.Err? { return Err(last.error); }
      r := Ok(());
    }

    /** abort: the abort frame, its status absorbed, then busy polls until
        busy is not True or the deadline (`budget` polls) has passed.
        Returns whether the pump came to rest before the deadline. */
    method Abort(budget: nat) returns (r: Result<bool>)
      modifies this`busy, this`error, this`errorCode, driver`lastCommand, driver`lastReply, driver.port
      ensures driver.port != null ==> Extends(old(driver.Sent()), driver.Sent(), [AbortCommand])
      ensures old(driver.Answer(0)).Err? ==> r == old(driver.Answer(0)).PropagateFailure()
      ensures old(driver.Answer(0)).Ok? && driver.port != null ==>
        r == RestFlag(BusyReadings(DropLines(old(driver.Lines()), 1), budget + 1))
      ensures driver.port == null ==> r == Ok(true)
    {
      ghost var s0 := driver.Sent();
      ghost var polled := DropLines(driver.Lines(), 1);
      if driver.port != null { ExtendsSelf(s0); }
      var reply := driver.Abort();
      if driver.port != null {
        ScriptFramesAreActions(NaN, true, NaN, NaN);
        ActionAfter(s0, s0, driver.Sent(), [], AbortCommand);
      }
      if reply.Err? { return Err(reply.error); }
      var ignored := ProcessDriverReply(Some(reply.value));
      ghost var s1 := driver.Sent();
      r := AwaitRest(budget);
      if driver.port != null {
        ExtendsTrans(s0, s1, driver.Sent(), [AbortCommand], []);
        assert [AbortCommand] + [] == [AbortCommand];
      }
    }

    /** The loop of abort: busy polls until a reading is not True or
        `budget` further polls have read True. Only polls are sent. */
    method AwaitRest(budget: nat) returns (r: Result<bool>)
      modifies this`busy, this`error, this`errorCode, driver`lastCommand, driver`lastReply, driver.port
      ensures driver.port != null ==> Extends(old(driver.Sent()), driver.Sent(), [])
      ensures driver.port != null ==> r == RestFlag(BusyReadings(old(driver.Lines()), budget + 1))
      ensures driver.port == null ==> r == Ok(true)
    {
      ghost var s0, lines0 := driver.Sent(), driver.Lines();
      if driver.port != null { ExtendsSelf(s0); }
      var polls := 0;
      while true
        invariant polls <= budget
        invariant driver.port != null ==> Extends(s0, driver.Sent(), [])
        invariant driver.port != null ==>
          RestFlag(BusyReadings(driver.Lines(), budget - polls + 1)) == RestFlag(BusyReadings(lines0, budget + 1))
        decreases budget - polls
      {
        ghost var s1, lines := driver.Sent(), driver.Lines();
        ghost var reading := BusyReading(driver.Answer(0));
        var b := GetBusy();
        if driver.port != null { RestStep(lines, budget - polls + 1, reading); }
        if driver.port != null { PollAfter(s0, s1, driver.Sent(), [], BusyQuery); }
        if b.Err? { return Err(b.error); }
        if b.value != Some(true) {
          return Ok(true);
        }
        if polls == budget {
          return Ok(false);
        }
        polls := polls + 1;
      }
    }

    /** flow: abort, turn the valve to output unless it is there, and move
        only at a speed within the flow limit. Whenever it stops, what it
        sent is a beginning of its actions, so above the limit the move is
        never sent. */
    method Flow(position: Num, speed: Num, budget: nat) returns (r: Result<()>)
      modifies this`busy, this`error, this`errorCode, this`valve, this`cmdPosition, this`scanPeriod,
               driver`lastCommand, driver`lastReply, driver.port
      ensures this.speed == old(this.speed) && this.position == old(this.position)
      ensures !LessEq(speed, FlowSpeedHighLimit) ==> cmdPosition == old(cmdPosition)
      ensures r.Ok? ==> valve == "o"
      ensures r.Ok? && LessEq(speed, FlowSpeedHighLimit) ==> cmdPosition == position
      ensures driver.port != null ==> Begun(old(driver.Sent()), driver.Sent(), FlowActions(old(valve), position, speed))
      ensures driver.port != null && !LessEq(speed, FlowSpeedHighLimit) ==>
        MoveAbsCommand(position, speed) !in Actions(driver.Sent()[|old(driver.Sent())|..])
      ensures r.Ok? && driver.port != null ==>
        Extends(old(driver.Sent()), driver.Sent(), FlowActions(old(valve), position, speed))
    {
      ghost var s0 := driver.Sent();
      r := ActAbort(budget);
      ghost var s1 := driver.Sent();
      if r.Err? {
        if driver.port != null { FlowAborted(s0, s1, old(valve), position, speed); }
        return;
      }
      r := TurnToOutput();
      ghost var s2 := driver.Sent();
      ghost var turned := r.Ok?;
      if r.Ok? {
        r := MoveWithinLimit(position, speed);
      }
      if driver.port != null { FlowStopped(s0, s1, s2, driver.Sent(), old(valve), position, speed, turned, r.Ok?); }
    }

    /** The abort that opens flow, its flag unused. */
    method ActAbort(budget: nat) returns (r: Result<()>)
      modifies this`busy, this`error, this`errorCode, driver`lastCommand, driver`lastReply, driver.port
      ensures driver.port != null ==> Extends(old(driver.Sent()), driver.Sent(), [AbortCommand])
      ensures old(driver.Answer(0)).Err? ==> r.Err?
      ensures speed == old(speed) && position == old(position) && valve == old(valve) && cmdPosition == old(cmdPosition)
    {
      var rested := Abort(budget);
      r := if rested.Err? then Err(rested.error) else Ok(());
    }

    /** The valve step of flow: to output, unless it is there already. The
        valve frame goes out even when its query raises. */
    method TurnToOutput() returns (r: Result<()>)
      modifies this`valve, driver`lastCommand, driver`lastReply, driver.port
      ensures r.Ok? ==> valve == "o"
      ensures old(valve) == "o" ==> r.Ok?
      ensures speed == old(speed) && position == old(position) && cmdPosition == old(cmdPosition)
      ensures driver.port != null ==>
        Extends(old(driver.Sent()), driver.Sent(), if old(valve) != "o" then [ValveCommand("o")] else [])
    {
      ghost var s0 := driver.Sent();
      if driver.port != null { ExtendsSelf(s0); }
      r := Ok(());
      if valve != "o" {
        r := SetValve("o");
        if driver.port != null {
          ScriptFramesAreActions(NaN, true, NaN, NaN);
          ExtendsByAction(s0, driver.Sent(), ValveCommand("o"));
        }
      }
    }

    /** The move step of flow: only at a speed within the flow limit; above
        it nothing is sent and nothing fails. */
    method MoveWithinLimit(position: Num, speed: Num) returns (r: Result<()>)
      modifies this`cmdPosition, this`scanPeriod, driver`lastCommand, driver`lastReply, driver.port
      ensures !LessEq(speed, FlowSpeedHighLimit) ==>
        r.Ok? && driver.Sent() == old(driver.Sent()) && cmdPosition == old(cmdPosition)
      ensures this.speed == old(this.speed) && this.position == old(this.position) && valve == old(valve)
      ensures r.Ok? && LessEq(speed, FlowSpeedHighLimit) ==> cmdPosition == position
      ensures driver.port != null ==>
        Begun(old(driver.Sent()), driver.Sent(),
              if LessEq(speed, FlowSpeedHighLimit) then [AbortCommand, MoveAbsCommand(position, speed)] else [])
      ensures r.Ok? && driver.port != null ==>
        Extends(old(driver.Sent()), driver.Sent(),
                if LessEq(speed, FlowSpeedHighLimit) then [AbortCommand, MoveAbsCommand(position, speed)] else [])
    {
      ghost var s0 := driver.Sent();
      if driver.port != null { ExtendsSelf(s0); }
      r := Ok(());
      if LessEq(speed, FlowSpeedHighLimit) {
        ghost var a0 := driver.Answer(0);
        var moved := MoveAbs(position, Some(speed));
        if driver.port != null {
          ScriptFramesAreActions(speed, true, NaN, position);
          if a0.Err? {
            ExtendsByAction(s0, driver.Sent(), AbortCommand);
            assert [AbortCommand, MoveAbsCommand(position, speed)][..1] == [AbortCommand];
          } else {
            PairOfActions(s0, driver.Sent(), AbortCommand, MoveAbsCommand(position, speed));
          }
        }
        if moved.Err? { r := Err(moved.error); }
      }
    }

    /** fill: at 100 µL/s with the valve to input, empty to 0.0 and draw to
        250.0, each move waited for; then the starting speed and the valve
        to output. Whenever it stops, what it sent is a beginning of that. */
    method Fill() returns (r: Result<()>)
      modifies this, driver`lastCommand, driver`lastReply, driver.port
      ensures r.Ok? ==> speed == old(speed) && valve == "o" && cmdPosition == Float(250000)
      ensures driver.port != null ==> Begun(old(driver.Sent()), driver.Sent(), FillActions(old(speed)))
      ensures r.Ok? && driver.port != null ==> Extends(old(driver.Sent()), driver.Sent(), FillActions(old(speed)))
    {
      var start := speed;
      ghost var s0 := driver.Sent();
      ghost var a, b, c := SpeedCommand(Float(100000), true), ValveCommand("i"), SetPositionCommand(Float(0));
      ghost var d, e, f := SetPositionCommand(Float(250000)), SpeedCommand(start, true), ValveCommand("o");
      SixSplits(a, b, c, d, e, f);
      r := Prepare(Float(100000));
      ghost var s1 := driver.Sent();
      if driver.port != null { FirstPhase(s0, s1, [a, b], [c] + ([d] + [e, f])); }
      if r.Err? { return; }
      r := Stroke(Float(0));
      ghost var s2 := driver.Sent();
      if driver.port != null { Phase(s0, s1, s2, [a, b], [c], [d] + [e, f], true); }
      if r.Err? { return; }
      r := Stroke(Float(250000));
      ghost var s3 := driver.Sent();
      if driver.port != null { Phase(s0, s2, s3, [a, b] + [c], [d], [e, f], true); }
      if r.Err? { return; }
      r := Finish(start);
      if driver.port != null { Phase(s0, s3, driver.Sent(), [a, b] + [c] + [d], [e, f], [], r.Ok?); }
    }

    /** empty: at 100 µL/s with the valve to input, empty to 0.0 and wait;
        then the starting speed and the valve to output. Whenever it stops,
        what it sent is a beginning of that. */
    method Empty() returns (r: Result<()>)
      modifies this, driver`lastCommand, driver`lastReply, driver.port
      ensures r.Ok? ==> speed == old(speed) && valve == "o" && cmdPosition == Float(0)
      ensures driver.port != null ==> Begun(old(driver.Sent()), driver.Sent(), EmptyActions(old(speed)))
      ensures r.Ok? && driver.port != null ==> Extends(old(driver.Sent()), driver.Sent(), EmptyActions(old(speed)))
    {
      var start := speed;
      ghost var s0 := driver.Sent();
      ghost var a, b, c := SpeedCommand(Float(100000), true), ValveCommand("i"), SetPositionCommand(Float(0));
      ghost var e, f := SpeedCommand(start, true), ValveCommand("o");
      FiveSplits(a, b, c, e, f);
      r := Prepare(Float(100000));
      ghost var s1 := driver.Sent();
      if driver.port != null { FirstPhase(s0, s1, [a, b], [c] + [e, f]); }
      if r.Err? { return; }
      r := Stroke(Float(0));
      ghost var s2 := driver.Sent();
      if driver.port != null { Phase(s0, s1, s2, [a, b], [c], [e, f], true); }
      if r.Err? { return; }
      r := Finish(start);
      if driver.port != null { Phase(s0, s2, driver.Sent(), [a, b] + [c], [e, f], [], r.Ok?); }
    }

    /** prime(N): at 68 µL/s with the valve to input, N waited strokes to
        0.0 and back to 250.0; then the starting speed, the valve to output
        and a last busy read. Whenever it stops, what it sent is a
        beginning of that. */
    method Prime(n: nat) returns (r: Result<()>)
      modifies this, driver`lastCommand, driver`lastReply, driver.port
      ensures r.Ok? ==> speed == old(speed) && valve == "o"
      ensures r.Ok? && n > 0 ==> cmdPosition == Float(250000)
      ensures driver.port != null ==> Begun(old(driver.Sent()), driver.Sent(), PrimeActions(n, old(speed)))
      ensures r.Ok? && driver.port != null ==> Extends(old(driver.Sent()), driver.Sent(), PrimeActions(n, old(speed)))
    {
      var start := speed;
      ghost var s0 := driver.Sent();
      ghost var open := [SpeedCommand(Float(68000), true), ValveCommand("i")];
      ghost var close := [SpeedCommand(start, true), ValveCommand("o")];
      ghost var body := Strokes(n);
      ThreeSplits(open, body, close);
      r := Prepare(Float(68000));
      ghost var s1 := driver.Sent();
      if driver.port != null { FirstPhase(s0, s1, open, body + close); }
      if r.Err? { return; }
      r := StrokeRepeatedly(n);
      ghost var s2 := driver.Sent();
      if driver.port != null { Phase(s0, s1, s2, open, body, close, r.Ok?); }
      if r.Err? { return; }
      r := Finish(start);
      ghost var s3 := driver.Sent();
      if driver.port != null { Phase(s0, s2, s3, open + body, close, [], r.Ok?); }
      if r.Err? { return; }
      r := PollBusy();
      if driver.port != null {
        QuietAfter(s0, s3, driver.Sent(), open + body + close);
      }
    }

    /** A busy read whose flag is not used: one poll, nothing else sent. */
    method PollBusy() returns (r: Result<()>)
      modifies this`busy, this`error, this`errorCode, driver`lastCommand, driver`lastReply, driver.port
      ensures r.Ok? <==> BusyReading(old(driver.Answer(0))).Ok?
      ensures driver.port != null ==> Extends(old(driver.Sent()), driver.Sent(), [])
      ensures speed == old(speed) && valve == old(valve) && cmdPosition == old(cmdPosition)
    {
      ghost var s0 := driver.Sent();
      var b := GetBusy();
      if driver.port != null { ExtendsByPoll(s0, driver.Sent(), BusyQuery); }
      if b.Err? { return Err(b.error); }
      r := Ok(());
    }

    /** The loop of prime: n waited strokes to 0.0 and back to 250.0.
        Whenever it stops, what it sent is a beginning of those. */
    method StrokeRepeatedly(n: nat) returns (r: Result<()>)
      modifies this, driver`lastCommand, driver`lastReply, driver.port
      ensures r.Ok? ==> speed == old(speed) && valve == old(valve)
      ensures r.Ok? && n > 0 ==> cmdPosition == Float(250000)
      ensures driver.port != null ==> Begun(old(driver.Sent()), driver.Sent(), Strokes(n))
      ensures r.Ok? && driver.port != null ==> Extends(old(driver.Sent()), driver.Sent(), Strokes(n))
    {
      ghost var s0 := driver.Sent();
      if driver.port != null {
        ExtendsSelf(s0);
        assert Strokes(0) == [];
      }
      r := Ok(());
      for i := 0 to n
        invariant speed == old(speed) && valve == old(valve)
        invariant i > 0 ==> cmdPosition == Float(250000)
        invariant driver.port != null ==> Extends(s0, driver.Sent(), Strokes(i))
      {
        ghost var s1 := driver.Sent();
        r := Stroke(Float(0));
        ghost var s2 := driver.Sent();
        if driver.port != null {
          ExtendsTrans(s0, s1, s2, Strokes(i), [SetPositionCommand(Float(0))]);
          StrokesPrefix(i, n);
        }
        if r.Err? { return; }
        r := Stroke(Float(250000));
        if driver.port != null { StrokeTrace(s0, s1, s2, driver.Sent(), i); }
        if r.Err? { return; }
      }
    }

    /** The opening of fill, empty and prime: the script speed, the valve
        to input, and a wait. */
    method Prepare(scriptSpeed: Num) returns (r: Result<()>)
      modifies this, driver`lastCommand, driver`lastReply, driver.port
      ensures r.Ok? ==> speed == scriptSpeed && valve == "i" && cmdPosition == old(cmdPosition)
      ensures driver.port != null ==>
        Begun(old(driver.Sent()), driver.Sent(), [SpeedCommand(scriptSpeed, true), ValveCommand("i")])
      ensures r.Ok? && driver.port != null ==>
        Extends(old(driver.Sent()), driver.Sent(), [SpeedCommand(scriptSpeed, true), ValveCommand("i")])
    {
      ghost var s0 := driver.Sent();
      ScriptFramesAreActions(scriptSpeed, true, NaN, NaN);
      r := SetSpeed(scriptSpeed);
      ghost var s1 := driver.Sent();
      if driver.port != null { FirstOfTwo(s0, s1, SpeedCommand(scriptSpeed, true), ValveCommand("i")); }
      if r.Err? { return; }
      r := SetValve("i");
      ghost var s2 := driver.Sent();
      if driver.port != null { TwoActions(s0, s1, s2, SpeedCommand(scriptSpeed, true), ValveCommand("i")); }
      if r.Err? { return; }
      r := Wait();
      if driver.port != null {
        QuietAfter(s0, s2, driver.Sent(), [SpeedCommand(scriptSpeed, true), ValveCommand("i")]);
      }
    }

    /** One waited move of the scripts: set_cmd_position, then wait. The
        position frame goes out even when a query raises. */
    method Stroke(target: Num) returns (r: Result<()>)
      modifies this, driver`lastCommand, driver`lastReply, driver.port
      ensures r.Ok? ==> speed == old(speed) && valve == old(valve) && cmdPosition == target
      ensures driver.port != null ==>
        Extends(old(driver.Sent()), driver.Sent(), [SetPositionCommand(target)])
    {
      ghost var s0 := driver.Sent();
      ScriptFramesAreActions(NaN, true, target, NaN);
      r := SetCmdPosition(target);
      ghost var s1 := driver.Sent();
      if driver.port != null { ExtendsByAction(s0, s1, SetPositionCommand(target)); }
      if r.Err? { return; }
      r := Wait();
      if driver.port != null { QuietAfter(s0, s1, driver.Sent(), [SetPositionCommand(target)]); }
    }

    /** The close of fill, empty and prime: the starting speed back and the
        valve to output. */
    method Finish(start: Num) returns (r: Result<()>)
      modifies this, driver`lastCommand, driver`lastReply, driver.port
      ensures r.Ok? ==> speed == start && valve == "o" && cmdPosition == old(cmdPosition)
      ensures driver.port != null ==>
        Begun(old(driver.Sent()), driver.Sent(), [SpeedCommand(start, true), ValveCommand("o")])
      ensures r.Ok? && driver.port != null ==>
        Extends(old(driver.Sent()), driver.Sent(), [SpeedCommand(start, true), ValveCommand("o")])
    {
      ghost var s0 := driver.Sent();
      ScriptFramesAreActions(start, true, NaN, NaN);
      r := SetSpeed(start);
      ghost var s1 := driver.Sent();
      if driver.port != null { FirstOfTwo(s0, s1, SpeedCommand(start, true), ValveCommand("o")); }
      if r.Err? { return; }
      r := SetValve("o");
      if driver.port != null { TwoActions(s0, s1, driver.Sent(), SpeedCommand(start, true), ValveCommand("o")); }
    }
  }
}
