/**
 * The trade collector's message handler: every decoded trade becomes one
 * row appended to a tabular store (a header line goes first only when the
 * store file does not exist yet), a session counter goes up by one, and once
 * the counter reaches the trade limit the handler asks the connection to
 * close.
 *
 * `Receive` is the specification of one handler call on an abstract
 * session; `TradeRecorder.OnMessage` is the handler itself, updating the
 * recorder's fields in place, and is proved to follow `Receive`.  `Replay`
 * runs `Receive` over a sequence of frames, and the lemmas state what a whole
 * run does to the store, the counter and the close request.
 */
module CollectData {
  import opened Wrappers
  import opened TradeMessage

  /** MAX_TRADES: the value in the source is 5000 (its comment says 100). */
  const MaxTrades: nat := 5000

  /** One line of the store: the header naming the five columns, or a trade. */
  datatype Line = Header | Data(row: Row)

  /**
   * What one handler call can observe and change: whether the store file
   * exists, its lines, the module-wide trade counter and whether the
   * connection has been asked to close.
   */
  datatype Session = Session(fileExists: bool, lines: seq<Line>, count: nat, closeRequested: bool)

  /** The result of one handler call: the row stored, or the fault raised. */
  datatype Outcome = Recorded(row: Row, closing: bool) | Raised(fault: Fault)

  datatype Transition = Transition(after: Session, outcome: Outcome)

  /** One frame as delivered: the raw message and the time it was received. */
  datatype Frame = Frame(message: string, receivedAt: string)

  /** A file that does not exist has no lines. */
  predicate Consistent(s: Session) {
    s.fileExists || s.lines == []
  }

  /** The store this program writes: absent, or one header followed by trades only. */
  predicate WellFormed(s: Session) {
    if !s.fileExists then s.lines == []
    else
      |s.lines| > 0 && s.lines[0] == Header &&
      forall i :: 0 < i < |s.lines| ==> s.lines[i].Data?
  }

  /** The state at process start: the counter is 0, the store is what is on disk. */
  function Start(fileExists: bool, lines: seq<Line>): (s: Session)
    requires fileExists || lines == []
    ensures Consistent(s) && s.count == 0 && !s.closeRequested
    ensures s.fileExists == fileExists && s.lines == lines
  {
    Session(fileExists, lines, 0, false)
  }

  /** The data lines for a sequence of rows, in order. */
  function DataLines(rows: seq<Row>): (ls: seq<Line>)
    ensures |ls| == |rows|
  {
    if rows == [] then [] else [Data(rows[0])] + DataLines(rows[1..])
  }

  /** The i-th data line holds the i-th row. */
  lemma {:induction false} DataLinesAt(rows: seq<Row>, i: nat)
    requires i < |rows|
    ensures DataLines(rows)[i] == Data(rows[i])
  {
    if i > 0 {
      DataLinesAt(rows[1..], i - 1);
    }
  }

  /**
   * One call of the handler.  Decoding and the field mapping come first and
   * may raise; only then is the store appended to (header first if the file
   * did not exist), the counter incremented and, when the new count has
   * reached the limit, the connection asked to close.
   */
  function Receive(s: Session, maxTrades: nat, parsers: Parsers, frame: Frame): (t: Transition)
    ensures t.outcome.Recorded? <==> ParseFrame(parsers, frame.message, frame.receivedAt).Success?
    ensures t.outcome.Raised? ==>
      t.outcome.fault == ParseFrame(parsers, frame.message, frame.receivedAt).error && t.after == s
    ensures t.outcome.Recorded? ==>
      t.outcome.row == ParseFrame(parsers, frame.message, frame.receivedAt).value &&
      t.after.lines == s.lines + (if s.fileExists then [] else [Header]) + [Data(t.outcome.row)] &&
      t.after.fileExists &&
      t.after.count == s.count + 1 &&
      (t.outcome.closing <==> t.after.count >= maxTrades) &&
      t.after.closeRequested == (s.closeRequested || t.outcome.closing)
    ensures Consistent(s) ==> Consistent(t.after)
  {
    match ParseFrame(parsers, frame.message, frame.receivedAt)
    case Failure(fault) => Transition(s, Raised(fault))
    case Success(row) =>
      var header := if s.fileExists then [] else [Header];
      var count := s.count + 1;
      var closing := count >= maxTrades;
      Transition(
        Session(true, s.lines + header + [Data(row)], count, s.closeRequested || closing),
        Recorded(row, closing))
  }

  /** The handler called on each frame in turn. */
  function Replay(s: Session, maxTrades: nat, parsers: Parsers, frames: seq<Frame>): Session
    decreases |frames|
  {
    if frames == [] then s
    else Replay(Receive(s, maxTrades, parsers, frames[0]).after, maxTrades, parsers, frames[1..])
  }

  /** The rows of the frames the handler accepts, in arrival order. */
  function Accepted(parsers: Parsers, frames: seq<Frame>): (rows: seq<Row>)
    ensures |rows| <= |frames|
  {
    if frames == [] then []
    else
      match ParseFrame(parsers, frames[0].message, frames[0].receivedAt)
      case Success(row) => [row] + Accepted(parsers, frames[1..])
      case Failure(_) => Accepted(parsers, frames[1..])
  }

  /** The first frame of a run either adds its row to the accepted rows or adds nothing. */
  lemma AcceptedFirst(parsers: Parsers, frames: seq<Frame>)
    requires frames != []
    ensures var p := ParseFrame(parsers, frames[0].message, frames[0].receivedAt);
      Accepted(parsers, frames) ==
        (if p.Success? then [p.value] else []) + Accepted(parsers, frames[1..])
  {
  }

  /**
   * The store after a run: everything already stored is kept, then comes a
   * header only if the file did not exist and some frame was accepted, then
   * one data line per accepted frame in arrival order.
   */
  lemma {:induction false} ReplayLines(s: Session, maxTrades: nat, parsers: Parsers, frames: seq<Frame>)
    ensures var rows := Accepted(parsers, frames);
      var r := Replay(s, maxTrades, parsers, frames);
      r.lines == s.lines + (if !s.fileExists && rows != [] then [Header] else []) + DataLines(rows) &&
      r.fileExists == (s.fileExists || rows != [])
    decreases |frames|
  {
    if frames != [] {
      var t := Receive(s, maxTrades, parsers, frames[0]);
      ReplayLines(t.after, maxTrades, parsers, frames[1..]);
      AcceptedFirst(parsers, frames);
      var rest := Accepted(parsers, frames[1..]);
      if t.outcome.Recorded? {
        var row := t.outcome.row;
        assert DataLines([row] + rest) == [Data(row)] + DataLines(rest);
      }
    }
  }

  /** The counter rises by exactly the number of accepted frames. */
  lemma {:induction false} ReplayCount(s: Session, maxTrades: nat, parsers: Parsers, frames: seq<Frame>)
    ensures Replay(s, maxTrades, parsers, frames).count == s.count + |Accepted(parsers, frames)|
    decreases |frames|
  {
    if frames != [] {
      var t := Receive(s, maxTrades, parsers, frames[0]);
      ReplayCount(t.after, maxTrades, parsers, frames[1..]);
      AcceptedFirst(parsers, frames);
    }
  }

  /**
   * Close has been requested after a run exactly when it had been before, or
   * some frame was accepted and the final count reached the limit.
   */
  lemma {:induction false} ReplayClose(s: Session, maxTrades: nat, parsers: Parsers, frames: seq<Frame>)
    ensures var rows := Accepted(parsers, frames);
      Replay(s, maxTrades, parsers, frames).closeRequested ==
        (s.closeRequested || (rows != [] && s.count + |rows| >= maxTrades))
    decreases |frames|
  {
    if frames != [] {
      var t := Receive(s, maxTrades, parsers, frames[0]);
      ReplayClose(t.after, maxTrades, parsers, frames[1..]);
      AcceptedFirst(parsers, frames);
    }
  }

  /** The counter never decreases over a run, and neither does the store. */
  lemma CountNeverDecreases(s: Session, maxTrades: nat, parsers: Parsers, frames: seq<Frame>)
    ensures var r := Replay(s, maxTrades, parsers, frames);
      r.count >= s.count && s.lines <= r.lines && (s.fileExists ==> r.fileExists)
  {
    ReplayLines(s, maxTrades, parsers, frames);
    ReplayCount(s, maxTrades, parsers, frames);
  }

  /**
   * From process start with no store file, after a run the store holds
   * exactly one header followed by one data line per accepted frame, in
   * arrival order, the counter equals the number of accepted frames, and
   * close has been requested exactly when that number has reached the limit
   * (and is not zero).
   */
  lemma FreshRun(maxTrades: nat, parsers: Parsers, frames: seq<Frame>)
    ensures var rows := Accepted(parsers, frames);
      var r := Replay(Start(false, []), maxTrades, parsers, frames);
      r.lines == (if rows == [] then [] else [Header] + DataLines(rows)) &&
      r.count == |rows| &&
      r.closeRequested == (rows != [] && |rows| >= maxTrades)
  {
    ReplayLines(Start(false, []), maxTrades, parsers, frames);
    ReplayCount(Start(false, []), maxTrades, parsers, frames);
    ReplayClose(Start(false, []), maxTrades, parsers, frames);
  }

  /** A run keeps the store well formed: the header stays the first and only one. */
  lemma ReplayKeepsWellFormed(s: Session, maxTrades: nat, parsers: Parsers, frames: seq<Frame>)
    requires WellFormed(s)
    ensures WellFormed(Replay(s, maxTrades, parsers, frames))
  {
    ReplayLines(s, maxTrades, parsers, frames);
    var rows := Accepted(parsers, frames);
    var r := Replay(s, maxTrades, parsers, frames);
    var header := if !s.fileExists && rows != [] then [Header] else [];
    assert r.lines == s.lines + header + DataLines(rows);
    forall i | 0 < i < |r.lines| ensures r.lines[i].Data? {
      if i >= |s.lines| + |header| {
        assert r.lines[i] == DataLines(rows)[i - |s.lines| - |header|];
        DataLinesAt(rows, i - |s.lines| - |header|);
      }
    }
  }

  /** A new process: the counter and the close request start afresh, the store is kept. */
  function Restart(s: Session): (r: Session)
    ensures r.fileExists == s.fileExists && r.lines == s.lines
    ensures r.count == 0 && !r.closeRequested
  {
    Session(s.fileExists, s.lines, 0, false)
  }

  /** Several processes, one after another, each running over its own frames. */
  function Runs(s: Session, maxTrades: nat, parsers: Parsers, runs: seq<seq<Frame>>): Session
    decreases |runs|
  {
    if runs == [] then s
    else Runs(Replay(Restart(s), maxTrades, parsers, runs[0]), maxTrades, parsers, runs[1..])
  }

  /**
   * However many processes append to the same store, the header is written
   * once: a store that starts absent (or well formed) stays a single header
   * followed by trades only.
   */
  lemma {:induction false} RunsKeepWellFormed(s: Session, maxTrades: nat, parsers: Parsers, runs: seq<seq<Frame>>)
    requires WellFormed(s)
    ensures WellFormed(Runs(s, maxTrades, parsers, runs))
    decreases |runs|
  {
    if runs != [] {
      ReplayKeepsWellFormed(Restart(s), maxTrades, parsers, runs[0]);
      RunsKeepWellFormed(Replay(Restart(s), maxTrades, parsers, runs[0]), maxTrades, parsers, runs[1..]);
    }
  }

  /** The data lines of two row sequences, one after the other. */
  lemma {:induction false} DataLinesAppend(a: seq<Row>, b: seq<Row>)
    ensures DataLines(a + b) == DataLines(a) + DataLines(b)
    decreases |a|
  {
    if a != [] {
      assert (a + b)[1..] == a[1..] + b;
      DataLinesAppend(a[1..], b);
    } else {
      assert a + b == b;
    }
  }

  /** The rows every process accepts, process after process, each in arrival order. */
  function AllAccepted(parsers: Parsers, runs: seq<seq<Frame>>): (rows: seq<Row>)
    decreases |runs|
  {
    if runs == [] then [] else Accepted(parsers, runs[0]) + AllAccepted(parsers, runs[1..])
  }

  /**
   * However many processes append to the same store, everything already
   * stored is kept, a header follows only if the file did not exist and some
   * frame was accepted, and then come the rows of every process's accepted
   * frames, in order, none lost and none repeated.
   */
  lemma {:induction false} RunsLines(s: Session, maxTrades: nat, parsers: Parsers, runs: seq<seq<Frame>>)
    ensures var rows := AllAccepted(parsers, runs);
      Runs(s, maxTrades, parsers, runs).lines ==
        s.lines + (if !s.fileExists && rows != [] then [Header] else []) + DataLines(rows)
    decreases |runs|
  {
    if runs != [] {
      var first := Accepted(parsers, runs[0]);
      var rest := AllAccepted(parsers, runs[1..]);
      var next := Replay(Restart(s), maxTrades, parsers, runs[0]);
      ReplayLines(Restart(s), maxTrades, parsers, runs[0]);
      RunsLines(next, maxTrades, parsers, runs[1..]);
      DataLinesAppend(first, rest);
    }
  }

  /**
   * Two well-formed trades around a frame that is not JSON, with a limit of
   * two: the bad frame stores nothing and does not close the connection, the
   * store ends with the header and the two trades in order, and close is
   * requested after the second trade.
   */
  lemma TwoTradesAroundBadFrame(parsers: Parsers, m1: string, m2: string, m3: string, t1: string, t2: string, t3: string)
    requires parsers.loads(m1) == Some(JObject(map[
      "p" := JString("50000.00"), "q" := JString("0.001"), "T" := JInt(1700000000000), "m" := JBool(false)]))
    requires parsers.loads(m2) == None
    requires parsers.loads(m3) == Some(JObject(map[
      "p" := JString("50010.50"), "q" := JString("0.002"), "T" := JInt(1700000000500), "m" := JBool(true)]))
    requires parsers.toFloat(JString("50000.00")) == Some(50000.00)
    requires parsers.toFloat(JString("0.001")) == Some(0.001)
    requires parsers.toFloat(JString("50010.50")) == Some(50010.50)
    requires parsers.toFloat(JString("0.002")) == Some(0.002)
    ensures var frames := [Frame(m1, t1), Frame(m2, t2), Frame(m3, t3)];
      var r := Replay(Start(false, []), 2, parsers, frames);
      !Replay(Start(false, []), 2, parsers, frames[..2]).closeRequested &&
      r.lines == [
        Header,
        Data(Row(t1, 50000.00, 0.001, JInt(1700000000000), JBool(false))),
        Data(Row(t3, 50010.50, 0.002, JInt(1700000000500), JBool(true)))] &&
      r.count == 2 && r.closeRequested
  {
    var frames := [Frame(m1, t1), Frame(m2, t2), Frame(m3, t3)];
    var row1 := Row(t1, 50000.00, 0.001, JInt(1700000000000), JBool(false));
    var row3 := Row(t3, 50010.50, 0.002, JInt(1700000000500), JBool(true));
    AcceptedFirst(parsers, frames);
    AcceptedFirst(parsers, frames[1..]);
    AcceptedFirst(parsers, frames[2..]);
    assert Accepted(parsers, frames) == [row1, row3];
    assert frames[..2][1..] == frames[1..2];
    AcceptedFirst(parsers, frames[..2]);
    AcceptedFirst(parsers, frames[1..2]);
    assert Accepted(parsers, frames[..2]) == [row1];
    FreshRun(2, parsers, frames);
    FreshRun(2, parsers, frames[..2]);
    assert DataLines([row1, row3]) == [Data(row1), Data(row3)];
  }

  /**
   * The recorder of one process: the store file it appends to, the
   * module-wide counter and the close request it makes on the connection.
   */
  class TradeRecorder {
    const maxTrades: nat
    const parsers: Parsers
    var fileExists: bool
    var lines: seq<Line>
    var count: nat
    var closeRequested: bool

    function State(): Session
      reads this
    {
      Session(fileExists, lines, count, closeRequested)
    }

    /**
     * The disk's own invariant, that an absent file has no lines; it is kept
     * by every method, but the handler's behaviour does not depend on it.
     */
    predicate Valid()
      reads this
    {
      Consistent(State())
    }

    /** Process start: the counter is 0 and the store is whatever is on disk. */
    constructor (maxTrades: nat, parsers: Parsers, fileExists: bool, lines: seq<Line>)
      requires fileExists || lines == []
      ensures Valid()
      ensures this.maxTrades == maxTrades && this.parsers == parsers
      ensures State() == Start(fileExists, lines)
    {
      this.maxTrades := maxTrades;
      this.parsers := parsers;
      this.fileExists := fileExists;
      this.lines := lines;
      this.count := 0;
      this.closeRequested := false;
    }

    /**
     * The handler.  A fault is returned where the handler raises; in that
     * case nothing has been written or counted.
     */
    method OnMessage(message: string, receivedAt: string) returns (outcome: Outcome)
      requires Valid()
      modifies this
      ensures Valid()
      ensures Transition(State(), outcome) == Receive(old(State()), maxTrades, parsers, Frame(message, receivedAt))
    {
      var data: Json;
      match parsers.loads(message) {
        case None =>
          return Raised(BadJson);
        case Some(d) =>
          data := d;
      }
      var parsed := ParseTrade(data, receivedAt, parsers.toFloat);
      if parsed.Failure? {
        return Raised(parsed.error);
      }
      var row := parsed.value;
      var header := !fileExists;
      if header {
        lines := lines + [Header];
      }
      lines := lines + [Data(row)];
      fileExists := true;
      count := count + 1;
      var closing := count >= maxTrades;
      if closing {
        closeRequested := true;
      }
      outcome := Recorded(row, closing);
    }
  }
}
