/**
 * The message layer of the threaded uArm API. Commands go out as
 * `#<id> <command>` lines through a FIFO send queue; the arm answers with
 * `$<id> <tokens>` lines that land in a table keyed by id, and also sends a
 * readiness line and unsolicited position reports. The two background
 * threads are modelled by their loop bodies as methods the caller steps:
 * ProcessLine for the receiver, RunSender for the sender.
 */
module UArmLink {
  import opened Wrappers
  import opened Text
  import ListUArms
  import UArmReplies

  /** The constants of the wire protocol this model does not fix: the
      readiness line, the position report prefix, the OK token and the
      firmware version query. */
  datatype Protocol = Protocol(ready: string, reportPositionPrefix: string, ok: string, getFirmwareVersion: string)

  // ---------------------------------------------------------------------------
  // UArmConnectException

  /** The error text `UArmConnectException` attaches to each errno. */
  function ErrorText(errno: int): (text: string)
    ensures errno == 4 <==> text == "uArm is not connected"
    ensures errno == 3 <==> text == "No available uArm Port"
    ensures errno == 0 <==> text == "Unable to connect uArm"
    ensures errno == 1 <==> text == "Unknown Firmware Version"
    ensures errno == 2 <==> text == "Unsupported uArm Firmware Version"
    ensures !(0 <= errno <= 4) <==> text == "Not Defined Error"
  {
    if errno == 0 then "Unable to connect uArm"
    else if errno == 1 then "Unknown Firmware Version"
    else if errno == 2 then "Unsupported uArm Firmware Version"
    else if errno == 3 then "No available uArm Port"
    else if errno == 4 then "uArm is not connected"
    else "Not Defined Error"
  }

  /** The text `str()` shows, before `repr` quotes it: error, a dash and the
      message, an absent message counting as empty. */
  function ExceptionText(errno: int, message: Option<string>): (text: string)
    ensures StartsWith(text, ErrorText(errno) + "-")
    ensures message.None? ==> text == ErrorText(errno) + "-"
    ensures message.Some? ==> text[|ErrorText(errno)| + 1..] == message.value
  {
    ErrorText(errno) + "-" + (if message.Some? then message.value else "")
  }

  /** An exception raised inside a decorated method, which the decorator
      logs and turns into a `None` result. */
  datatype Failure = UArmConnectException(errno: int) | AttributeError

  // ---------------------------------------------------------------------------
  // Sequence ids

  const MaxSerialId: int := 65535

  /** `__gen_serial_id`: the next id, wrapping from 65535 back to 1, so id 0
      is never issued. */
  function NextSerialId(n: int): (r: int)
    requires 1 <= n <= MaxSerialId
    ensures 1 <= r <= MaxSerialId
    ensures r != n
  {
    if n == MaxSerialId then 1 else n + 1
  }

  /** The wrap-around is arithmetic modulo 65535, shifted by one. */
  lemma NextSerialIdWraps(n: int)
    requires 1 <= n <= MaxSerialId
    ensures NextSerialId(n) == n % MaxSerialId + 1
  {
    if n < MaxSerialId {
      ModBelow(n);
    }
  }

  /** The id after `k` more requests. */
  function SerialIdAfter(n: int, k: nat): (r: int)
    requires 1 <= n <= MaxSerialId
    ensures 1 <= r <= MaxSerialId
  {
    if k == 0 then n else NextSerialId(SerialIdAfter(n, k - 1))
  }

  lemma {:induction false} SerialIdAfterIs(n: int, k: nat)
    requires 1 <= n <= MaxSerialId
    ensures SerialIdAfter(n, k) == (n - 1 + k) % MaxSerialId + 1
  {
    if k > 0 {
      SerialIdAfterIs(n, k - 1);
      var m := (n - 1 + k - 1) % MaxSerialId;
      NextSerialIdWraps(SerialIdAfter(n, k - 1));
      assert SerialIdAfter(n, k) == (m + 1) % MaxSerialId + 1;
      ModSucc(n - 1 + k - 1);
    }
  }

  lemma ModSucc(x: int)
    requires x >= 0
    ensures (x % MaxSerialId + 1) % MaxSerialId == (x + 1) % MaxSerialId
  {
  }

  /** An id comes back only after 65535 requests: fewer never repeat the
      id they started from. Connect starts the counter at 1, so the first
      id a connection issues is 2. */
  lemma IdsRepeatOnlyAfterFullCycle(n: int, k: nat)
    requires 1 <= n <= MaxSerialId
    ensures 0 < k < MaxSerialId ==> SerialIdAfter(n, k) != n
    ensures SerialIdAfter(n, MaxSerialId) == n
    ensures SerialIdAfter(1, 1) == 2
  {
    if 0 < k < MaxSerialId {
      SerialIdAfterWithinCycle(n, k);
    }
    SerialIdAfterWithinCycle(n, MaxSerialId as nat);
  }

  /** Within one cycle the id only counts up, passing 65535 at most once. */
  lemma {:induction false} SerialIdAfterWithinCycle(n: int, k: nat)
    requires 1 <= n <= MaxSerialId && k <= MaxSerialId
    ensures SerialIdAfter(n, k) == if n + k <= MaxSerialId then n + k else n + k - MaxSerialId
  {
    if k > 0 {
      SerialIdAfterWithinCycle(n, k - 1);
    }
  }

  lemma ModBelow(x: int)
    requires 0 <= x < MaxSerialId
    ensures x % MaxSerialId == x
  {
  }


  // ---------------------------------------------------------------------------
  // Outbound frames and the send queue

  /** `'#{} {}'.format(id, msg)`: the line written for one request, both by
      the sender thread and by `send_msg`. */
  function Frame(id: nat, msg: string): string {
    "#" + DecimalString(id) + " " + msg
  }

  /** An entry of the send queue: a request, or the `None` that stops the
      sender. */
  datatype QueueItem = Request(id: nat, msg: string) | Stop

  /** The frames the sender writes for a queue: one per request, in queue
      order, up to the first Stop. */
  function FramesBeforeStop(q: seq<QueueItem>): seq<string> {
    if q == [] || q[0].Stop? then []
    else [Frame(q[0].id, q[0].msg)] + FramesBeforeStop(q[1..])
  }

  /** What is left in the queue once the sender has met the first Stop. */
  function AfterStop(q: seq<QueueItem>): seq<QueueItem> {
    if q == [] then []
    else if q[0].Stop? then q[1..]
    else AfterStop(q[1..])
  }

  /** With no Stop in the queue, frame k is exactly request k. */
  lemma {:induction false} SenderWritesInOrder(q: seq<QueueItem>)
    requires forall k :: 0 <= k < |q| ==> q[k].Request?
    ensures |FramesBeforeStop(q)| == |q|
    ensures forall k :: 0 <= k < |q| ==> FramesBeforeStop(q)[k] == Frame(q[k].id, q[k].msg)
  {
    if q != [] {
      SenderWritesInOrder(q[1..]);
      assert forall k :: 1 <= k < |q| ==> q[k] == q[1..][k - 1];
    }
  }

  /** A Stop ends the writing: nothing queued after it is written, and it is
      the last item taken from the queue. */
  lemma {:induction false} SenderStopsAtSentinel(before: seq<QueueItem>, after: seq<QueueItem>)
    requires forall k :: 0 <= k < |before| ==> before[k].Request?
    ensures FramesBeforeStop(before + [Stop] + after) == FramesBeforeStop(before)
    ensures AfterStop(before + [Stop] + after) == after
  {
    var q := before + [Stop] + after;
    if before == [] {
      assert q[0] == Stop && q[1..] == after;
    } else {
      assert q[0] == before[0];
      assert q[1..] == before[1..] + [Stop] + after;
      SenderStopsAtSentinel(before[1..], after);
    }
  }

  // ---------------------------------------------------------------------------
  // Inbound lines

  /** What `__process_line` makes of one line. */
  datatype LineEvent =
    | Response(id: int, fields: seq<string>)  // `$<id> <tokens>`
    | Ready                                   // the readiness line
    | Position(coords: seq<string>)           // a position report
    | Malformed                               // raised; the receive loop logs it
    | Ignored                                 // no known prefix

  /** The classifier, in the order the source tests the prefixes. */
  function Classify(p: Protocol, line: string): LineEvent {
    if StartsWith(line, "$") then
      var values := Split(line, ' ');
      match ParseInt(RemoveChar(values[0], '$'))
      case None => Malformed
      case Some(id) => Response(id, values[1..])
    else if StartsWith(line, p.ready) then Ready
    else if StartsWith(line, p.reportPositionPrefix) then
      var values := Split(line, ' ');
      if |values| < 4 then Malformed
      else Position([UArmReplies.Untagged(values[1]), UArmReplies.Untagged(values[2]),
                     UArmReplies.Untagged(values[3])])
    else Ignored
  }

  /** The state the receiver updates: the correlation table `msg_buff`, the
      readiness flag and the LIFO position queue (its last element is the
      top). */
  datatype RxState = RxState(msgBuff: map<int, seq<string>>, isReady: bool, positions: seq<seq<string>>)

  function Apply(st: RxState, e: LineEvent): RxState {
    match e
    case Response(id, fields) => st.(msgBuff := st.msgBuff[id := fields])
    case Ready => st.(isReady := true)
    case Position(coords) => st.(positions := st.positions + [coords])
    case Malformed => st
    case Ignored => st
  }

  /** The receiver's effect of one line. */
  function Receive(p: Protocol, st: RxState, line: string): RxState {
    Apply(st, Classify(p, line))
  }

  /** A `$` line stores the tokens after its first under the id that token
      spells, replacing an earlier entry, and touches nothing else; a `$`
      line whose id is not an integer changes nothing. */
  lemma ResponseLineEffect(p: Protocol, st: RxState, line: string)
    requires StartsWith(line, "$")
    ensures var values := Split(line, ' ');
      match ParseInt(RemoveChar(values[0], '$'))
      case None => Receive(p, st, line) == st
      case Some(id) =>
        && Receive(p, st, line).msgBuff == st.msgBuff[id := values[1..]]
        && Receive(p, st, line).isReady == st.isReady
        && Receive(p, st, line).positions == st.positions
  {
  }

  /** Correlation: a line leaves the entry of every id but its own alone. */
  lemma OtherIdsUntouched(p: Protocol, st: RxState, line: string, id: int)
    requires !(Classify(p, line).Response? && Classify(p, line).id == id)
    ensures id in Receive(p, st, line).msgBuff <==> id in st.msgBuff
    ensures id in st.msgBuff ==> Receive(p, st, line).msgBuff[id] == st.msgBuff[id]
  {
  }

  /** A line that does not start with `$` but starts with the readiness
      token sets the flag and changes nothing else. */
  lemma ReadyLineEffect(p: Protocol, st: RxState, line: string)
    requires !StartsWith(line, "$") && StartsWith(line, p.ready)
    ensures Receive(p, st, line) == st.(isReady := true)
  {
  }

  /** A position report pushes exactly one item, the three fields after the
      prefix token with their tags dropped; too few fields change nothing. */
  lemma PositionLineEffect(p: Protocol, st: RxState, line: string)
    requires !StartsWith(line, "$") && !StartsWith(line, p.ready)
    requires StartsWith(line, p.reportPositionPrefix)
    ensures var values := Split(line, ' ');
      var st' := Receive(p, st, line);
      if |values| < 4 then st' == st
      else
        && st'.msgBuff == st.msgBuff && st'.isReady == st.isReady
        && |st'.positions| == |st.positions| + 1
        && st'.positions[..|st.positions|] == st.positions
        && |st'.positions[|st.positions|]| == 3
        && forall k :: 0 <= k < 3 ==> st'.positions[|st.positions|][k] == UArmReplies.Untagged(values[k + 1])
  {
    var values := Split(line, ' ');
    var st' := Receive(p, st, line);
    if |values| >= 4 {
      assert st'.positions == st.positions + [[UArmReplies.Untagged(values[1]),
        UArmReplies.Untagged(values[2]), UArmReplies.Untagged(values[3])]];
    }
  }

  /** A line with none of the three prefixes changes nothing. */
  lemma UnmatchedLineEffect(p: Protocol, st: RxState, line: string)
    requires !StartsWith(line, "$") && !StartsWith(line, p.ready)
    requires !StartsWith(line, p.reportPositionPrefix)
    ensures Receive(p, st, line) == st
  {
  }

  /** The response line the arm sends for id `id` with the given tokens. */
  function ResponseLine(id: nat, fields: seq<string>): string {
    JoinWith(["$" + DecimalString(id)] + fields, ' ')
  }

  /** Round trip: the classifier recovers the id and the tokens of a
      response line, whatever tokens (without spaces) it carries. */
  lemma ResponseLineRoundTrip(p: Protocol, id: nat, fields: seq<string>)
    requires forall k :: 0 <= k < |fields| ==> ' ' !in fields[k]
    ensures Classify(p, ResponseLine(id, fields)) == Response(id, fields)
  {
    var head := "$" + DecimalString(id);
    var pieces := [head] + fields;
    var line := ResponseLine(id, fields);
    assert ' ' !in DecimalString(id) && '$' !in DecimalString(id) by {
      assert forall i :: 0 <= i < |DecimalString(id)| ==> IsDigit(DecimalString(id)[i]);
    }
    assert Split(line, ' ') == pieces by {
      assert ' ' !in head;
      forall k | 0 <= k < |pieces| ensures ' ' !in pieces[k] {
        if k > 0 { assert pieces[k] == fields[k - 1]; }
      }
      SplitJoin(pieces, ' ');
    }
    assert StartsWith(line, "$") by {
      if |pieces| == 1 {
        assert line == head;
      } else {
        assert line == head + [' '] + JoinWith(pieces[1..], ' ');
      }
    }
    assert ParseInt(RemoveChar(head, '$')) == Some(id) by {
      assert RemoveChar(head, '$') == RemoveChar(DecimalString(id), '$');
      DecimalRoundTrip(id);
    }
    assert pieces[0] == head && pieces[1..] == fields;
  }

  /** An outbound frame echoed back with `$` in place of `#` is read as a
      response for the same id whose tokens join back into the payload. */
  lemma FrameEchoRoundTrip(p: Protocol, id: nat, msg: string)
    ensures var echo := "$" + Frame(id, msg)[1..];
      && Classify(p, echo) == Response(id, Split(msg, ' '))
      && JoinWith(Split(msg, ' '), ' ') == msg
  {
    var tokens := Split(msg, ' ');
    var head := "$" + DecimalString(id);
    JoinSplit(msg, ' ');
    assert Frame(id, msg)[1..] == DecimalString(id) + " " + msg;
    JoinConsHead([head] + tokens);
    assert ([head] + tokens)[1..] == tokens;
    assert ResponseLine(id, tokens) == "$" + Frame(id, msg)[1..];
    SplitPiecesFree(msg, ' ');
    ResponseLineRoundTrip(p, id, tokens);
  }

  lemma JoinConsHead(pieces: seq<string>)
    requires |pieces| >= 2
    ensures JoinWith(pieces, ' ') == pieces[0] + " " + JoinWith(pieces[1..], ' ')
  {
  }

  /** The caller's wait in `send_and_receive`: it looks for its id in the
      table before each line the receiver handles during the timeout and
      once after the last; `lines` are the lines the receiver handles before
      the timeout ends. The first component is the answer (None: timed out),
      the second the receiver state at that point. */
  function Await(p: Protocol, st: RxState, id: int, lines: seq<string>): (Option<seq<string>>, RxState)
    decreases |lines|
  {
    if id in st.msgBuff then (Some(st.msgBuff[id]), st)
    else if lines == [] then (None, st)
    else Await(p, Receive(p, st, lines[0]), id, lines[1..])
  }

  /** Correlation: an answer the wait returns is the token list of a line
      that carried the caller's own id, never one for another id. */
  lemma {:induction false} AwaitAnswersOnlyItsId(p: Protocol, st: RxState, id: int, lines: seq<string>)
    requires id !in st.msgBuff
    ensures Await(p, st, id, lines).0.Some? ==>
      exists i :: 0 <= i < |lines| && Classify(p, lines[i]) == Response(id, Await(p, st, id, lines).0.value)
    decreases |lines|
  {
    if lines != [] {
      var st' := Receive(p, st, lines[0]);
      if id in st'.msgBuff {
        assert Await(p, st, id, lines).0 == Some(st'.msgBuff[id]);
        assert Classify(p, lines[0]) == Response(id, st'.msgBuff[id]);
      } else {
        AwaitAnswersOnlyItsId(p, st', id, lines[1..]);
        var r := Await(p, st', id, lines[1..]).0;
        if r.Some? {
          var i :| 0 <= i < |lines[1..]| && Classify(p, lines[1..][i]) == Response(id, r.value);
          assert lines[i + 1] == lines[1..][i];
        }
      }
    }
  }

  /** The wait returns the tokens of the first line for its id, whatever
      lines for other ids come before it. */
  lemma {:induction false} AwaitFindsFirstResponse(p: Protocol, st: RxState, id: int, lines: seq<string>, i: nat, fields: seq<string>)
    requires id !in st.msgBuff
    requires i < |lines| && Classify(p, lines[i]) == Response(id, fields)
    requires forall j :: 0 <= j < i ==> !(Classify(p, lines[j]).Response? && Classify(p, lines[j]).id == id)
    ensures Await(p, st, id, lines).0 == Some(fields)
    decreases i
  {
    var st' := Receive(p, st, lines[0]);
    if i > 0 {
      OtherIdsUntouched(p, st, lines[0], id);
      assert forall j :: 0 <= j < i - 1 ==> lines[1..][j] == lines[j + 1];
      AwaitFindsFirstResponse(p, st', id, lines[1..], i - 1, fields);
    }
  }

  /** With no line for its id and no stale entry, the wait times out. */
  lemma {:induction false} AwaitTimesOut(p: Protocol, st: RxState, id: int, lines: seq<string>)
    requires id !in st.msgBuff
    requires forall j :: 0 <= j < |lines| ==> !(Classify(p, lines[j]).Response? && Classify(p, lines[j]).id == id)
    ensures Await(p, st, id, lines).0 == None
    decreases |lines|
  {
    if lines != [] {
      OtherIdsUntouched(p, st, lines[0], id);
      assert forall j :: 0 <= j < |lines| - 1 ==> lines[1..][j] == lines[j + 1];
      AwaitTimesOut(p, Receive(p, st, lines[0]), id, lines[1..]);
    }
  }

  // ---------------------------------------------------------------------------
  // The position queue's `get`

  /** The outcome of `LifoQueue.get(block, timeout)`. */
  datatype QueueGet = Item(coords: seq<string>) | BlocksForever | RaisesEmpty

  function LifoGet(queue: seq<seq<string>>, block: bool, timeout: Option<nat>): (r: QueueGet)
    ensures queue != [] ==> r == Item(queue[|queue| - 1])
  {
    if queue != [] then Item(queue[|queue| - 1])
    else if !block then RaisesEmpty
    else if timeout.None? then BlocksForever
    else RaisesEmpty
  }

  /** `get_report_position` as written: `get(self.timeout)` passes the
      timeout as the `block` argument, so the wait has no time limit. */
  function ReportPositionAsWritten(queue: seq<seq<string>>, timeout: nat): (r: QueueGet)
    ensures queue != [] ==> r == Item(queue[|queue| - 1])
    ensures r == BlocksForever <==> queue == [] && timeout != 0
    ensures r == RaisesEmpty <==> queue == [] && timeout == 0
  {
    LifoGet(queue, timeout != 0, None)
  }

  lemma EmptyReportQueueBlocksForever(timeout: nat)
    requires timeout > 0
    ensures ReportPositionAsWritten([], timeout) == BlocksForever
  {
  }

  /** `get_report_position` as its documentation means it: wait at most
      `timeout` seconds; the Empty that follows is swallowed into None. */
  function ReportPosition(queue: seq<seq<string>>, timeout: nat): (r: Option<seq<string>>)
    ensures r.None? <==> queue == []
    ensures r.Some? ==> r.value == queue[|queue| - 1]
  {
    match LifoGet(queue, true, Some(timeout))
    case Item(coords) => Some(coords)
    case _ => None
  }

  // ---------------------------------------------------------------------------
  // The UArm object

  class UArm {
    const protocol: Protocol
    var timeout: nat
    var portName: Option<string>
    /** `connection_state`: the port is open and the reader is running. */
    var connected: bool
    /** `serial_id`, the last id issued; meaningful once `connect` set it. */
    var serialId: int
    var msgBuff: map<int, seq<string>>
    var isReady: bool
    /** The LIFO position queue; its last element is the top. */
    var positionQueue: seq<seq<string>>
    /** The FIFO send queue; its first element is the head. */
    var sendQueue: seq<QueueItem>
    /** The lines written to the serial port, oldest first. */
    var wire: seq<string>
    var firmwareVersion: Option<string>

    ghost predicate Valid()
      reads this
    {
      connected ==> 1 <= serialId <= MaxSerialId
    }

    function Rx(): RxState
      reads this
    {
      RxState(msgBuff, isReady, positionQueue)
    }

    /** `UArm(port_name, timeout)`: nothing is opened yet. */
    constructor (protocol: Protocol, portName: Option<string>, timeout: nat)
      ensures Valid() && !connected
      ensures this.protocol == protocol && this.portName == portName && this.timeout == timeout
      ensures msgBuff == map[] && !isReady && positionQueue == [] && sendQueue == []
      ensures wire == [] && firmwareVersion == None
    {
      this.protocol := protocol;
      this.portName := portName;
      this.timeout := timeout;
      connected := false;
      serialId := 0;
      msgBuff := map[];
      isReady := false;
      positionQueue := [];
      sendQueue := [];
      wire := [];
      firmwareVersion := None;
    }

    /** `connect`, with the port enumeration and whether the port opens as
        inputs. Without a port name it takes the first uArm port; with none
        it raises errno 3. Otherwise every queue and table starts afresh,
        the id counter starts at 1 and the port is opened. The decorator
        swallows the exception, so the method reports it as `failed`. */
    method Connect(ports: seq<ListUArms.PortInfo>, opens: bool) returns (failed: Option<Failure>)
      requires Valid()
      modifies this
      ensures Valid() && timeout == old(timeout)
      ensures failed == Some(UArmConnectException(3)) <==>
        old(portName).None? && ListUArms.MatchingDevices(ports, ListUArms.UArmHwidKeyword) == []
      ensures failed == Some(UArmConnectException(3)) ==>
        portName == old(portName) && connected == old(connected) && Rx() == old(Rx())
        && sendQueue == old(sendQueue) && serialId == old(serialId)
      ensures failed != Some(UArmConnectException(3)) ==>
        && portName.Some?
        && (old(portName).None? ==> portName == Some(ListUArms.MatchingDevices(ports, ListUArms.UArmHwidKeyword)[0]))
        && (old(portName).Some? ==> portName == old(portName))
        && serialId == 1 && msgBuff == map[] && !isReady && positionQueue == [] && sendQueue == []
        && wire == [] && firmwareVersion == None
        && (connected <==> failed.None?)
        && (failed.None? <==> opens && exists i :: 0 <= i < |ports| && ports[i].device == portName.value)
    {
      if portName.None? {
        var names := ListUArms.UarmPorts(ports, ListUArms.UArmHwidKeyword);
        if |names| == 0 {
          return Some(UArmConnectException(3));
        }
        portName := Some(names[0]);
      }
      positionQueue := [];
      sendQueue := [];
      firmwareVersion := None;
      isReady := false;
      serialId := 1;
      msgBuff := map[];
      wire := [];
      connected := false;
      var port := ListUArms.GetPortProperty(ports, portName.value);
      if port.None? {
        // `self.port.device` on None
        return Some(AttributeError);
      }
      if !opens {
        return Some(UArmConnectException(0));
      }
      connected := true;
      return None;
    }

    /** `disconnect`: stops the reader and closes the port. */
    method Disconnect()
      modifies this`connected
      ensures !connected
    {
      connected := false;
    }

    /** `__gen_serial_id` */
    method GenSerialId() returns (id: nat)
      requires 1 <= serialId <= MaxSerialId
      modifies this`serialId
      ensures serialId == NextSerialId(old(serialId)) && id == serialId
    {
      if serialId == MaxSerialId {
        serialId := 1;
      } else {
        serialId := serialId + 1;
      }
      id := serialId;
    }

    /** `__process_line`, one step of the receive thread. */
    method ProcessLine(line: string)
      modifies this`msgBuff, this`isReady, this`positionQueue
      ensures Rx() == Receive(protocol, old(Rx()), line)
    {
      if StartsWith(line, "$") {
        var values := Split(line, ' ');
        var msgId := ParseInt(RemoveChar(values[0], '$'));
        if msgId.Some? {
          msgBuff := msgBuff[msgId.value := values[1..]];
        }
      } else if StartsWith(line, protocol.ready) {
        isReady := true;
      } else if StartsWith(line, protocol.reportPositionPrefix) {
        var values := Split(line, ' ');
        if |values| >= 4 {
          var coords := [UArmReplies.Untagged(values[1]), UArmReplies.Untagged(values[2]),
                         UArmReplies.Untagged(values[3])];
          positionQueue := positionQueue + [coords];
        }
      }
    }

    /** The send thread's loop: while connected, take the head of the send
        queue; a Stop ends the loop, a request is written as one frame. An
        empty queue is where the thread would wait for more. */
    method RunSender()
      modifies this`sendQueue, this`wire
      ensures connected ==>
        sendQueue == AfterStop(old(sendQueue)) && wire == old(wire) + FramesBeforeStop(old(sendQueue))
      ensures !connected ==> sendQueue == old(sendQueue) && wire == old(wire)
    {
      while connected && sendQueue != []
        invariant connected ==> AfterStop(old(sendQueue)) == AfterStop(sendQueue)
        invariant connected ==> old(wire) + FramesBeforeStop(old(sendQueue)) == wire + FramesBeforeStop(sendQueue)
        invariant !connected ==> sendQueue == old(sendQueue) && wire == old(wire)
        decreases |sendQueue|
      {
        var item := sendQueue[0];
        var rest := sendQueue[1..];
        sendQueue := rest;
        if item.Stop? {
          break;
        }
        wire := wire + [Frame(item.id, item.msg)];
      }
    }

    /** `send_msg`: not connected raises errno 4; otherwise the next id is
        written at once as one frame and returned. */
    method SendMsg(msg: string) returns (r: Result<nat, Failure>)
      requires Valid()
      modifies this`serialId, this`wire
      ensures Valid()
      ensures !connected ==> r == Err(UArmConnectException(4)) && serialId == old(serialId) && wire == old(wire)
      ensures connected ==> serialId == NextSerialId(old(serialId)) && r == Ok(serialId)
      ensures connected ==> wire == old(wire) + [Frame(serialId, msg)]
    {
      if !connected {
        return Err(UArmConnectException(4));
      }
      var id := GenSerialId();
      wire := wire + [Frame(id, msg)];
      return Ok(id);
    }

    /** `send_and_receive`: not connected raises errno 4; otherwise a request
        with the next id joins the send queue and the caller waits for that id
        while the receiver handles `arrivals`, giving `(id, tokens)` or, on
        timeout, `(None, None)`. */
    method SendAndReceive(msg: string, arrivals: seq<string>) returns (r: Result<Option<(nat, seq<string>)>, Failure>)
      requires Valid()
      modifies this`serialId, this`sendQueue, this`msgBuff, this`isReady, this`positionQueue
      ensures Valid()
      ensures !connected ==>
        r == Err(UArmConnectException(4)) && serialId == old(serialId) && sendQueue == old(sendQueue) && Rx() == old(Rx())
      ensures connected ==>
        && serialId == NextSerialId(old(serialId))
        && sendQueue == old(sendQueue) + [Request(serialId, msg)]
        && var (answer, st) := Await(protocol, old(Rx()), serialId, arrivals);
           && Rx() == st
           && r == Ok(if answer.Some? then Some((serialId as nat, answer.value)) else None)
    {
      if !connected {
        return Err(UArmConnectException(4));
      }
      var id := GenSerialId();
      sendQueue := sendQueue + [Request(id, msg)];
      var i := 0;
      while id !in msgBuff && i < |arrivals|
        invariant 0 <= i <= |arrivals|
        invariant serialId == id
        invariant sendQueue == old(sendQueue) + [Request(id, msg)]
        invariant Await(protocol, old(Rx()), id, arrivals) == Await(protocol, Rx(), id, arrivals[i..])
        decreases |arrivals| - i
      {
        assert arrivals[i..][1..] == arrivals[i + 1..];
        ProcessLine(arrivals[i]);
        i := i + 1;
      }
      if id in msgBuff {
        return Ok(Some((id, msgBuff[id])));
      }
      return Ok(None);
    }

    /** `firmware_version`: a cached version is returned without a request;
        otherwise the version query is sent and an OK answer's second token,
        without its 'V', is cached and returned. Errors become None. */
    method FirmwareVersion(arrivals: seq<string>) returns (version: Option<string>)
      requires Valid()
      modifies this`serialId, this`sendQueue, this`msgBuff, this`isReady, this`positionQueue, this`firmwareVersion
      ensures Valid()
      ensures old(firmwareVersion).Some? ==>
        && version == old(firmwareVersion) && firmwareVersion == old(firmwareVersion)
        && serialId == old(serialId) && sendQueue == old(sendQueue) && Rx() == old(Rx())
      ensures old(firmwareVersion).None? && connected ==>
        && serialId == NextSerialId(old(serialId))
        && sendQueue == old(sendQueue) + [Request(serialId, protocol.getFirmwareVersion)]
        && var (answer, st) := Await(protocol, old(Rx()), serialId, arrivals);
           && Rx() == st
           && version == UArmReplies.VersionResult(protocol.ok, answer)
           && firmwareVersion == version
      ensures old(firmwareVersion).None? && !connected ==>
        && version == None && firmwareVersion == None
        && serialId == old(serialId) && sendQueue == old(sendQueue) && Rx() == old(Rx())
    {
      if firmwareVersion.Some? {
        return firmwareVersion;
      }
      var r := SendAndReceive(protocol.getFirmwareVersion, arrivals);
      var reply: UArmReplies.Reply := None;
      if r.Ok? && r.value.Some? {
        reply := Some(r.value.value.1);
      }
      version := UArmReplies.VersionResult(protocol.ok, reply);
      if version.Some? {
        firmwareVersion := version;
      }
    }

    /** `get_report_position`: the most recently pushed report, taken off
        the queue; an empty queue gives None after the timeout. */
    method GetReportPosition() returns (item: Option<seq<string>>)
      modifies this`positionQueue
      ensures item == ReportPosition(old(positionQueue), timeout)
      ensures old(positionQueue) != [] ==> positionQueue == old(positionQueue)[..|old(positionQueue)| - 1]
      ensures old(positionQueue) == [] ==> positionQueue == []
    {
      if positionQueue == [] {
        return None;
      }
      item := Some(positionQueue[|positionQueue| - 1]);
      positionQueue := positionQueue[..|positionQueue| - 1];
    }
  }
}
