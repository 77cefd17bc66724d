/**
 * The legacy bracket protocol of `pyuarm.UArm`: a command goes out as
 * `[cmd]`, one response line comes back, and the response is cleaned of its
 * brackets and lower-cased. The serial port is an input: each exchange is
 * given what the port does (the write fails, the read fails, or a line is
 * read).
 */
module LegacyArm {
  import opened Wrappers
  import opened Text
  import Version

  /** What the serial port does during one `send_cmd`. */
  datatype SerialIO = WriteFails | ReadFails | ReadsLine(raw: string)

  /** What `send_cmd` returns: None when the port is closed, False on a
      serial error, otherwise the cleaned-up response text. */
  datatype CmdResult = NotOpen | SerialError | Reply(text: string)

  /** `"[" + cmnd + "]"` */
  function CommandFrame(cmnd: string): string {
    "[" + cmnd + "]"
  }

  /** The clean-up of a response: every bracket removed, then lower-cased. */
  function Normalise(response: string): (r: string)
    ensures |r| <= |response|
    ensures '[' !in r && ']' !in r
    ensures forall i :: 0 <= i < |r| ==> !('A' <= r[i] <= 'Z')
  {
    var bare := RemoveChar(RemoveChar(response, '['), ']');
    RemoveCharKeepsAbsent(RemoveChar(response, '['), ']', '[');
    Lower(bare)
  }

  /** Cleaning a cleaned response changes nothing. */
  lemma NormaliseIdempotent(response: string)
    ensures Normalise(Normalise(response)) == Normalise(response)
  {
    var n := Normalise(response);
    assert RemoveChar(RemoveChar(n, '['), ']') == n;
    assert Lower(n) == n by {
      forall i | 0 <= i < |n| ensures Lower(n)[i] == n[i] {
      }
    }
  }

  /** A command frame echoed back is read as the lower-cased command: the
      brackets the frame adds are exactly the ones the clean-up removes. */
  lemma FrameEcho(cmnd: string)
    requires '[' !in cmnd && ']' !in cmnd
    ensures Normalise(CommandFrame(cmnd)) == Lower(cmnd)
  {
    var halfOpen := cmnd + "]";
    assert RemoveChar(CommandFrame(cmnd), '[') == halfOpen by {
      assert CommandFrame(cmnd) == ['['] + cmnd + [']'];
      RemoveCharWrap('[', cmnd, ']', '[');
      assert [] + cmnd + [']'] == halfOpen;
    }
    assert RemoveChar(halfOpen, ']') == cmnd by {
      RemoveCharAppend(cmnd, "]", ']');
      assert RemoveChar("]", ']') == "" + RemoveChar("", ']');
      assert cmnd + "" == cmnd;
    }
  }

  /** The result of one exchange: None when the port is closed, False when
      the write or the read fails, otherwise the stripped line cleaned up. */
  function Exchange(open: bool, io: SerialIO): CmdResult {
    if !open then NotOpen
    else match io
      case ReadsLine(raw) => Reply(Normalise(Strip(raw)))
      case _ => SerialError
  }

  /** The frames on the wire after an exchange: a frame is written unless
      the port is closed or the write fails. */
  function WrittenAfter(open: bool, io: SerialIO, cmnd: string, written: seq<string>): seq<string> {
    if open && !io.WriteFails? then written + [CommandFrame(cmnd)] else written
  }

  /** `responseLog` after an exchange: one `(cmnd, stripped line)` pair for
      an exchange that read a line. */
  function LogAfter(open: bool, io: SerialIO, cmnd: string, log: seq<(string, string)>): seq<(string, string)> {
    if open && io.ReadsLine? then log + [(cmnd, Strip(io.raw))] else log
  }

  /** The `isConnected` attribute after an exchange: a serial error sets it
      to False (the port itself stays open). */
  function FlagAfter(open: bool, io: SerialIO, flag: Option<bool>): Option<bool> {
    if open && !io.ReadsLine? then Some(false) else flag
  }

  /** The log grows by exactly one entry for each exchange that returned a
      response, and by none for a closed port or a serial error. */
  lemma LogCountsCompletedExchanges(open: bool, io: SerialIO, cmnd: string, log: seq<(string, string)>)
    ensures |LogAfter(open, io, cmnd, log)| == |log| + (if Exchange(open, io).Reply? then 1 else 0)
    ensures LogAfter(open, io, cmnd, log)[..|log|] == log
    ensures Exchange(open, io).Reply? ==>
      LogAfter(open, io, cmnd, log)[|log|] == (cmnd, Strip(io.raw))
      && Exchange(open, io).text == Normalise(LogAfter(open, io, cmnd, log)[|log|].1)
  {
  }

  // ---------------------------------------------------------------------------
  // __parse_cmd

  /** A value of the dictionary `__parse_cmd` returns: the 0 it starts with,
      or the text cut out for the key (its float conversion is not
      modelled). */
  datatype Field = Zero | Token(text: string)

  /** The text for argument `i`: from just after the first occurrence of
      argument `i` up to the first occurrence of argument `i + 1`, the last
      argument running to the end. `find` gives -1 when there is no
      occurrence, which the slice then reads as a bound from the end. */
  function FieldText(message: string, arguments: seq<string>, i: nat): string
    requires i < |arguments|
  {
    var start := Find(message, arguments[i]) + 1;
    if i < |arguments| - 1 then Slice(message, start, Find(message, arguments[i + 1]))
    else Slice(message, start, |message|)
  }

  /** No argument after position `i` and before `n` repeats argument `i`. */
  predicate LastBefore(arguments: seq<string>, i: nat, n: nat)
    requires i < n <= |arguments|
  {
    forall k :: i < k < n ==> arguments[k] != arguments[i]
  }

  /** The dictionary after the first `n` assignments of the parse loop,
      argument `k` receiving `texts[k]`. */
  function Assigned(arguments: seq<string>, texts: seq<string>, n: nat): map<string, Field>
    requires n <= |arguments| == |texts|
  {
    if n == 0 then map a | a in arguments :: Zero
    else Assigned(arguments, texts, n - 1)[arguments[n - 1] := Token(texts[n - 1])]
  }

  /** The assignments keep exactly the arguments as keys. */
  lemma {:induction false} AssignedKeys(arguments: seq<string>, texts: seq<string>, n: nat)
    requires n <= |arguments| == |texts|
    ensures Assigned(arguments, texts, n).Keys == set a | a in arguments
  {
    if n > 0 {
      AssignedKeys(arguments, texts, n - 1);
      assert arguments[n - 1] in arguments;
    }
  }

  /** Each key holds the text of its last position so far. */
  lemma {:induction false} AssignedLast(arguments: seq<string>, texts: seq<string>, n: nat)
    requires n <= |arguments| == |texts|
    ensures forall i :: 0 <= i < n && LastBefore(arguments, i, n) ==>
      arguments[i] in Assigned(arguments, texts, n) && Assigned(arguments, texts, n)[arguments[i]] == Token(texts[i])
  {
    if n > 0 {
      AssignedLast(arguments, texts, n - 1);
      AssignedKeys(arguments, texts, n);
      forall i | 0 <= i < n && LastBefore(arguments, i, n)
        ensures arguments[i] in Assigned(arguments, texts, n) && Assigned(arguments, texts, n)[arguments[i]] == Token(texts[i])
      {
        if i < n - 1 {
          assert arguments[n - 1] != arguments[i];
          assert LastBefore(arguments, i, n - 1);
        }
      }
    }
  }

  /** The texts of all the arguments, in argument order. */
  function FieldTexts(message: string, arguments: seq<string>): (r: seq<string>)
    ensures |r| == |arguments|
  {
    seq(|arguments|, i requires 0 <= i < |arguments| => FieldText(message, arguments, i))
  }

  /** After all the assignments every argument is a key holding the text of
      its last position. */
  lemma ParsedFields(message: string, arguments: seq<string>)
    ensures Assigned(arguments, FieldTexts(message, arguments), |arguments|).Keys == set a | a in arguments
    ensures forall i :: 0 <= i < |arguments| && LastBefore(arguments, i, |arguments|) ==>
      Assigned(arguments, FieldTexts(message, arguments), |arguments|)[arguments[i]] == Token(FieldText(message, arguments, i))
  {
    AssignedKeys(arguments, FieldTexts(message, arguments), |arguments|);
    AssignedLast(arguments, FieldTexts(message, arguments), |arguments|);
  }

  /** `__parse_cmd(message, arguments)`, with None standing for the False a
      failed exchange gives: every argument is a key; after False every
      value is 0; otherwise each key holds the text of its last position in
      the argument list (a later duplicate overwrites an earlier one). */
  method ParseCmd(message: Option<string>, arguments: seq<string>) returns (fields: map<string, Field>)
    ensures fields.Keys == set a | a in arguments
    ensures message.None? ==> forall a :: a in arguments ==> fields[a] == Zero
    ensures message.Some? ==> forall i :: 0 <= i < |arguments| && LastBefore(arguments, i, |arguments|) ==>
      fields[arguments[i]] == Token(FieldText(message.value, arguments, i))
  {
    fields := map a | a in arguments :: Zero;
    if message.None? {
      return;
    }
    var texts := FieldTexts(message.value, arguments);
    for i := 0 to |arguments|
      invariant fields == Assigned(arguments, texts, i)
    {
      fields := fields[arguments[i] := Token(texts[i])];
    }
    ParsedFields(message.value, arguments);
  }

  /** The message layout the parser is written for: each one-letter key
      followed by its value. */
  function Layout(keys: seq<string>, values: seq<string>): string
    requires |keys| == |values|
  {
    if keys == [] then "" else keys[0] + values[0] + Layout(keys[1..], values[1..])
  }

  /** Where key `i` sits in the layout. */
  function Offset(values: seq<string>, i: nat): nat
    requires i <= |values|
  {
    if i == 0 then 0 else 1 + |values[0]| + Offset(values[1..], i - 1)
  }

  /** Keys one character long, pairwise different, and found in no value. */
  predicate WellLaidOut(keys: seq<string>, values: seq<string>) {
    && |keys| == |values|
    && (forall i :: 0 <= i < |keys| ==> |keys[i]| == 1)
    && (forall i, j :: 0 <= i < j < |keys| ==> keys[i][0] != keys[j][0])
    && (forall i, j :: 0 <= i < |keys| && 0 <= j < |values| ==> keys[i][0] !in values[j])
  }

  lemma WellLaidOutTail(keys: seq<string>, values: seq<string>)
    requires WellLaidOut(keys, values) && keys != []
    ensures WellLaidOut(keys[1..], values[1..])
  {
    assert forall i :: 0 <= i < |keys| - 1 ==> keys[1..][i] == keys[i + 1];
    assert forall j :: 0 <= j < |values| - 1 ==> values[1..][j] == values[j + 1];
  }

  /** From the offset of key `i` on, the layout is key `i`, its value and
      the rest of the layout. */
  lemma {:induction false} LayoutFrom(keys: seq<string>, values: seq<string>, i: nat)
    requires |keys| == |values| && i < |keys|
    requires forall k :: 0 <= k < |keys| ==> |keys[k]| == 1
    ensures Offset(values, i) < |Layout(keys, values)|
    ensures Layout(keys, values)[Offset(values, i)..] == keys[i] + values[i] + Layout(keys[i + 1..], values[i + 1..])
  {
    var m := Layout(keys, values);
    var tail := Layout(keys[1..], values[1..]);
    assert m == keys[0] + values[0] + tail;
    if i == 0 {
      assert keys[1..] == keys[i + 1..] && values[1..] == values[i + 1..];
    } else {
      assert forall k :: 0 <= k < |keys| - 1 ==> keys[1..][k] == keys[k + 1];
      LayoutFrom(keys[1..], values[1..], i - 1);
      assert keys[1..][i - 1] == keys[i] && values[1..][i - 1] == values[i];
      assert keys[1..][i - 1 + 1..] == keys[i + 1..] && values[1..][i - 1 + 1..] == values[i + 1..];
      assert m[Offset(values, i)..] == tail[Offset(values[1..], i - 1)..];
    }
  }

  /** Key `i` is found at its own offset: no earlier key or value holds it. */
  lemma {:induction false} LayoutFindsKey(keys: seq<string>, values: seq<string>, i: nat)
    requires WellLaidOut(keys, values) && i < |keys|
    ensures Find(Layout(keys, values), keys[i]) == Offset(values, i)
  {
    var m := Layout(keys, values);
    var c := keys[i][0];
    assert keys[i] == [c];
    LayoutFrom(keys, values, i);
    assert m[Offset(values, i)] == c;
    FindOneChar(m, c);
    KeyIndex(keys, values, i);
  }

  lemma {:induction false} KeyIndex(keys: seq<string>, values: seq<string>, i: nat)
    requires WellLaidOut(keys, values) && i < |keys|
    ensures IndexOf(Layout(keys, values), keys[i][0]) == Offset(values, i)
  {
    var c := keys[i][0];
    var tail := Layout(keys[1..], values[1..]);
    assert Layout(keys, values) == (keys[0] + values[0]) + tail;
    if i > 0 {
      assert c != keys[0][0];
      assert c !in keys[0] + values[0];
      IndexOfAppend(keys[0] + values[0], tail, c);
      WellLaidOutTail(keys, values);
      KeyIndex(keys[1..], values[1..], i - 1);
      assert keys[1..][i - 1] == keys[i];
    }
  }

  lemma OffsetStep(values: seq<string>, i: nat)
    requires i < |values|
    ensures Offset(values, i + 1) == Offset(values, i) + 1 + |values[i]|
    decreases i
  {
    if i > 0 {
      OffsetStep(values[1..], i - 1);
      assert values[1..][i - 1] == values[i];
    }
  }

  /** Round trip: parsing a well laid-out message gives back each value. */
  lemma {:induction false} FieldTextOfLayout(keys: seq<string>, values: seq<string>, i: nat)
    requires WellLaidOut(keys, values) && i < |keys|
    ensures FieldText(Layout(keys, values), keys, i) == values[i]
  {
    var m := Layout(keys, values);
    var off := Offset(values, i);
    var end := off + 1 + |values[i]|;
    assert end <= |m| && m[off + 1..end] == values[i] by {
      LayoutFrom(keys, values, i);
      assert |keys[i]| == 1;
      assert m[off..][1..1 + |values[i]|] == values[i];
      SliceOfSuffix(m, off, 1, 1 + |values[i]|);
    }
    assert Find(m, keys[i]) + 1 == off + 1 by {
      LayoutFindsKey(keys, values, i);
    }
    if i < |keys| - 1 {
      assert Find(m, keys[i + 1]) == end by {
        LayoutFindsKey(keys, values, i + 1);
        OffsetStep(values, i);
      }
    } else {
      assert |m| == end by {
        LayoutFrom(keys, values, i);
        assert keys[i + 1..] == [] && values[i + 1..] == [];
      }
    }
  }

  // ---------------------------------------------------------------------------
  // read_firmware_version and the connect gate

  /** How `read_firmware_version` ends. */
  datatype ReadOutcome =
    | VersionRead        // returns None after storing both fields
    | NotVersionReply    // returns False
    | ReadAttributeError // `startswith` on the None or False of `send_cmd`
    | ReadIndexError     // the reply had no '-': raised after product_type was stored

  function ReadVersionOutcome(res: CmdResult): ReadOutcome {
    match res
    case Reply(t) =>
      if !StartsWith(t, "s") then NotVersionReply
      else if |Split(t, '-')| < 2 then ReadIndexError
      else VersionRead
    case _ => ReadAttributeError
  }

  function StoredProduct(res: CmdResult, product: Option<string>): Option<string> {
    if res.Reply? && StartsWith(res.text, "s") then Some(Split(res.text, '-')[0]) else product
  }

  function StoredVersion(res: CmdResult, version: Option<string>): Option<string> {
    if res.Reply? && StartsWith(res.text, "s") && |Split(res.text, '-')| >= 2 then Some(Split(res.text, '-')[1])
    else version
  }

  /** A reply `<product>-<version>` stores the two halves. */
  lemma VersionReplySplits(product: string, version: string, oldProduct: Option<string>, oldVersion: Option<string>)
    requires StartsWith(product, "s") && '-' !in product && '-' !in version
    ensures ReadVersionOutcome(Reply(product + "-" + version)) == VersionRead
    ensures StoredProduct(Reply(product + "-" + version), oldProduct) == Some(product)
    ensures StoredVersion(Reply(product + "-" + version), oldVersion) == Some(version)
  {
    var t := product + "-" + version;
    SplitJoin([product, version], '-');
    assert JoinWith([product, version], '-') == t;
    assert t[..|"s"|] == product[..|"s"|];
  }

  /** How `connect` ends. */
  datatype ConnectOutcome =
    | Connected
    | PortError           // UArmConnectException: the port did not open
    | UnknownFirmware     // UnknownFirmwareException
    | UnSupportedFirmware // UnSupportedFirmwareVersionException
    | RaisedAttributeError
    | RaisedIndexError

  /** The version check of `connect`: no version (a TypeError inside the
      regex) or a malformed one is unknown firmware; a well formed version
      that is not supported is unsupported firmware. */
  function FirmwareGate(version: Option<string>): (r: ConnectOutcome)
    ensures r == UnknownFirmware <==> version.None? || !Version.IsAVersion(version.value)
    ensures r == UnSupportedFirmware <==>
      version.Some? && Version.IsAVersion(version.value) && Version.IsSupportedVersion(version.value) == Ok(false)
    ensures r == Connected <==>
      version.Some? && Version.IsAVersion(version.value) && Version.IsSupportedVersion(version.value) == Ok(true)
  {
    if version.None? || !Version.IsAVersion(version.value) then UnknownFirmware
    else
      Version.VersionHasMajorMinor(version.value);
      if Version.IsSupportedVersion(version.value) == Ok(true) then Connected else UnSupportedFirmware
  }

  /** What `connect` makes of the version read once the port is open: the
      read's own errors propagate; otherwise the version attribute, fresh or
      left from before, goes through the gate. */
  function ConnectResult(read: ReadOutcome, version: Option<string>): ConnectOutcome {
    match read
    case ReadAttributeError => RaisedAttributeError
    case ReadIndexError => RaisedIndexError
    case _ => FirmwareGate(version)
  }

  /** A reply that is not a version reply leaves the version from an
      earlier connection in place, and the gate then judges that one. */
  lemma StaleVersionIsJudged(t: string, version: Option<string>)
    requires !StartsWith(t, "s")
    ensures StoredVersion(Reply(t), version) == version
    ensures ConnectResult(ReadVersionOutcome(Reply(t)), StoredVersion(Reply(t), version)) == FirmwareGate(version)
  {
  }

  /** A device answering `s<product>-0.9.<n>` is accepted. */
  lemma SupportedReplyConnects(product: string, version: string, oldVersion: Option<string>)
    requires StartsWith(product, "s") && '-' !in product && '-' !in version
    requires Version.IsAVersion(version) && Version.IsSupportedVersion(version) == Ok(true)
    ensures var res := Reply(product + "-" + version);
      ConnectResult(ReadVersionOutcome(res), StoredVersion(res, oldVersion)) == Connected
  {
    VersionReplySplits(product, version, None, oldVersion);
  }

  // ---------------------------------------------------------------------------
  // get_servo_angle

  const AngleKeys: seq<string> := ["b", "l", "r", "h"]

  /** What `get_servo_angle` returns. */
  datatype AngleReply =
    | Angles(angles: seq<Field>)
    | Angle(angle: Field)
    | NoAngle             // False
    | AngleAttributeError // `startswith` on the None or False of `send_cmd`

  /** The selection: no servo number gives all four angles, 0..3 gives that
      one, any other number gives False. */
  function SelectAngle(angles: seq<Field>, servo: Option<int>): (r: AngleReply)
    requires |angles| == 4
    ensures servo.None? ==> r == Angles(angles)
    ensures servo.Some? ==> (r.Angle? <==> 0 <= servo.value <= 3) && (r.Angle? || r == NoAngle)
    ensures r.Angle? ==> r.angle == angles[servo.value]
  {
    match servo
    case None => Angles(angles)
    case Some(n) => if 0 <= n <= 3 then Angle(angles[n]) else NoAngle
  }

  /** The angle fields of an `s` reply: the text after the `s` parsed for
      the keys b, l, r and h. */
  function ReplyAngles(t: string): (r: seq<Field>)
    requires |t| >= 1
    ensures |r| == 4
  {
    seq(4, i requires 0 <= i < 4 => Token(FieldText(t[1..], AngleKeys, i)))
  }

  function ServoAngleReply(res: CmdResult, servo: Option<int>): AngleReply {
    match res
    case Reply(t) => if StartsWith(t, "s") then SelectAngle(ReplyAngles(t), servo) else NoAngle
    case _ => AngleAttributeError
  }

  /** The keys b, l, r and h are one letter each and pairwise different. */
  lemma AngleKeysLaidOut(values: seq<string>)
    requires |values| == 4
    requires forall j :: 0 <= j < 4 ==> 'b' !in values[j] && 'l' !in values[j] && 'r' !in values[j] && 'h' !in values[j]
    ensures WellLaidOut(AngleKeys, values)
  {
    assert forall i :: 0 <= i < 4 ==> AngleKeys[i][0] in {'b', 'l', 'r', 'h'};
  }

  /** A dictionary with the keys b, l, r and h, each holding its text, gives
      the reply's angles in that order. */
  lemma ParsedAngles(fields: map<string, Field>, t: string)
    requires |t| >= 1
    requires forall i :: 0 <= i < 4 && LastBefore(AngleKeys, i, 4) ==>
      AngleKeys[i] in fields && fields[AngleKeys[i]] == Token(FieldText(t[1..], AngleKeys, i))
    ensures "b" in fields && "l" in fields && "r" in fields && "h" in fields
    ensures [fields["b"], fields["l"], fields["r"], fields["h"]] == ReplyAngles(t)
  {
    assert LastBefore(AngleKeys, 0, 4) && LastBefore(AngleKeys, 1, 4);
    assert LastBefore(AngleKeys, 2, 4) && LastBefore(AngleKeys, 3, 4);
  }

  /** Round trip: the text after the `s` of a reply `sb<v0>l<v1>r<v2>h<v3>`
      parses back into the four values. */
  lemma {:induction false} ReplyAnglesOfLayout(values: seq<string>)
    requires |values| == 4
    requires forall j :: 0 <= j < 4 ==> 'b' !in values[j] && 'l' !in values[j] && 'r' !in values[j] && 'h' !in values[j]
    ensures ReplyAngles("s" + Layout(AngleKeys, values)) == [Token(values[0]), Token(values[1]), Token(values[2]), Token(values[3])]
  {
    AngleKeysLaidOut(values);
    var t := "s" + Layout(AngleKeys, values);
    assert t[1..] == Layout(AngleKeys, values);
    FieldTextOfLayout(AngleKeys, values, 0);
    FieldTextOfLayout(AngleKeys, values, 1);
    FieldTextOfLayout(AngleKeys, values, 2);
    FieldTextOfLayout(AngleKeys, values, 3);
  }

  /** `get_servo_angle` on such a reply gives back the four values, all of
      them or the one asked for. */
  lemma ServoAnglesRoundTrip(values: seq<string>, servo: Option<int>)
    requires |values| == 4
    requires forall j :: 0 <= j < 4 ==> 'b' !in values[j] && 'l' !in values[j] && 'r' !in values[j] && 'h' !in values[j]
    ensures var res := ServoAngleReply(Reply("s" + Layout(AngleKeys, values)), servo);
      && (servo.None? ==> res == Angles([Token(values[0]), Token(values[1]), Token(values[2]), Token(values[3])]))
      && (servo.Some? && 0 <= servo.value <= 3 ==> res == Angle(Token(values[servo.value])))
  {
    var t := "s" + Layout(AngleKeys, values);
    ReplyAnglesOfLayout(values);
    assert t[..1] == "s";
    assert ServoAngleReply(Reply(t), servo) == SelectAngle(ReplyAngles(t), servo);
  }

  // ---------------------------------------------------------------------------
  // The UArm object

  class UArm {
    /** `sp.isOpen()` */
    var portOpen: bool
    /** The frames written to the port, oldest first. */
    var written: seq<string>
    var responseLog: seq<(string, string)>
    /** The `isConnected` attribute a serial error sets (never read back). */
    var isConnected: Option<bool>
    var productType: Option<string>
    var firmwareVersion: Option<string>

    /** The object before `connect`: the class attributes `product_type`
        and `firmware_version` are None. */
    constructor ()
      ensures !portOpen && written == [] && responseLog == [] && isConnected == None
      ensures productType == None && firmwareVersion == None
    {
      portOpen := false;
      written := [];
      responseLog := [];
      isConnected := None;
      productType := None;
      firmwareVersion := None;
    }

    /** `send_cmd`: nothing happens on a closed port; otherwise the frame is
        written and one line read; a serial error gives False and logs
        nothing; a line read is logged stripped and returned cleaned up. A
        response with other than one `[` and one `]` is only logged. */
    method SendCmd(cmnd: string, io: SerialIO) returns (r: CmdResult)
      modifies this`written, this`responseLog, this`isConnected
      ensures r == Exchange(portOpen, io)
      ensures written == WrittenAfter(portOpen, io, cmnd, old(written))
      ensures responseLog == LogAfter(portOpen, io, cmnd, old(responseLog))
      ensures isConnected == FlagAfter(portOpen, io, old(isConnected))
    {
      if !portOpen {
        return NotOpen;
      }
      match io
      case WriteFails =>
        isConnected := Some(false);
        r := SerialError;
      case ReadFails =>
        written := written + [CommandFrame(cmnd)];
        isConnected := Some(false);
        r := SerialError;
      case ReadsLine(raw) =>
        written := written + [CommandFrame(cmnd)];
        var response := Strip(raw);
        responseLog := responseLog + [(cmnd, response)];
        r := Reply(Normalise(response));
    }

    /** `read_firmware_version`, sending `getVersion`. */
    method ReadFirmwareVersion(getVersion: string, io: SerialIO) returns (r: ReadOutcome)
      modifies this`written, this`responseLog, this`isConnected, this`productType, this`firmwareVersion
      ensures r == ReadVersionOutcome(Exchange(portOpen, io))
      ensures productType == StoredProduct(Exchange(portOpen, io), old(productType))
      ensures firmwareVersion == StoredVersion(Exchange(portOpen, io), old(firmwareVersion))
      ensures written == WrittenAfter(portOpen, io, getVersion, old(written))
      ensures responseLog == LogAfter(portOpen, io, getVersion, old(responseLog))
      ensures isConnected == FlagAfter(portOpen, io, old(isConnected))
    {
      var response := SendCmd(getVersion, io);
      r := StoreVersionReply(response);
    }

    /** The second half of `read_firmware_version`: a reply starting with
        `s` is split on `-`, field 0 stored as the product type and then
        field 1 as the firmware version; any other reply returns False;
        the None or False of `send_cmd` has no `startswith`. */
    method StoreVersionReply(response: CmdResult) returns (r: ReadOutcome)
      modifies this`productType, this`firmwareVersion
      ensures r == ReadVersionOutcome(response)
      ensures productType == StoredProduct(response, old(productType))
      ensures firmwareVersion == StoredVersion(response, old(firmwareVersion))
    {
      match response {
        case Reply(text) =>
          if StartsWith(text, "s") {
            var values := Split(text, '-');
            productType := Some(values[0]);
            if |values| < 2 {
              r := ReadIndexError;
            } else {
              firmwareVersion := Some(values[1]);
              r := VersionRead;
            }
          } else {
            r := NotVersionReply;
          }
        case _ =>
          r := ReadAttributeError;
      }
    }

    /** `connect`: a port that does not open is an UArmConnectException and
        changes nothing; otherwise the log starts afresh, the version is read
        and gated. */
    method Connect(opens: bool, getVersion: string, io: SerialIO) returns (r: ConnectOutcome)
      modifies this`portOpen, this`responseLog, this`written, this`isConnected, this`productType, this`firmwareVersion
      ensures !opens ==>
        && r == PortError && portOpen == old(portOpen) && responseLog == old(responseLog)
        && written == old(written) && firmwareVersion == old(firmwareVersion) && productType == old(productType)
        && isConnected == old(isConnected)
      ensures opens ==>
        && portOpen
        && isConnected == FlagAfter(true, io, old(isConnected))
        && r == ConnectResult(ReadVersionOutcome(Exchange(true, io)), StoredVersion(Exchange(true, io), old(firmwareVersion)))
        && firmwareVersion == StoredVersion(Exchange(true, io), old(firmwareVersion))
        && productType == StoredProduct(Exchange(true, io), old(productType))
        && written == WrittenAfter(true, io, getVersion, old(written))
        && responseLog == LogAfter(true, io, getVersion, [])
    {
      if !opens {
        return PortError;
      }
      portOpen := true;
      responseLog := [];
      var read := ReadFirmwareVersion(getVersion, io);
      match read {
        case ReadAttributeError => r := RaisedAttributeError;
        case ReadIndexError => r := RaisedIndexError;
        case _ => r := FirmwareGate(firmwareVersion);
      }
    }

    /** `get_servo_angle`, sending `getAngle`. */
    method GetServoAngle(getAngle: string, io: SerialIO, servo: Option<int>) returns (r: AngleReply)
      modifies this`written, this`responseLog, this`isConnected
      ensures r == ServoAngleReply(Exchange(portOpen, io), servo)
      ensures written == WrittenAfter(portOpen, io, getAngle, old(written))
      ensures responseLog == LogAfter(portOpen, io, getAngle, old(responseLog))
      ensures isConnected == FlagAfter(portOpen, io, old(isConnected))
    {
      var response := SendCmd(getAngle, io);
      if !response.Reply? {
        return AngleAttributeError;
      }
      if !StartsWith(response.text, "s") {
        return NoAngle;
      }
      var parsed := ParseCmd(Some(response.text[1..]), AngleKeys);
      ParsedAngles(parsed, response.text);
      var angles := [parsed["b"], parsed["l"], parsed["r"], parsed["h"]];
      if servo.Some? {
        if 0 <= servo.value <= 3 {
          return Angle(angles[servo.value]);
        }
        return NoAngle;
      }
      return Angles(angles);
    }
  }
}
