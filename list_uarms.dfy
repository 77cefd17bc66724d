/**
 * Port discovery: the serial ports the operating system lists are given as
 * a sequence of records; a uArm is a port whose hardware id starts with the
 * adapter's USB vendor and product id.
 */
module ListUArms {
  import opened Wrappers
  import opened Text

  /** One entry of `list_ports.comports()`. */
  datatype PortInfo = PortInfo(device: string, hwid: string, serialNumber: Option<string>)

  const UArmHwidKeyword: string := "USB VID:PID=0403:6001"

  /** `hwid[0:len(keyword)] == keyword`; the slice is clamped, so a hardware
      id shorter than the keyword never matches. */
  predicate HwidMatches(hwid: string, keyword: string)
    ensures HwidMatches(hwid, keyword) <==> StartsWith(hwid, keyword)
  {
    Slice(hwid, 0, |keyword|) == keyword
  }

  /** The device names of the matching ports, in the order they are listed. */
  function MatchingDevices(ports: seq<PortInfo>, keyword: string): seq<string>
  {
    if ports == [] then []
    else
      var head := if HwidMatches(ports[0].hwid, keyword) then [ports[0].device] else [];
      head + MatchingDevices(ports[1..], keyword)
  }

  /** Filtering two runs of ports one after the other gives the two results
      one after the other: the filter keeps the enumeration order. */
  lemma {:induction false} MatchingDevicesAppend(a: seq<PortInfo>, b: seq<PortInfo>, keyword: string)
    ensures MatchingDevices(a + b, keyword) == MatchingDevices(a, keyword) + MatchingDevices(b, keyword)
  {
    if a != [] {
      AppendTail(a, b);
      MatchingDevicesAppend(a[1..], b, keyword);
      var head := if HwidMatches(a[0].hwid, keyword) then [a[0].device] else [];
      calc {
        MatchingDevices(a + b, keyword);
        head + MatchingDevices(a[1..] + b, keyword);
        head + (MatchingDevices(a[1..], keyword) + MatchingDevices(b, keyword));
        { AppendAssoc(head, MatchingDevices(a[1..], keyword), MatchingDevices(b, keyword)); }
        (head + MatchingDevices(a[1..], keyword)) + MatchingDevices(b, keyword);
        MatchingDevices(a, keyword) + MatchingDevices(b, keyword);
      }
    } else {
      assert a + b == b;
    }
  }

  /** A name is in the filtered list exactly when some listed port with a
      matching hardware id has that device name; the list is never longer
      than the enumeration. */
  lemma {:induction false} MatchingDevicesMembers(ports: seq<PortInfo>, keyword: string, name: string)
    ensures |MatchingDevices(ports, keyword)| <= |ports|
    ensures name in MatchingDevices(ports, keyword) <==>
      exists i :: 0 <= i < |ports| && ports[i].device == name && HwidMatches(ports[i].hwid, keyword)
  {
    if ports != [] {
      MatchingDevicesMembers(ports[1..], keyword, name);
      if exists i :: 0 <= i < |ports| && ports[i].device == name && HwidMatches(ports[i].hwid, keyword) {
        var i :| 0 <= i < |ports| && ports[i].device == name && HwidMatches(ports[i].hwid, keyword);
        if i > 0 {
          assert ports[1..][i - 1] == ports[i];
        }
      }
      if name in MatchingDevices(ports[1..], keyword) {
        var i :| 0 <= i < |ports[1..]| && ports[1..][i].device == name && HwidMatches(ports[1..][i].hwid, keyword);
        assert ports[i + 1] == ports[1..][i];
      }
    }
  }

  /** A hardware id shorter than the keyword is never taken for a uArm. */
  lemma ShortHwidNeverMatches(hwid: string, keyword: string)
    requires |hwid| < |keyword|
    ensures !HwidMatches(hwid, keyword)
  {
  }

  /** `uarm_ports`: one pass over the enumeration, appending the device of
      every port whose hardware id starts with `keyword`. */
  method UarmPorts(ports: seq<PortInfo>, keyword: string) returns (names: seq<string>)
    ensures names == MatchingDevices(ports, keyword)
  {
    names := [];
    for i := 0 to |ports|
      invariant names == MatchingDevices(ports[..i], keyword)
    {
      MatchingDevicesAppend(ports[..i], [ports[i]], keyword);
      assert ports[..i + 1] == ports[..i] + [ports[i]];
      if HwidMatches(ports[i].hwid, keyword) {
        names := names + [ports[i].device];
      }
    }
    assert ports[..|ports|] == ports;
  }

  /** `check_port_plug_in`: is some port's serial number `serialId`? */
  method CheckPortPlugIn(ports: seq<PortInfo>, serialId: Option<string>) returns (found: bool)
    ensures found <==> exists i :: 0 <= i < |ports| && ports[i].serialNumber == serialId
  {
    for i := 0 to |ports|
      invariant forall j :: 0 <= j < i ==> ports[j].serialNumber != serialId
    {
      if ports[i].serialNumber == serialId {
        return true;
      }
    }
    return false;
  }

  /** `get_port_property`: the first port whose device is `name`, or None. */
  method GetPortProperty(ports: seq<PortInfo>, name: string) returns (r: Option<PortInfo>)
    ensures r.None? <==> forall i :: 0 <= i < |ports| ==> ports[i].device != name
    ensures r.Some? ==> (r.value.device == name
      && exists i :: 0 <= i < |ports| && ports[i] == r.value && (forall j :: 0 <= j < i ==> ports[j].device != name))
  {
    for i := 0 to |ports|
      invariant forall j :: 0 <= j < i ==> ports[j].device != name
    {
      if ports[i].device == name {
        return Some(ports[i]);
      }
    }
    return None;
  }

  /** What `get_uarm_port_cli` can fail with after the user's answer. */
  datatype CliError = ValueError | IndexError

  /** `names[int(choice) - 1]` as Python evaluates it: a negative index counts
      from the end of the list. */
  function ChosenPortAsWritten(names: seq<string>, choice: string): (r: Result<string, CliError>)
    ensures r.Ok? <==> exists k :: ParseInt(choice) == Some(k) && -|names| < k <= |names|
    ensures r.Ok? ==> r.value in names
    ensures r.Ok? ==> var k := ParseInt(choice).value;
      r.value == names[if k >= 1 then k - 1 else k - 1 + |names|]
    ensures ParseInt(choice).None? ==> r == Err(ValueError)
  {
    match ParseInt(choice)
    case None => Err(ValueError)
    case Some(k) =>
      var idx := k - 1;
      if 0 <= idx < |names| then Ok(names[idx])
      else if -|names| <= idx < 0 then Ok(names[idx + |names|])
      else Err(IndexError)
  }

  /** The menu is numbered 1..n, so answer 0 picks the LAST port instead of
      being refused. */
  lemma ChoiceZeroPicksLastPort(names: seq<string>)
    requires |names| > 1
    ensures ChosenPortAsWritten(names, "0") == Ok(names[|names| - 1])
  {
    assert ParseInt("0") == Some(0);
  }

  /** The selection the numbered menu offers: answer k in 1..n picks entry k. */
  function ChosenPort(names: seq<string>, choice: string): (r: Result<string, CliError>)
    ensures r.Ok? ==> exists k :: ParseInt(choice) == Some(k) && 1 <= k <= |names| && r.value == names[k - 1]
    ensures (exists k :: ParseInt(choice) == Some(k) && 1 <= k <= |names|) ==> r.Ok?
    ensures ParseInt(choice).None? ==> r == Err(ValueError)
  {
    match ParseInt(choice)
    case None => Err(ValueError)
    case Some(k) => if 1 <= k <= |names| then Ok(names[k - 1]) else Err(IndexError)
  }

  /** On the answers the menu offers, the two selections agree. */
  lemma ChosenPortAgrees(names: seq<string>, k: nat)
    requires 1 <= k <= |names|
    ensures ChosenPortAsWritten(names, DecimalString(k)) == ChosenPort(names, DecimalString(k)) == Ok(names[k - 1])
  {
    DecimalRoundTrip(k);
  }

  function MenuLine(number: nat, name: string): string {
    "[" + DecimalString(number) + "] - " + name
  }

  /** `get_uarm_port_cli` with the enumeration and the user's typed answer as
      inputs. With several uArms it prints a menu numbered from 1 and reads an
      answer; with one it takes that port; with none it gives None. */
  method GetUarmPortCli(ports: seq<PortInfo>, choice: string)
    returns (menu: seq<string>, r: Result<Option<string>, CliError>)
    ensures var names := MatchingDevices(ports, UArmHwidKeyword);
      && (|names| == 0 ==> menu == [] && r == Ok(None))
      && (|names| == 1 ==> menu == [] && r == Ok(Some(names[0])))
      && (|names| > 1 ==>
            |menu| == |names|
            && (forall i :: 0 <= i < |names| ==> menu[i] == MenuLine(i + 1, names[i]))
            && (r.Ok? ==> exists k :: ParseInt(choice) == Some(k) && 1 <= k <= |names| && r.value == Some(names[k - 1]))
            && ((exists k :: ParseInt(choice) == Some(k) && 1 <= k <= |names|) ==> r.Ok?))
  {
    var names := UarmPorts(ports, UArmHwidKeyword);
    menu := [];
    if |names| > 1 {
      var i := 1;
      for n := 0 to |names|
        invariant i == n + 1
        invariant |menu| == n
        invariant forall j :: 0 <= j < n ==> menu[j] == MenuLine(j + 1, names[j])
      {
        menu := menu + [MenuLine(i, names[n])];
        i := i + 1;
      }
      match ChosenPort(names, choice)
      case Ok(name) => r := Ok(Some(name));
      case Err(e) => r := Err(e);
    } else if |names| == 1 {
      r := Ok(Some(names[0]));
    } else {
      r := Ok(None);
    }
  }
}
