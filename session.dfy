/** One client connection (`handle_incoming`): a fresh registry, then requests
    read and answered one after another until a request ends the session. */
module Session {
  import opened Wrappers
  import opened Numbers
  import opened Http
  import opened Routing
  import opened Sidecar

  /** What the display manager shows a session: its devices and their names. */
  datatype Service = Service(devices: seq<Handle>, name: Handle -> string)

  /** How a session ends: the request loop breaks, or indexing the device list
      panics and takes the connection's thread down. */
  datatype End = Break(reason: Stop) | IndexPanic(index: nat)

  /** The outcome of one request on a device list. */
  datatype Step =
    | Reply(body: string, connect: Option<Handle>, list: seq<Handle>)
    | Halt(end: End)

  /** Everything a session does: the responses written, the connect requests
      sent to the manager, the device list it ends with, and why it ended. */
  datatype Transcript = Transcript(responses: seq<string>, connects: seq<Handle>, list: seq<Handle>, end: End)

  function OptionToSeq<T>(o: Option<T>): seq<T>
  {
    match o
    case None => []
    case Some(x) => [x]
  }

  /** `t` preceded by responses `rs` and connect requests `cs`. */
  function Extend(rs: seq<string>, cs: seq<Handle>, t: Transcript): Transcript
  {
    Transcript(rs + t.responses, cs + t.connects, t.list, t.end)
  }

  /** One turn of the request loop on the header block `block`, with the
      registry holding `list` and the manager reporting `svc`. `render` prints the
      `/devices` map. */
  function Respond(block: seq<string>, list: seq<Handle>, svc: Service, render: map<nat, string> -> string): (s: Step)
    ensures s.Reply? ==> block != []
  {
    match Decode(block)
    case Failure(stop) => Halt(Break(stop))
    case Success(ListDevices) => Reply(render(DeviceMap(list, svc.name)), None, list)
    case Success(ConnectDevice(index)) =>
      if index < |list| then Reply("OK", Some(list[index]), list) else Halt(IndexPanic(index))
    case Success(RefreshDevices) => Reply("OK", None, svc.devices)
  }

  /** The whole session on the connection's remaining `lines`, from its turn
      number `turn`: a header block is read, and the session goes on from that
      request. The operating system attaches, detaches and renames displays while
      the session runs: `reports(k)` is what the manager reports during turn `k`. */
  function Serve(lines: seq<string>, list: seq<Handle>, reports: nat -> Service, turn: nat,
                 render: map<nat, string> -> string): Transcript
    decreases |lines|, 1
  {
    var (block, rest) := ReadHeaderBlock(lines);
    ServeFrom(block, rest, list, reports, turn, render)
  }

  /** The session from a request with header block `block`, `rest` being the lines
      after it: the turn on `block`, then, unless it halts, the session on `rest`. */
  function ServeFrom(block: seq<string>, rest: seq<string>, list: seq<Handle>, reports: nat -> Service,
                     turn: nat, render: map<nat, string> -> string): Transcript
    decreases |block| + |rest|, 0
  {
    match Respond(block, list, reports(turn), render)
    case Halt(end) => Transcript([], [], list, end)
    case Reply(body, connect, list') =>
      Extend([Response(body)], OptionToSeq(connect), Serve(rest, list', reports, turn + 1, render))
  }

  /** A turn that halts ends the session with no response. */
  lemma ServeHalts(lines: seq<string>, list: seq<Handle>, reports: nat -> Service, turn: nat,
                   render: map<nat, string> -> string)
    requires Respond(ReadHeaderBlock(lines).0, list, reports(turn), render).Halt?
    ensures Serve(lines, list, reports, turn, render)
         == Transcript([], [], list, Respond(ReadHeaderBlock(lines).0, list, reports(turn), render).end)
  {
    assert Serve(lines, list, reports, turn, render)
        == ServeFrom(ReadHeaderBlock(lines).0, ReadHeaderBlock(lines).1, list, reports, turn, render);
  }

  /** A turn that replies writes its response, then the session goes on from the
      lines after the request, with the list the turn leaves, at the next turn. */
  lemma ServeReplies(lines: seq<string>, list: seq<Handle>, reports: nat -> Service, turn: nat,
                     render: map<nat, string> -> string)
    requires Respond(ReadHeaderBlock(lines).0, list, reports(turn), render).Reply?
    ensures var s := Respond(ReadHeaderBlock(lines).0, list, reports(turn), render);
      Serve(lines, list, reports, turn, render)
      == Extend([Response(s.body)], OptionToSeq(s.connect), Serve(ReadHeaderBlock(lines).1, s.list, reports, turn + 1, render))
  {
    assert Serve(lines, list, reports, turn, render)
        == ServeFrom(ReadHeaderBlock(lines).0, ReadHeaderBlock(lines).1, list, reports, turn, render);
  }

  /** Extending by nothing changes nothing. */
  lemma ExtendNothing(t: Transcript)
    ensures Extend([], [], t) == t
  {
    assert [] + t.responses == t.responses && [] + t.connects == t.connects;
  }

  /** Extending twice is extending once by both prefixes. */
  lemma ExtendTwice(rs: seq<string>, cs: seq<Handle>, rs': seq<string>, cs': seq<Handle>, t: Transcript)
    ensures Extend(rs, cs, Extend(rs', cs', t)) == Extend(rs + rs', cs + cs', t)
  {
    assert rs + (rs' + t.responses) == rs + rs' + t.responses;
    assert cs + (cs' + t.connects) == cs + cs' + t.connects;
  }

  /** A session that had produced `rs` and `cs` before a part `t` that ends at once. */
  lemma ExtendEnd(whole: Transcript, rs: seq<string>, cs: seq<Handle>, t: Transcript, list: seq<Handle>, end: End)
    requires whole == Extend(rs, cs, t) && t == Transcript([], [], list, end)
    ensures whole.responses == rs && whole.connects == cs && whole.end == end
  {
    assert rs + [] == rs && cs + [] == cs;
  }

  /** A session that had produced `rs` and `cs` before a part `t` that begins with
      `rs'` and `cs'` has produced both before the rest of `t`. */
  lemma ExtendThen(whole: Transcript, rs: seq<string>, cs: seq<Handle>, t: Transcript,
                   rs': seq<string>, cs': seq<Handle>, t': Transcript)
    requires whole == Extend(rs, cs, t) && t == Extend(rs', cs', t')
    ensures whole == Extend(rs + rs', cs + cs', t')
  {
    ExtendTwice(rs, cs, rs', cs', t');
  }

  /** The `match` on a request's first line in `handle_incoming`: the contents of
      the response and what the turn did, or how the session ends. A connect sends
      one request to the manager; a refresh reloads the list. */
  method Answer(core: SidecarCore, block: seq<string>, render: map<nat, string> -> string)
    returns (step: Step)
    modifies core`deviceList, core.manager`connectLog
    ensures step == Respond(block, old(core.deviceList), Service(core.manager.devices, core.manager.names), render)
    ensures core.deviceList == if step.Reply? then step.list else old(core.deviceList)
    ensures core.manager.connectLog == old(core.manager.connectLog) + if step.Reply? then OptionToSeq(step.connect) else []
  {
    if block == [] {
      return Halt(Break(NoRequest));
    }
    var first := block[0];
    match SelectRoute(first) {
      case None =>
        return Halt(Break(Unrouted));
      case Some(DevicesRoute) =>
        step := Reply(render(DeviceMap(core.deviceList, core.manager.names)), None, core.deviceList);
      case Some(ConnectRoute) =>
        match ConnectIndex(first) {
          case None =>
            return Halt(Break(MalformedConnect));
          case Some(index) =>
            if index >= |core.deviceList| {
              return Halt(IndexPanic(index));
            }
            core.Connect(index);
            step := Reply("OK", Some(core.deviceList[index]), core.deviceList);
        }
      case Some(RefreshRoute) =>
        core.Refresh();
        step := Reply("OK", None, core.deviceList);
    }
    assert core.manager.connectLog == old(core.manager.connectLog) + OptionToSeq(step.connect);
  }

  /** One turn of the request loop, turn number `turn`: the operating system
      brings the manager to `reports(turn)`, then the next header block is read
      from `remaining` and answered.
      The session on `remaining` is this turn's reply followed by the session on
      `rest` from the next turn, or it ends here. */
  method Turn(core: SidecarCore, remaining: seq<string>, reports: nat -> Service, turn: nat,
              render: map<nat, string> -> string)
    returns (step: Step, rest: seq<string>)
    modifies core`deviceList, core.manager`devices, core.manager`names, core.manager`connectLog
    ensures Service(core.manager.devices, core.manager.names) == reports(turn)
    ensures step.Halt? ==>
      core.deviceList == old(core.deviceList) &&
      Serve(remaining, old(core.deviceList), reports, turn, render) == Transcript([], [], old(core.deviceList), step.end)
    ensures step.Reply? ==>
      |rest| < |remaining| && core.deviceList == step.list &&
      Serve(remaining, old(core.deviceList), reports, turn, render)
      == Extend([Response(step.body)], OptionToSeq(step.connect), Serve(rest, step.list, reports, turn + 1, render))
    ensures core.manager.connectLog == old(core.manager.connectLog) + if step.Reply? then OptionToSeq(step.connect) else []
  {
    core.manager.Update(reports(turn).devices, reports(turn).name);
    var block;
    block, rest := ReadHeaderBlock(remaining).0, ReadHeaderBlock(remaining).1;
    ghost var list := core.deviceList;
    step := Answer(core, block, render);
    if step.Reply? {
      ServeReplies(remaining, list, reports, turn, render);
    } else {
      ServeHalts(remaining, list, reports, turn, render);
    }
  }

  /** `handle_incoming`: constructs the registry, then loops reading a header block,
      answering it, and writing the response, until a request ends the session. The
      `lines` are what the client sends; the responses are what it receives. The
      registry's first list is what the manager reports when the connection is
      accepted; at turn `k` the manager reports `reports(k)`, and it is left at
      the report of the last turn. */
  method HandleIncoming(manager: Manager, lines: seq<string>, reports: nat -> Service,
                        render: map<nat, string> -> string)
    returns (responses: seq<string>, end: End)
    modifies manager`devices, manager`names, manager`connectLog
    ensures var t := Serve(lines, old(manager.devices), reports, 0, render);
      responses == t.responses && end == t.end && manager.connectLog == old(manager.connectLog) + t.connects
    ensures Service(manager.devices, manager.names) == reports(|responses|)
  {
    var core := new SidecarCore(manager);
    ghost var issued: seq<Handle> := [];
    var remaining := lines;
    var turn: nat := 0;
    responses := [];
    ghost var whole := Serve(lines, core.deviceList, reports, 0, render);
    ExtendNothing(whole);
    while true
      invariant core.manager == manager
      invariant turn == |responses|
      invariant manager.connectLog == old(manager.connectLog) + issued
      invariant whole == Extend(responses, issued, Serve(remaining, core.deviceList, reports, turn, render))
      decreases |remaining|
    {
      ghost var list := core.deviceList;
      var step, rest := Turn(core, remaining, reports, turn, render);
      match step {
        case Halt(e) =>
          ExtendEnd(whole, responses, issued, Serve(remaining, list, reports, turn, render), list, e);
          end := e;
          return;
        case Reply(contents, connect, list') =>
          ExtendThen(whole, responses, issued, Serve(remaining, list, reports, turn, render),
                     [Response(contents)], OptionToSeq(connect), Serve(rest, list', reports, turn + 1, render));
          issued := issued + OptionToSeq(connect);
          responses := responses + [Response(contents)];
          remaining := rest;
          turn := turn + 1;
      }
    }
  }

  /** No line of `block` is empty: it is a header block as a client sends it. */
  predicate NoEmptyLine(block: seq<string>)
  {
    forall i :: 0 <= i < |block| ==> block[i] != ""
  }

  /** A request line with no headers, then the empty line. */
  lemma LinesOfRequest(line: string, more: seq<string>)
    ensures [line, ""] + more == [line] + [] + [""] + more
  {
  }

  /** Two requests with no headers, one after the other. */
  lemma LinesOfTwoRequests(first: string, second: string, more: seq<string>)
    ensures [first, "", second, ""] + more == [first, ""] + ([second, ""] + more)
  {
  }

  /** A request sent as `block` and the empty line is served by one turn on `block`. */
  lemma SentRequest(block: seq<string>, more: seq<string>, list: seq<Handle>, reports: nat -> Service, turn: nat,
                    render: map<nat, string> -> string)
    requires NoEmptyLine(block)
    ensures var s := Respond(block, list, reports(turn), render);
      Serve(block + [""] + more, list, reports, turn, render)
      == if s.Halt? then Transcript([], [], list, s.end)
         else Extend([Response(s.body)], OptionToSeq(s.connect), Serve(more, s.list, reports, turn + 1, render))
  {
    ReadHeaderBlockSent(block, more);
  }

  /** `GET /devices HTTP/1.1`, with any headers: the names the manager reports now
      for the devices of the registry's list are answered, and the session goes on
      with the list as it was. */
  lemma ListTurn(headers: seq<string>, more: seq<string>, list: seq<Handle>, reports: nat -> Service, turn: nat,
                 render: map<nat, string> -> string)
    requires NoEmptyLine(headers)
    ensures Serve([DevicesRequest] + headers + [""] + more, list, reports, turn, render)
         == Extend([Response(render(DeviceMap(list, reports(turn).name)))], [], Serve(more, list, reports, turn + 1, render))
  {
    assert DevicesRequest != "";
    SentRequest([DevicesRequest] + headers, more, list, reports, turn, render);
    DevicesRequestIsList(headers);
  }

  /** `GET /refresh HTTP/1.1`: answered "OK", and the session goes on with the
      devices the manager reports now as its list, whatever the list was. */
  lemma RefreshTurn(headers: seq<string>, more: seq<string>, list: seq<Handle>, reports: nat -> Service, turn: nat,
                    render: map<nat, string> -> string)
    requires NoEmptyLine(headers)
    ensures Serve([RefreshRequest] + headers + [""] + more, list, reports, turn, render)
         == Extend([Response("OK")], [], Serve(more, reports(turn).devices, reports, turn + 1, render))
  {
    assert RefreshRequest != "";
    SentRequest([RefreshRequest] + headers, more, list, reports, turn, render);
    RefreshRequestIsRefresh(headers);
  }

  /** `GET /connect/<n> HTTP/1.1`: below the list's length it is answered "OK" and
      sends one connect request, for the device at `n` of the registry's list,
      keeping the list; at the length or past it the connection ends with no
      answer. */
  lemma ConnectTurn(n: nat, headers: seq<string>, more: seq<string>, list: seq<Handle>, reports: nat -> Service,
                    turn: nat, render: map<nat, string> -> string)
    requires n <= UsizeMax && NoEmptyLine(headers)
    ensures n < |list| ==>
      Serve([ConnectRequest(n)] + headers + [""] + more, list, reports, turn, render)
      == Extend([Response("OK")], [list[n]], Serve(more, list, reports, turn + 1, render))
    ensures n >= |list| ==>
      Serve([ConnectRequest(n)] + headers + [""] + more, list, reports, turn, render)
      == Transcript([], [], list, IndexPanic(n))
  {
    assert ConnectRequest(n) != "" by {
      assert ConnectRequest(n)[0] == 'G';
    }
    SentRequest([ConnectRequest(n)] + headers, more, list, reports, turn, render);
    ConnectRequestIsConnect(n, headers);
  }

  /** `GET /connect HTTP/1.1` takes the connect route without an index and ends the
      session at once: it is not served as any other route. */
  lemma BareConnectTurn(headers: seq<string>, more: seq<string>, list: seq<Handle>, reports: nat -> Service,
                        turn: nat, render: map<nat, string> -> string)
    requires NoEmptyLine(headers)
    ensures Serve(["GET /connect HTTP/1.1"] + headers + [""] + more, list, reports, turn, render)
         == Transcript([], [], list, Break(MalformedConnect))
  {
    SentRequest(["GET /connect HTTP/1.1"] + headers, more, list, reports, turn, render);
    BareConnectEndsSession(headers);
  }

  /** A request that ends the session ends it whatever the client sends after it,
      and an empty line where a request should begin, or the end of the stream,
      ends it too. */
  lemma FailedRequestEndsSession(block: seq<string>, more: seq<string>, list: seq<Handle>, reports: nat -> Service,
                                 turn: nat, render: map<nat, string> -> string)
    requires NoEmptyLine(block) && Decode(block).Failure?
    ensures Serve(block + [""] + more, list, reports, turn, render)
         == Transcript([], [], list, Break(Decode(block).error))
    ensures Serve([], list, reports, turn, render) == Transcript([], [], list, Break(NoRequest))
    ensures Serve([""] + more, list, reports, turn, render) == Transcript([], [], list, Break(NoRequest))
  {
    SentRequest(block, more, list, reports, turn, render);
    SentRequest([], more, list, reports, turn, render);
    assert [] + [""] + more == [""] + more;
  }

  /** A refresh right before another changes nothing but the number of "OK"s: the
      list it loaded is replaced by the second refresh, so the session after both
      is the session after the second alone. */
  lemma RefreshIdempotent(more: seq<string>, list: seq<Handle>, reports: nat -> Service, turn: nat,
                          render: map<nat, string> -> string)
    ensures Serve([RefreshRequest, "", RefreshRequest, ""] + more, list, reports, turn, render)
         == Extend([Response("OK")], [], Serve([RefreshRequest, ""] + more, list, reports, turn + 1, render))
  {
    var once := [RefreshRequest, ""] + more;
    assert [RefreshRequest, "", RefreshRequest, ""] + more == [RefreshRequest] + [] + [""] + once;
    assert once == [RefreshRequest] + [] + [""] + more;
    RefreshTurn([], once, list, reports, turn, render);
    RefreshTurn([], more, list, reports, turn + 1, render);
    RefreshTurn([], more, reports(turn).devices, reports, turn + 1, render);
  }

  /** A list request right after a refresh answers the names of the devices the
      manager reported at the refresh, whatever list the session held before: a
      refresh is how a session sees displays attached or detached since its list
      was loaded. */
  lemma RefreshThenList(more: seq<string>, list: seq<Handle>, reports: nat -> Service, turn: nat,
                        render: map<nat, string> -> string)
    ensures Serve([RefreshRequest, "", DevicesRequest, ""] + more, list, reports, turn, render)
         == Extend([Response("OK"), Response(render(DeviceMap(reports(turn).devices, reports(turn + 1).name)))], [],
                   Serve(more, reports(turn).devices, reports, turn + 2, render))
  {
    var loaded := reports(turn).devices;
    var after := [DevicesRequest, ""] + more;
    var tail := Serve(more, loaded, reports, turn + 2, render);
    var listed := Response(render(DeviceMap(loaded, reports(turn + 1).name)));
    LinesOfTwoRequests(RefreshRequest, DevicesRequest, more);
    LinesOfRequest(RefreshRequest, after);
    RefreshTurn([], after, list, reports, turn, render);
    LinesOfRequest(DevicesRequest, more);
    ListTurn([], more, loaded, reports, turn + 1, render);
    ExtendTwice([Response("OK")], [], [listed], [], tail);
    assert [Response("OK")] + [listed] == [Response("OK"), listed];
  }

  /** Every connect request a session sends is for a device of the list it started
      with or of a list the manager reported during one of its turns (the turn of a
      refresh); a connect is sent only with an "OK" answer; and the session ends
      holding its first list or one the manager reported during one of its turns. */
  lemma {:induction false} ConnectsFromCurrentList(lines: seq<string>, list: seq<Handle>, reports: nat -> Service,
                                                   turn: nat, render: map<nat, string> -> string)
    ensures var t := Serve(lines, list, reports, turn, render);
      (forall h :: h in t.connects ==>
         h in list || exists k :: turn <= k < turn + |t.responses| && h in reports(k).devices)
      && |t.connects| <= |t.responses|
      && (t.list == list || exists k :: turn <= k < turn + |t.responses| && t.list == reports(k).devices)
    decreases |lines|
  {
    var (block, rest) := ReadHeaderBlock(lines);
    match Respond(block, list, reports(turn), render)
    case Halt(_) =>
    case Reply(body, connect, list') =>
      var t := Serve(lines, list, reports, turn, render);
      var t' := Serve(rest, list', reports, turn + 1, render);
      ConnectsFromCurrentList(rest, list', reports, turn + 1, render);
      assert t == Extend([Response(body)], OptionToSeq(connect), t');
      assert list' == list || list' == reports(turn).devices;
      forall h | h in t.connects
        ensures h in list || exists k :: turn <= k < turn + |t.responses| && h in reports(k).devices
      {
        if h !in t'.connects {
          assert connect.Some? && h == connect.value;
          assert connect.value in list;
        } else if h !in list' {
          var k :| turn + 1 <= k < turn + 1 + |t'.responses| && h in reports(k).devices;
        } else if list' != list {
          assert h in reports(turn).devices;
        }
      }
      if t.list != list {
        if t'.list == list' {
          assert t.list == reports(turn).devices;
        } else {
          var k :| turn + 1 <= k < turn + 1 + |t'.responses| && t'.list == reports(k).devices;
        }
      }
  }

  /** A registry whose list is empty: the list is answered as the empty map,
      and connecting device 0 ends the connection without an answer. */
  lemma EmptyListConnectPanics(more: seq<string>, reports: nat -> Service, turn: nat,
                               render: map<nat, string> -> string)
    ensures Serve([DevicesRequest, "", ConnectRequest(0), ""] + more, [], reports, turn, render)
         == Transcript([Response(render(map[]))], [], [], IndexPanic(0))
  {
    var after := [ConnectRequest(0), ""] + more;
    assert [DevicesRequest, "", ConnectRequest(0), ""] + more == [DevicesRequest] + [] + [""] + after;
    assert after == [ConnectRequest(0)] + [] + [""] + more;
    ListTurn([], after, [], reports, turn, render);
    ConnectTurn(0, [], more, [], reports, turn + 1, render);
    assert DeviceMap([], reports(turn).name) == map[];
  }

  /** The `/devices` answer for two devices named "Studio Display" and "iPad". */
  lemma TwoDeviceMap(a: Handle, b: Handle, name: Handle -> string)
    requires name(a) == "Studio Display" && name(b) == "iPad"
    ensures DeviceMap([a, b], name) == map[0 := "Studio Display", 1 := "iPad"]
  {
    var m := DeviceMap([a, b], name);
    assert m.Keys == {0, 1};
  }

  /** A list request, then a connect request for a device of the list. */
  lemma ListThenConnect(n: nat, more: seq<string>, list: seq<Handle>, reports: nat -> Service, turn: nat,
                        render: map<nat, string> -> string)
    requires n < |list| && n <= UsizeMax
    ensures Serve([DevicesRequest, "", ConnectRequest(n), ""] + more, list, reports, turn, render)
         == Extend([Response(render(DeviceMap(list, reports(turn).name))), Response("OK")], [list[n]],
                   Serve(more, list, reports, turn + 2, render))
  {
    var after := [ConnectRequest(n), ""] + more;
    var tail := Serve(more, list, reports, turn + 2, render);
    var listed := Response(render(DeviceMap(list, reports(turn).name)));
    LinesOfTwoRequests(DevicesRequest, ConnectRequest(n), more);
    LinesOfRequest(DevicesRequest, after);
    ListTurn([], after, list, reports, turn, render);
    LinesOfRequest(ConnectRequest(n), more);
    ConnectTurn(n, [], more, list, reports, turn + 1, render);
    ExtendTwice([listed], [], [Response("OK")], [list[n]], tail);
    assert [listed] + [Response("OK")] == [listed, Response("OK")];
    assert [] + [list[n]] == [list[n]];
  }

  /** Two devices named "Studio Display" and "iPad": the list names both, and
      connecting device 1 is answered "OK" and sends exactly one connect request,
      for the second device; the session goes on with the list as it was. */
  lemma TwoDevicesListThenConnect(a: Handle, b: Handle, more: seq<string>, reports: nat -> Service, turn: nat,
                                  render: map<nat, string> -> string)
    requires reports(turn).name(a) == "Studio Display" && reports(turn).name(b) == "iPad"
    ensures Serve([DevicesRequest, "", ConnectRequest(1), ""] + more, [a, b], reports, turn, render)
         == Extend([Response(render(map[0 := "Studio Display", 1 := "iPad"])), Response("OK")], [b],
                   Serve(more, [a, b], reports, turn + 2, render))
  {
    ListThenConnect(1, more, [a, b], reports, turn, render);
    TwoDeviceMap(a, b, reports(turn).name);
  }
}
