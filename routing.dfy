/** Turning a request's header block into one of the three operations of the
    session: the ordered route tests on the first line and the extraction of the
    index from a `/connect/<n>` path. */
module Routing {
  import opened Wrappers
  import opened Strings
  import opened Numbers

  /** The three branches of the request match. */
  datatype Route = DevicesRoute | ConnectRoute | RefreshRoute

  /** The branch taken for a request whose first line is `line`: the substring
      tests are tried in order and the first that holds wins. */
  function SelectRoute(line: string): Option<Route>
  {
    if Contains(line, "/devices") then Some(DevicesRoute)
    else if Contains(line, "/connect") then Some(ConnectRoute)
    else if Contains(line, "/refresh") then Some(RefreshRoute)
    else None
  }

  /** The route of a line is the first route, in the order they are tried, that the line names. */
  lemma RouteOrder(line: string)
    ensures SelectRoute(line) == Some(DevicesRoute) <==> exists i: nat :: OccursAt(line, "/devices", i)
    ensures SelectRoute(line) == Some(ConnectRoute) <==>
      (forall i: nat :: !OccursAt(line, "/devices", i)) && exists i: nat :: OccursAt(line, "/connect", i)
    ensures SelectRoute(line) == Some(RefreshRoute) <==>
      (forall i: nat :: !OccursAt(line, "/devices", i)) && (forall i: nat :: !OccursAt(line, "/connect", i))
      && exists i: nat :: OccursAt(line, "/refresh", i)
    ensures SelectRoute(line) == None <==>
      (forall i: nat :: !OccursAt(line, "/devices", i)) && (forall i: nat :: !OccursAt(line, "/connect", i))
      && (forall i: nat :: !OccursAt(line, "/refresh", i))
  {
  }

  /** The index of a connect request: the text after the first `/connect/` and
      before the next ` HTTP/1.1`, read as a `usize`. */
  function ConnectIndex(line: string): (r: Option<nat>)
    ensures r.Some? ==> r.value <= UsizeMax && Contains(line, "/connect/")
  {
    match SplitOnce(line, "/connect/")
    case None => None
    case Some((_, after)) =>
      match SplitOnce(after, " HTTP/1.1")
      case None => None
      case Some((index, _)) => ParseUsize(index)
  }

  /** For a request line `<method>/connect/<text> HTTP/1.1<rest>` whose method holds
      no `/` and whose text holds no space, the index is exactly the parse of `text`:
      it succeeds when `text` is a `usize` and fails otherwise. */
  lemma ConnectIndexOfRequest(verb: string, text: string, rest: string)
    requires '/' !in verb && ' ' !in text
    ensures ConnectIndex(verb + "/connect/" + text + " HTTP/1.1" + rest) == ParseUsize(text)
  {
    var line := verb + "/connect/" + text + " HTTP/1.1" + rest;
    var after := text + (" HTTP/1.1" + rest);
    assert line == verb + ("/connect/" + after);
    FindFirstAtStart(after, "/connect/");
    FindFirstSkip(verb, "/connect/" + after, "/connect/");
    assert SplitOnce(line, "/connect/") == Some((verb, after));
    FindFirstAtStart(rest, " HTTP/1.1");
    FindFirstSkip(text, " HTTP/1.1" + rest, " HTTP/1.1");
    assert SplitOnce(after, " HTTP/1.1") == Some((text, rest));
  }

  /** A line whose text after its `/connect/` holds no ` HTTP/1.1` has no index:
      `GET /connect/1 HTTP/1.0` ends the session. */
  lemma ConnectWithoutVersion(verb: string, text: string)
    requires '/' !in verb && !Contains(text, " HTTP/1.1")
    ensures ConnectIndex(verb + "/connect/" + text) == None
  {
    assert verb + "/connect/" + text == verb + ("/connect/" + text);
    FindFirstAtStart(text, "/connect/");
    FindFirstSkip(verb, "/connect/" + text, "/connect/");
    assert SplitOnce(verb + "/connect/" + text, "/connect/") == Some((verb, text));
  }

  /** Why a request ended the session instead of being served. */
  datatype Stop =
    | NoRequest          // the header block was empty: end of stream, or a leading empty line
    | Unrouted           // the first line matched none of the three routes
    | MalformedConnect   // a connect route whose index could not be extracted

  /** The operations a request asks of the session. */
  datatype Command = ListDevices | ConnectDevice(index: nat) | RefreshDevices

  /** The request match: what the header block `block` asks for, or why it ends
      the session. */
  function Decode(block: seq<string>): (r: Result<Command, Stop>)
    ensures r == Failure(NoRequest) <==> block == []
    ensures r.Success? && r.value.ConnectDevice? ==> r.value.index <= UsizeMax
  {
    if block == [] then Failure(NoRequest)
    else
      match SelectRoute(block[0])
      case None => Failure(Unrouted)
      case Some(DevicesRoute) => Success(ListDevices)
      case Some(ConnectRoute) =>
        (match ConnectIndex(block[0])
         case None => Failure(MalformedConnect)
         case Some(index) => Success(ConnectDevice(index)))
      case Some(RefreshRoute) => Success(RefreshDevices)
  }

  /** A first line naming `/devices` lists the devices, whatever else it names. */
  lemma DevicesFirst(line: string, more: seq<string>)
    requires Contains(line, "/devices")
    ensures Decode([line] + more) == Success(ListDevices)
  {
  }

  /** A connect route whose index cannot be read ends the session, even when the
      line also names `/refresh`: the routes do not fall through. */
  lemma ConnectDoesNotFallThrough(line: string, more: seq<string>)
    requires !Contains(line, "/devices") && Contains(line, "/connect")
    requires ConnectIndex(line).None?
    ensures Decode([line] + more) == Failure(MalformedConnect)
  {
  }

  /** `<method>/connect/<n> HTTP/1.1<rest>`, for any `usize` n, asks to connect
      device n, unless the rest of the line names `/devices`. */
  lemma ConnectRequestDecodes(verb: string, n: nat, rest: string, more: seq<string>)
    requires '/' !in verb && n <= UsizeMax && !Contains(rest, "/devices")
    ensures Decode([verb + "/connect/" + Decimal(n) + " HTTP/1.1" + rest] + more)
         == Success(ConnectDevice(n))
  {
    var d := Decimal(n);
    var line := verb + "/connect/" + d + " HTTP/1.1" + rest;
    assert ' ' !in d && '/' !in d by {
      assert forall i :: 0 <= i < |d| ==> IsDigit(d[i]);
    }
    assert ConnectIndex(line) == Some(n) by {
      ConnectIndexOfRequest(verb, d, rest);
      DecimalRoundTrip(n);
    }
    assert SelectRoute(line) == Some(ConnectRoute) by {
      // The line names "/connect", as a prefix of its "/connect/".
      var i: nat :| OccursAt(line, "/connect/", i);
      OccursPrefix(line, "/connect/", "/connect", i);
      // It does not name "/devices".
      NoDevicesInConnectLine(verb, d, rest);
    }
    assert [line] + more != [] && ([line] + more)[0] == line;
  }

  /** No `/devices` in `<method>/connect/<digits> HTTP/1.1<rest>` unless in `rest`. */
  lemma NoDevicesInConnectLine(verb: string, d: string, rest: string)
    requires '/' !in verb && |d| > 0 && '/' !in d && d[0] != 'd' && !Contains(rest, "/devices")
    ensures !Contains(verb + "/connect/" + d + " HTTP/1.1" + rest, "/devices")
  {
    var p := "/devices";
    assert "/connect/" == "/connect" + "/" && " HTTP/1.1" == " HTTP" + "/1.1";
    NestConnectLine(verb, "/connect", "/", d, " HTTP", "/1.1", rest);
    FindFirstSkipChunk("/1.1", rest, p, 1);
    var x := "/" + (d + " HTTP");
    assert x[1] == d[0] && x[1..] == d + " HTTP";
    FindFirstSkipChunk(x, "/1.1" + rest, p, 1);
    FindFirstSkipChunk("/connect", x + ("/1.1" + rest), p, 1);
    FindFirstSkip(verb, "/connect" + (x + ("/1.1" + rest)), p);
  }

  /** A line that takes the connect route with nothing but `/connect` in its path
      (`<method>/connect<tail>`, `tail` not starting with `/`) ends the session. */
  lemma PathWithoutIndexEndsSession(verb: string, tail: string, more: seq<string>)
    requires '/' !in verb && (tail == [] || tail[0] != '/')
    requires !Contains(tail, "/devices") && !Contains(tail, "/connect/")
    ensures Decode([verb + "/connect" + tail] + more) == Failure(MalformedConnect)
  {
    var line := verb + "/connect" + tail;
    assert line == verb + ("/connect" + tail);
    ConnectPathRoute(verb, tail);
    ConnectPathNoIndex(verb, tail);
    assert [line] + more != [] && ([line] + more)[0] == line;
  }

  /** `<method>/connect<tail>` takes the connect route when `tail` names no `/devices`. */
  lemma ConnectPathRoute(verb: string, tail: string)
    requires '/' !in verb && !Contains(tail, "/devices")
    ensures SelectRoute(verb + ("/connect" + tail)) == Some(ConnectRoute)
  {
    FindFirstSkipChunk("/connect", tail, "/devices", 1);
    FindFirstSkip(verb, "/connect" + tail, "/devices");
    FindFirstAtStart(tail, "/connect");
    FindFirstSkip(verb, "/connect" + tail, "/connect");
  }

  /** `<method>/connect<tail>` holds no `/connect/` when `tail` does not start with
      `/` and holds none itself. */
  lemma ConnectPathNoIndex(verb: string, tail: string)
    requires '/' !in verb && (tail == [] || tail[0] != '/') && !Contains(tail, "/connect/")
    ensures FindFirst(verb + ("/connect" + tail), "/connect/") == None
  {
    if tail == [] {
      FindFirstShort("/connect", "/connect/");
    } else {
      MismatchAt("/connect" + tail, "/connect/", 8);
      FindFirstPast("/", "connect" + tail, "/connect/");
      assert "/connect" + tail == "/" + ("connect" + tail);
      FindFirstSkip("connect", tail, "/connect/");
    }
    FindFirstSkip(verb, "/connect" + tail, "/connect/");
  }

  /** A line naming `/refresh` and neither of the routes tried before it refreshes:
      `<method>/refresh<tail>`. */
  lemma RefreshRequestDecodes(verb: string, tail: string, more: seq<string>)
    requires '/' !in verb && !Contains(tail, "/devices") && !Contains(tail, "/connect")
    ensures Decode([verb + "/refresh" + tail] + more) == Success(RefreshDevices)
  {
    assert verb + "/refresh" + tail == verb + ("/refresh" + tail);
    FindFirstSkipChunk("/refresh", tail, "/devices", 1);
    FindFirstSkip(verb, "/refresh" + tail, "/devices");
    FindFirstSkipChunk("/refresh", tail, "/connect", 1);
    FindFirstSkip(verb, "/refresh" + tail, "/connect");
    FindFirstAtStart(tail, "/refresh");
    FindFirstSkip(verb, "/refresh" + tail, "/refresh");
  }

  /** A first line `<method>/devices<tail>` lists the devices. */
  lemma DevicesRequestDecodes(verb: string, tail: string, more: seq<string>)
    requires '/' !in verb
    ensures Decode([verb + "/devices" + tail] + more) == Success(ListDevices)
  {
    assert verb + "/devices" + tail == verb + ("/devices" + tail);
    FindFirstAtStart(tail, "/devices");
    FindFirstSkip(verb, "/devices" + tail, "/devices");
  }

  /** The version text ` HTTP/1.1` names no route. */
  lemma VersionNamesNoPath()
    ensures !Contains(" HTTP/1.1", "/devices") && !Contains(" HTTP/1.1", "/connect")
    ensures !Contains(" HTTP/1.1", "/connect/")
  {
    assert " HTTP/1.1" == " HTTP" + "/1.1";
    FindFirstShort("/1.1", "/devices");
    FindFirstShort("/1.1", "/connect");
    FindFirstShort("/1.1", "/connect/");
    FindFirstSkip(" HTTP", "/1.1", "/devices");
    FindFirstSkip(" HTTP", "/1.1", "/connect");
    FindFirstSkip(" HTTP", "/1.1", "/connect/");
  }

  /** The three requests a client sends. */
  const DevicesRequest: string := "GET /devices HTTP/1.1"
  const RefreshRequest: string := "GET /refresh HTTP/1.1"

  function ConnectRequest(n: nat): string
  {
    "GET /connect/" + Decimal(n) + " HTTP/1.1"
  }

  /** The request lines, cut at their path. */
  lemma RequestParts(n: nat)
    ensures DevicesRequest == "GET " + "/devices" + " HTTP/1.1"
    ensures RefreshRequest == "GET " + "/refresh" + " HTTP/1.1"
    ensures ConnectRequest(n) == "GET " + "/connect/" + Decimal(n) + " HTTP/1.1" + ""
  {
  }

  /** `GET /devices HTTP/1.1` lists the devices. */
  lemma DevicesRequestIsList(more: seq<string>)
    ensures Decode([DevicesRequest] + more) == Success(ListDevices)
  {
    RequestParts(0);
    DevicesRequestDecodes("GET ", " HTTP/1.1", more);
  }

  /** `GET /refresh HTTP/1.1` refreshes. */
  lemma RefreshRequestIsRefresh(more: seq<string>)
    ensures Decode([RefreshRequest] + more) == Success(RefreshDevices)
  {
    VersionNamesNoPath();
    RequestParts(0);
    RefreshRequestDecodes("GET ", " HTTP/1.1", more);
  }

  /** `GET /connect/<n> HTTP/1.1` connects device n. */
  lemma ConnectRequestIsConnect(n: nat, more: seq<string>)
    requires n <= UsizeMax
    ensures Decode([ConnectRequest(n)] + more) == Success(ConnectDevice(n))
  {
    RequestParts(n);
    FindFirstShort("", "/devices");
    ConnectRequestDecodes("GET ", n, "", more);
  }

  /** `GET /connect HTTP/1.1` takes the connect route but has no index: the session
      ends there. */
  lemma BareConnectEndsSession(more: seq<string>)
    ensures Decode(["GET /connect HTTP/1.1"] + more) == Failure(MalformedConnect)
  {
    VersionNamesNoPath();
    assert "GET /connect HTTP/1.1" == "GET " + "/connect" + " HTTP/1.1";
    PathWithoutIndexEndsSession("GET ", " HTTP/1.1", more);
  }
}
