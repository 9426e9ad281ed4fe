# sidecar-server, modelled in Dafny

sidecar-server is a small TCP server for macOS. It lets a remote client list the
Sidecar displays the operating system knows about, connect one of them by its
position in the list, and re-scan the list. Each accepted connection gets its own
`SidecarCore`. A `SidecarCore` holds the process-wide `SidecarDisplayManager` and the
device list of its last refresh. The connection then loops:

- read one request's header block;
- route it on its first line to `/devices`, `/connect/<n>` or `/refresh`;
- answer with a `200 OK` plain-text response;
- stop at the first request it cannot route or parse.

This project models that core (`src/main.rs`) and proves properties of the model.
It is organised in seven modules:

- `Strings` models Rust's `str::find`, `str::contains` and `str::split_once` with
  string patterns: left-to-right search for the first occurrence.
- `Numbers` models three things:
  - the `usize` parser (`str::parse::<usize>`): an optional `+`, then digits, with
    no overflow past 2^64 - 1;
  - `usize` Display;
  - the UTF-8 byte length that `String::len` reports.
- `Http` models two things:
  - the header-block read: the lines before the first empty line, with the empty
    line consumed;
  - the response format.
- `Routing` models the ordered substring tests on the first request line, the
  `/connect/` index extraction, and the resulting request decoding.
- `Sidecar` models two classes:
  - the display manager, as an oracle `Manager` class. Its state is the devices it
    reports, the name each device answers with, and a log of the connect requests
    it received;
  - `SidecarCore`, with `new`, `refresh` and `connect`.
  
  It also holds the `/devices` map builder.
- `Session` models one connection:
  - a specification function `Serve` from the lines a client sends, and from what
    the manager reports during each turn of the loop (`reports(k)` for turn `k`:
    the operating system attaches, detaches and renames displays while a
    connection is open), to the responses the client receives, the connect
    requests sent and how the session ends;
  - the imperative request loop `HandleIncoming`, proved to produce exactly
    `Serve`'s transcript;
  - lemmas about individual requests and whole scenarios.

The socket is modelled by the sequence of lines the client sends, already split at
line breaks. `Strings.FindFirst` stands for byte-offset search: both agree on where
an occurrence starts in the text.

Two behaviours of the code that a reader might not expect, both modelled as written:

- **Out-of-range connect.** An out-of-range connect index is not reported to the
  client. `self.device_list[index]` (`src/main.rs:108`) panics, the connection's
  thread dies, and the client gets no response. The model ends the session with
  `IndexPanic(index)`: no response and no connect request.
- **Routing by substring.** A request is routed by testing its whole first line
  for the substrings `/devices`, `/connect` and `/refresh`, in that order
  (`src/main.rs:35`, 50, 66), not by parsing its path. A line naming several of
  them takes the first, and a `/connect` line without a readable index ends the
  session instead of falling through to `/refresh`.

## Model

| member | source | states |
|---|---|---|
| Strings.FindFrom | src/main.rs:52-55 | the position found is an occurrence at or after the start, and no occurrence lies between the start and it; with no result there is no occurrence at or after the start |
| Strings.FindFirst | src/main.rs:52-55 | the result is the first occurrence of the pattern, or there is none anywhere |
| Strings.Contains | src/main.rs:35 | `contains` holds exactly when the pattern occurs at some position |
| Strings.SplitOnce | src/main.rs:52-55 | fails exactly when the pattern is absent; otherwise the text is the part before, the pattern, then the part after, and the part before holds no occurrence |
| Strings.FindFirstPast | src/main.rs:52-55 | searching `a + b` when no occurrence starts in `a` is searching `b`, offset by `|a|` |
| Strings.FindFirstSkipChunk | src/main.rs:52-55 | a chunk that differs from the pattern at a position the pattern has, and holds the pattern's first character nowhere after its start, can be skipped by the search |
| Numbers.ParseUsize | src/main.rs:58 | a parse that succeeds is of a non-empty digit string with an optional `+`, and its value is at most 2^64 - 1 |
| Numbers.ParseValue | src/main.rs:58 | an accepted index text is read as the value of its digits, after the optional `+` |
| Numbers.ParseAccepts | src/main.rs:58 | every non-empty digit string whose value is at most 2^64 - 1 is accepted, with or without a `+`, and read as its value |
| Numbers.ZerosValue | src/main.rs:58 | any run of leading zeros leaves the value of a digit string unchanged |
| Numbers.ParseLeadingZeros | src/main.rs:58 | `0...0<n>`, with any number of leading zeros and with or without a `+`, is read as `n` for every `usize` `n` (`"007"` is 7) |
| Numbers.Decimal | src/main.rs:73-74 | the Content-Length text is a non-empty digit string with no leading zero unless it is `0` |
| Numbers.DecimalValue | src/main.rs:73-74 | the decimal text of `n` has value `n` |
| Numbers.DecimalRoundTrip | src/main.rs:58 | the parser reads back `n`, with or without a `+`, from the decimal text of every `usize` `n` |
| Numbers.LeadingZeroValue | src/main.rs:58 | one leading zero does not change the value of a digit string |
| Numbers.ParseRejectsOverflow | src/main.rs:58 | no number above 2^64 - 1 is accepted as an index |
| Numbers.ParseRejectsMinus | src/main.rs:58 | no text starting with `-` is accepted, not even `-0` |
| Numbers.Utf8Width | src/main.rs:73 | every character takes one to four bytes, and one byte exactly when it is ASCII |
| Numbers.Utf8Length | src/main.rs:73 | the byte length is between the character count and four times it |
| Numbers.Utf8LengthAppend | src/main.rs:73-74 | the byte length of a concatenation is the sum of the parts' byte lengths |
| Numbers.Utf8LengthAscii | src/main.rs:73 | the byte length equals the character count exactly when every character is ASCII |
| Http.ReadHeaderBlock | src/main.rs:28-33 | the block has no empty line; the lines are the block, the empty line, then the rest, or the block is all the lines and the rest is empty; a non-empty stream is always consumed |
| Http.ReadHeaderBlockSent | src/main.rs:28-33 | a client's header block followed by an empty line is read as exactly that block, and the next read sees the lines after it |
| Http.HeadEndFound | src/main.rs:74 | the first blank line in a response is the one right after its headers |
| Http.ContentLengthOfHead | src/main.rs:73-74 | the Content-Length header of the head written for `n` reads back as `n` |
| Http.ResponseFraming | src/main.rs:72-75 | for the response `Http.Response` writes (`Http.Head`, a blank line, the body), a client splitting a response at its first blank line gets back the head and exactly the body, and the head's Content-Length is the body's byte length |
| Routing.RouteOrder | src/main.rs:34-70 | the route `Routing.SelectRoute` picks is `/devices` exactly when the line names it; `/connect` exactly when it names that and not `/devices`; `/refresh` exactly when it names neither of those; none exactly when it names none of the three |
| Routing.ConnectIndex | src/main.rs:51-62 | an index that is extracted is a `usize`, and only from a line that contains `/connect/` |
| Routing.ConnectWithoutVersion | src/main.rs:55-56 | a line whose text after its `/connect/` holds no ` HTTP/1.1` has no index (so `GET /connect/1 HTTP/1.0` ends the session) |
| Routing.ConnectIndexOfRequest | src/main.rs:51-62 | on `<method>/connect/<text> HTTP/1.1<rest>` the extraction succeeds exactly when `text` parses, and gives its value |
| Routing.Decode | src/main.rs:34-71 | the session ends with no request exactly when the header block is empty; a connect index is at most 2^64 - 1 |
| Routing.DevicesFirst | src/main.rs:35 | a first line naming `/devices` lists the devices even when it also names `/connect` or `/refresh` |
| Routing.ConnectDoesNotFallThrough | src/main.rs:50-62 | a connect line whose index cannot be extracted ends the session and is never tried as `/refresh` |
| Routing.ConnectRequestDecodes | src/main.rs:50-62 | `<method>/connect/<n> HTTP/1.1<rest>` asks to connect device `n`, for every `usize` `n`, unless `rest` names `/devices` |
| Routing.NoDevicesInConnectLine | src/main.rs:35 | a connect request line does not name `/devices` unless its tail does |
| Routing.PathWithoutIndexEndsSession | src/main.rs:50-54 | `<method>/connect<tail>`, with `tail` not starting with `/` and naming neither `/devices` nor `/connect/`, ends the session as a malformed connect |
| Routing.RefreshRequestDecodes | src/main.rs:66 | `<method>/refresh<tail>` refreshes when the tail names neither earlier route |
| Routing.DevicesRequestDecodes | src/main.rs:35 | `<method>/devices<tail>` lists the devices |
| Routing.VersionNamesNoPath | src/main.rs:55 | the version text ` HTTP/1.1` names no route |
| Routing.DevicesRequestIsList | src/main.rs:35 | `GET /devices HTTP/1.1` lists the devices |
| Routing.RefreshRequestIsRefresh | src/main.rs:66 | `GET /refresh HTTP/1.1` refreshes |
| Routing.ConnectRequestIsConnect | src/main.rs:50-62 | `GET /connect/<n> HTTP/1.1` connects device `n` |
| Routing.BareConnectEndsSession | src/main.rs:50-54 | `GET /connect HTTP/1.1` ends the session and is not served as `/refresh` |
| Sidecar.Manager.Devices | src/main.rs:113 | the `devices` message answers the manager's current devices |
| Sidecar.Manager.ConnectToDevice | src/main.rs:105-108 | one connect request for the device is recorded, after all earlier ones |
| Sidecar.SidecarCore.constructor | src/main.rs:85-102 | a new registry holds the shared manager, and its list is the manager's current devices |
| Sidecar.SidecarCore.Refresh | src/main.rs:112-123 | the list becomes exactly the manager's current devices, in order; nothing of the old list survives |
| Sidecar.SidecarCore.Connect | src/main.rs:104-110 | the index must be within the list; exactly one connect request is sent, for the device at the index; the list is unchanged |
| Sidecar.CollectLastWins | src/main.rs:47 | `Sidecar.Collect` gives a map whose keys are exactly the pairs' keys, each mapped to the value of the last pair with that key |
| Sidecar.CollectPositions | src/main.rs:47 | collecting pairs keyed by their own positions gives a map from exactly those positions to the pairs' values |
| Sidecar.DeviceMap | src/main.rs:38-47 | the `/devices` map, built by collecting `Sidecar.Enumerate`'s position-name pairs, has keys exactly `0 .. n-1`, and key `i` maps to the current name of the device at `i` |
| Sidecar.DeviceMapEqual | src/main.rs:38-47 | the map has one entry per device, and two lists give the same map exactly when they have the same length and the same names position by position |
| Sidecar.Positions | src/main.rs:41 | the positions are exactly the naturals below `n`, and there are `n` of them |
| Sidecar.NewDeviceSeenAfterRefresh | src/main.rs:35-49 | after a device is added and one renamed, a list taken before the refresh still has two entries, with the new name (names are asked for each time); after the refresh it has three, with current names |
| Sidecar.Isolation | src/main.rs:19-26 | in a run where two connections share one manager whose devices change, a refresh on one leaves the other's list as it was, and each connect goes to the device at the index in its own connection's list |
| Session.Respond | src/main.rs:34-71 | a turn that replies had a non-empty request (what each request does is stated by the turn lemmas below and by `Session.Answer`) |
| Session.Answer | src/main.rs:34-71 | the first line is routed as the turn function says, and the different outcomes follow (see the list after this table) |
| Session.Turn | src/main.rs:28-71 | the manager is brought to `reports(turn)`; then the session on the remaining lines is this turn's response and connect followed by the session on the lines after the request, from the next turn, with the list the turn left; or it ends here with no response, and the list is kept |
| Session.HandleIncoming | src/main.rs:25-77 | with the manager brought to `reports(k)` before turn `k`, the loop writes exactly the responses of `Serve` on the client's lines, ends as `Serve` ends, and sends exactly `Serve`'s connect requests, starting from the list the manager reported when the connection was accepted; the manager is left at the report of the last turn |
| Session.SentRequest | src/main.rs:28-34 | a request sent as a block and an empty line is served by one turn on that block, then the rest |
| Session.ListTurn | src/main.rs:34-49 | `GET /devices HTTP/1.1` with any headers answers the names the manager reports now for the registry's list, sends nothing and keeps the list |
| Session.RefreshTurn | src/main.rs:66-68 | `GET /refresh HTTP/1.1` answers "OK", sends nothing, and the session goes on with the devices the manager reports at this turn as its list, whatever the list was |
| Session.ConnectTurn | src/main.rs:50-65 | `GET /connect/<n> HTTP/1.1` answers "OK" and sends exactly one connect, for `list[n]`, when `n` is below the list's length; at the length or above, the connection ends with no answer and no connect |
| Session.BareConnectTurn | src/main.rs:50-54 | `GET /connect HTTP/1.1` ends the session at once, with no response |
| Session.FailedRequestEndsSession | src/main.rs:50-70 | in `Session.Serve`, a request that cannot be routed or parsed ends the session whatever follows; so does an empty line where a request should begin, or the end of the stream |
| Session.RefreshIdempotent | src/main.rs:66-68 | a refresh right before another adds one "OK" and changes nothing else: the second replaces the list the first loaded |
| Session.RefreshThenList | src/main.rs:35-68 | a list request right after a refresh answers the names of the devices the manager reported at the refresh, whatever list the session held before |
| Session.ConnectsFromCurrentList | src/main.rs:27-76 | in every session `Session.Serve` describes, every connect request is for a device of the starting list or of a list the manager reported during one of the session's turns; there are no more connects than responses; the session ends holding its starting list or one the manager reported during one of its turns |
| Session.EmptyListConnectPanics | src/main.rs:34-65 | with an empty list, the list is answered as the empty map and connecting device 0 ends the connection with no answer |
| Session.TwoDeviceMap | src/main.rs:38-47 | two devices named "Studio Display" and "iPad" are listed as `{0: "Studio Display", 1: "iPad"}` |
| Session.ListThenConnect | src/main.rs:34-65 | listing, then connecting device `n` of the list, answers the names and "OK" and sends exactly one connect, for `list[n]` |
| Session.TwoDevicesListThenConnect | src/main.rs:34-65 | with "Studio Display" and "iPad", the list names both, and connecting device 1 answers "OK" and sends exactly one connect, for the second device |

`Session.Answer` has one outcome for each case of the first line:

- **No first line:** the session ends.
- **No route:** the session ends.
- **`/devices`:** the map of the list is answered, and the list is kept.
- **`/connect` with a bad index:** the session ends, with no connect request.
- **`/connect` with an index past the end:** the code panics. The session ends, with no connect request.
- **`/connect` with a good index:** one request is sent, for `list[index]`, and "OK" is answered.
- **`/refresh`:** the list is reloaded, and "OK" is answered.

## Left out

- The TCP listener, the thread spawned per connection, and the socket reads and writes (`src/main.rs:16-23`, 28-31, 75). These are I/O and concurrency. A session is modelled as a function of the lines the client sends.
- `BufReader` buffering. A new `BufReader` is made for every request (`src/main.rs:28`), and any bytes it had buffered past the request are lost when it is dropped. The model assumes every line the client sends reaches the loop.
- Invalid UTF-8 on a request line. It panics through `unwrap` (`src/main.rs:31`). The model's lines are already strings.
- Loading the private framework, Objective-C message dispatch, and raw pointer `unwrap`s (`src/main.rs:86-94`, 108, 113-120, 43-44). The display manager is an oracle class, `Sidecar.Manager`: its current devices, a name for each device, and a log of connect requests. A null manager, device array or name is not modelled.
- `Sidecar.Manager.Update` has no counterpart in the server. It stands for the operating system attaching, detaching or renaming displays. `Session.Turn` applies `reports(k)` with it at the start of turn `k`, and the scenario methods use it directly.
- Changes by the operating system in the middle of a turn. What the manager reports is taken as fixed while one request is answered: `Session.Serve` and `Session.Respond` use one report per turn.
- The completion block passed with a connect request (`src/main.rs:105`). It does nothing, and its outcome is never observed.
- The exact `{:#?}` text of the `/devices` map (`src/main.rs:37`), including string escaping. It is library formatting. `Serve`, `Respond` and `HandleIncoming` take it as a parameter `render`, and the model proves what the map is, not how it is printed.
- Races on the shared display manager between connections. The model treats one connection at a time. Two registries never share a list because of the frames: `Sidecar.SidecarCore.Refresh` may change only its own `deviceList`, and `Sidecar.SidecarCore.Connect` only the manager's connect log. `Sidecar.Isolation` is one run showing this.
- `Session.HandleIncoming` does not say what the connection does after a panic: it reports only how the session ended (`End.IndexPanic`). In the server, the thread unwinds and the connection is dropped.
