/**
 * The resumable terminal, as a transition system: a publisher appends to a capped stream, a gateway positions a reader
 * and pumps entries down a socket, and a client shows them, loses the socket and comes back.
 */
module TerminalStream {
  import opened Options
  import opened Octets
  import opened Frames
  import opened StreamIds

  /** One appended chunk of the pseudo-terminal's output: its place in the stream, that place as text, the bytes. */
  datatype Entry = Entry(at: StreamId, id: string, data: seq<byte>)

  function Bytes(entries: seq<Entry>): seq<byte> {
    if entries == [] then [] else entries[0].data + Bytes(entries[1..])
  }

  // ---------------------------------------------------------------- the client

  datatype ServerMessage = Ready(replayGap: bool) | Data(frame: seq<byte>) | Status | End

  /** The refs of the hook and what the terminal shows. */
  datatype Client = Client(lastStreamId: Option<string>, screen: seq<byte>, attempts: nat, closedByUs: bool)

  const MAX_RECONNECTS := 20

  /** One message: a frame is shown and moves the resume position, a gap clears, an end is for good. */
  function Received(client: Client, message: ServerMessage): Client {
    match message
    case Ready(replayGap) => if replayGap then client.(screen := []) else client
    case Status => client
    case End => client.(closedByUs := true)
    case Data(bytes) =>
      match Decode(bytes)
      case FrameError(_) => client
      case Ok(frame) =>
        client.(
          lastStreamId := if frame.streamId != "" then Some(frame.streamId) else client.lastStreamId,
          screen := client.screen + frame.data)
  }

  function Opened(client: Client): Client {
    client.(attempts := 0)
  }

  predicate Retries(client: Client) {
    !client.closedByUs && client.attempts < MAX_RECONNECTS
  }

  function Closed(client: Client): Client {
    if Retries(client) then client.(attempts := client.attempts + 1) else client
  }

  // ---------------------------------------------------------------- the gateway

  /** Where a reader starts, and whether what the client holds no longer joins up with what is left of the stream. */
  function Positioned(hello: Option<string>, oldest: Option<string>): (string, bool) {
    if hello == None then ("0", false)
    else if hello.value != "" && oldest.Some? && IsPositive(CompareStreamIds(oldest.value, hello.value))
    then ("0", true)
    else (hello.value, false)
  }

  predicate IsPositive(comparison: Option<int>) {
    comparison.Some? && comparison.value > 0
  }

  function Oldest(stream: seq<Entry>): Option<string> {
    if stream == [] then None else Some(stream[0].id)
  }

  function After(stream: seq<Entry>, position: StreamId): seq<Entry> {
    if stream == [] then []
    else (if Before(position, stream[0].at) then [stream[0]] else []) + After(stream[1..], position)
  }

  /** What `XREAD` answers: the entries behind the cursor. */
  function Unread(stream: seq<Entry>, cursor: string): seq<Entry> {
    match PositionOf(cursor)
    case None => []
    case Some(position) => After(stream, position)
  }

  function FrameOf(entry: Entry): seq<ServerMessage> {
    match Encode(entry.id, entry.data)
    case Ok(frame) => [Data(frame)]
    case FrameError(_) => []
  }

  function FramesOf(entries: seq<Entry>): seq<ServerMessage> {
    if entries == [] then [] else FrameOf(entries[0]) + FramesOf(entries[1..])
  }

  // ---------------------------------------------------------------- the system

  /** The one socket: none (and whether a retry is due), being opened, greeted, or attached to a reader. */
  datatype Link =
    | Down(retry: bool)
    | Opening
    | Greeted(hello: Option<string>)
    | Attached(cursor: string, inFlight: seq<ServerMessage>)

  /**
   * `log` is everything ever published, `trimmed` how much of it the stream no longer holds; nothing is published any
   * more once publishing is `over`.
   */
  datatype State = State(log: seq<Entry>, trimmed: nat, over: bool, client: Client, link: Link)

  datatype Step =
    | Publish(at: StreamId, data: seq<byte>)
    | PublishingOver
    | Trim(upTo: nat)
    | Retry
    | Open
    | Serve
    | Read
    | Tell
    | Finish
    | Deliver
    | Drop

  function Stream(s: State): seq<Entry>
    requires s.trimmed <= |s.log|
  {
    s.log[s.trimmed..]
  }

  predicate Enabled(s: State, step: Step) {
    && s.trimmed <= |s.log|
    && match step
       case Publish(at, data) =>
         !s.over && data != [] && Issued(at) && (s.log != [] ==> Before(s.log[|s.log| - 1].at, at))
       case PublishingOver => true
       // A cap leaves the newest entry; only the expiry of a finished run's stream takes everything.
       case Trim(upTo) => s.trimmed <= upTo <= |s.log| && (upTo < |s.log| || s.over)
       case Retry => s.link == Down(true)
       case Open => s.link.Opening?
       case Serve => s.link.Greeted?
       case Read => s.link.Attached? && Unread(Stream(s), s.link.cursor) != []
       case Tell => s.link.Attached?
       case Finish => s.link.Attached?
       case Deliver => s.link.Attached? && s.link.inFlight != []
       case Drop => !s.link.Down?
  }

  function Published(s: State, at: StreamId, data: seq<byte>): State {
    s.(log := s.log + [Entry(at, Text(at), data)])
  }

  function Trimmed(s: State, upTo: nat): State {
    s.(trimmed := upTo)
  }

  function Greeting(s: State): State {
    s.(client := Opened(s.client), link := Greeted(s.client.lastStreamId))
  }

  function Served(s: State): State
    requires s.trimmed <= |s.log| && s.link.Greeted?
  {
    var (cursor, replayGap) := Positioned(s.link.hello, Oldest(Stream(s)));
    s.(link := Attached(cursor, [Ready(replayGap)]))
  }

  /** One turn of the pump: every entry behind the cursor is sent, and the cursor moves to the last of them. */
  function Pumped(s: State, entries: seq<Entry>): State
    requires s.link.Attached? && entries != []
  {
    s.(link := Attached(entries[|entries| - 1].id, s.link.inFlight + FramesOf(entries)))
  }

  function Sent(s: State, message: ServerMessage): State
    requires s.link.Attached?
  {
    s.(link := s.link.(inFlight := s.link.inFlight + [message]))
  }

  function Delivered(s: State): State
    requires s.link.Attached? && s.link.inFlight != []
  {
    s.(client := Received(s.client, s.link.inFlight[0]), link := s.link.(inFlight := s.link.inFlight[1..]))
  }

  /** The socket is gone, and what was in flight with it. */
  function Dropped(s: State): State {
    s.(client := Closed(s.client), link := Down(Retries(s.client)))
  }

  function Next(s: State, step: Step): State
    requires Enabled(s, step)
  {
    match step
    case Publish(at, data) => Published(s, at, data)
    case PublishingOver => s.(over := true)
    case Trim(upTo) => Trimmed(s, upTo)
    case Retry => s.(link := Opening)
    case Open => Greeting(s)
    case Serve => Served(s)
    case Read => Pumped(s, Unread(Stream(s), s.link.cursor))
    case Tell => Sent(s, Status)
    case Finish => Sent(s, End)
    case Deliver => Delivered(s)
    case Drop => Dropped(s)
  }

  /** A trim takes an entry a positioned reader has not read yet, and leaves a later one for it to read. */
  predicate Overtakes(s: State, step: Step)
    requires Enabled(s, step)
  {
    && step.Trim? && step.upTo < |s.log| && s.link.Attached? && s.link.cursor != "0"
    && Unread(s.log[s.trimmed..step.upTo], s.link.cursor) != []
  }

  const INITIAL := State([], 0, false, Client(None, [], 0, false), Opening)

  /** The steps can be taken one after another from `s`. */
  predicate Runs(s: State, steps: seq<Step>)
    decreases |steps|
  {
    steps == [] || (Enabled(s, steps[0]) && Runs(Next(s, steps[0]), steps[1..]))
  }

  function Final(s: State, steps: seq<Step>): State
    requires Runs(s, steps)
    decreases |steps|
  {
    if steps == [] then s else Final(Next(s, steps[0]), steps[1..])
  }

  /** No trim on the way overtakes a positioned reader. */
  predicate NeverOvertakes(s: State, steps: seq<Step>)
    requires Runs(s, steps)
    decreases |steps|
  {
    steps == [] || (!Overtakes(s, steps[0]) && NeverOvertakes(Next(s, steps[0]), steps[1..]))
  }
}
