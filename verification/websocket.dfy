/** The client's WebSocket hook as a state machine. */
module WebSocket {
  import opened Common
  import opened Text
  import opened Js

  // The state is the socket handle, the connected flag, the reconnect counter
  // and the last parsed message; each event yields the effect it asks for (a
  // reconnect scheduled on a timer, a failure notice, a message forwarded). The
  // browser's socket, its timers and JSON parsing stay outside: an event is one
  // callback firing.

  /** The options of `useWebSocket`. */
  datatype WsOptions = WsOptions(reconnect: bool, reconnectInterval: nat, reconnectAttempts: int)

  /** The defaults: reconnect on, every 3000 ms, at most 5 times. */
  const DefaultOptions: WsOptions := WsOptions(true, 3000, 5)

  /** A socket's `readyState`. */
  datatype ReadyState = Connecting | Open | Closing | Closed

  /** The hook's state: `wsRef`, `isConnected`, `reconnectCountRef` and `lastMessage`. */
  datatype WsState = WsState(socket: Option<ReadyState>, connected: bool, count: nat, lastMessage: Option<JsVal>)

  const InitialState: WsState := WsState(None, false, 0, None)

  /** The callbacks that fire. A frame carries the value `JSON.parse` gives it, or nothing when parsing throws. */
  datatype Event =
    | Connect
    | OnOpen
    | OnMessage(parsed: Option<JsVal>)
    | OnClose
    | Disconnect

  /** What an event asks for beyond the state change. */
  datatype Effect = NoEffect | ScheduleConnect(delay: nat) | ShowFailure | Forward(data: JsVal)

  const FailureNotice: string := "WebSocket连接失败，请刷新页面重试"

  /** The address `connect` opens: the token is interpolated, so a missing one becomes the text `null`. */
  function ConnectUrl(url: string, token: Option<string>): (r: string)
    ensures IsPrefix(url + "?token=", r)
    ensures token.Some? ==> r == url + "?token=" + token.value
    ensures token.None? ==> r == url + "?token=null"
  {
    url + "?token=" + (if token.Some? then token.value else "null")
  }

  /** `onclose`: mark disconnected, then reconnect while under the bound, or report failure at it. */
  function HandleClose(opts: WsOptions, s: WsState): (r: (WsState, Effect))
    ensures !r.0.connected && r.0.socket == s.socket && r.0.lastMessage == s.lastMessage
    ensures (opts.reconnect && s.count < opts.reconnectAttempts) ==>
              r.0.count == s.count + 1 && r.1 == ScheduleConnect(opts.reconnectInterval)
    ensures s.count >= opts.reconnectAttempts ==> r.0.count == s.count && r.1 == ShowFailure
    ensures (!opts.reconnect && s.count < opts.reconnectAttempts) ==> r.0.count == s.count && r.1 == NoEffect
  {
    var t := s.(connected := false);
    if opts.reconnect && s.count < opts.reconnectAttempts then (t.(count := s.count + 1), ScheduleConnect(opts.reconnectInterval))
    else if s.count >= opts.reconnectAttempts then (t, ShowFailure)
    else (t, NoEffect)
  }

  /** One callback. */
  function Step(opts: WsOptions, s: WsState, e: Event): (r: (WsState, Effect))
    ensures e.OnOpen? ==> r.0.connected && r.0.count == 0 && r.1 == NoEffect
    ensures e.OnMessage? && e.parsed.None? ==> r == (s, NoEffect)
    ensures e.OnMessage? && e.parsed.Some? ==> r == (s.(lastMessage := e.parsed), Forward(e.parsed.value))
    ensures e.Disconnect? ==> r.0.socket.None? && r.1 == NoEffect && r.0.count == s.count
    ensures e.Connect? ==> r.0.socket == Some(Connecting) && r.1 == NoEffect && r.0.count == s.count
    ensures r.1.ScheduleConnect? ==> e.OnClose? && opts.reconnect && r.0.count == s.count + 1 <= opts.reconnectAttempts
    ensures !e.OnClose? && !e.OnOpen? ==> r.0.count == s.count
  {
    match e
    case Connect => (s.(socket := Some(Connecting)), NoEffect)
    case OnOpen => (s.(socket := Some(Open), connected := true, count := 0), NoEffect)
    case OnMessage(parsed) =>
      if parsed.None? then (s, NoEffect) else (s.(lastMessage := parsed), Forward(parsed.value))
    case OnClose => HandleClose(opts, s.(socket := if s.socket.Some? then Some(Closed) else None))
    case Disconnect => (s.(socket := None), NoEffect)
  }

  /** The state after a run of callbacks. */
  function Run(opts: WsOptions, s: WsState, events: seq<Event>): WsState
    decreases |events|
  {
    if |events| == 0 then s else Run(opts, Step(opts, s, events[0]).0, events[1..])
  }

  /** How many reconnects a run of callbacks schedules. */
  function Reconnects(opts: WsOptions, s: WsState, events: seq<Event>): nat
    decreases |events|
  {
    if |events| == 0 then 0
    else
      var r := Step(opts, s, events[0]);
      (if r.1.ScheduleConnect? then 1 else 0) + Reconnects(opts, r.0, events[1..])
  }

  /** From a counter within the bound, no run of callbacks takes it past the bound. */
  lemma {:induction false} CounterBounded(opts: WsOptions, s: WsState, events: seq<Event>)
    requires s.count <= Max(0, opts.reconnectAttempts)
    ensures Run(opts, s, events).count <= Max(0, opts.reconnectAttempts)
    decreases |events|
  {
    if |events| > 0 {
      CounterBounded(opts, Step(opts, s, events[0]).0, events[1..]);
    }
  }

  /** Between two successful opens at most `reconnectAttempts - count` reconnects are scheduled. */
  lemma {:induction false} ReconnectsBounded(opts: WsOptions, s: WsState, events: seq<Event>)
    requires forall i :: 0 <= i < |events| ==> !events[i].OnOpen?
    ensures Reconnects(opts, s, events) <= Max(0, opts.reconnectAttempts - s.count)
    decreases |events|
  {
    if |events| > 0 {
      var r := Step(opts, s, events[0]);
      ReconnectsBounded(opts, r.0, events[1..]);
    }
  }

  /** With reconnection off no reconnect is ever scheduled. */
  lemma {:induction false} NoReconnectWhenOff(opts: WsOptions, s: WsState, events: seq<Event>)
    requires !opts.reconnect
    ensures Reconnects(opts, s, events) == 0
    decreases |events|
  {
    if |events| > 0 {
      NoReconnectWhenOff(opts, Step(opts, s, events[0]).0, events[1..]);
    }
  }

  /** `disconnect` drops the handle, but the close event that follows still schedules a reconnect. */
  lemma DisconnectStillReconnects(opts: WsOptions, s: WsState)
    requires opts.reconnect && s.count < opts.reconnectAttempts
    ensures var d := Step(opts, s, Disconnect).0;
            d.socket.None? && Step(opts, d, OnClose).1 == ScheduleConnect(opts.reconnectInterval)
  {
  }

  /** `sendMessage`: a frame goes out only on an open socket. */
  function SendMessage(s: WsState, data: JsVal): (sent: Option<JsVal>)
    ensures sent.Some? <==> s.socket == Some(Open)
    ensures sent.Some? ==> sent.value == data
  {
    if s.socket == Some(Open) then Some(data) else None
  }

  /** After a disconnect nothing can be sent, whatever the socket's state was. */
  lemma NothingSentAfterDisconnect(opts: WsOptions, s: WsState, data: JsVal)
    ensures SendMessage(Step(opts, s, Disconnect).0, data).None?
  {
  }
}
