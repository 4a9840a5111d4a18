/**
 * The subscription protocol of src/deribitIvLadder.ts: a websocket that opens, closes and fails at any time, a ladder
 * that is refreshed at any time, sends that are dropped unless the socket is open, and refreshes that send only
 * differences.
 */
module LadderProtocol {
  // The ready states of the current socket; a closing socket has not yet had its close event.
  datatype Socket = NoSocket | Connecting | Open | Closing | Closed

  datatype Message = Subscribe(channels: seq<string>) | Unsubscribe(channels: seq<string>)

  // wire is what was sent on the current connection; the venue starts every connection with no subscription.
  datatype State = State(socket: Socket, ladder: seq<string>, wire: seq<Message>, reconnectPending: bool)

  datatype Event =
    | Refresh(instruments: seq<string>)
    | Connect
    | Opened
    | CloseStarts
    | Dropped
    | Failed
    | TimerFires

  /** `ticker.${item}.100ms`. */
  function Channel(item: string): string {
    "ticker." + item + ".100ms"
  }

  function Channels(items: seq<string>): (channels: seq<string>)
    ensures |channels| == |items| && forall i :: 0 <= i < |items| ==> channels[i] == Channel(items[i])
  {
    if |items| == 0 then [] else [Channel(items[0])] + Channels(items[1..])
  }

  /** The instrument a ticker channel is about, or nothing for another channel. */
  function InstrumentOf(channel: string): (instrument: seq<string>) {
    if "ticker." <= channel then
      var raw := channel[7..];
      [if |raw| >= 6 && raw[|raw| - 6..] == ".100ms" then raw[..|raw| - 6] else raw]
    else []
  }

  /** Ticks come back on the channel that was subscribed, under the instrument's own name. */
  lemma ChannelNamesInstrument(item: string)
    ensures InstrumentOf(Channel(item)) == [item]
  {
    var channel := Channel(item);
    assert channel[7..] == item + ".100ms";
    assert (item + ".100ms")[|item|..] == ".100ms" && (item + ".100ms")[..|item|] == item;
  }

  function Send(s: State, m: Message): State {
    if s.socket.Open? && |m.channels| > 0 then s.(wire := s.wire + [m]) else s
  }

  function Without(items: seq<string>, others: seq<string>): seq<string> {
    if |items| == 0 then []
    else (if items[0] in others then [] else [items[0]]) + Without(items[1..], others)
  }

  function UpdateSubscriptions(s: State, next: seq<string>): State {
    var s1 := Send(s.(ladder := next), Subscribe(Channels(Without(next, s.ladder))));
    Send(s1, Unsubscribe(Channels(Without(s.ladder, next))))
  }

  /** Handlers of a replaced socket are removed, so an event of a socket not in the matching state does not happen. */
  function Next(s: State, e: Event): State {
    match e
    case Refresh(instruments) => UpdateSubscriptions(s, instruments)
    case Connect => s.(socket := Connecting, wire := [])
    case Opened =>
      if s.socket.Connecting? then Send(s.(socket := Open), Subscribe(Channels(s.ladder))) else s
    case CloseStarts =>
      if s.socket.Connecting? || s.socket.Open? then s.(socket := Closing) else s
    case Dropped =>
      if s.socket.NoSocket? then s else s.(socket := Closed, reconnectPending := true)
    case Failed =>
      if s.socket.NoSocket? then s else s.(reconnectPending := true)
    case TimerFires =>
      if s.reconnectPending then s.(socket := Connecting, wire := [], reconnectPending := false) else s
  }

  const START := State(NoSocket, [], [], false)

  function Run(s: State, es: seq<Event>): State {
    if |es| == 0 then s else Next(Run(s, es[..|es| - 1]), es[|es| - 1])
  }

  /** What the venue has subscribed after the messages of a connection, in order. */
  function Subscribed(wire: seq<Message>): set<string> {
    if |wire| == 0 then {}
    else
      var before, m := Subscribed(wire[..|wire| - 1]), wire[|wire| - 1];
      match m
      case Subscribe(channels) => before + (set c | c in channels)
      case Unsubscribe(channels) => before - (set c | c in channels)
  }

  function LadderChannels(items: seq<string>): set<string> {
    set c | c in Channels(items)
  }

  /** An open socket has exactly the ladder subscribed, and a closed one is going to be replaced. */
  predicate InSync(s: State) {
    && (s.socket.Open? ==> Subscribed(s.wire) == LadderChannels(s.ladder))
    && (s.socket.Connecting? ==> s.wire == [])
    && (s.socket.Closed? ==> s.reconnectPending)
  }

  lemma SendEffect(s: State, m: Message)
    requires s.socket.Open?
    ensures Subscribed(Send(s, m).wire)
         == if m.Subscribe? then Subscribed(s.wire) + (set c | c in m.channels)
            else Subscribed(s.wire) - (set c | c in m.channels)
  {
    if |m.channels| > 0 {
      assert (s.wire + [m])[..|s.wire|] == s.wire;
    }
  }

  lemma {:induction false} WithoutIs(items: seq<string>, others: seq<string>)
    ensures forall x :: x in Without(items, others) <==> x in items && x !in others
  {
    if |items| > 0 {
      WithoutIs(items[1..], others);
      assert items == [items[0]] + items[1..];
    }
  }

  lemma InLadderChannels(items: seq<string>, c: string)
    ensures c in LadderChannels(items) <==> exists x :: x in items && Channel(x) == c
  {
    if c in LadderChannels(items) {
      var i :| 0 <= i < |items| && Channels(items)[i] == c;
      assert items[i] in items && Channel(items[i]) == c;
    }
    if x :| x in items && Channel(x) == c {
      var i :| 0 <= i < |items| && items[i] == x;
      assert Channels(items)[i] == c;
    }
  }

  lemma ChannelInjective(x: string, y: string)
    requires Channel(x) == Channel(y)
    ensures x == y
  {
    ChannelNamesInstrument(x);
    ChannelNamesInstrument(y);
  }

  /** Adding the new names and then removing the old ones turns the old ladder's channels into the new ladder's. */
  lemma DifferencesSuffice(old': seq<string>, next: seq<string>)
    ensures LadderChannels(old') + LadderChannels(Without(next, old')) - LadderChannels(Without(old', next))
         == LadderChannels(next)
  {
    WithoutIs(next, old');
    WithoutIs(old', next);
    forall c
      ensures c in LadderChannels(old') + LadderChannels(Without(next, old')) - LadderChannels(Without(old', next))
         <==> c in LadderChannels(next)
    {
      InLadderChannels(old', c);
      InLadderChannels(next, c);
      InLadderChannels(Without(next, old'), c);
      InLadderChannels(Without(old', next), c);
      forall x, y | Channel(x) == c && Channel(y) == c
        ensures x == y
      {
        ChannelInjective(x, y);
      }
    }
  }

  lemma NextKeepsInSync(s: State, e: Event)
    requires InSync(s)
    ensures InSync(Next(s, e))
  {
    hide Subscribed, LadderChannels, Channels, Without;
    match e
    case Refresh(next) =>
      if s.socket.Open? {
        var add, remove := Subscribe(Channels(Without(next, s.ladder))), Unsubscribe(Channels(Without(s.ladder, next)));
        var s0 := s.(ladder := next);
        SendEffect(s0, add);
        SendEffect(Send(s0, add), remove);
        SetsOfChannels(Without(next, s.ladder));
        SetsOfChannels(Without(s.ladder, next));
        DifferencesSuffice(s.ladder, next);
      }
    case Opened =>
      if s.socket.Connecting? {
        OpenSubscribesAll(s);
      }
    case _ =>
  }

  lemma SetsOfChannels(items: seq<string>)
    ensures LadderChannels(items) == set c | c in Channels(items)
  {
  }

  /** The first message of a connection subscribes the whole ladder. */
  lemma OpenSubscribesAll(s: State)
    requires s.socket.Connecting? && s.wire == []
    ensures Subscribed(Next(s, Opened).wire) == LadderChannels(s.ladder)
  {
    SendEffect(s.(socket := Open), Subscribe(Channels(s.ladder)));
  }

  /**
   * After every interleaving of refreshes, opens, closes, errors and reconnects: the venue's subscriptions on an
   * open socket are exactly the current ladder, nothing was sent on a socket still connecting, and a closed socket
   * has a reconnect scheduled.
   */
  lemma {:induction false} AlwaysInSync(es: seq<Event>)
    ensures InSync(Run(START, es))
  {
    hide InSync, Next;
    if |es| == 0 {
      StartInSync();
    } else {
      AlwaysInSync(es[..|es| - 1]);
      NextKeepsInSync(Run(START, es[..|es| - 1]), es[|es| - 1]);
    }
  }

  lemma StartInSync()
    ensures InSync(START)
  {
  }

  /** A refresh of an open socket in step never subscribes what is subscribed nor unsubscribes what is not. */
  lemma RefreshSendsDifferences(s: State, next: seq<string>, m: Message)
    requires InSync(s) && s.socket.Open?
    requires m in Next(s, Refresh(next)).wire[|s.wire|..]
    ensures |m.channels| > 0
    ensures forall c :: c in m.channels ==> (c in Subscribed(s.wire) <==> m.Unsubscribe?)
    ensures m.Subscribe? ==> forall c :: c in m.channels ==> c in LadderChannels(next)
    ensures m.Unsubscribe? ==> forall c :: c in m.channels ==> c !in LadderChannels(next)
  {
    hide Subscribed, LadderChannels, Without;
    var add, remove := Without(next, s.ladder), Without(s.ladder, next);
    var sent := Next(s, Refresh(next)).wire[|s.wire|..];
    assert sent == (if |add| > 0 then [Subscribe(Channels(add))] else [])
                   + (if |remove| > 0 then [Unsubscribe(Channels(remove))] else []);
    forall c | c in m.channels
      ensures if m.Subscribe? then c in LadderChannels(next) && c !in LadderChannels(s.ladder)
              else c in LadderChannels(s.ladder) && c !in LadderChannels(next)
    {
      if m.Subscribe? {
        SetsOfChannels(add);
        OnlyInFirst(next, s.ladder, c);
      } else {
        SetsOfChannels(remove);
        OnlyInFirst(s.ladder, next, c);
      }
    }
  }

  lemma OnlyInFirst(items: seq<string>, others: seq<string>, c: string)
    requires c in LadderChannels(Without(items, others))
    ensures c in LadderChannels(items) && c !in LadderChannels(others)
  {
    WithoutIs(items, others);
    InLadderChannels(items, c);
    InLadderChannels(others, c);
    InLadderChannels(Without(items, others), c);
    forall x, y | Channel(x) == c && Channel(y) == c
      ensures x == y
    {
      ChannelInjective(x, y);
    }
  }

  // ---------------------------------------------------------------------------------------------

  /** Where each event leaves the socket, the ladder and the reconnect timer. */
  lemma EventEffects(s: State, e: Event)
    ensures var s' := Next(s, e);
            && (e.Refresh? ==> s'.ladder == e.instruments && s'.socket == s.socket)
            && (!e.Refresh? ==> s'.ladder == s.ladder)
            && (e.Connect? ==> s'.socket == Connecting && s'.wire == [])
            && (e.Opened? ==> s'.socket == if s.socket == Connecting then Open else s.socket)
            && (e.CloseStarts? ==> s'.socket == if s.socket in {Connecting, Open} then Closing else s.socket)
            && (e.Dropped? ==> s'.socket == if s.socket == NoSocket then NoSocket else Closed)
            && (e.Failed? ==> s'.socket == s.socket)
            && (e.TimerFires? ==> s'.socket == if s.reconnectPending then Connecting else s.socket)
            && s'.reconnectPending
               == (if e.Dropped? || e.Failed? then s.reconnectPending || s.socket != NoSocket
                   else s.reconnectPending && !e.TimerFires?)
  {
    hide Without, Channels;
  }

  /** A closed socket comes back: its timer fires, the new socket opens, and the whole ladder is subscribed again. */
  lemma ReconnectRestores(s: State)
    requires InSync(s) && s.socket.Closed?
    ensures var s' := Next(Next(s, TimerFires), Opened);
            && s'.socket == Open && s'.ladder == s.ladder && !s'.reconnectPending
            && Subscribed(s'.wire) == LadderChannels(s.ladder)
  {
    EventEffects(s, TimerFires);
    EventEffects(Next(s, TimerFires), Opened);
    OpenSubscribesAll(Next(s, TimerFires));
  }
}
