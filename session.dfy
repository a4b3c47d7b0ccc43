/** The state machine of the streaming session service (src/providers/socket.tsx),
    as pure functions over a value that holds every field the service changes.
    Sockets are abstract slots, sent frames are appended to one outbox per
    connection, listener emits are appended to an event log, and scheduled
    reconnect timers are kept as the list of their delays. */
module Session {
  import opened Wire
  import opened Text

  datatype Channel = General | Transaction

  /** A connection field: null, or a socket whose readyState is CONNECTING or OPEN. */
  datatype Slot = NoSocket | Connecting | Open

  /** An outgoing `{type, room}` frame. */
  datatype Frame = Join(room: string) | Leave(room: string)

  /** One `emitter.emit(event, data)` call. */
  datatype Emit = Emit(event: string, data: Option<Payload>)

  /** A parsed incoming envelope `{type, room, data}`. */
  datatype Message = Message(kind: string, room: string, data: Option<Payload>)

  datatype SessionState = SessionState(
    socket: Slot,                     // this.socket
    transactionSocket: Slot,          // this.transactionSocket
    windowSocket: bool,               // window.socket is non-null
    windowTransactionSocket: bool,    // window.transactionSocket is non-null
    reconnectAttempts: nat,
    subscribedRooms: seq<string>,     // a Set: insertion order, no duplicates
    transactions: set<string>,        // tx ids seen during this session
    generalOutbox: seq<Frame>,        // frames sent on this.socket
    transactionOutbox: seq<Frame>,    // frames sent on this.transactionSocket
    emitted: seq<Emit>,               // emits to in-process listeners
    timers: seq<real>)                // pending reconnect timers, by delay in ms

  /** Before the constructor runs: no sockets, no global references, nothing registered. */
  const Initial := SessionState(NoSocket, NoSocket, false, false, 0, [], {}, [], [], [], [])

  lemma InitialConnect()
    ensures Valid(Initial)
    ensures Connect(Initial).socket == Connecting && Connect(Initial).transactionSocket == Connecting
  {
  }

  const ReconnectDelay := 2500
  const ReconnectDelayMax := 4500
  const RandomizationFactor: real := 0.5

  predicate NoDuplicates(rooms: seq<string>)
  {
    forall i, j :: 0 <= i < j < |rooms| ==> rooms[i] != rooms[j]
  }

  /** The service's invariant: the room registry is a set, and a live socket
      field always has its global reference set (both are set together in
      `connect`, cleared together in `onclose`; `disconnect` clears only the fields). */
  ghost predicate Valid(s: SessionState)
  {
    && NoDuplicates(s.subscribedRooms)
    && (s.socket != NoSocket ==> s.windowSocket)
    && (s.transactionSocket != NoSocket ==> s.windowTransactionSocket)
  }

  // ---------------------------------------------------------------- routing

  /** The connection that carries `room`: the transaction socket exactly when
      the room name contains "transaction". */
  function Owner(room: string): (ch: Channel)
    ensures ch == Transaction <==> exists i :: OccursAt(room, "transaction", i)
  {
    ContainsIff(room, "transaction");
    if Contains(room, "transaction") then Transaction else General
  }

  function SlotOf(s: SessionState, ch: Channel): Slot
  {
    match ch
    case General => s.socket
    case Transaction => s.transactionSocket
  }

  function Outbox(s: SessionState, ch: Channel): seq<Frame>
  {
    match ch
    case General => s.generalOutbox
    case Transaction => s.transactionOutbox
  }

  function OtherChannel(ch: Channel): Channel
  {
    match ch
    case General => Transaction
    case Transaction => General
  }

  /** `socket.send(frame)` on the connection of `ch`, if it is open. */
  function SendIfOpen(s: SessionState, ch: Channel, f: Frame): (t: SessionState)
    ensures Outbox(t, ch) == Outbox(s, ch) + (if SlotOf(s, ch) == Open then [f] else [])
    ensures Outbox(t, OtherChannel(ch)) == Outbox(s, OtherChannel(ch))
    ensures t.(generalOutbox := s.generalOutbox, transactionOutbox := s.transactionOutbox) == s
  {
    if SlotOf(s, ch) != Open then s
    else match ch
      case General => s.(generalOutbox := s.generalOutbox + [f])
      case Transaction => s.(transactionOutbox := s.transactionOutbox + [f])
  }

  // ---------------------------------------------------------- room registry

  /** `Set.add`: appends a room not yet present, otherwise keeps the order. */
  function AddRoom(rooms: seq<string>, room: string): (rs: seq<string>)
    ensures forall x :: x in rs <==> x in rooms || x == room
    ensures NoDuplicates(rooms) ==> NoDuplicates(rs)
    ensures room in rooms ==> rs == rooms
  {
    if room in rooms then rooms else rooms + [room]
  }

  /** `Set.delete`: drops the room, keeping the order of the others. */
  function RemoveRoom(rooms: seq<string>, room: string): (rs: seq<string>)
    ensures forall x :: x in rs <==> x in rooms && x != room
    ensures NoDuplicates(rooms) ==> NoDuplicates(rs)
    ensures room !in rooms ==> rs == rooms
    ensures |rs| <= |rooms|
  {
    if rooms == [] then []
    else
      var rest := RemoveRoom(rooms[1..], room);
      assert rooms == [rooms[0]] + rooms[1..];
      NoDuplicatesCons(rooms[0], rooms[1..]);
      NoDuplicatesCons(rooms[0], rest);
      (if rooms[0] == room then [] else [rooms[0]]) + rest
  }

  lemma NoDuplicatesCons(x: string, rooms: seq<string>)
    ensures NoDuplicates([x] + rooms) <==> x !in rooms && NoDuplicates(rooms)
  {
    var xs := [x] + rooms;
    if x !in rooms && NoDuplicates(rooms) {
      forall i, j | 0 <= i < j < |xs| ensures xs[i] != xs[j] {
        if i > 0 { assert xs[i] == rooms[i - 1] && xs[j] == rooms[j - 1]; }
        else { assert xs[j] == rooms[j - 1]; }
      }
    }
    if NoDuplicates(xs) {
      forall i, j | 0 <= i < j < |rooms| ensures rooms[i] != rooms[j] {
        assert rooms[i] == xs[i + 1] && rooms[j] == xs[j + 1];
      }
      forall k | 0 <= k < |rooms| ensures rooms[k] != x {
        assert xs[k + 1] == rooms[k] && xs[0] == x;
      }
    }
  }

  /** `Set.delete` undoes an `add` of a room that was not present. */
  lemma {:induction false} RemoveAppended(rooms: seq<string>, room: string)
    requires room !in rooms
    ensures RemoveRoom(rooms + [room], room) == rooms
    decreases |rooms|
  {
    if rooms == [] {
      assert RemoveRoom([room], room) == [] + RemoveRoom([], room);
    } else {
      assert (rooms + [room])[1..] == rooms[1..] + [room];
      RemoveAppended(rooms[1..], room);
      assert rooms == [rooms[0]] + rooms[1..];
    }
  }

  /** `joinRoom(room)`: registers the room, then sends one join frame on the
      owning connection when that connection is open. */
  function JoinRoom(s: SessionState, room: string): (t: SessionState)
    ensures forall x :: x in t.subscribedRooms <==> x in s.subscribedRooms || x == room
    ensures Outbox(t, Owner(room)) == Outbox(s, Owner(room)) + (if SlotOf(s, Owner(room)) == Open then [Join(room)] else [])
    ensures Outbox(t, OtherChannel(Owner(room))) == Outbox(s, OtherChannel(Owner(room)))
    ensures t.(subscribedRooms := s.subscribedRooms, generalOutbox := s.generalOutbox, transactionOutbox := s.transactionOutbox) == s
    ensures Valid(s) ==> Valid(t)
  {
    SendIfOpen(s.(subscribedRooms := AddRoom(s.subscribedRooms, room)), Owner(room), Join(room))
  }

  /** `leaveRoom(room)`: unregisters the room, then sends one leave frame on the
      owning connection when that connection is open. */
  function LeaveRoom(s: SessionState, room: string): (t: SessionState)
    ensures forall x :: x in t.subscribedRooms <==> x in s.subscribedRooms && x != room
    ensures Outbox(t, Owner(room)) == Outbox(s, Owner(room)) + (if SlotOf(s, Owner(room)) == Open then [Leave(room)] else [])
    ensures Outbox(t, OtherChannel(Owner(room))) == Outbox(s, OtherChannel(Owner(room)))
    ensures t.(subscribedRooms := s.subscribedRooms, generalOutbox := s.generalOutbox, transactionOutbox := s.transactionOutbox) == s
    ensures Valid(s) ==> Valid(t)
  {
    SendIfOpen(s.(subscribedRooms := RemoveRoom(s.subscribedRooms, room)), Owner(room), Leave(room))
  }

  /** Joining and then leaving a room whose connection is not open sends no
      frame at all, and leaves the registry as it was when the room was new. */
  lemma JoinThenLeaveOffline(s: SessionState, room: string)
    requires SlotOf(s, Owner(room)) != Open
    ensures LeaveRoom(JoinRoom(s, room), room).generalOutbox == s.generalOutbox
    ensures LeaveRoom(JoinRoom(s, room), room).transactionOutbox == s.transactionOutbox
    ensures room !in LeaveRoom(JoinRoom(s, room), room).subscribedRooms
    ensures room !in s.subscribedRooms ==> LeaveRoom(JoinRoom(s, room), room) == s
  {
    if room !in s.subscribedRooms {
      RemoveAppended(s.subscribedRooms, room);
    }
  }

  /** The join frames `resubscribeToRooms` sends on `ch`: one per registered
      room that `ch` owns, in registry order. */
  function JoinFrames(rooms: seq<string>, ch: Channel): seq<Frame>
    decreases |rooms|
  {
    if rooms == [] then []
    else JoinFrames(rooms[..|rooms| - 1], ch)
         + (if Owner(rooms[|rooms| - 1]) == ch then [Join(rooms[|rooms| - 1])] else [])
  }

  /** Every frame of `JoinFrames` joins a registered room that `ch` owns, and a
      registered room owned by `ch` is joined exactly once when the registry has
      no duplicates. */
  lemma {:induction false} JoinFramesExact(rooms: seq<string>, ch: Channel)
    requires NoDuplicates(rooms)
    ensures forall f :: f in JoinFrames(rooms, ch) ==> f.Join? && f.room in rooms && Owner(f.room) == ch
    ensures forall r :: r in rooms && Owner(r) == ch ==> multiset(JoinFrames(rooms, ch))[Join(r)] == 1
    ensures forall r :: r !in rooms || Owner(r) != ch ==> multiset(JoinFrames(rooms, ch))[Join(r)] == 0
    decreases |rooms|
  {
    if rooms != [] {
      var init, last := rooms[..|rooms| - 1], rooms[|rooms| - 1];
      assert rooms == init + [last];
      assert NoDuplicates(init);
      assert last !in init by {
        forall i | 0 <= i < |init| ensures init[i] != last {
          assert rooms[i] == init[i];
        }
      }
      JoinFramesExact(init, ch);
      var tail := if Owner(last) == ch then [Join(last)] else [];
      assert JoinFrames(rooms, ch) == JoinFrames(init, ch) + tail;
      assert multiset(JoinFrames(rooms, ch)) == multiset(JoinFrames(init, ch)) + multiset(tail);
    }
  }

  /** `resubscribeToRooms`: when both connections are open, one join per
      registered room, each on its owning connection; otherwise nothing. */
  function Resubscribe(s: SessionState): (t: SessionState)
    ensures !(s.socket == Open && s.transactionSocket == Open) ==> t == s
    ensures t.(generalOutbox := s.generalOutbox, transactionOutbox := s.transactionOutbox) == s
    ensures Valid(s) ==> Valid(t)
  {
    if s.socket == Open && s.transactionSocket == Open then
      s.(generalOutbox := s.generalOutbox + JoinFrames(s.subscribedRooms, General),
         transactionOutbox := s.transactionOutbox + JoinFrames(s.subscribedRooms, Transaction))
    else s
  }

  /** With both connections open, resubscribing adds exactly one join for every
      registered room to its owner's outbox and none to the other outbox, and
      sends nothing else. */
  lemma ResubscribeOncePerRoom(s: SessionState, ch: Channel)
    requires Valid(s)
    requires s.socket == Open && s.transactionSocket == Open
    ensures Outbox(Resubscribe(s), ch)[..|Outbox(s, ch)|] == Outbox(s, ch)
    ensures forall f :: f in Outbox(Resubscribe(s), ch)[|Outbox(s, ch)|..] ==>
              f.Join? && f.room in s.subscribedRooms && Owner(f.room) == ch
    ensures forall r :: r in s.subscribedRooms ==>
              multiset(Outbox(Resubscribe(s), Owner(r)))[Join(r)] == multiset(Outbox(s, Owner(r)))[Join(r)] + 1 &&
              multiset(Outbox(Resubscribe(s), OtherChannel(Owner(r))))[Join(r)] == multiset(Outbox(s, OtherChannel(Owner(r))))[Join(r)]
  {
    var t := Resubscribe(s);
    forall c ensures Outbox(t, c) == Outbox(s, c) + JoinFrames(s.subscribedRooms, c) {
      match c
      case General =>
      case Transaction =>
    }
    JoinFramesExact(s.subscribedRooms, ch);
    assert Outbox(t, ch)[|Outbox(s, ch)|..] == JoinFrames(s.subscribedRooms, ch);
    AppendJoinFrames(Outbox(s, General), s.subscribedRooms, General);
    AppendJoinFrames(Outbox(s, Transaction), s.subscribedRooms, Transaction);
    forall r | r in s.subscribedRooms
      ensures multiset(Outbox(t, Owner(r)))[Join(r)] == multiset(Outbox(s, Owner(r)))[Join(r)] + 1
      ensures multiset(Outbox(t, OtherChannel(Owner(r))))[Join(r)] == multiset(Outbox(s, OtherChannel(Owner(r))))[Join(r)]
    {
      match Owner(r)
      case General =>
      case Transaction =>
    }
  }

  /** Appending the join frames of a duplicate-free registry to an outbox adds
      one join for each room `ch` owns and none for the others. */
  lemma AppendJoinFrames(prefix: seq<Frame>, rooms: seq<string>, ch: Channel)
    requires NoDuplicates(rooms)
    ensures forall r :: r in rooms ==>
              multiset(prefix + JoinFrames(rooms, ch))[Join(r)] == multiset(prefix)[Join(r)] + (if Owner(r) == ch then 1 else 0)
  {
    JoinFramesExact(rooms, ch);
    assert multiset(prefix + JoinFrames(rooms, ch)) == multiset(prefix) + multiset(JoinFrames(rooms, ch));
  }

  // ------------------------------------------------------------- connection

  /** `connect()` opens both connections only when both fields and both global
      references are null. */
  predicate MayCreate(s: SessionState)
  {
    !(s.socket != NoSocket && s.transactionSocket != NoSocket) && !s.windowSocket && !s.windowTransactionSocket
  }

  function Connect(s: SessionState): (t: SessionState)
    ensures MayCreate(s) ==> t == s.(socket := Connecting, transactionSocket := Connecting,
                                     windowSocket := true, windowTransactionSocket := true)
    ensures !MayCreate(s) ==> t == s
    ensures Valid(s) ==> Valid(t)
  {
    if s.socket != NoSocket && s.transactionSocket != NoSocket then s
    else if s.windowSocket || s.windowTransactionSocket then s
    else s.(socket := Connecting, transactionSocket := Connecting, windowSocket := true, windowTransactionSocket := true)
  }

  /** Under the invariant, `connect()` never replaces a live socket: it creates
      sockets exactly when both fields and both global references are null. */
  lemma ConnectNeverReplacesLiveSocket(s: SessionState)
    requires Valid(s)
    ensures Connect(s) != s <==>
              s.socket == NoSocket && s.transactionSocket == NoSocket && !s.windowSocket && !s.windowTransactionSocket
    ensures Connect(Connect(s)) == Connect(s)
  {
  }

  /** `disconnect()`: nulls both fields and empties the registry and the dedup
      set; the global references stay as they were. */
  function Disconnect(s: SessionState): (t: SessionState)
    ensures t.socket == NoSocket && t.transactionSocket == NoSocket
    ensures t.subscribedRooms == [] && t.transactions == {}
    ensures t.windowSocket == s.windowSocket && t.windowTransactionSocket == s.windowTransactionSocket
    ensures t.(socket := s.socket, transactionSocket := s.transactionSocket,
               subscribedRooms := s.subscribedRooms, transactions := s.transactions) == s
    ensures Valid(t)
  {
    s.(socket := NoSocket, transactionSocket := NoSocket, subscribedRooms := [], transactions := {})
  }

  /** Because `disconnect()` keeps the global references, a `connect()` right
      after it creates nothing while either reference is still set. */
  lemma ConnectBlockedAfterDisconnect(s: SessionState)
    requires s.windowSocket || s.windowTransactionSocket
    ensures Connect(Disconnect(s)) == Disconnect(s)
  {
  }

  // ---------------------------------------------------------------- backoff

  function Pow2(n: nat): (p: nat)
    ensures p >= 1
    ensures n >= 1 ==> p >= 2
  {
    if n == 0 then 1 else 2 * Pow2(n - 1)
  }

  function Min(a: int, b: int): int
  {
    if a <= b then a else b
  }

  /** `Math.min(reconnectDelay * 2 ** reconnectAttempts, reconnectDelayMax)`. */
  function BaseDelay(attempts: nat): (d: int)
    ensures d == (if attempts == 0 then 2500 else 4500)
  {
    Min(ReconnectDelay * Pow2(attempts), ReconnectDelayMax)
  }

  /** The delay handed to `setTimeout`: the base delay plus `random` times half
      of it, where `random` stands for `Math.random()`. */
  function BackoffDelay(attempts: nat, random: real): (r: real)
    requires 0.0 <= random < 1.0
    ensures BaseDelay(attempts) as real <= r < BaseDelay(attempts) as real * 1.5
    ensures 2500.0 <= r < 6750.0
  {
    var delay := BaseDelay(attempts) as real;
    delay + random * (delay * RandomizationFactor)
  }

  /** For the same random draw the delay never shrinks as attempts grow. */
  lemma BackoffMonotone(a: nat, b: nat, random: real)
    requires a <= b
    requires 0.0 <= random < 1.0
    ensures BackoffDelay(a, random) <= BackoffDelay(b, random)
  {
  }

  /** `reconnect()`: schedules one timer with the delay for the current attempt count. */
  function Reconnect(s: SessionState, random: real): (t: SessionState)
    requires 0.0 <= random < 1.0
    ensures t == s.(timers := s.timers + [BackoffDelay(s.reconnectAttempts, random)])
  {
    s.(timers := s.timers + [BackoffDelay(s.reconnectAttempts, random)])
  }

  function RemoveAt(xs: seq<real>, i: nat): (ys: seq<real>)
    requires i < |xs|
    ensures |ys| == |xs| - 1
    ensures forall k :: 0 <= k < i ==> ys[k] == xs[k]
    ensures forall k :: i <= k < |ys| ==> ys[k] == xs[k + 1]
  {
    xs[..i] + xs[i + 1..]
  }

  /** A scheduled reconnect timer fires: the timer is gone, the attempt count
      goes up by one, and `connect()` runs. */
  function FireReconnect(s: SessionState, i: nat): (t: SessionState)
    requires i < |s.timers|
    ensures t.reconnectAttempts == s.reconnectAttempts + 1
    ensures t.timers == RemoveAt(s.timers, i)
    ensures t == Connect(s.(reconnectAttempts := s.reconnectAttempts + 1, timers := RemoveAt(s.timers, i)))
    ensures Valid(s) ==> Valid(t)
  {
    Connect(s.(reconnectAttempts := s.reconnectAttempts + 1, timers := RemoveAt(s.timers, i)))
  }

  // --------------------------------------------------------- socket events

  /** The first half of `onopen`: the slot of `ch` becomes open if it held a
      connecting socket, and the attempt count resets. */
  function Opened(s: SessionState, ch: Channel): (t: SessionState)
    ensures t.reconnectAttempts == 0
    ensures SlotOf(s, ch) == Connecting ==> SlotOf(t, ch) == Open
    ensures SlotOf(s, ch) != Connecting ==> SlotOf(t, ch) == SlotOf(s, ch)
    ensures SlotOf(t, OtherChannel(ch)) == SlotOf(s, OtherChannel(ch))
    ensures t.(socket := s.socket, transactionSocket := s.transactionSocket, reconnectAttempts := s.reconnectAttempts) == s
  {
    var now := if SlotOf(s, ch) == Connecting then Open else SlotOf(s, ch);
    match ch
    case General => s.(socket := now, reconnectAttempts := 0)
    case Transaction => s.(transactionSocket := now, reconnectAttempts := 0)
  }

  /** `onopen` of the socket of `ch`: the slot becomes open if it held a
      connecting socket, the attempt count resets, and rooms are replayed. */
  function OnOpen(s: SessionState, ch: Channel): (t: SessionState)
    ensures t == Resubscribe(Opened(s, ch))
    ensures t.reconnectAttempts == 0
    ensures SlotOf(s, ch) == Connecting ==> SlotOf(t, ch) == Open
    ensures SlotOf(s, ch) != Connecting ==> SlotOf(t, ch) == SlotOf(s, ch)
    ensures SlotOf(t, OtherChannel(ch)) == SlotOf(s, OtherChannel(ch))
    ensures t.subscribedRooms == s.subscribedRooms && t.transactions == s.transactions && t.timers == s.timers
    ensures t.windowSocket == s.windowSocket && t.windowTransactionSocket == s.windowTransactionSocket
    ensures t.emitted == s.emitted
    ensures !(SlotOf(t, General) == Open && SlotOf(t, Transaction) == Open) ==>
              t.generalOutbox == s.generalOutbox && t.transactionOutbox == s.transactionOutbox
    ensures Valid(s) ==> Valid(t)
  {
    Resubscribe(Opened(s, ch))
  }

  /** When the second connection opens, every registered room is joined again
      exactly once, on the connection that owns it, and nothing else is sent. */
  lemma OpenReplaysRooms(s: SessionState, ch: Channel)
    requires Valid(s)
    requires SlotOf(s, ch) == Connecting && SlotOf(s, OtherChannel(ch)) == Open
    ensures forall c :: Outbox(OnOpen(s, ch), c)[..|Outbox(s, c)|] == Outbox(s, c)
    ensures forall c, f :: f in Outbox(OnOpen(s, ch), c)[|Outbox(s, c)|..] ==>
              f.Join? && f.room in s.subscribedRooms && Owner(f.room) == c
    ensures forall r :: r in s.subscribedRooms ==>
              multiset(Outbox(OnOpen(s, ch), Owner(r)))[Join(r)] == multiset(Outbox(s, Owner(r)))[Join(r)] + 1 &&
              multiset(Outbox(OnOpen(s, ch), OtherChannel(Owner(r))))[Join(r)] == multiset(Outbox(s, OtherChannel(Owner(r))))[Join(r)]
  {
    var s1 := Opened(s, ch);
    assert s1.socket == Open && s1.transactionSocket == Open by {
      match ch
      case General =>
      case Transaction =>
    }
    assert Valid(s1);
    assert OnOpen(s, ch) == Resubscribe(s1);
    assert forall c :: Outbox(s1, c) == Outbox(s, c);
    ResubscribeOncePerRoom(s1, General);
    ResubscribeOncePerRoom(s1, Transaction);
  }

  /** `onclose` of the socket of `ch`: only that slot and its global reference
      are cleared, and one reconnect is scheduled. */
  function OnClose(s: SessionState, ch: Channel, random: real): (t: SessionState)
    requires 0.0 <= random < 1.0
    ensures SlotOf(t, ch) == NoSocket
    ensures SlotOf(t, OtherChannel(ch)) == SlotOf(s, OtherChannel(ch))
    ensures ch == General ==> !t.windowSocket && t.windowTransactionSocket == s.windowTransactionSocket
    ensures ch == Transaction ==> !t.windowTransactionSocket && t.windowSocket == s.windowSocket
    ensures t.timers == s.timers + [BackoffDelay(s.reconnectAttempts, random)]
    ensures t.reconnectAttempts == s.reconnectAttempts
    ensures t.subscribedRooms == s.subscribedRooms && t.transactions == s.transactions
    ensures t.generalOutbox == s.generalOutbox && t.transactionOutbox == s.transactionOutbox && t.emitted == s.emitted
    ensures Valid(s) ==> Valid(t)
  {
    match ch
    case General => Reconnect(s.(socket := NoSocket, windowSocket := false), random)
    case Transaction => Reconnect(s.(transactionSocket := NoSocket, windowTransactionSocket := false), random)
  }

  /** `disconnect()` is undone by its own close events: the two `onclose`
      handlers clear the global references and schedule reconnects, and the
      first timer to fire creates both sockets again, with an empty registry
      and dedup set. */
  lemma DisconnectIsRetried(s: SessionState, r1: real, r2: real)
    requires 0.0 <= r1 < 1.0 && 0.0 <= r2 < 1.0
    ensures var t := OnClose(OnClose(Disconnect(s), General, r1), Transaction, r2);
            && |t.timers| == |s.timers| + 2
            && var u := FireReconnect(t, |s.timers|);
               && u.socket == Connecting && u.transactionSocket == Connecting
               && u.windowSocket && u.windowTransactionSocket
               && u.subscribedRooms == [] && u.transactions == {}
  {
  }

  /** After a connection opens, the next close schedules the base delay again:
      between 2500 and 3750 ms. */
  lemma BackoffResetsAfterOpen(s: SessionState, up: Channel, down: Channel, random: real)
    requires 0.0 <= random < 1.0
    ensures var t := OnClose(OnOpen(s, up), down, random);
            |t.timers| > 0 && 2500.0 <= t.timers[|t.timers| - 1] < 3750.0
  {
  }

  /** When only one connection closes, the reconnect that follows creates
      nothing: the other connection's global reference still blocks `connect()`. */
  lemma HalfCloseIsNotRecovered(s: SessionState, ch: Channel, random: real)
    requires Valid(s)
    requires 0.0 <= random < 1.0
    requires SlotOf(s, OtherChannel(ch)) != NoSocket
    ensures SlotOf(FireReconnect(OnClose(s, ch, random), |s.timers|), ch) == NoSocket
  {
  }

  // ------------------------------------------------------- incoming messages

  /** `message.data?.tx` when it is truthy. */
  function TxKey(data: Option<Payload>): (k: Option<string>)
    ensures k.Some? <==> data.Some? && Truthy(data.value.tx)
    ensures k.Some? ==> k.value == data.value.tx.value
  {
    if data.Some? && Truthy(data.value.tx) then data.value.tx else None
  }

  function PriceByTokenRoom(data: Payload): (room: string)
    ensures |room| >= 15 && room[..15] == "price-by-token:"
    ensures data.token.Some? ==> room[15..] == data.token.value
  {
    "price-by-token:" + Rendered(data.token)
  }

  /** The `onmessage` handler of the socket of `ch`. Only `"message"` envelopes
      are handled; a tx id already seen drops the message; a new one is
      recorded. The general socket alone re-emits rooms containing "price:"
      under `price-by-token:<token>`, before the room emit; reading the token of
      a message without data throws there, so nothing is emitted. */
  function HandleMessage(s: SessionState, ch: Channel, msg: Message): (t: SessionState)
    ensures t.(transactions := s.transactions, emitted := s.emitted) == s
    ensures s.transactions <= t.transactions
    ensures s.emitted <= t.emitted
    ensures Valid(s) ==> Valid(t)
  {
    if msg.kind != "message" then s
    else
      var key := TxKey(msg.data);
      if key.Some? && key.value in s.transactions then s
      else
        var s1 := if key.Some? then s.(transactions := s.transactions + {key.value}) else s;
        if ch == General && Contains(msg.room, "price:") then
          if msg.data.None? then s1
          else s1.(emitted := s1.emitted + [Emit(PriceByTokenRoom(msg.data.value), msg.data), Emit(msg.room, msg.data)])
        else s1.(emitted := s1.emitted + [Emit(msg.room, msg.data)])
  }

  /** Envelopes of any other type change nothing. */
  lemma OtherKindsIgnored(s: SessionState, ch: Channel, msg: Message)
    requires msg.kind != "message"
    ensures HandleMessage(s, ch, msg) == s
  {
  }

  /** A message whose tx id was seen before, on either connection, emits nothing. */
  lemma DuplicateDropped(s: SessionState, ch: Channel, msg: Message)
    requires TxKey(msg.data).Some? && TxKey(msg.data).value in s.transactions
    ensures HandleMessage(s, ch, msg) == s
  {
  }

  /** A `"message"` with a new tx id records it and ends with the room emit. */
  lemma NewTxRecordedAndEmitted(s: SessionState, ch: Channel, msg: Message)
    requires msg.kind == "message"
    requires TxKey(msg.data).Some? && TxKey(msg.data).value !in s.transactions
    ensures HandleMessage(s, ch, msg).transactions == s.transactions + {TxKey(msg.data).value}
    ensures var e := HandleMessage(s, ch, msg).emitted;
            |e| > |s.emitted| && e[|e| - 1] == Emit(msg.room, msg.data)
  {
  }

  /** A `"message"` without a tx id leaves the dedup set alone; it is emitted
      on its room unless the general socket chokes on a missing payload. */
  lemma NoTxAlwaysPasses(s: SessionState, ch: Channel, msg: Message)
    requires msg.kind == "message"
    requires TxKey(msg.data).None?
    ensures HandleMessage(s, ch, msg).transactions == s.transactions
    ensures msg.data.Some? || ch == Transaction || !Contains(msg.room, "price:") ==>
              var e := HandleMessage(s, ch, msg).emitted;
              |e| > |s.emitted| && e[|e| - 1] == Emit(msg.room, msg.data)
  {
  }

  /** The general socket's throw path: a message on a "price:" room without
      data fails on reading its token before any emit, and, having no tx, it
      records nothing either, so it is lost. */
  lemma PriceRoomWithoutDataDropped(s: SessionState, msg: Message)
    requires Contains(msg.room, "price:") && msg.data.None?
    ensures HandleMessage(s, General, msg) == s
  {
  }

  /** Listeners observe a tx id at most once per session: once one message
      with that id was handled, a second one — on either socket — emits nothing. */
  lemma SecondDeliverySuppressed(s: SessionState, ch1: Channel, m1: Message, ch2: Channel, m2: Message)
    requires m1.kind == "message"
    requires TxKey(m1.data).Some? && TxKey(m1.data) == TxKey(m2.data)
    ensures HandleMessage(HandleMessage(s, ch1, m1), ch2, m2) == HandleMessage(s, ch1, m1)
  {
  }

  /** A message arriving on one of the two sockets. */
  datatype Arrival = Arrival(ch: Channel, msg: Message)

  /** The `onmessage` handlers run over a sequence of arrivals, one at a time. */
  function Run(s: SessionState, trace: seq<Arrival>): SessionState
    decreases |trace|
  {
    if trace == [] then s else Run(HandleMessage(s, trace[0].ch, trace[0].msg), trace[1..])
  }

  /** The arrivals whose tx id is not `k`. */
  function WithoutTx(trace: seq<Arrival>, k: string): (r: seq<Arrival>)
    ensures forall a :: a in r ==> a in trace && TxKey(a.msg.data) != Some(k)
    ensures forall a :: a in trace && TxKey(a.msg.data) != Some(k) ==> a in r
    ensures |r| <= |trace|
    ensures (forall i :: 0 <= i < |trace| ==> TxKey(trace[i].msg.data) != Some(k)) ==> r == trace
    decreases |trace|
  {
    if trace == [] then []
    else (if TxKey(trace[0].msg.data) == Some(k) then [] else [trace[0]]) + WithoutTx(trace[1..], k)
  }

  /** Once a tx id is in the dedup set, every later message carrying it, on
      either socket, is as if it never arrived. */
  lemma {:induction false} SeenTxNeverEmittedAgain(s: SessionState, trace: seq<Arrival>, k: string)
    requires k in s.transactions
    ensures Run(s, trace) == Run(s, WithoutTx(trace, k))
    decreases |trace|
  {
    if trace != [] {
      var a := trace[0];
      var s1 := HandleMessage(s, a.ch, a.msg);
      SeenTxNeverEmittedAgain(s1, trace[1..], k);
      if TxKey(a.msg.data) == Some(k) {
        assert s1 == s;
        assert WithoutTx(trace, k) == WithoutTx(trace[1..], k);
        assert Run(s, trace) == Run(s1, trace[1..]);
      } else {
        assert WithoutTx(trace, k) == [a] + WithoutTx(trace[1..], k);
        assert ([a] + WithoutTx(trace[1..], k))[1..] == WithoutTx(trace[1..], k);
      }
    }
  }

  /** The price re-route: on the general socket, a new message on a room that
      contains "price:" is emitted first under `price-by-token:<token>`, then
      under its room. */
  lemma PriceRerouted(s: SessionState, msg: Message)
    requires msg.kind == "message" && msg.data.Some?
    requires Contains(msg.room, "price:")
    requires TxKey(msg.data).None? || TxKey(msg.data).value !in s.transactions
    ensures HandleMessage(s, General, msg).emitted ==
              s.emitted + [Emit(PriceByTokenRoom(msg.data.value), msg.data), Emit(msg.room, msg.data)]
  {
  }

  /** The general socket re-routes nothing else: for a room without "price:",
      a message that passes the dedup check is emitted once under its room, and
      any other message emits nothing. */
  lemma GeneralReroutesOnlyPriceRooms(s: SessionState, msg: Message)
    requires !Contains(msg.room, "price:")
    ensures HandleMessage(s, General, msg).emitted ==
              if msg.kind == "message" && (TxKey(msg.data).None? || TxKey(msg.data).value !in s.transactions)
              then s.emitted + [Emit(msg.room, msg.data)]
              else s.emitted
  {
  }

  /** The transaction socket never re-routes: it emits at most the room emit. */
  lemma TransactionSocketNeverReroutes(s: SessionState, msg: Message)
    ensures var t := HandleMessage(s, Transaction, msg);
            t.emitted == s.emitted || t.emitted == s.emitted + [Emit(msg.room, msg.data)]
  {
  }
}
