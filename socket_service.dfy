/** The `WebSocketService` class of src/providers/socket.tsx: the fields the
    source mutates, and one method per operation or socket callback. Every
    method is proved to leave the object in the state the matching function
    of module Session computes from the old state. */
module SocketService {
  import opened Text
  import S = Session

  class WebSocketService {
    var socket: S.Slot
    var transactionSocket: S.Slot
    var windowSocket: bool
    var windowTransactionSocket: bool
    var reconnectAttempts: nat
    var subscribedRooms: seq<string>
    var transactions: set<string>
    var generalOutbox: seq<S.Frame>
    var transactionOutbox: seq<S.Frame>
    var emitted: seq<S.Emit>
    var timers: seq<real>

    /** The abstract value of the service. */
    function State(): S.SessionState
      reads this
    {
      S.SessionState(socket, transactionSocket, windowSocket, windowTransactionSocket,
                     reconnectAttempts, subscribedRooms, transactions,
                     generalOutbox, transactionOutbox, emitted, timers)
    }

    ghost predicate Valid()
      reads this
    {
      S.Valid(State())
    }

    /** The constructor calls `connect()` on a page with no global sockets yet. */
    constructor ()
      ensures Valid()
      ensures State() == S.Connect(S.Initial)
    {
      socket, transactionSocket := S.NoSocket, S.NoSocket;
      windowSocket, windowTransactionSocket := false, false;
      reconnectAttempts := 0;
      subscribedRooms, transactions := [], {};
      generalOutbox, transactionOutbox, emitted, timers := [], [], [], [];
      new;
      Connect();
    }

    method Connect()
      requires Valid()
      modifies this
      ensures Valid()
      ensures State() == S.Connect(old(State()))
    {
      if socket != S.NoSocket && transactionSocket != S.NoSocket {
        return;
      }
      if windowSocket || windowTransactionSocket {
        return;
      }
      socket, transactionSocket := S.Connecting, S.Connecting;
      windowSocket, windowTransactionSocket := true, true;
    }

    method Disconnect()
      requires Valid()
      modifies this
      ensures Valid()
      ensures State() == S.Disconnect(old(State()))
    {
      if socket != S.NoSocket {
        socket := S.NoSocket;
      }
      if transactionSocket != S.NoSocket {
        transactionSocket := S.NoSocket;
      }
      subscribedRooms := [];
      transactions := {};
    }

    /** `reconnect()`; `random` stands for the `Math.random()` draw. */
    method Reconnect(random: real)
      requires 0.0 <= random < 1.0
      modifies this
      ensures State() == S.Reconnect(old(State()), random)
    {
      var delay := S.Min(S.ReconnectDelay * S.Pow2(reconnectAttempts), S.ReconnectDelayMax) as real;
      var jitter := delay * S.RandomizationFactor;
      var reconnectDelay := delay + random * jitter;
      timers := timers + [reconnectDelay];
    }

    /** The `setTimeout` callback of the `i`-th pending reconnect. */
    method FireReconnect(i: nat)
      requires Valid()
      requires i < |timers|
      modifies this
      ensures Valid()
      ensures State() == S.FireReconnect(old(State()), i)
    {
      timers := timers[..i] + timers[i + 1..];
      reconnectAttempts := reconnectAttempts + 1;
      Connect();
    }

    method Send(ch: S.Channel, f: S.Frame)
      modifies this
      ensures State() == S.SendIfOpen(old(State()), ch, f)
    {
      match ch
      case General =>
        if socket == S.Open {
          generalOutbox := generalOutbox + [f];
        }
      case Transaction =>
        if transactionSocket == S.Open {
          transactionOutbox := transactionOutbox + [f];
        }
    }

    method JoinRoom(room: string)
      requires Valid()
      modifies this
      ensures Valid()
      ensures State() == S.JoinRoom(old(State()), room)
    {
      subscribedRooms := S.AddRoom(subscribedRooms, room);
      Send(S.Owner(room), S.Join(room));
    }

    method LeaveRoom(room: string)
      requires Valid()
      modifies this
      ensures Valid()
      ensures State() == S.LeaveRoom(old(State()), room)
    {
      subscribedRooms := S.RemoveRoom(subscribedRooms, room);
      Send(S.Owner(room), S.Leave(room));
    }

    /** `getSocket()`. */
    method GetSocket() returns (slot: S.Slot)
      ensures slot == socket
    {
      slot := socket;
    }

    /** `resubscribeToRooms()`: the `for…of` loop over the registry. */
    method ResubscribeToRooms()
      requires Valid()
      modifies this
      ensures Valid()
      ensures State() == S.Resubscribe(old(State()))
    {
      if socket == S.Open && transactionSocket == S.Open {
        var i := 0;
        while i < |subscribedRooms|
          invariant 0 <= i <= |subscribedRooms|
          invariant subscribedRooms == old(subscribedRooms)
          invariant generalOutbox == old(generalOutbox) + S.JoinFrames(subscribedRooms[..i], S.General)
          invariant transactionOutbox == old(transactionOutbox) + S.JoinFrames(subscribedRooms[..i], S.Transaction)
          invariant State().(generalOutbox := old(generalOutbox), transactionOutbox := old(transactionOutbox)) == old(State())
        {
          var room := subscribedRooms[i];
          assert subscribedRooms[..i + 1][..i] == subscribedRooms[..i];
          if S.Owner(room) == S.Transaction {
            transactionOutbox := transactionOutbox + [S.Join(room)];
          } else {
            generalOutbox := generalOutbox + [S.Join(room)];
          }
          i := i + 1;
        }
        assert subscribedRooms[..i] == subscribedRooms;
      }
    }

    /** `onopen` of the socket of `ch`. */
    method OnOpen(ch: S.Channel)
      requires Valid()
      modifies this
      ensures Valid()
      ensures State() == S.OnOpen(old(State()), ch)
    {
      match ch {
        case General =>
          if socket == S.Connecting {
            socket := S.Open;
          }
        case Transaction =>
          if transactionSocket == S.Connecting {
            transactionSocket := S.Open;
          }
      }
      reconnectAttempts := 0;
      ResubscribeToRooms();
    }

    /** `onclose` of the socket of `ch`. */
    method OnClose(ch: S.Channel, random: real)
      requires Valid()
      requires 0.0 <= random < 1.0
      modifies this
      ensures Valid()
      ensures State() == S.OnClose(old(State()), ch, random)
    {
      match ch {
        case General =>
          socket := S.NoSocket;
          windowSocket := false;
        case Transaction =>
          transactionSocket := S.NoSocket;
          windowTransactionSocket := false;
      }
      Reconnect(random);
    }

    /** `onmessage` of the socket of `ch`, for an already parsed envelope. */
    method OnMessage(ch: S.Channel, msg: S.Message)
      requires Valid()
      modifies this
      ensures Valid()
      ensures State() == S.HandleMessage(old(State()), ch, msg)
    {
      if msg.kind != "message" {
        return;
      }
      var tx := S.TxKey(msg.data);
      if tx.Some? && tx.value in transactions {
        return;
      } else if tx.Some? {
        transactions := transactions + {tx.value};
      }
      if ch == S.General && Contains(msg.room, "price:") {
        if msg.data.None? {
          return;  // reading `message.data.token` throws before any emit
        }
        emitted := emitted + [S.Emit(S.PriceByTokenRoom(msg.data.value), msg.data)];
      }
      emitted := emitted + [S.Emit(msg.room, msg.data)];
    }
  }
}
