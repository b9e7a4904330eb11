/**
 * The chat server as the source runs it: the shared registry and the state of
 * every client handler live in fields that the handler methods update in
 * place. Each method is proved to perform exactly the transition of the same
 * name in ChatState, whose properties ChatProperties establishes.
 */
module ChatServer {
  import opened Wrappers
  import opened ChatProtocol
  import S = ChatState
  import P = ChatProperties

  class Server {
    /** The static `clients` map from username to handler. */
    var clients: map<string, S.HandlerId>
    /** Every accepted handler: its fields, its output so far and its unread input. */
    var handlers: map<S.HandlerId, S.Handler>

    function State(): S.Chat
      reads this
    {
      S.Chat(clients, handlers)
    }

    constructor ()
      ensures State().Valid() && clients == map[] && handlers == map[]
    {
      clients := map[];
      handlers := map[];
    }

    /** A connection is accepted and a handler created for it; `lines` is what its client will send. */
    method Accept(h: S.HandlerId, lines: seq<string>)
      requires State().Valid() && h !in handlers
      modifies this
      ensures State() == S.Accept(old(State()), h, lines)
    {
      handlers := handlers[h := S.Handler(S.Joining, "", [], lines)];
    }

    /** `out.println(line)` on handler `h`. */
    method Println(h: S.HandlerId, line: string)
      requires h in handlers
      modifies this
      ensures clients == old(clients) && handlers == S.Println(old(handlers), h, line)
    {
      handlers := handlers[h := handlers[h].(out := handlers[h].out + [line])];
    }

    /** `in.readLine()` on handler `h`: None stands for the null returned at end of input. */
    method ReadLine(h: S.HandlerId) returns (line: Option<string>)
      requires h in handlers
      modifies this
      ensures clients == old(clients) && handlers == old(handlers)[h := S.Consume(old(handlers)[h])]
      ensures line == if old(handlers)[h].pending == [] then None else Some(old(handlers)[h].pending[0])
    {
      var c := handlers[h];
      if c.pending == [] {
        line := None;
      } else {
        line := Some(c.pending[0]);
        handlers := handlers[h := c.(pending := c.pending[1..])];
      }
    }

    /** `broadcast(sender, message)`: the loop over `clients.values()`. */
    method Broadcast(sender: string, message: string)
      requires State().Valid()
      modifies this
      ensures State() == S.Broadcast(old(State()), sender, message)
    {
      var line := sender + ": " + message;
      ghost var recipients := S.Recipients(State(), sender);
      var todo := clients.Values;
      while todo != {}
        invariant todo <= old(clients).Values
        invariant clients == old(clients) && handlers.Keys == old(handlers).Keys
        invariant forall h :: h in handlers ==>
          handlers[h] == if h in recipients && h !in todo
                         then old(handlers)[h].(out := old(handlers)[h].out + [line])
                         else old(handlers)[h]
        decreases todo
      {
        var client :| client in todo;
        assert client in handlers;
        if handlers[client].username != sender {
          Println(client, line);
        }
        todo := todo - {client};
      }
      assert handlers == S.Broadcast(old(State()), sender, message).handlers;
    }

    /** The join part of `run`. */
    method Join(h: S.HandlerId)
      requires State().Valid() && h in handlers
      requires handlers[h].phase == S.Joining && handlers[h].pending != []
      modifies this
      ensures State() == S.Join(old(State()), h)
    {
      ghost var s0 := State();
      ghost var c := handlers[h];
      Println(h, "Enter your username:");
      var username := ReadLine(h);
      var name := username.value;
      handlers := handlers[h := handlers[h].(phase := S.Active, username := name)];
      forall v | v in clients && v != name
        ensures clients[v] != h
      {
        assert handlers[clients[v]].phase == S.Active;
      }
      clients := clients[name := h];
      assert State() == S.Chat(s0.clients[name := h],
        s0.handlers[h := S.Handler(S.Active, name, c.out + ["Enter your username:"], c.pending[1..])]);
      Broadcast("Server", name + " has joined the chat!");
    }

    /** `privateMessage(message)` run by handler `h`. */
    method PrivateMessage(h: S.HandlerId, message: string)
      requires State().Valid() && h in handlers
      modifies this
      ensures State() == S.PrivateMessage(old(State()), h, message)
    {
      var parts := Split3(message);
      var username := handlers[h].username;
      if |parts| >= 3 {
        var targetUser := parts[1];
        var privateMsg := parts[2];
        if targetUser in clients {
          Println(clients[targetUser], "[Private] " + username + ": " + privateMsg);
          Println(h, "[Private to " + targetUser + "] " + privateMsg);
        } else {
          Println(h, "User " + targetUser + " not found.");
        }
      } else {
        Println(h, "Invalid private message format. Use /pm <username> <message>");
      }
    }

    /** The well-formed branch of `receiveFile`: prompt, read the content, deliver it or report. */
    method DeliverFile(h: S.HandlerId, targetUser: string, fileName: string)
      requires State().Valid() && h in handlers
      modifies this
      ensures State() == S.DeliverFile(old(State()), h, targetUser, fileName)
    {
      var username := handlers[h].username;
      ghost var c := handlers[h];
      Println(h, "Send file content:");
      var fileContent := ReadLine(h);
      assert handlers == old(handlers)[h := S.Consume(c.(out := c.out + ["Send file content:"]))];
      assert (if fileContent.Some? then fileContent.value else "null") == S.NextLine(c);
      if targetUser in clients {
        var target := clients[targetUser];
        Println(target, "[File] " + username + " sent you a file: " + fileName);
        Println(target, if fileContent.Some? then fileContent.value else "null");
      } else {
        Println(h, "User " + targetUser + " not found.");
      }
    }

    /** `receiveFile(message)` run by handler `h`. */
    method ReceiveFile(h: S.HandlerId, message: string)
      requires State().Valid() && h in handlers
      modifies this
      ensures State() == S.ReceiveFile(old(State()), h, message)
    {
      var parts := Split3(message);
      if |parts| >= 3 {
        DeliverFile(h, parts[1], parts[2]);
      } else {
        Println(h, "Invalid file sharing format. Use /file <username> <filename>");
      }
    }

    /** One turn of the read loop of `run`. */
    method Route(h: S.HandlerId)
      requires State().Valid() && h in handlers
      requires handlers[h].phase == S.Active && handlers[h].pending != []
      modifies this
      ensures State() == S.Route(old(State()), h)
    {
      ghost var s0 := State();
      ghost var c := s0.handlers[h];
      var message := ReadLine(h);
      var line := message.value;
      ghost var s1 := State();
      assert s1 == s0.(handlers := s0.handlers[h := c.(pending := c.pending[1..])]);
      P.RouteDispatch(s0, h);
      if "/pm" <= line {
        assert S.Route(s0, h) == S.PrivateMessage(s1, h, line);
        PrivateMessage(h, line);
      } else if "/file" <= line {
        assert S.Route(s0, h) == S.ReceiveFile(s1, h, line);
        ReceiveFile(h, line);
      } else {
        assert S.Route(s0, h) == S.Broadcast(s1, c.username, line);
        Broadcast(handlers[h].username, line);
      }
    }

    /** `closeConnection`. */
    method Close(h: S.HandlerId)
      requires State().Valid() && h in handlers && handlers[h].phase == S.Active
      modifies this
      ensures State() == S.Close(old(State()), h)
    {
      var username := handlers[h].username;
      forall v | v in clients && v != username
        ensures clients[v] != h
      {
        assert handlers[clients[v]].username == v;
      }
      clients := clients - {username};
      handlers := handlers[h := handlers[h].(phase := S.Closed)];
      Broadcast("Server", username + " has left the chat.");
    }

    /** `run`: join, read and dispatch until the input ends, then close. */
    method Run(h: S.HandlerId)
      requires State().Valid() && h in handlers
      requires handlers[h].phase == S.Joining && handlers[h].pending != []
      modifies this
      ensures State() == S.Session(old(State()), h)
    {
      Join(h);
      ghost var joined := State();
      while handlers[h].pending != []
        invariant State().Valid() && h in handlers && handlers[h].phase == S.Active
        invariant S.Drain(State(), h) == S.Drain(joined, h)
        decreases |handlers[h].pending|
      {
        Route(h);
      }
      Close(h);
    }
  }
}
