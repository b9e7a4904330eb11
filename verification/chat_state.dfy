/**
 * The chat server's shared state and the steps that change it, as values.
 * Every step is one atomic transition: the registry is only touched inside
 * `synchronized (clients)`, and the model does not interleave the separate
 * critical sections of one join, one file transfer or one close.
 */
module ChatState {
  import opened ChatProtocol

  /** Identity of one ClientHandler object, that is, of one accepted connection. */
  type HandlerId = nat

  /** Lifecycle of a handler: waiting for its username, in its read loop, or closed. */
  datatype Phase = Joining | Active | Closed

  /**
   * One ClientHandler: its lifecycle, its `username` field, every line printed
   * to its socket so far (`out`), and the lines its client has sent that the
   * handler has not read yet (`pending`).
   */
  datatype Handler = Handler(phase: Phase, username: string, out: seq<string>, pending: seq<string>)

  /** The static `clients` registry, and every handler the server has accepted. */
  datatype Chat = Chat(clients: map<string, HandlerId>, handlers: map<HandlerId, Handler>)
  {
    /** Every registry entry is an active handler whose username is the entry's key. */
    ghost predicate Valid()
    {
      forall u :: u in clients ==>
        clients[u] in handlers && handlers[clients[u]].phase == Active && handlers[clients[u]].username == u
    }
  }

  /** `out.println(line)` on the writer of handler `h`. */
  function Println(hs: map<HandlerId, Handler>, h: HandlerId, line: string): map<HandlerId, Handler>
    requires h in hs
  {
    hs[h := hs[h].(out := hs[h].out + [line])]
  }

  /** `b` differs from `a` at most in what has been printed to each handler. */
  predicate OutputsOnly(a: map<HandlerId, Handler>, b: map<HandlerId, Handler>)
  {
    a.Keys == b.Keys && forall g :: g in a ==> b[g] == a[g].(out := b[g].out)
  }

  /** `b` keeps every handler of `a` with its lifecycle and username. */
  predicate SameRoles(a: map<HandlerId, Handler>, b: map<HandlerId, Handler>)
  {
    a.Keys == b.Keys && forall g :: g in a ==> b[g].phase == a[g].phase && b[g].username == a[g].username
  }

  /** A println changes only the output of the handler it writes to. */
  lemma PrintlnOutputsOnly(hs: map<HandlerId, Handler>, h: HandlerId, line: string)
    requires h in hs
    ensures OutputsOnly(hs, Println(hs, h, line))
    ensures Println(hs, h, line)[h].out == hs[h].out + [line]
    ensures forall g :: g in hs && g != h ==> Println(hs, h, line)[g] == hs[g]
  {
  }

  lemma OutputsOnlyTrans(a: map<HandlerId, Handler>, b: map<HandlerId, Handler>, c: map<HandlerId, Handler>)
    requires OutputsOnly(a, b) && OutputsOnly(b, c)
    ensures OutputsOnly(a, c)
  {
  }

  lemma OutputsOnlyRoles(a: map<HandlerId, Handler>, b: map<HandlerId, Handler>)
    requires OutputsOnly(a, b)
    ensures SameRoles(a, b)
  {
  }

  lemma SameRolesTrans(a: map<HandlerId, Handler>, b: map<HandlerId, Handler>, c: map<HandlerId, Handler>)
    requires SameRoles(a, b) && SameRoles(b, c)
    ensures SameRoles(a, c)
  {
  }

  /** Replacing one handler's record by one with the same lifecycle and username. */
  lemma ReplaceOne(hs: map<HandlerId, Handler>, h: HandlerId, c: Handler)
    requires h in hs && c.phase == hs[h].phase && c.username == hs[h].username
    ensures SameRoles(hs, hs[h := c])
    ensures forall g :: g in hs && g != h ==> hs[h := c][g] == hs[g]
  {
  }

  /** The registry invariant only looks at lifecycles and usernames. */
  lemma SameRolesValid(s: Chat, hs: map<HandlerId, Handler>)
    requires s.Valid() && SameRoles(s.handlers, hs)
    ensures s.(handlers := hs).Valid()
  {
  }

  /** The handler after `in.readLine()`: null (end of input) leaves it as it is. */
  function Consume(c: Handler): (r: Handler)
    ensures r == c.(pending := r.pending)
    ensures c.pending == [] ==> r == c
    ensures c.pending != [] ==> c.pending == [NextLine(c)] + r.pending
  {
    if c.pending == [] then c else c.(pending := c.pending[1..])
  }

  /** What `in.readLine()` yields, printed: a null line prints as "null". */
  function NextLine(c: Handler): (r: string)
    ensures c.pending == [] ==> r == "null"
    ensures c.pending != [] ==> r == c.pending[0]
  {
    if c.pending == [] then "null" else c.pending[0]
  }

  /** The handlers `broadcast(sender, …)` writes to: registered ones whose username is not `sender`. */
  function Recipients(s: Chat, sender: string): set<HandlerId>
  {
    set h | h in s.clients.Values && h in s.handlers && s.handlers[h].username != sender
  }

  /** `broadcast(sender, message)`: one line to every recipient, nothing else changes. */
  function Broadcast(s: Chat, sender: string, message: string): (t: Chat)
    requires s.Valid()
    ensures t.Valid()
  {
    var line := sender + ": " + message;
    var r := Recipients(s, sender);
    s.(handlers := map h | h in s.handlers ::
      if h in r then s.handlers[h].(out := s.handlers[h].out + [line]) else s.handlers[h])
  }

  /** A new connection: a ClientHandler that has not asked for its username yet. */
  function Accept(s: Chat, h: HandlerId, lines: seq<string>): (t: Chat)
    requires s.Valid() && h !in s.handlers
    ensures t.Valid()
  {
    s.(handlers := s.handlers[h := Handler(Joining, "", [], lines)])
  }

  /**
   * The join part of `run`: prompt, read the username, `clients.put` (which
   * silently replaces any handler registered under that name) and announce.
   */
  function Join(s: Chat, h: HandlerId): (t: Chat)
    requires s.Valid() && h in s.handlers
    requires s.handlers[h].phase == Joining && s.handlers[h].pending != []
    ensures t.Valid() && h in t.handlers && t.handlers[h].phase == Active
  {
    var c := s.handlers[h];
    var username := c.pending[0];
    var registered := Chat(
      s.clients[username := h],
      s.handlers[h := Handler(Active, username, c.out + ["Enter your username:"], c.pending[1..])]);
    Broadcast(registered, "Server", username + " has joined the chat!")
  }

  /** `privateMessage(line)` run by handler `h`. */
  function PrivateMessage(s: Chat, h: HandlerId, line: string): (t: Chat)
    requires s.Valid() && h in s.handlers
    ensures t.Valid() && t.clients == s.clients && OutputsOnly(s.handlers, t.handlers)
  {
    var parts := Split3(line);
    var username := s.handlers[h].username;
    var hs := (
      if |parts| >= 3 then
        var targetUser := parts[1];
        var privateMsg := parts[2];
        if targetUser in s.clients then
          var delivered := Println(s.handlers, s.clients[targetUser], "[Private] " + username + ": " + privateMsg);
          PrintlnOutputsOnly(s.handlers, s.clients[targetUser], "[Private] " + username + ": " + privateMsg);
          PrintlnOutputsOnly(delivered, h, "[Private to " + targetUser + "] " + privateMsg);
          OutputsOnlyTrans(s.handlers, delivered, Println(delivered, h, "[Private to " + targetUser + "] " + privateMsg));
          Println(delivered, h, "[Private to " + targetUser + "] " + privateMsg)
        else
          PrintlnOutputsOnly(s.handlers, h, "User " + targetUser + " not found.");
          Println(s.handlers, h, "User " + targetUser + " not found.")
      else
        PrintlnOutputsOnly(s.handlers, h, "Invalid private message format. Use /pm <username> <message>");
        Println(s.handlers, h, "Invalid private message format. Use /pm <username> <message>"));
    SameRolesValid(s, hs);
    s.(handlers := hs)
  }

  /**
   * The well-formed branch of `receiveFile`: prompt, read the content line,
   * then deliver it to the target or report that the target is unknown.
   */
  function DeliverFile(s: Chat, h: HandlerId, targetUser: string, fileName: string): (t: Chat)
    requires s.Valid() && h in s.handlers
    ensures t.Valid() && t.clients == s.clients && SameRoles(s.handlers, t.handlers)
    ensures forall g :: g in s.handlers && g != h ==>
      t.handlers[g] == s.handlers[g].(out := t.handlers[g].out)
    ensures t.handlers[h].pending == Consume(s.handlers[h]).pending
  {
    var c := s.handlers[h];
    var content := NextLine(c);
    var read := Consume(c.(out := c.out + ["Send file content:"]));
    var prompted := s.handlers[h := read];
    ReplaceOne(s.handlers, h, read);
    var hs := (
      if targetUser in s.clients then
        var target := s.clients[targetUser];
        var notice := "[File] " + c.username + " sent you a file: " + fileName;
        var notified := Println(prompted, target, notice);
        PrintlnOutputsOnly(prompted, target, notice);
        PrintlnOutputsOnly(notified, target, content);
        OutputsOnlyTrans(prompted, notified, Println(notified, target, content));
        Println(notified, target, content)
      else
        PrintlnOutputsOnly(prompted, h, "User " + targetUser + " not found.");
        Println(prompted, h, "User " + targetUser + " not found."));
    OutputsOnlyRoles(prompted, hs);
    SameRolesTrans(s.handlers, prompted, hs);
    SameRolesValid(s, hs);
    s.(handlers := hs)
  }

  /** `receiveFile(line)` run by handler `h`: well-formed commands read one more line. */
  function ReceiveFile(s: Chat, h: HandlerId, line: string): (t: Chat)
    requires s.Valid() && h in s.handlers
    ensures t.Valid() && t.clients == s.clients && SameRoles(s.handlers, t.handlers)
    ensures forall g :: g in s.handlers && g != h ==>
      t.handlers[g] == s.handlers[g].(out := t.handlers[g].out)
    ensures t.handlers[h].pending == s.handlers[h].pending
         || (s.handlers[h].pending != [] && t.handlers[h].pending == s.handlers[h].pending[1..])
  {
    var parts := Split3(line);
    if |parts| >= 3 then
      DeliverFile(s, h, parts[1], parts[2])
    else
      var hs := Println(s.handlers, h, "Invalid file sharing format. Use /file <username> <filename>");
      PrintlnOutputsOnly(s.handlers, h, "Invalid file sharing format. Use /file <username> <filename>");
      OutputsOnlyRoles(s.handlers, hs);
      SameRolesValid(s, hs);
      s.(handlers := hs)
  }

  /** One turn of the read loop of `run`: read a line and dispatch it. */
  function Route(s: Chat, h: HandlerId): (t: Chat)
    requires s.Valid() && h in s.handlers
    requires s.handlers[h].phase == Active && s.handlers[h].pending != []
    ensures t.Valid() && t.clients == s.clients && h in t.handlers
    ensures t.handlers[h].phase == Active && t.handlers[h].username == s.handlers[h].username
    ensures |t.handlers[h].pending| < |s.handlers[h].pending|
  {
    var c := s.handlers[h];
    var message := c.pending[0];
    var s1 := s.(handlers := s.handlers[h := c.(pending := c.pending[1..])]);
    match Classify(message)
    case PrivateCmd => PrivateMessage(s1, h, message)
    case FileCmd => ReceiveFile(s1, h, message)
    case ChatLine => Broadcast(s1, c.username, message)
  }

  /** The read loop of `run`, until `readLine` returns null. */
  function Drain(s: Chat, h: HandlerId): (t: Chat)
    requires s.Valid() && h in s.handlers && s.handlers[h].phase == Active
    ensures t.Valid() && h in t.handlers && t.handlers[h].phase == Active && t.handlers[h].pending == []
    ensures t.handlers[h].username == s.handlers[h].username
    ensures t.clients == s.clients
    decreases |s.handlers[h].pending|
  {
    if s.handlers[h].pending == [] then s else Drain(Route(s, h), h)
  }

  /**
   * `closeConnection`: remove the registry entry keyed by the username (whoever
   * it points to now), close, then announce the departure.
   */
  function Close(s: Chat, h: HandlerId): (t: Chat)
    requires s.Valid() && h in s.handlers && s.handlers[h].phase == Active
    ensures t.Valid() && h in t.handlers && t.handlers[h].phase == Closed
  {
    var username := s.handlers[h].username;
    var removed := Chat(s.clients - {username}, s.handlers[h := s.handlers[h].(phase := Closed)]);
    Broadcast(removed, "Server", username + " has left the chat.")
  }

  /** A whole `run` of handler `h` with no other handler acting in between. */
  function Session(s: Chat, h: HandlerId): (t: Chat)
    requires s.Valid() && h in s.handlers
    requires s.handlers[h].phase == Joining && s.handlers[h].pending != []
    ensures t.Valid() && h in t.handlers && t.handlers[h].phase == Closed
  {
    Close(Drain(Join(s, h), h), h)
  }
}
