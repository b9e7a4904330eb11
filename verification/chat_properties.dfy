/**
 * What the chat server's steps do to the registry and to every handler's
 * output, stated in the terms a participant observes.
 */
module ChatProperties {
  import opened ChatProtocol
  import opened ChatState

  /** A well-formed command line splits into its command word, target and payload. */
  lemma SplitCommandLine(cmd: string, target: string, payload: string)
    requires ' ' !in cmd && ' ' !in target
    ensures Split3(cmd + " " + target + " " + payload) == [cmd, target, payload]
  {
    var line := cmd + " " + target + " " + payload;
    FirstSpaceAfter(cmd, target + " " + payload);
    assert line == cmd + " " + (target + " " + payload);
    assert line[|cmd| + 1..] == target + " " + payload;
    var rest := target + " " + payload;
    FirstSpaceAfter(target, payload);
    assert rest[..|target|] == target && rest[|target| + 1..] == payload;
    assert line[..|cmd|] == cmd;
  }

  /** The first space of `p + " " + q` is the one right after `p` when `p` has none. */
  lemma FirstSpaceAfter(p: string, q: string)
    requires ' ' !in p
    ensures FirstSpace(p + " " + q) == Wrappers.Some(|p|)
  {
    var s := p + " " + q;
    assert s[|p|] == ' ';
    assert forall k :: 0 <= k < |p| ==> s[k] == p[k];
  }

  /**
   * A broadcast reaches every registered handler except the one registered
   * under the sender's name, each exactly once, and changes nothing else.
   */
  lemma BroadcastDelivers(s: Chat, sender: string, message: string)
    requires s.Valid()
    ensures var t := Broadcast(s, sender, message);
      && t.clients == s.clients && t.handlers.Keys == s.handlers.Keys
      && (forall h :: h in s.handlers ==> t.handlers[h] == s.handlers[h].(out := t.handlers[h].out))
      && (forall u :: u in s.clients && u != sender ==>
            t.handlers[s.clients[u]].out == s.handlers[s.clients[u]].out + [sender + ": " + message])
      && (forall h :: h in s.handlers && h !in s.clients.Values ==> t.handlers[h] == s.handlers[h])
      && (sender in s.clients ==> t.handlers[s.clients[sender]] == s.handlers[s.clients[sender]])
  {
    var t := Broadcast(s, sender, message);
    forall u | u in s.clients && u != sender
      ensures s.clients[u] in Recipients(s, sender)
    {
      assert s.clients[u] in s.clients.Values;
    }
  }

  /**
   * Join registers `h` under the line it read, replacing without complaint any
   * handler already registered under that name; the announcement reaches every
   * registered handler not named "Server", the joiner included.
   */
  lemma JoinAnnounces(s: Chat, h: HandlerId)
    requires s.Valid() && h in s.handlers
    requires s.handlers[h].phase == Joining && s.handlers[h].pending != []
    ensures Join(s, h).clients == s.clients[s.handlers[h].pending[0] := h]
    ensures Join(s, h).handlers.Keys == s.handlers.Keys
    ensures var c := s.handlers[h]; var u := c.pending[0];
      Join(s, h).handlers[h] == Handler(Active, u,
        c.out + ["Enter your username:"] + (if u != "Server" then ["Server: " + u + " has joined the chat!"] else []),
        c.pending[1..])
    ensures var t := Join(s, h); var u := s.handlers[h].pending[0];
      forall v :: v in s.clients && v != u && v != "Server" ==>
        t.handlers[s.clients[v]] == s.handlers[s.clients[v]].(out := s.handlers[s.clients[v]].out + ["Server: " + u + " has joined the chat!"])
    ensures var t := Join(s, h);
      forall g :: g in s.handlers && g != h && g !in t.clients.Values ==> t.handlers[g] == s.handlers[g]
    ensures var t := Join(s, h);
      "Server" in s.clients && s.handlers[h].pending[0] != "Server" ==>
        t.handlers[s.clients["Server"]] == s.handlers[s.clients["Server"]]
  {
    var c := s.handlers[h];
    var u := c.pending[0];
    var registered := Chat(
      s.clients[u := h],
      s.handlers[h := Handler(Active, u, c.out + ["Enter your username:"], c.pending[1..])]);
    assert registered.Valid() by {
      forall v | v in s.clients && v != u ensures s.clients[v] != h {
        assert s.handlers[s.clients[v]].phase == Active;
      }
    }
    var note := "Server: " + u + " has joined the chat!";
    assert "Server" + ": " + (u + " has joined the chat!") == note;
    var t := Join(s, h);
    assert t == Broadcast(registered, "Server", u + " has joined the chat!");
    BroadcastDelivers(registered, "Server", u + " has joined the chat!");
    assert registered.clients[u] == h;
    if u != "Server" {
      assert t.handlers[h].out == registered.handlers[h].out + [note];
    } else {
      assert t.handlers[h] == registered.handlers[h];
    }
    forall v | v in s.clients && v != u && v != "Server"
      ensures t.handlers[s.clients[v]] == s.handlers[s.clients[v]].(out := s.handlers[s.clients[v]].out + [note])
    {
      var g := s.clients[v];
      assert s.handlers[g].phase == Active;
      assert registered.clients[v] == g && registered.handlers[g] == s.handlers[g];
      assert t.handlers[g].out == registered.handlers[g].out + [note];
    }
  }

  /** One read-loop turn takes the first unread line and hands it to its command. */
  lemma RouteDispatch(s: Chat, h: HandlerId)
    requires s.Valid() && h in s.handlers && s.handlers[h].phase == Active && s.handlers[h].pending != []
    ensures var c := s.handlers[h]; var line := c.pending[0];
      var s1 := s.(handlers := s.handlers[h := c.(pending := c.pending[1..])]);
      && s1.Valid()
      && (Classify(line) == PrivateCmd ==> Route(s, h) == PrivateMessage(s1, h, line))
      && (Classify(line) == FileCmd ==> Route(s, h) == ReceiveFile(s1, h, line))
      && (Classify(line) == ChatLine ==> Route(s, h) == Broadcast(s1, c.username, line))
  {
    var c := s.handlers[h];
    ReplaceOne(s.handlers, h, c.(pending := c.pending[1..]));
    SameRolesValid(s, s.handlers[h := c.(pending := c.pending[1..])]);
  }

  /**
   * `privateMessage` on a line of three words: the target, when registered,
   * gets the message and the sender its echo; otherwise the sender gets the
   * not-found line.
   */
  lemma PrivateDelivery(s: Chat, h: HandlerId, line: string, target: string, text: string)
    requires s.Valid() && h in s.handlers
    requires |Split3(line)| == 3 && Split3(line)[1] == target && Split3(line)[2] == text
    ensures var t := PrivateMessage(s, h, line); var c := s.handlers[h];
      var toTarget := "[Private] " + c.username + ": " + text;
      var echo := "[Private to " + target + "] " + text;
      && t.handlers[h].pending == c.pending
      && (target in s.clients && s.clients[target] == h ==>
            t.handlers[h].out == c.out + [toTarget, echo])
      && (target in s.clients && s.clients[target] != h ==>
            t.handlers[s.clients[target]] == s.handlers[s.clients[target]].(out := s.handlers[s.clients[target]].out + [toTarget])
            && t.handlers[h].out == c.out + [echo])
      && (target !in s.clients ==> t.handlers[h].out == c.out + ["User " + target + " not found."])
      && (forall g :: g in s.handlers && g != h && (target !in s.clients || g != s.clients[target]) ==>
            t.handlers[g] == s.handlers[g])
  {
    var c := s.handlers[h];
    if target in s.clients {
      var toTarget := "[Private] " + c.username + ": " + text;
      var delivered := Println(s.handlers, s.clients[target], toTarget);
      assert PrivateMessage(s, h, line).handlers == Println(delivered, h, "[Private to " + target + "] " + text);
    } else {
      assert PrivateMessage(s, h, line).handlers == Println(s.handlers, h, "User " + target + " not found.");
    }
  }

  /**
   * `/pm target text` with `target` registered: the target gets the private
   * line, then the sender gets the echo (both on the sender's own output when
   * it messages itself). With `target` absent only the sender hears about it.
   * Nobody else receives anything, and exactly one input line is consumed.
   */
  lemma RoutePrivate(s: Chat, h: HandlerId, cmd: string, target: string, text: string)
    requires s.Valid() && h in s.handlers && s.handlers[h].phase == Active
    requires s.handlers[h].pending != [] && s.handlers[h].pending[0] == cmd + " " + target + " " + text
    requires "/pm" <= cmd && ' ' !in cmd && ' ' !in target
    ensures var t := Route(s, h); var c := s.handlers[h];
      var toTarget := "[Private] " + c.username + ": " + text;
      var echo := "[Private to " + target + "] " + text;
      && t.clients == s.clients && t.handlers.Keys == s.handlers.Keys
      && t.handlers[h].pending == c.pending[1..]
      && (target in s.clients && s.clients[target] == h ==>
            t.handlers[h].out == c.out + [toTarget, echo])
      && (target in s.clients && s.clients[target] != h ==>
            t.handlers[s.clients[target]] == s.handlers[s.clients[target]].(out := s.handlers[s.clients[target]].out + [toTarget])
            && t.handlers[h].out == c.out + [echo])
      && (target !in s.clients ==> t.handlers[h].out == c.out + ["User " + target + " not found."])
      && (forall g :: g in s.handlers && g != h && (target !in s.clients || g != s.clients[target]) ==>
            t.handlers[g] == s.handlers[g])
  {
    var c := s.handlers[h];
    var line := cmd + " " + target + " " + text;
    SplitCommandLine(cmd, target, text);
    assert line[..3] == cmd[..3];
    assert Classify(line) == PrivateCmd;
    RouteDispatch(s, h);
    var s1 := s.(handlers := s.handlers[h := c.(pending := c.pending[1..])]);
    PrivateDelivery(s1, h, line, target, text);
  }

  /** A private message with fewer than three words only earns the sender a usage line. */
  lemma RoutePrivateMalformed(s: Chat, h: HandlerId)
    requires s.Valid() && h in s.handlers && s.handlers[h].phase == Active
    requires s.handlers[h].pending != [] && "/pm" <= s.handlers[h].pending[0]
    requires |Split3(s.handlers[h].pending[0])| < 3
    ensures var t := Route(s, h); var c := s.handlers[h];
      && t.clients == s.clients && t.handlers.Keys == s.handlers.Keys
      && t.handlers[h] == c.(out := c.out + ["Invalid private message format. Use /pm <username> <message>"],
                             pending := c.pending[1..])
      && (forall g :: g in s.handlers && g != h ==> t.handlers[g] == s.handlers[g])
  {
  }

  /**
   * `receiveFile` on a well-formed command line: the sender is prompted, one
   * input line is read as the content, and either the target gets the notice
   * and the content or the sender gets the not-found line.
   */
  lemma FileDelivery(s: Chat, h: HandlerId, target: string, fileName: string)
    requires s.Valid() && h in s.handlers
    ensures var t := DeliverFile(s, h, target, fileName); var c := s.handlers[h];
      var notice := "[File] " + c.username + " sent you a file: " + fileName;
      && (target in s.clients && s.clients[target] == h ==>
            t.handlers[h].out == c.out + ["Send file content:", notice, NextLine(c)])
      && (target in s.clients && s.clients[target] != h ==>
            t.handlers[s.clients[target]] == s.handlers[s.clients[target]].(out := s.handlers[s.clients[target]].out + [notice, NextLine(c)])
            && t.handlers[h].out == c.out + ["Send file content:"])
      && (target !in s.clients ==>
            t.handlers[h].out == c.out + ["Send file content:", "User " + target + " not found."])
      && (forall g :: g in s.handlers && g != h && (target !in s.clients || g != s.clients[target]) ==>
            t.handlers[g] == s.handlers[g])
  {
    var c := s.handlers[h];
    var prompted := s.handlers[h := Consume(c.(out := c.out + ["Send file content:"]))];
    assert prompted[h].out == c.out + ["Send file content:"];
    if target in s.clients {
      var notice := "[File] " + c.username + " sent you a file: " + fileName;
      var notified := Println(prompted, s.clients[target], notice);
      assert DeliverFile(s, h, target, fileName).handlers == Println(notified, s.clients[target], NextLine(c));
    } else {
      assert DeliverFile(s, h, target, fileName).handlers == Println(prompted, h, "User " + target + " not found.");
    }
  }

  /** A `/file` command line is classified as a file transfer and splits into its three words. */
  lemma FileCommandLine(cmd: string, target: string, fileName: string)
    requires "/file" <= cmd && ' ' !in cmd && ' ' !in target
    ensures var line := cmd + " " + target + " " + fileName;
      Classify(line) == FileCmd && Split3(line) == [cmd, target, fileName]
  {
    var line := cmd + " " + target + " " + fileName;
    SplitCommandLine(cmd, target, fileName);
    assert line[..5] == cmd[..5];
    assert !("/pm" <= line) by {
      assert line[..5] == "/file";
      assert line[1] == 'f';
    }
  }

  /**
   * `/file target name`: the sender is prompted first, then exactly one more
   * input line is consumed as the content ("null" when the input has ended).
   * A registered target gets the notice and then the content; otherwise the
   * sender gets the not-found line. Nobody else receives anything.
   */
  lemma RouteFile(s: Chat, h: HandlerId, cmd: string, target: string, fileName: string)
    requires s.Valid() && h in s.handlers && s.handlers[h].phase == Active
    requires s.handlers[h].pending != [] && s.handlers[h].pending[0] == cmd + " " + target + " " + fileName
    requires "/file" <= cmd && ' ' !in cmd && ' ' !in target
    ensures var t := Route(s, h); var c := s.handlers[h];
      var content := if |c.pending| > 1 then c.pending[1] else "null";
      var notice := "[File] " + c.username + " sent you a file: " + fileName;
      && t.clients == s.clients && t.handlers.Keys == s.handlers.Keys
      && t.handlers[h].pending == (if |c.pending| > 1 then c.pending[2..] else [])
      && (target in s.clients && s.clients[target] == h ==>
            t.handlers[h].out == c.out + ["Send file content:", notice, content])
      && (target in s.clients && s.clients[target] != h ==>
            t.handlers[s.clients[target]] == s.handlers[s.clients[target]].(out := s.handlers[s.clients[target]].out + [notice, content])
            && t.handlers[h].out == c.out + ["Send file content:"])
      && (target !in s.clients ==>
            t.handlers[h].out == c.out + ["Send file content:", "User " + target + " not found."])
      && (forall g :: g in s.handlers && g != h && (target !in s.clients || g != s.clients[target]) ==>
            t.handlers[g] == s.handlers[g])
  {
    var c := s.handlers[h];
    var line := cmd + " " + target + " " + fileName;
    FileCommandLine(cmd, target, fileName);
    var c1 := c.(pending := c.pending[1..]);
    var s1 := s.(handlers := s.handlers[h := c1]);
    RouteDispatch(s, h);
    assert Route(s, h) == ReceiveFile(s1, h, line) == DeliverFile(s1, h, target, fileName);
    FileDelivery(s1, h, target, fileName);
    assert NextLine(c1) == (if |c.pending| > 1 then c.pending[1] else "null");
    assert Consume(c1).pending == (if |c.pending| > 1 then c.pending[2..] else []);
  }

  /** A malformed file command consumes no content line and only earns the sender a usage line. */
  lemma RouteFileMalformed(s: Chat, h: HandlerId)
    requires s.Valid() && h in s.handlers && s.handlers[h].phase == Active
    requires s.handlers[h].pending != [] && "/file" <= s.handlers[h].pending[0]
    requires |Split3(s.handlers[h].pending[0])| < 3
    ensures var t := Route(s, h); var c := s.handlers[h];
      && t.clients == s.clients && t.handlers.Keys == s.handlers.Keys
      && t.handlers[h] == c.(out := c.out + ["Invalid file sharing format. Use /file <username> <filename>"],
                             pending := c.pending[1..])
      && (forall g :: g in s.handlers && g != h ==> t.handlers[g] == s.handlers[g])
  {
    var line := s.handlers[h].pending[0];
    assert !("/pm" <= line) by {
      assert line[..5] == "/file";
      assert line[1] == 'f';
    }
  }

  /** Any other line goes, as "username: line", to every other registered user. */
  lemma RouteChatLine(s: Chat, h: HandlerId)
    requires s.Valid() && h in s.handlers && s.handlers[h].phase == Active && s.handlers[h].pending != []
    requires !("/pm" <= s.handlers[h].pending[0]) && !("/file" <= s.handlers[h].pending[0])
    ensures var t := Route(s, h); var c := s.handlers[h];
      && t.clients == s.clients && t.handlers.Keys == s.handlers.Keys
      && t.handlers[h].pending == c.pending[1..]
      && (forall u :: u in s.clients && u != c.username ==>
            t.handlers[s.clients[u]].out == s.handlers[s.clients[u]].out + [c.username + ": " + c.pending[0]])
      && (forall g :: g in s.handlers && g !in s.clients.Values ==> t.handlers[g].out == s.handlers[g].out)
      && (c.username in s.clients ==> t.handlers[s.clients[c.username]].out == s.handlers[s.clients[c.username]].out)
      && (forall g :: g in s.handlers && g != h ==> t.handlers[g] == s.handlers[g].(out := t.handlers[g].out))
  {
    var c := s.handlers[h];
    var s1 := s.(handlers := s.handlers[h := c.(pending := c.pending[1..])]);
    RouteDispatch(s, h);
    BroadcastDelivers(s1, c.username, c.pending[0]);
  }

  /**
   * Close removes the entry under the handler's username, whichever handler it
   * points to, and the departure notice reaches the remaining registered
   * handlers not named "Server"; the closed handler and any unregistered one
   * receive nothing.
   */
  lemma CloseAnnounces(s: Chat, h: HandlerId)
    requires s.Valid() && h in s.handlers && s.handlers[h].phase == Active
    ensures var t := Close(s, h); var u := s.handlers[h].username;
      var note := "Server: " + u + " has left the chat.";
      && t.clients == s.clients - {u}
      && t.handlers.Keys == s.handlers.Keys
      && t.handlers[h] == s.handlers[h].(phase := Closed)
      && (forall v :: v in s.clients && v != u && v != "Server" ==>
            t.handlers[s.clients[v]] == s.handlers[s.clients[v]].(out := s.handlers[s.clients[v]].out + [note]))
      && (forall g :: g in s.handlers && g != h && g !in t.clients.Values ==> t.handlers[g] == s.handlers[g])
      && ("Server" in s.clients && u != "Server" ==>
            t.handlers[s.clients["Server"]] == s.handlers[s.clients["Server"]])
  {
    var u := s.handlers[h].username;
    var removed := Chat(s.clients - {u}, s.handlers[h := s.handlers[h].(phase := Closed)]);
    forall v | v in s.clients && v != u
      ensures s.clients[v] != h
    {
      assert s.handlers[s.clients[v]].username == v;
    }
    var note := "Server: " + u + " has left the chat.";
    assert "Server" + ": " + (u + " has left the chat.") == note;
    var t := Close(s, h);
    assert t == Broadcast(removed, "Server", u + " has left the chat.");
    BroadcastDelivers(removed, "Server", u + " has left the chat.");
    assert h !in removed.clients.Values;
    forall v | v in s.clients && v != u && v != "Server"
      ensures t.handlers[s.clients[v]] == s.handlers[s.clients[v]].(out := s.handlers[s.clients[v]].out + [note])
    {
      var g := s.clients[v];
      assert removed.clients[v] == g && removed.handlers[g] == s.handlers[g];
      assert t.handlers[g].out == removed.handlers[g].out + [note];
    }
    if "Server" in s.clients && u != "Server" {
      var g := s.clients["Server"];
      assert removed.clients["Server"] == g && removed.handlers[g] == s.handlers[g];
    }
  }

  /**
   * The registry is keyed by name: when `b` joins under the name of the
   * still-active `a` and then `a` closes, `a`'s close removes `b`'s entry, so
   * `b` stays connected and active but is no longer registered.
   */
  lemma DuplicateNameOrphansNewcomer(s: Chat, a: HandlerId, b: HandlerId)
    requires s.Valid() && a in s.handlers && b in s.handlers && a != b
    requires s.handlers[a].phase == Active
    requires s.handlers[b].phase == Joining && s.handlers[b].pending != []
    requires s.handlers[b].pending[0] == s.handlers[a].username
    ensures var t := Close(Join(s, b), a);
      && s.handlers[a].username !in t.clients
      && t.handlers[b].phase == Active
      && b !in t.clients.Values
  {
    var s1 := Join(s, b);
    JoinAnnounces(s, b);
    assert s1.handlers[a] == s.handlers[a] by {
      assert a !in s1.clients.Values by {
        forall v | v in s1.clients ensures s1.clients[v] != a {
          if v == s.handlers[a].username {
            assert s1.clients[v] == b;
          } else {
            assert s1.handlers[s1.clients[v]].username == v;
          }
        }
      }
    }
    CloseAnnounces(s1, a);
  }

  /** After a whole session the handler's username is no longer registered. */
  lemma SessionDeregisters(s: Chat, h: HandlerId)
    requires s.Valid() && h in s.handlers
    requires s.handlers[h].phase == Joining && s.handlers[h].pending != []
    ensures s.handlers[h].pending[0] !in Session(s, h).clients
  {
    var s1 := Join(s, h);
    JoinAnnounces(s, h);
    var s2 := Drain(s1, h);
    CloseAnnounces(s2, h);
  }
}
