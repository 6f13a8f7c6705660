/** The chat server as a sequential state machine. Its state is the map from
    name to connection (`users`), the list of names shown to clients
    (`usernames`) and the list of client threads that hear broadcasts
    (`clientThreads`); each client thread holds its own current name. Three
    events drive it: a client connects and sends its name, a connected client
    sends a line, and a connected client goes away. Each event returns the
    lines it writes, in the order it writes them, each addressed to the
    connection it is written on. */
module Server {
  import opened Strings
  import opened Lists
  import opened Wire
  import opened Commands

  /** A client connection; the model uses only its identity. */
  class Socket {
    constructor () {}
  }

  /** One line written on one connection. */
  datatype Delivery = Delivery(to: Socket, line: string)

  function JoinedLine(name: string): string { name + " has joined the room." }
  function LeftLine(name: string): string { name + " has left the room." }
  function RenamedLine(from: string, to: string): string { from + " has changed their name to " + to + "." }
  function ChatLine(name: string, text: string): string { name + ": " + text }
  function ToLine(target: string, body: string): string { "To " + target + ": " + body }
  function FromLine(sender: string, body: string): string { "From " + sender + ": " + body }

  const NotOnline := "That person is not online."
  const TalkingToYourself := "Why are you talking to yourself?"
  const MustSupplyName := "You must supply a new name."

  /** What a newcomer is told before its own user list; the third line ends
      in a newline of its own. */
  const WelcomeLines := [
    "Welcome to the chatroom!",
    "Type a message in the text box to talk to everyone.",
    "Type /help for a listing of chat commands.\n"
  ]

  const HelpLines := [
    "Type \"/name\" followed by a new name to change your username.",
    "Type \"/\" followed by a person's username to send a private message to them",
    "Or, double-click on their name in the list to the right.",
    "Close the window to disconnect."
  ]

  /** One copy of `line` for each thread, in list order. */
  function Fanout(cts: seq<ClientThread>, line: string): (r: seq<Delivery>)
    ensures |r| == |cts|
  {
    if cts == [] then [] else [Delivery(cts[0].socket, line)] + Fanout(cts[1..], line)
  }

  /** The `i`-th copy goes to the `i`-th thread's connection. */
  lemma {:induction false} FanoutAt(cts: seq<ClientThread>, line: string, i: nat)
    requires i < |cts|
    ensures Fanout(cts, line)[i] == Delivery(cts[i].socket, line)
  {
    if i > 0 {
      FanoutAt(cts[1..], line, i - 1);
    }
  }

  /** A connection that no thread holds gets none of the copies: the
      newcomer, not yet among the threads, hears neither announcement. */
  lemma {:induction false} FanoutMisses(cts: seq<ClientThread>, line: string, s: Socket)
    requires s !in Sockets(cts)
    ensures forall d :: d in Fanout(cts, line) ==> d.to != s
  {
    if cts != [] {
      FanoutMisses(cts[1..], line, s);
    }
  }

  /** Adding a thread at the end adds its copy at the end. */
  lemma {:induction false} FanoutAppend(cts: seq<ClientThread>, ct: ClientThread, line: string)
    ensures Fanout(cts + [ct], line) == Fanout(cts, line) + [Delivery(ct.socket, line)]
  {
    if cts != [] {
      assert (cts + [ct])[1..] == cts[1..] + [ct];
      FanoutAppend(cts[1..], ct, line);
    }
  }

  /** The `lines`, in order, all on connection `to`. */
  function Tell(to: Socket, lines: seq<string>): (r: seq<Delivery>)
    ensures |r| == |lines|
  {
    if lines == [] then [] else [Delivery(to, lines[0])] + Tell(to, lines[1..])
  }

  /** The `i`-th line told is the `i`-th of `lines`, on connection `to`. */
  lemma {:induction false} TellAt(to: Socket, lines: seq<string>, i: nat)
    requires i < |lines|
    ensures Tell(to, lines)[i] == Delivery(to, lines[i])
  {
    if i > 0 {
      TellAt(to, lines[1..], i - 1);
    }
  }

  /** The thread serving one connection, and the name it goes by. */
  class ClientThread {
    const socket: Socket
    var username: string

    constructor (socket: Socket, username: string)
      ensures this.socket == socket && this.username == username
    {
      this.socket := socket;
      this.username := username;
    }
  }

  /** Thread `i` of `cts` goes by `nms[i]`, for every `i`. */
  ghost predicate Mirrors(cts: seq<ClientThread>, nms: seq<string>)
    reads cts
    decreases |cts|
  {
    |cts| == |nms| && (cts != [] ==> cts[0].username == nms[0] && Mirrors(cts[1..], nms[1..]))
  }

  /** The connections of the threads. */
  function Sockets(cts: seq<ClientThread>): set<Socket>
  {
    if cts == [] then {} else {cts[0].socket} + Sockets(cts[1..])
  }

  /** No two threads share a connection. */
  predicate DistinctSockets(cts: seq<ClientThread>)
  {
    cts != [] ==> cts[0].socket !in Sockets(cts[1..]) && DistinctSockets(cts[1..])
  }

  /** Thread `i` goes by `nms[i]`. */
  lemma {:induction false} MirrorsAt(cts: seq<ClientThread>, nms: seq<string>, i: nat)
    requires Mirrors(cts, nms) && i < |cts|
    ensures cts[i].username == nms[i]
  {
    if i > 0 {
      MirrorsAt(cts[1..], nms[1..], i - 1);
    }
  }

  /** A thread added at the end with its own name at the end stays mirrored. */
  lemma {:induction false} MirrorsAppend(cts: seq<ClientThread>, nms: seq<string>, ct: ClientThread)
    requires Mirrors(cts, nms)
    ensures Mirrors(cts + [ct], nms + [ct.username])
  {
    if cts == [] {
      assert cts + [ct] == [ct] && nms + [ct.username] == [ct.username];
      assert Mirrors([ct][1..], [ct.username][1..]);
    } else {
      assert (cts + [ct])[1..] == cts[1..] + [ct];
      assert (nms + [ct.username])[1..] == nms[1..] + [ct.username];
      MirrorsAppend(cts[1..], nms[1..], ct);
    }
  }

  /** Taking position `k` out of both lists keeps them mirrored. */
  lemma {:induction false} MirrorsRemove(cts: seq<ClientThread>, nms: seq<string>, k: nat)
    requires Mirrors(cts, nms) && k < |cts|
    ensures Mirrors(RemoveAt(cts, k), RemoveAt(nms, k))
  {
    if k > 0 {
      MirrorsRemove(cts[1..], nms[1..], k - 1);
      var c, n := RemoveAt(cts[1..], k - 1), RemoveAt(nms[1..], k - 1);
      assert ([cts[0]] + c)[1..] == c && ([nms[0]] + n)[1..] == n;
    }
  }

  /** Mirroring, stated position by position. */
  lemma {:induction false} MirrorsEvery(cts: seq<ClientThread>, nms: seq<string>)
    requires |cts| == |nms| && forall i :: 0 <= i < |cts| ==> cts[i].username == nms[i]
    ensures Mirrors(cts, nms)
  {
    if cts != [] {
      assert cts[0].username == nms[0];
      MirrorsEvery(cts[1..], nms[1..]);
    }
  }

  /** The connection of every thread is among the connections. */
  lemma {:induction false} SocketsAt(cts: seq<ClientThread>, i: nat)
    requires i < |cts|
    ensures cts[i].socket in Sockets(cts)
  {
    if i > 0 {
      SocketsAt(cts[1..], i - 1);
    }
  }

  /** A thread with a connection of its own keeps the connections distinct. */
  lemma {:induction false} DistinctAppend(cts: seq<ClientThread>, ct: ClientThread)
    requires DistinctSockets(cts) && ct.socket !in Sockets(cts)
    ensures DistinctSockets(cts + [ct])
  {
    if cts == [] {
      assert cts + [ct] == [ct];
      assert [ct][1..] == [];
    } else {
      assert (cts + [ct])[1..] == cts[1..] + [ct];
      DistinctAppend(cts[1..], ct);
      SocketsAppend(cts[1..], ct);
    }
  }

  /** The connections after an append. */
  lemma {:induction false} SocketsAppend(cts: seq<ClientThread>, ct: ClientThread)
    ensures Sockets(cts + [ct]) == Sockets(cts) + {ct.socket}
  {
    if cts == [] {
      assert cts + [ct] == [ct];
      assert [ct][1..] == [];
    } else {
      assert (cts + [ct])[1..] == cts[1..] + [ct];
      SocketsAppend(cts[1..], ct);
    }
  }

  /** Appending a thread with a socket of its own, and its name to both
      lists, keeps the threads mirrored, their sockets distinct and the lists
      alike. */
  lemma {:induction false} JoinCounts(cts: seq<ClientThread>, nms: seq<string>, us: seq<string>, ct: ClientThread)
    requires Mirrors(cts, nms) && DistinctSockets(cts) && multiset(us) == multiset(nms)
    requires ct.socket !in Sockets(cts)
    ensures Mirrors(cts + [ct], nms + [ct.username])
    ensures DistinctSockets(cts + [ct])
    ensures multiset(us + [ct.username]) == multiset(nms + [ct.username])
  {
    MirrorsAppend(cts, nms, ct);
    DistinctAppend(cts, ct);
  }

  /** Taking out the thread at `k` keeps the sockets distinct and leaves no
      other copy of that thread. */
  lemma {:induction false} DistinctRemove(cts: seq<ClientThread>, k: nat)
    requires DistinctSockets(cts) && k < |cts|
    ensures DistinctSockets(RemoveAt(cts, k))
    ensures Sockets(RemoveAt(cts, k)) <= Sockets(cts)
    ensures cts[k].socket !in Sockets(RemoveAt(cts, k))
  {
    if k > 0 {
      DistinctRemove(cts[1..], k - 1);
      var c := RemoveAt(cts[1..], k - 1);
      assert ([cts[0]] + c)[1..] == c;
      SocketsAt(cts[1..], k - 1);
    }
  }

  /** Distinct sockets make distinct threads: the thread at `k` is at no other position. */
  lemma {:induction false} DistinctAt(cts: seq<ClientThread>, k: nat, i: nat)
    requires DistinctSockets(cts) && k < |cts| && i < |cts| && i != k
    ensures cts[i] != cts[k]
  {
    if i == 0 {
      SocketsAt(cts[1..], k - 1);
    } else if k == 0 {
      SocketsAt(cts[1..], i - 1);
    } else {
      DistinctAt(cts[1..], k - 1, i - 1);
    }
  }

  /** A thread whose socket is not among `Sockets(cts)` is not in `cts`. */
  lemma {:induction false} NotInBySocket(cts: seq<ClientThread>, ct: ClientThread)
    requires ct.socket !in Sockets(cts)
    ensures ct !in cts
  {
    if ct in cts {
      SocketsAt(cts, FirstIndex(cts, ct));
    }
  }

  /** Taking out the thread at `k`, its name from the ghost names and the
      first copy of its name from a list with the same names keeps the
      threads mirrored, their sockets distinct and the lists alike. */
  lemma {:induction false} LeaveCounts(cts: seq<ClientThread>, nms: seq<string>, us: seq<string>, k: nat)
    requires Mirrors(cts, nms) && DistinctSockets(cts) && multiset(us) == multiset(nms)
    requires k < |cts| && k == FirstIndex(cts, cts[k])
    ensures Mirrors(RemoveAt(cts, k), RemoveAt(nms, k))
    ensures DistinctSockets(RemoveAt(cts, k)) && cts[k] !in RemoveAt(cts, k)
    ensures multiset(RemoveFirst(us, cts[k].username)) == multiset(RemoveAt(nms, k))
  {
    MirrorsAt(cts, nms, k);
    MirrorsRemove(cts, nms, k);
    DistinctRemove(cts, k);
    NotInBySocket(RemoveAt(cts, k), cts[k]);
    RemoveAtMultiset(nms, k);
    RemoveFirstMultiset(us, cts[k].username);
  }

  /** Every thread other than the one at `k` is a different object, named as
      `nms` says. */
  lemma {:induction false} MirrorsOthers(cts: seq<ClientThread>, nms: seq<string>, k: nat)
    requires Mirrors(cts, nms) && DistinctSockets(cts) && k < |cts|
    ensures cts[k].username == nms[k]
    ensures forall i :: 0 <= i < |cts| && i != k ==> cts[i] != cts[k] && cts[i].username == nms[i]
  {
    MirrorsAt(cts, nms, k);
    forall i | 0 <= i < |cts| && i != k
      ensures cts[i] != cts[k] && cts[i].username == nms[i]
    {
      DistinctAt(cts, k, i);
      MirrorsAt(cts, nms, i);
    }
  }

  /** Dropping the first copy of `nms[k]` from a list with the same names as
      `nms` and appending `v` gives the names of `nms` with position `k` set to `v`. */
  lemma {:induction false} RenameCounts(us: seq<string>, nms: seq<string>, k: nat, v: string)
    requires multiset(us) == multiset(nms) && k < |nms|
    ensures multiset(RemoveFirst(us, nms[k]) + [v]) == multiset(nms[k := v])
  {
    RemoveFirstMultiset(us, nms[k]);
    UpdateMultiset(nms, k, v);
  }

  class ChatServer {
    var users: map<string, Socket>
    var clientThreads: seq<ClientThread>
    var usernames: seq<string>
    /** The current names of the threads, position by position. */
    ghost var names: seq<string>

    /** Every thread has its own connection, and the list of names holds
        exactly the threads' current names, as many times each, though not
        necessarily in the same order. (The map `users` keeps no such
        invariant: a rename leaves the old key behind, and a departure
        removes the key even when it names a different thread.) */
    ghost predicate Valid()
      reads this, clientThreads
    {
      Mirrors(clientThreads, names)
      && DistinctSockets(clientThreads)
      && multiset(usernames) == multiset(names)
    }

    constructor ()
      ensures Valid()
      ensures users == map[] && clientThreads == [] && usernames == []
    {
      users := map[];
      clientThreads := [];
      usernames := [];
      names := [];
    }

    /** Writes `message` once on each client thread's connection, in list
        order, and nowhere else. */
    method Broadcast(message: string) returns (out: seq<Delivery>)
      ensures out == Fanout(clientThreads, message)
    {
      out := [];
      var i := 0;
      while i < |clientThreads|
        invariant 0 <= i <= |clientThreads|
        invariant out == Fanout(clientThreads[..i], message)
      {
        FanoutAppend(clientThreads[..i], clientThreads[i], message);
        assert clientThreads[..i + 1] == clientThreads[..i] + [clientThreads[i]];
        out := out + [Delivery(clientThreads[i].socket, message)];
        i := i + 1;
      }
      assert clientThreads[..i] == clientThreads;
    }

    /** Broadcasts the user-list line built from the current list of names. */
    method BroadcastUsers() returns (out: seq<Delivery>)
      ensures out == Fanout(clientThreads, UserListLine(usernames))
    {
      out := Broadcast(UserListLine(usernames));
    }

    /** While the state is valid, whoever hears a user-list broadcast hears a
        non-empty list: "$UL[]" never reaches a client. */
    lemma {:induction false} ListHeardIsNotEmpty()
      requires Valid() && clientThreads != []
      ensures usernames != []
    {
      assert |multiset(names)| == |clientThreads|;
    }

    /** A new connection whose first line is `name`: the name is added to the
        map and to the end of the list (a name already in use is not refused),
        the threads already connected hear that `name` joined and then the new
        list, and only then is the new thread told the welcome lines and the
        list, and added to the threads that hear broadcasts. */
    method Connect(socket: Socket, name: string) returns (ct: ClientThread, out: seq<Delivery>)
      requires Valid() && socket !in Sockets(clientThreads)
      modifies this
      ensures Valid()
      ensures fresh(ct) && ct.socket == socket && ct.username == name
      ensures clientThreads == old(clientThreads) + [ct]
      ensures usernames == old(usernames) + [name]
      ensures users == old(users)[name := ct.socket]
      ensures out == Fanout(old(clientThreads), JoinedLine(name))
                     + Fanout(old(clientThreads), UserListLine(usernames))
                     + Tell(ct.socket, WelcomeLines + [UserListLine(usernames)])
    {
      ct := new ClientThread(socket, name);
      users := users[name := socket];
      usernames := usernames + [name];
      var joined := Broadcast(JoinedLine(name));
      var list := BroadcastUsers();
      out := joined + list + Tell(socket, WelcomeLines + [UserListLine(usernames)]);
      ghost var cts := clientThreads;
      JoinCounts(cts, names, old(usernames), ct);
      clientThreads := clientThreads + [ct];
      names := names + [name];
    }

    /** The thread `ct` leaves: it is taken out of the threads, the first
        occurrence of its current name out of the list and that name out of
        the map; the others hear that it left and then the new list. */
    twostate predicate LeftRoom(ct: ClientThread, new out: seq<Delivery>)
      reads this, ct
    {
      clientThreads == RemoveFirst(old(clientThreads), ct)
      && ct !in clientThreads
      && usernames == RemoveFirst(old(usernames), ct.username)
      && users == old(users) - {ct.username}
      && out == Fanout(clientThreads, LeftLine(ct.username))
                + Fanout(clientThreads, UserListLine(usernames))
    }

    /** Takes `ct` out of the threads, the first occurrence of its name out
        of the list and its name out of the map. */
    method Leave(ct: ClientThread)
      requires Valid() && ct in clientThreads
      modifies this
      ensures Valid()
      ensures clientThreads == RemoveFirst(old(clientThreads), ct) && ct !in clientThreads
      ensures usernames == RemoveFirst(old(usernames), ct.username)
      ensures users == old(users) - {ct.username}
    {
      var name := ct.username;
      ghost var k := FirstIndex(clientThreads, ct);
      LeaveCounts(clientThreads, names, usernames, k);
      clientThreads := RemoveFirst(clientThreads, ct);
      names := RemoveAt(names, k);
      usernames := RemoveFirst(usernames, name);
      users := users - {name};
    }

    /** End of stream or a read error on the connection of `ct`. */
    method Disconnect(ct: ClientThread) returns (out: seq<Delivery>)
      requires Valid() && ct in clientThreads
      modifies this
      ensures Valid()
      ensures LeftRoom(ct, out)
    {
      Leave(ct);
      var left := Broadcast(LeftLine(ct.username));
      var list := BroadcastUsers();
      out := left + list;
    }

    /** The state change of a rename: the first occurrence of the old name
        leaves the list and `newName` goes to its end, the thread takes
        `newName`, and the map gains it (the old key stays). */
    method Rename(ct: ClientThread, newName: string)
      requires Valid() && ct in clientThreads
      modifies this, ct
      ensures Valid()
      ensures ct.username == newName && clientThreads == old(clientThreads)
      ensures usernames == RemoveFirst(old(usernames), old(ct.username)) + [newName]
      ensures users == old(users)[newName := ct.socket]
    {
      ghost var k := FirstIndex(clientThreads, ct);
      ghost var cts, nms := clientThreads, names;
      MirrorsOthers(cts, nms, k);
      RenameCounts(usernames, nms, k, newName);
      usernames := RemoveFirst(usernames, ct.username) + [newName];
      ct.username := newName;
      users := users[newName := ct.socket];
      names := nms[k := newName];
      MirrorsEvery(cts, names);
    }

    /** The thread `ct` takes the name `newName`, and every thread hears the
        new list and then the announcement of the change. The two broadcasts
        read only the list of names and the threads, so the model makes the
        whole state change before them. */
    method ChangeName(ct: ClientThread, newName: string) returns (out: seq<Delivery>)
      requires Valid() && ct in clientThreads
      modifies this, ct
      ensures Valid()
      ensures ct.username == newName && clientThreads == old(clientThreads)
      ensures usernames == RemoveFirst(old(usernames), old(ct.username)) + [newName]
      ensures users == old(users)[newName := ct.socket]
      ensures out == Fanout(clientThreads, UserListLine(usernames))
                     + Fanout(clientThreads, RenamedLine(old(ct.username), newName))
    {
      var oldName := ct.username;
      Rename(ct, newName);
      var list := BroadcastUsers();
      var renamed := Broadcast(RenamedLine(oldName, newName));
      out := list + renamed;
    }

    /** One line from the client of `ct`. `closed` tells that the line ended
        the session: a lone "/" while somebody goes by the empty name makes
        the server cut an empty text past its end, and the exception runs the
        departure. */
    method Line(ct: ClientThread, message: string) returns (out: seq<Delivery>, closed: bool)
      requires Valid() && ct in clientThreads
      modifies this, ct
      ensures Valid()
      ensures match Classify(message)
        case Rename(Some(name)) =>
          !closed && ct.username == name
          && clientThreads == old(clientThreads)
          && usernames == RemoveFirst(old(usernames), old(ct.username)) + [name]
          && users == old(users)[name := ct.socket]
          && out == Fanout(clientThreads, UserListLine(usernames))
                    + Fanout(clientThreads, RenamedLine(old(ct.username), name))
        case Rename(None) =>
          !closed && unchanged(this, ct) && out == [Delivery(ct.socket, MustSupplyName)]
        case Help =>
          !closed && unchanged(this, ct) && out == Tell(ct.socket, HelpLines)
        case Private(target, body) =>
          if target !in old(users) then
            !closed && unchanged(this, ct) && out == [Delivery(ct.socket, NotOnline)]
          else if body == None then
            closed && ct.username == old(ct.username) && LeftRoom(ct, out)
          else if target == ct.username then
            !closed && unchanged(this, ct) && out == [Delivery(ct.socket, TalkingToYourself)]
          else
            !closed && unchanged(this, ct)
            && out == [Delivery(ct.socket, ToLine(target, body.value)),
                       Delivery(users[target], FromLine(ct.username, body.value))]
        case Chat =>
          !closed && unchanged(this, ct) && out == Fanout(clientThreads, ChatLine(ct.username, message))
    {
      closed := false;
      if StartsWith(message, "/name") {
        var parts := Split(message, " ");
        if |parts| >= 2 {
          out := ChangeName(ct, parts[1]);
        } else {
          out := [Delivery(ct.socket, MustSupplyName)];
        }
      } else if StartsWith(message, "/help") {
        out := Tell(ct.socket, HelpLines);
      } else if StartsWith(message, "/") {
        var temp := message[1..];
        var spaceLoc := FindSpace(temp);
        var sendTo := temp[..spaceLoc];
        if sendTo !in users {
          out := [Delivery(ct.socket, NotOnline)];
        } else if spaceLoc + 1 > |temp| {
          out := Disconnect(ct);
          closed := true;
        } else {
          var contents := temp[spaceLoc + 1..];
          if sendTo == ct.username {
            out := [Delivery(ct.socket, TalkingToYourself)];
          } else {
            out := [Delivery(ct.socket, ToLine(sendTo, contents)),
                    Delivery(users[sendTo], FromLine(ct.username, contents))];
          }
        }
      } else {
        out := Broadcast(ChatLine(ct.username, message));
      }
    }
  }
}
