# Chat server session logic in Dafny

This project models the chat room server of `src/project8/ChatServer.java`. It
also models the small string paths of `src/project8/ChatClient.java` that
decide what the server sees and what the user sees.

The server keeps three collections:

- `users`, a map from name to connection;
- `usernames`, the ordered list of names that clients are shown;
- `clientThreads`, the ordered list of threads that hear broadcasts.

Three events change them, and each one yields the lines it writes, in order,
each addressed to a connection:

- a new connection sends its name (`Server.ChatServer.Connect`);
- a connected client sends a line (`Server.ChatServer.Line`), which is a
  `/name` rename, a `/help` request, a `/target body` private message or
  plain chat;
- a connection ends (`Server.ChatServer.Disconnect`).

The server is a class, `Server.ChatServer`. Its fields are updated in place
the way the Java collections are. Each connection's thread is a class,
`Server.ClientThread`, and a rename reassigns its `username` field. A
broadcast is a loop over the threads, proved equal to `Fanout`. That function
puts one delivery per thread, in list order, and nothing else.

The invariant `Valid` keeps three facts:

- the threads' connections are distinct;
- a ghost list of names mirrors each thread's current name;
- `usernames` holds exactly those names, as many times each, though not in
  the same order.

`users` keeps no invariant. A rename leaves the old key in place. A departure
removes the departing name even when a different thread also goes by it.

The modules are:

- `Strings`: the Java `String` operations the code relies on (`startsWith`,
  `split` with Java's dropping of trailing empty strings, `replace` of one
  character, `trim`);
- `Lists`: `ArrayList.remove(Object)`;
- `Wire`: the `$UL` user-list line and the client's decoding of it;
- `Commands`: the server's classification of an incoming line;
- `Server`: the state machine;
- `Client`: the client's reading of server lines, its Enter key and its
  double-click prefix.

## Model

| member | source | states |
|---|---|---|
| Strings.Split | src/project8/ChatClient.java:242 | Java `split`: with no match the whole text is the one piece; otherwise the pieces between non-overlapping matches, then trailing empty pieces dropped (all of them when every piece is empty) |
| Strings.Trim | src/project8/ChatClient.java:186 | `trim`: the result is a contiguous slice of the text, everything cut away is a character at or below the space, and a non-empty result has no such character at either end |
| Strings.TrimIdempotent | src/project8/ChatClient.java:186 | trimming twice is trimming once |
| Strings.TrimEmpty | src/project8/ChatClient.java:186 | the trim is empty exactly when every character is blank |
| Strings.JoinSplitAll | src/project8/ChatClient.java:242 | cutting at every separator and joining the pieces with the separator gives the text back |
| Strings.StartsWith | src/project8/ChatServer.java:156 | `startsWith`: the prefix fits in the text and the text's first characters are the prefix (used at ChatServer.java:156, 175, 182 and ChatClient.java:238) |
| Strings.StartsWithAppend | src/project8/ChatServer.java:175 | a text starts with a prefix exactly when it is that prefix followed by some rest |
| Strings.SplitKeeps | src/project8/ChatServer.java:158-159 | a non-empty piece of the cut keeps its position in Java's split, because only trailing empty pieces are dropped |
| Strings.DeleteAll | src/project8/ChatClient.java:240-241 | `replace(c, "")`: the result holds no `c`, holds only characters of the text, is never longer, and is the text itself when the text holds no `c` |
| Strings.DeleteAllAppend | src/project8/ChatClient.java:240-241 | `replace` of one character by nothing works piece by piece over a concatenation |
| Lists.RemoveFirst | src/project8/ChatServer.java:161 | `ArrayList.remove(x)`: the list is unchanged when `x` is absent, and otherwise loses exactly the element at the first index of `x` |
| Lists.FirstIndexIsFirst | src/project8/ChatServer.java:216-217 | no copy of `x` stands before the position `remove` takes out |
| Lists.RemoveFirstMultiset | src/project8/ChatServer.java:217 | removing `x` takes exactly one copy of `x` out of the multiset of elements, or none when there is none |
| Lists.RemoveAtSlices | src/project8/ChatServer.java:216 | removing a position keeps the elements before it and after it, in order |
| Lists.RemoveAtMultiset | src/project8/ChatServer.java:216 | removing a position takes exactly that one element out of the multiset |
| Wire.Render | src/project8/ChatServer.java:54 | `ArrayList.toString`: the names in list order between `[` and `]`; its inverse on listable names is `Wire.DecodeEncode` |
| Wire.UserListLine | src/project8/ChatServer.java:53-55 | the list line starts with `$UL[` and ends with `]`; the empty list gives exactly `$UL[]` |
| Wire.DecodeUserList | src/project8/ChatClient.java:238-242 | the decoded names hold no bracket |
| Wire.DecodeEncode | src/project8/ChatServer.java:49-54 | the client reads back exactly the list the server rendered whenever the list is non-empty, either it is a single name (which may be empty) or its last name is non-empty, and no name holds a bracket or `", "` |
| Wire.DecodeEmptyList | src/project8/ChatClient.java:239-242 | `$UL[]` decodes to one empty name, not to an empty list |
| Wire.DecodeCommaName | src/project8/ChatClient.java:242 | a name holding `", "` comes back as two names |
| Wire.SplitJoin | src/project8/ChatClient.java:242 | splitting on `", "` undoes the join of separator-free names |
| Commands.Classify | src/project8/ChatServer.java:156-213 | a line is a rename exactly when it starts with `/name` (even `/namex`), help exactly when it starts with `/help` and not `/name`, chat exactly when it does not start with `/`, and a private message otherwise; a rename carries `split(" ")[1]` |
| Commands.NameArgument | src/project8/ChatServer.java:158-159 | `split(" ")[1]`, or none where the index is out of bounds: the name holds no space, and a line without a space gives none |
| Commands.NameArgumentTrailingSpace | src/project8/ChatServer.java:158-159 | `"/name "` gives no name, so the sender is told to supply one |
| Commands.NameArgumentDoubleSpace | src/project8/ChatServer.java:158-159 | `"/name  x"` (two spaces) renames to the empty name, which makes the lone-`/` teardown of `Line` reachable |
| Commands.NameArgumentExtraWords | src/project8/ChatServer.java:158-159 | words after the new name are ignored: a command, a space, a non-empty space-free word, a space and any rest name exactly that word |
| Commands.NameArgumentWord | src/project8/ChatServer.java:158-159 | a command, a space and a space-free non-empty word name exactly that word |
| Commands.FirstSpace | src/project8/ChatServer.java:184-190 | the cut is the first space of the text, or 0 when there is none |
| Commands.FindSpace | src/project8/ChatServer.java:184-190 | the search loop stops at the first space, and leaves 0 when there is none |
| Commands.ParsePrivate | src/project8/ChatServer.java:183-196 | with a space, the line is `/` + target + space + body and the target holds no space; with none, the target is empty and the body is the line from its third character on, or missing for a lone `/` |
| Server.Fanout | src/project8/ChatServer.java:40-46 | one delivery per thread |
| Server.FanoutAt | src/project8/ChatServer.java:41-43 | the `i`-th delivery is the line on the `i`-th thread's connection |
| Server.FanoutMisses | src/project8/ChatServer.java:71-72 | a connection that no listed thread holds receives none of a broadcast |
| Server.Tell | src/project8/ChatServer.java:117-123 | the welcome lines and the help lines (ChatServer.java:176-179) written back to back to one connection: one delivery per line |
| Server.TellAt | src/project8/ChatServer.java:117-123 | lines told to one connection arrive on it in order |
| Server.ClientThread.constructor | src/project8/ChatServer.java:99-100 | a thread holds the connection it serves and the name it goes by, as the `socket` and `username` fields at ChatServer.java:86-89 |
| Server.ChatServer.constructor | src/project8/ChatServer.java:28-32 | the server starts with an empty map and empty lists, and valid |
| Server.ChatServer.Broadcast | src/project8/ChatServer.java:40-46 | the loop writes the message once on each thread's connection, in list order, and nowhere else; it changes no state |
| Server.ChatServer.BroadcastUsers | src/project8/ChatServer.java:53-55 | every thread receives the list line of the current `usernames` |
| Server.ChatServer.ListHeardIsNotEmpty | src/project8/ChatServer.java:53-55 | while the state is valid and a thread listens, the list broadcast is never `$UL[]` |
| Server.ChatServer.Connect | src/project8/ChatServer.java:99-128 | the name goes to the end of `usernames` and into `users`, duplicates included; the threads already there hear the join and then the list; only the newcomer hears the three welcome lines and its own list line; the thread joins the listeners only afterwards; the invariant holds |
| Server.ChatServer.Leave | src/project8/ChatServer.java:216-218 | the thread leaves the listeners, the first copy of its name leaves `usernames` and the name leaves `users`; the invariant holds |
| Server.ChatServer.Disconnect | src/project8/ChatServer.java:215-222 | the state change of `Leave`, then the remaining threads hear the departure followed by the updated list |
| Server.ChatServer.Rename | src/project8/ChatServer.java:161-169 | the first copy of the old name leaves `usernames` and the new name goes to its end; the thread takes the new name; `users` gains the new key and keeps the old one; the invariant holds |
| Server.ChatServer.ChangeName | src/project8/ChatServer.java:157-170 | the state change of `Rename`, then every thread hears the new list followed by the announcement naming the old and the new name |
| Server.ChatServer.Line | src/project8/ChatServer.java:149-214 | per branch: a rename as `ChangeName`; `/name` with no argument tells only the sender, with no state change; help tells the sender exactly the four help lines; an unknown target tells only the sender "not online"; a lone `/` while someone is named "" tears the sender down; a message to oneself tells only the sender; otherwise the sender gets "To T: body" and then T's connection gets "From S: body"; chat is broadcast as `name: line` |
| Server.JoinCounts | src/project8/ChatServer.java:110-111 | appending a thread on a new connection and its name keeps the invariant |
| Server.LeaveCounts | src/project8/ChatServer.java:216-218 | removing a thread and the first copy of its name keeps the invariant, and leaves no other copy of the thread |
| Server.RenameCounts | src/project8/ChatServer.java:161-162 | dropping the old name and appending the new gives the same names as renaming the thread in place |
| Client.Receive | src/project8/ChatClient.java:238-246 | a line is taken for a user list exactly when it starts with `$UL`, and is then not displayed; any other line is displayed with a newline added |
| Client.ReceiveUserList | src/project8/ChatClient.java:238-243 | a list line the server writes for readable names shows exactly those names |
| Client.PressEnter | src/project8/ChatClient.java:100-105 | given the text the key handler reads from the box, nothing is sent exactly when that text is empty; otherwise the trimmed text is sent; the box is empty afterwards |
| Client.BlankEntryIsChat | src/project8/ChatClient.java:101-102 | an entry of blanks only is sent, as the empty line, which the server broadcasts as chat |
| Client.DoubleClick | src/project8/ChatClient.java:135-136 | the entry becomes `/`, the name, a space and the old entry text |
| Client.DoubleClickTargets | src/project8/ChatClient.java:135-136 | for a space-free name not starting with `name` or `help` and a non-blank entry, Enter sends a private message to exactly that name, with the entry minus its trailing blanks as the body |
| Client.PrivateTo | src/project8/ChatServer.java:182-196 | `/` + such a name + a space + a body is a private message of that body to that name |
| Client.DoubleClickHelper | src/project8/ChatClient.java:135-136 | double-clicking a user named `helper` and sending asks the server for help instead |
| Client.TrimmedClick | src/project8/ChatClient.java:186 | trimming the double-click text keeps the `/name ` prefix and cuts only the entry's trailing blanks |

## Left out

- Sockets, streams and `accept` are not modelled. A connection is an object of the empty class `Socket`. `Connect` receives the accepted connection as a parameter and requires that no current thread holds it.
- The threads and `synchronized` are not modelled. The model handles one event at a time, so the races on the unsynchronized collections are not captured.
- The private message's temporary swap of the sender's `output` to the target's connection (`ChatServer.java:203-207`) becomes one delivery addressed to the target's connection.
- Write failures are not modelled: the `sendMessage` exception path, the exception caught around the private message, and a failed bind in `start`. All of them only log.
- All `System.out` logging is left out.
- A newcomer whose stream ends before it sends a name (a `null` name) is not modelled. Neither is the failure of the thread's constructor.
- End of stream on a connected client is the `Disconnect` event. The model does not represent the `null` line that causes it.
- Server.ChatServer.ChangeName: the source sets the thread's name and the new map key after the two broadcasts; the model makes the whole state change first. The broadcasts read only the list of names and the threads, so the deliveries are the same.
- The Swing window is not modelled: the frame, the list widget, focus handling, the name prompt, and `connect`, `initStreams` and `disconnect`. Only the string logic of the Enter key, the double-click and the listener is modelled.
- Client.PressEnter: the argument is the text the handler reads with `getText()`, not what the user typed. The text area's own handling of the typed newline is not modelled. Where the area has already inserted the newline when `keyTyped` runs, an otherwise empty box holds "\n". That text is sent trimmed, as "", and the server broadcasts it as `name: `. `Client.BlankEntryIsChat` states this consequence.
- The client listener's end of stream (a `null` line, which ends the listener) is not modelled.
- Java strings are sequences of UTF-16 code units, and the model's strings are sequences of Unicode scalar values. On the modelled paths this changes behaviour in one place. A private message with no space drops the first code unit after "/" (`temp.substring(spaceLoc + 1)`, ChatServer.java:196), while `Commands.ParsePrivate` drops the whole first character. The two differ when that character lies outside the Basic Multilingual Plane, where Java keeps half a surrogate pair. Elsewhere (`trim`, `startsWith`, `split`, `replace`) the comparisons are with ASCII characters and agree.
