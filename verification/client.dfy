/** The string handling of the chat client: how the listener thread reads a
    line from the server, what the Enter key sends, and the private-message
    prefix a double-click on a name puts in front of the entry text. */
module Client {
  import opened Strings
  import opened Wire
  import opened Lists
  import opened Commands

  /** What the listener thread does with one line from the server. */
  datatype Incoming =
    | ShowUsers(names: seq<string>)   // the user list widget gets these names
    | Display(text: string)           // the text is appended to the chat area

  /** A line starting with the user-list marker replaces the list shown and
      is never displayed; any other line is displayed with a newline added. */
  function Receive(message: string): (r: Incoming)
    ensures r.ShowUsers? <==> StartsWith(message, UserListMarker)
    ensures r.ShowUsers? ==> r.names == DecodeUserList(message)
    ensures r.Display? ==> r.text == message + "\n"
  {
    if StartsWith(message, UserListMarker) then ShowUsers(DecodeUserList(message))
    else Display(message + "\n")
  }

  /** A user-list line from the server shows exactly the server's list,
      whenever its names are listable. */
  lemma {:induction false} ReceiveUserList(names: seq<string>)
    requires Listable(names)
    ensures Receive(UserListLine(names)) == ShowUsers(names)
  {
    DecodeEncode(names);
  }

  /** The Enter key: the line sent to the server (trimmed, as sendMessage
      does), and the entry box afterwards. */
  datatype Enter = Enter(sent: Option<string>, entry: string)

  /** Enter on a non-empty entry sends the trimmed text and clears the box;
      Enter on an empty entry sends nothing and leaves the box empty. */
  function PressEnter(entry: string): (r: Enter)
    ensures r.sent.None? <==> entry == ""
    ensures r.sent.Some? ==> r.sent.value == Trim(entry)
    ensures r.entry == ""
  {
    if entry != "" then Enter(Some(Trim(entry)), "") else Enter(None, entry)
  }

  /** An entry of blanks only is not empty, so it is sent: as the empty line,
      which the server takes for chat and broadcasts. */
  lemma {:induction false} BlankEntryIsChat(entry: string)
    requires entry != "" && forall k :: 0 <= k < |entry| ==> IsBlank(entry[k])
    ensures PressEnter(entry).sent == Some("")
    ensures Classify(PressEnter(entry).sent.value) == Chat
  {
    TrimEmpty(entry);
  }

  /** Double-clicking `name` in the list puts "/name " in front of what the
      entry box holds. */
  function DoubleClick(name: string, entry: string): (r: string)
    ensures |r| == |name| + 2 + |entry| && StartsWith(r, "/")
    ensures r[1..|name| + 1] == name && r[|name| + 1] == ' ' && r[|name| + 2..] == entry
  {
    "/" + name + " " + entry
  }

  /** After a double-click on a space-free name that starts neither with
      "name" nor with "help", Enter on a non-blank entry sends a private
      message to exactly that name, whose body is the entry with its
      trailing blanks cut. */
  lemma {:induction false} DoubleClickTargets(name: string, entry: string)
    requires ' ' !in name && !StartsWith(name, "name") && !StartsWith(name, "help")
    requires Trim(entry) != ""
    ensures PressEnter(DoubleClick(name, entry)).sent
            == Some("/" + name + " " + TrimEnd(entry))
    ensures Classify("/" + name + " " + TrimEnd(entry)) == Private(name, Some(TrimEnd(entry)))
  {
    TrimmedClick(name, entry);
    PrivateTo(name, TrimEnd(entry));
  }

  /** "/" + a space-free name that starts neither with "name" nor with
      "help", a space and any body is a private message of that body to
      that name. */
  lemma {:induction false} PrivateTo(name: string, body: string)
    requires ' ' !in name && !StartsWith(name, "name") && !StartsWith(name, "help")
    ensures Classify("/" + name + " " + body) == Private(name, Some(body))
  {
    var m := "/" + name + " " + body;
    assert m == "/" + name + (" " + body);
    NotCommand(name, " " + body, "name");
    NotCommand(name, " " + body, "help");
    assert !StartsWith(m, "/name") && !StartsWith(m, "/help") && StartsWith(m, "/");
    var temp := m[1..];
    assert temp == name + [' '] + body;
    FirstIndexAfter(name, ' ', body);
    assert temp[..|name|] == name && temp[|name| + 1..] == body;
    assert ParsePrivate(m) == Private(name, Some(body));
  }

  /** Double-clicking a user called "helper" and pressing Enter on "hi"
      asks the server for help instead of messaging the user. */
  lemma {:induction false} DoubleClickHelper()
    ensures Classify(PressEnter(DoubleClick("helper", "hi")).sent.value) == Help
  {
    var m := DoubleClick("helper", "hi");
    assert m == "/helper hi";
    assert !IsBlank(m[0]) && !IsBlank(m[|m| - 1]);
    assert TrimStart(m) == m && TrimEnd(m) == m;
    assert m[..5] == "/help" && m[..5] != "/name";
  }

  /** Trimming the double-click text keeps the "/name " prefix and cuts only
      the trailing blanks of the entry. */
  lemma {:induction false} TrimmedClick(name: string, entry: string)
    requires Trim(entry) != ""
    ensures Trim(DoubleClick(name, entry)) == "/" + name + " " + TrimEnd(entry)
  {
    var p := "/" + name + " ";
    assert DoubleClick(name, entry) == p + entry;
    assert (p + entry)[0] == '/';
    TrimOfEnds(p + entry);
    TrimEmpty(entry);
    var k :| 0 <= k < |entry| && !IsBlank(entry[k]);
    TrimEndAppend(p, entry, k);
  }

  /** A text that starts with a non-blank character trims to what is left
      once its trailing blanks are cut. */
  lemma {:induction false} TrimOfEnds(s: string)
    requires s != [] && !IsBlank(s[0])
    ensures Trim(s) == TrimEnd(s)
  {
    assert TrimStart(s) == s;
  }

  /** Cutting the trailing blanks of `p + e` cuts only within `e` when `e`
      has a non-blank character (at `k`). */
  lemma {:induction false} TrimEndAppend(p: string, e: string, k: nat)
    requires k < |e| && !IsBlank(e[k])
    ensures TrimEnd(p + e) == p + TrimEnd(e)
    decreases |e|
  {
    var s := p + e;
    if IsBlank(e[|e| - 1]) {
      assert s[..|s| - 1] == p + e[..|e| - 1];
      TrimEndAppend(p, e[..|e| - 1], k);
    }
  }

  /** "/" + a name not starting with `w`, a space and anything never starts
      with "/" + `w` when `w` is a four-letter word. */
  lemma {:induction false} NotCommand(name: string, rest: string, w: string)
    requires ' ' !in name && !StartsWith(name, w) && |w| == 4 && ' ' !in w
    requires rest != [] && rest[0] == ' '
    ensures !StartsWith("/" + name + rest, "/" + w)
  {
    var m := "/" + name + rest;
    if |name| >= 4 {
      assert m[1..5] == name[..4];
      assert m[..5][1..] == m[1..5] && ("/" + w)[1..] == w;
    } else {
      assert m[|name| + 1] == ' ';
      assert ("/" + w)[|name| + 1] == w[|name|];
    }
  }
}
