/** How the server reads one line from a connected client: "/name" renames,
    "/help" asks for help, any other leading "/" is a private message, and
    everything else is said to the whole room. */
module Commands {
  import opened Strings
  import opened Lists

  datatype Command =
    | Rename(newName: Option<string>)                 // None: no name after "/name"
    | Help
    | Private(target: string, body: Option<string>)   // None: nothing to cut a body from
    | Chat

  /** `message.split(" ")[1]`, or None when the split leaves fewer than two
      pieces (where the server catches the ArrayIndexOutOfBoundsException). */
  function NameArgument(message: string): (r: Option<string>)
    ensures r.Some? ==> ' ' !in r.value
    ensures ' ' !in message ==> r == None
  {
    var parts := Split(message, " ");
    NoSpaceNoMatch(message);
    if |parts| >= 2 then
      SplitPiecesAvoidSep(message, " ", 1);
      Some(parts[1])
    else
      None
  }

  lemma {:induction false} NoSpaceNoMatch(s: string)
    ensures ' ' !in s <==> IndexOf(s, " ").None?
  {
    IndexOfLeftmost(s, " ");
    if ' ' in s {
      var j := FirstIndex(s, ' ');
      assert OccursAt(s, " ", j) by { assert s[j..j + 1] == [s[j]]; }
    }
    if IndexOf(s, " ").Some? {
      var j := IndexOf(s, " ").value;
      assert s[j..j + 1] == " ";
      assert s[j] in s;
    }
  }

  /** No piece of a split holds a space when the split was on spaces. */
  lemma {:induction false} SplitPiecesAvoidSep(s: string, sep: string, k: nat)
    requires sep == " " && k < |Split(s, sep)|
    ensures ' ' !in Split(s, sep)[k]
  {
    SplitAllPiecesAvoidSep(s, sep, k);
    NoSpaceNoMatch(Split(s, sep)[k]);
  }

  /** No piece of a cut holds the separator. */
  lemma {:induction false} SplitAllPiecesAvoidSep(s: string, sep: string, k: nat)
    requires sep != "" && k < |SplitAll(s, sep)|
    ensures IndexOf(SplitAll(s, sep)[k], sep).None?
    decreases |s|
  {
    var r := IndexOf(s, sep);
    if r.None? {
      SplitAllWhole(s, sep);
    } else {
      var i := r.value;
      SplitAllFirst(s, sep, i);
      if k == 0 {
        BeforeFirstAvoids(s, sep, i);
      } else {
        SplitAllPiecesAvoidSep(s[i + |sep|..], sep, k - 1);
      }
    }
  }

  /** Without the separator, the cut leaves the text whole. */
  lemma {:induction false} SplitAllWhole(s: string, sep: string)
    requires sep != "" && IndexOf(s, sep).None?
    ensures SplitAll(s, sep) == [s]
  {
  }

  /** The cut at the first separator, then the cuts of what follows it. */
  lemma {:induction false} SplitAllFirst(s: string, sep: string, i: nat)
    requires sep != "" && IndexOf(s, sep) == Some(i)
    ensures i + |sep| <= |s|
    ensures SplitAll(s, sep) == [s[..i]] + SplitAll(s[i + |sep|..], sep)
  {
  }

  /** What precedes the first occurrence of `sep` holds none. */
  lemma {:induction false} BeforeFirstAvoids(s: string, sep: string, i: nat)
    requires sep != "" && IndexOf(s, sep) == Some(i)
    ensures IndexOf(s[..i], sep).None?
  {
    IndexOfLeftmost(s, sep);
    var t := s[..i];
    forall j | 0 <= j
      ensures !OccursAt(t, sep, j)
    {
      if j + |sep| <= |t| {
        assert t[j..j + |sep|] == s[j..j + |sep|];
        assert !OccursAt(s, sep, j);
      }
    }
    NoOccurrence(t, sep);
  }

  /** The first cut of `w + " " + t`, for a space-free `w`, is `w`. */
  lemma {:induction false} CutAtFirstSpace(w: string, t: string)
    requires ' ' !in w
    ensures SplitAll(w + " " + t, " ") == [w] + SplitAll(t, " ")
  {
    var s := w + " " + t;
    NoSpaceNoMatch(w);
    IndexOfLeftmost(w, " ");
    IndexOfLeftmost(s, " ");
    assert OccursAt(s, " ", |w|) by { assert s[|w|..|w| + 1] == " "; }
    forall j | 0 <= j < |w| ensures !OccursAt(s, " ", j) {
      assert s[j..j + 1] == [w[j]];
      assert w[j] in w;
    }
    assert IndexOf(s, " ") == Some(|w|);
    assert s[..|w|] == w && s[|w| + 1..] == t;
  }

  /** A single space-free word is cut into itself. */
  lemma {:induction false} CutWord(w: string)
    requires ' ' !in w
    ensures SplitAll(w, " ") == [w]
  {
    NoSpaceNoMatch(w);
  }

  /** "/name " with nothing after the space names nobody: the empty last
      piece of the split is dropped. */
  lemma {:induction false} NameArgumentTrailingSpace()
    ensures NameArgument("/name ") == None
  {
    CutWord("");
    CutAtFirstSpace("/name", "");
    assert "/name " == "/name" + " " + "";
    var parts := SplitAll("/name ", " ");
    assert parts == ["/name", ""];
    assert DropTrailingEmpty(parts) == DropTrailingEmpty(["/name"]);
    assert Split("/name ", " ") == ["/name"];
  }

  /** Two spaces after "/name" rename to the empty name. */
  lemma {:induction false} NameArgumentDoubleSpace()
    ensures NameArgument("/name  x") == Some("")
  {
    DoubleSpacePieces();
    var parts := SplitAll("/name  x", " ");
    assert parts[|parts| - 1] != "" && DropTrailingEmpty(parts) == parts;
    assert Split("/name  x", " ")[1] == "";
  }

  lemma {:induction false} DoubleSpacePieces()
    ensures SplitAll("/name  x", " ") == ["/name", "", "x"]
  {
    CutAroundEmpty("/name", "x");
    assert "/name  x" == "/name" + " " + (" " + "x");
  }

  lemma {:induction false} CutAroundEmpty(command: string, word: string)
    requires ' ' !in command && ' ' !in word
    ensures SplitAll(command + " " + (" " + word), " ") == [command, "", word]
  {
    CutWord(word);
    CutAtFirstSpace("", word);
    assert "" + " " + word == " " + word;
    CutAtFirstSpace(command, " " + word);
  }

  /** Words after the new name are ignored: whatever follows the second
      space, the name is the word between the first two. */
  lemma {:induction false} NameArgumentExtraWords(command: string, word: string, rest: string)
    requires ' ' !in command && ' ' !in word && word != ""
    ensures NameArgument(command + " " + word + " " + rest) == Some(word)
  {
    var s := command + " " + word + " " + rest;
    CutTwoWords(command, word, rest);
    SplitKeeps(s, " ", 1);
  }

  /** The first two cuts of two space-free words and a rest. */
  lemma {:induction false} CutTwoWords(command: string, word: string, rest: string)
    requires ' ' !in command && ' ' !in word
    ensures SplitAll(command + " " + word + " " + rest, " ") == [command, word] + SplitAll(rest, " ")
  {
    Regroup(command + " ", word, " ", rest);
    CutAtFirstSpace(word, rest);
    CutAtFirstSpace(command, word + " " + rest);
  }

  lemma {:induction false} Regroup(x: string, w: string, y: string, r: string)
    ensures x + w + y + r == x + (w + y + r)
  {
  }

  /** "/name" + a space + a space-free, non-empty word renames to that word. */
  lemma {:induction false} NameArgumentWord(command: string, word: string)
    requires ' ' !in command && ' ' !in word && word != ""
    ensures NameArgument(command + " " + word) == Some(word)
  {
    var s := command + " " + word;
    NoSpaceNoMatch(command);
    NoSpaceNoMatch(word);
    assert OccursAt(s, " ", |command|) by { assert s[|command|..|command| + 1] == " "; }
    forall j | 0 <= j < |command| ensures !OccursAt(s, " ", j) {
      assert s[j..j + 1] == [command[j]];
      assert command[j] in command;
    }
    IndexOfLeftmost(s, " ");
    assert IndexOf(s, " ") == Some(|command|);
    assert s[..|command|] == command && s[|command| + 1..] == word;
    assert SplitAll(s, " ") == [command, word];
  }

  /** The private-message cut: the first space of `temp`, or 0 when there is none. */
  function FirstSpace(temp: string): (loc: nat)
    ensures ' ' in temp ==> loc < |temp| && temp[loc] == ' ' && ' ' !in temp[..loc]
    ensures ' ' !in temp ==> loc == 0
  {
    if ' ' in temp then FirstIndexIsFirst(temp, ' '); FirstIndex(temp, ' ') else 0
  }

  /** The server's search for the first space, a loop that stops at it. */
  method FindSpace(temp: string) returns (spaceLoc: nat)
    ensures spaceLoc == FirstSpace(temp)
  {
    spaceLoc := 0;
    var i := 0;
    while i < |temp|
      invariant 0 <= i <= |temp|
      invariant ' ' !in temp[..i]
      invariant spaceLoc == 0
    {
      if temp[i] == ' ' {
        spaceLoc := i;
        assert temp[..i] + [' '] == temp[..i + 1];
        return;
      }
      assert temp[..i + 1] == temp[..i] + [temp[i]];
      i := i + 1;
    }
    assert temp[..i] == temp;
  }

  /** A line starting with "/" that is neither "/name" nor "/help": the target
      is what stands between the "/" and the first space ("" when there is
      no space), the body whatever follows that space. With no space the
      body starts one character after the "/" (the first character is lost),
      and a lone "/" has no body at all. */
  function ParsePrivate(message: string): (c: Command)
    requires StartsWith(message, "/")
    ensures c.Private? && ' ' !in c.target
    ensures ' ' in message[1..] ==> c.body.Some? && message == "/" + c.target + " " + c.body.value
    ensures ' ' !in message[1..] ==>
              c.target == "" && (c.body.Some? <==> |message| >= 2)
              && (c.body.Some? ==> c.body.value == message[2..])
  {
    var temp := message[1..];
    var loc := FirstSpace(temp);
    var target := temp[..loc];
    var body := if loc + 1 <= |temp| then Some(temp[loc + 1..]) else None;
    assert ' ' in temp ==> message == [message[0]] + temp[..loc] + [temp[loc]] + temp[loc + 1..];
    Private(target, body)
  }

  /** The order of the server's tests: "/name" first (even "/namex"), then
      "/help", then any other "/", then plain chat. */
  function Classify(message: string): (c: Command)
    ensures c.Rename? <==> StartsWith(message, "/name")
    ensures c.Help? <==> StartsWith(message, "/help") && !StartsWith(message, "/name")
    ensures c.Chat? <==> !StartsWith(message, "/")
    ensures c.Rename? ==> c.newName == NameArgument(message)
    ensures c.Private? ==> c == ParsePrivate(message)
  {
    if StartsWith(message, "/name") then
      assert message[0] == '/';
      Rename(NameArgument(message))
    else if StartsWith(message, "/help") then
      assert message[0] == '/';
      Help
    else if StartsWith(message, "/") then ParsePrivate(message)
    else Chat
  }
}
