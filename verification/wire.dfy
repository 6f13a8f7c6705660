/** The user-list line of the chat protocol: the server writes "$UL" followed
    by Java's rendering of its list of names, "[a, b, c]"; the client drops
    the three-character marker, deletes every bracket and splits what is left
    on ", ". */
module Wire {
  import opened Strings

  const UserListMarker := "$UL"
  const ListSep := ", "

  /** ArrayList.toString of a list of names. */
  function Render(names: seq<string>): (r: string)
    ensures |r| >= 2 && r[0] == '[' && r[|r| - 1] == ']'
  {
    "[" + Join(names, ListSep) + "]"
  }

  /** The line broadcast as the user list: the marker, then the bracketed
      names in list order; the empty list gives "$UL[]". */
  function UserListLine(names: seq<string>): (r: string)
    ensures StartsWith(r, UserListMarker + "[") && r[|r| - 1] == ']'
    ensures names == [] ==> r == "$UL[]"
  {
    UserListMarker + Render(names)
  }

  /** The client's reading of a user-list line. */
  function DecodeUserList(message: string): (r: seq<string>)
    requires StartsWith(message, UserListMarker)
    ensures forall n :: n in r ==> '[' !in n && ']' !in n
  {
    var inner := DeleteAll(DeleteAll(message[|UserListMarker|..], '['), ']');
    var r := Split(inner, ListSep);
    forall n | n in r ensures '[' !in n && ']' !in n {
      PiecesOfSplit(inner, ListSep, n);
    }
    r
  }

  /** Every piece of a split is a piece of the string split. */
  lemma {:induction false} PiecesOfSplit(s: string, sep: string, n: string)
    requires sep != "" && n in Split(s, sep)
    ensures forall x :: x in n ==> x in s
  {
    PiecesOfSplitAll(s, sep, n);
  }

  lemma {:induction false} PiecesOfSplitAll(s: string, sep: string, n: string)
    requires sep != "" && n in SplitAll(s, sep)
    ensures forall x :: x in n ==> x in s
    decreases |s|
  {
    match IndexOf(s, sep)
    case None =>
    case Some(i) =>
      if n != s[..i] {
        PiecesOfSplitAll(s[i + |sep|..], sep, n);
      }
  }

  /** The names the client can read back: at least one name, no bracket and
      no ", " inside a name, and a last name that is not empty (a single
      empty name is fine: it is read back from "$UL[]"). */
  predicate Listable(names: seq<string>)
  {
    names != []
    && (|names| == 1 || names[|names| - 1] != "")
    && forall n :: n in names ==> '[' !in n && ']' !in n && IndexOf(n, ListSep).None?
  }

  /** The client recovers exactly the list the server sent, whenever the
      names are listable. */
  lemma {:induction false} DecodeEncode(names: seq<string>)
    requires Listable(names)
    ensures DecodeUserList(UserListLine(names)) == names
  {
    var joined := Join(names, ListSep);
    JoinAvoids(names, ListSep, '[');
    JoinAvoids(names, ListSep, ']');
    assert UserListLine(names)[|UserListMarker|..] == ['['] + (joined + [']']);
    StripBrackets(joined);
    SplitJoin(names);
  }

  /** Deleting the brackets around a bracket-free text gives the text. */
  lemma {:induction false} StripBrackets(text: string)
    requires '[' !in text && ']' !in text
    ensures DeleteAll(DeleteAll(['['] + (text + [']']), '['), ']') == text
  {
    DeleteAllAppend(['['], text + [']'], '[');
    DeleteAllAppend(text, [']'], '[');
    DeleteOne('[', '[');
    DeleteOne(']', '[');
    assert DeleteAll(['['] + (text + [']']), '[') == text + [']'];
    DeleteAllAppend(text, [']'], ']');
    DeleteOne(']', ']');
  }

  lemma {:induction false} DeleteOne(d: char, c: char)
    ensures DeleteAll([d], c) == if d == c then [] else [d]
  {
    assert [d][1..] == [];
  }

  /** Java's split undoes the join of listable names. */
  lemma {:induction false} SplitJoin(names: seq<string>)
    requires Listable(names)
    ensures Split(Join(names, ListSep), ListSep) == names
  {
    SplitAllJoin(names);
    var joined := Join(names, ListSep);
    if |names| > 1 {
      assert |SplitAll(joined, ListSep)| > 1;
      assert IndexOf(joined, ListSep).Some?;
    }
  }

  /** Decoding "$UL[]", the list of nobody, yields one empty name rather than
      an empty list. */
  lemma {:induction false} DecodeEmptyList()
    ensures DecodeUserList(UserListLine([])) == [""]
  {
    assert UserListLine([])[|UserListMarker|..] == ['['] + ("" + [']']);
    StripBrackets("");
    assert IndexOf("", ListSep) == None;
  }

  /** A name holding ", " comes back as two names. */
  lemma {:induction false} DecodeCommaName()
    ensures DecodeUserList(UserListLine(["a, b"])) == ["a", "b"]
  {
    var text := "a" + ListSep + "b";
    assert text == "a, b";
    DecodeOneName(text);
    SplitAtOneSep("a", "b");
  }

  /** Two separator-free texts around one ", " split back into the two. */
  lemma {:induction false} SplitAtOneSep(n: string, t: string)
    requires IndexOf(n, ListSep).None? && IndexOf(t, ListSep).None? && t != ""
    ensures Split(n + ListSep + t, ListSep) == [n, t]
  {
    var s := n + ListSep + t;
    FirstSeparator(n, t);
    assert s[..|n|] == n;
    assert s[|n| + |ListSep|..] == t;
    assert SplitAll(s, ListSep) == [n] + SplitAll(t, ListSep);
  }

  /** A single bracket-free name reads back as the name split at ", ". */
  lemma {:induction false} DecodeOneName(name: string)
    requires '[' !in name && ']' !in name
    ensures DecodeUserList(UserListLine([name])) == Split(name, ListSep)
  {
    assert UserListLine([name])[|UserListMarker|..] == ['['] + (name + [']']);
    StripBrackets(name);
  }

  /** A character in neither the parts nor the separator is not in the join. */
  lemma {:induction false} JoinAvoids(parts: seq<string>, sep: string, c: char)
    requires c !in sep && forall p :: p in parts ==> c !in p
    ensures c !in Join(parts, sep)
  {
    if |parts| > 1 {
      JoinAvoids(parts[1..], sep, c);
    }
  }

  /** In `n + ", " + t` the first ", " is the one after `n` when `n` holds none. */
  lemma {:induction false} FirstSeparator(n: string, t: string)
    requires IndexOf(n, ListSep).None?
    ensures IndexOf(n + ListSep + t, ListSep) == Some(|n|)
  {
    var s := n + ListSep + t;
    IndexOfLeftmost(n, ListSep);
    IndexOfLeftmost(s, ListSep);
    assert s[|n|..|n| + 2] == ListSep;
    assert OccursAt(s, ListSep, |n|);
    forall j | 0 <= j < |n|
      ensures !OccursAt(s, ListSep, j)
    {
      if j + 2 <= |n| {
        assert s[j..j + 2] == n[j..j + 2];
        assert !OccursAt(n, ListSep, j);
      } else {
        assert s[j + 1] == ',';
        assert s[j..j + 2][1] == ',';
      }
    }
  }

  /** Cutting the joined names at every ", " gives the names back. */
  lemma {:induction false} SplitAllJoin(names: seq<string>)
    requires names != []
    requires forall n :: n in names ==> IndexOf(n, ListSep).None?
    ensures SplitAll(Join(names, ListSep), ListSep) == names
  {
    if |names| > 1 {
      var rest := Join(names[1..], ListSep);
      FirstSeparator(names[0], rest);
      var s := names[0] + ListSep + rest;
      assert s[..|names[0]|] == names[0];
      assert s[|names[0]| + |ListSep|..] == rest;
      SplitAllJoin(names[1..]);
    }
  }
}
