/** The few java.lang.String operations the chat server and client rely on,
    with Java's semantics written out: startsWith, indexOf of a literal,
    split on a literal separator (leftmost non-overlapping matches, trailing
    empty strings dropped), replace of a character by nothing, and trim. */
module Strings {

  datatype Option<T> = None | Some(value: T)

  /** String.startsWith */
  predicate StartsWith(s: string, prefix: string)
  {
    |prefix| <= |s| && s[..|prefix|] == prefix
  }

  /** A text starts with `prefix` exactly when it is `prefix` followed by
      some rest. */
  lemma {:induction false} StartsWithAppend(s: string, prefix: string)
    ensures StartsWith(s, prefix) <==> exists rest :: s == prefix + rest
  {
    if StartsWith(s, prefix) {
      assert s == prefix + s[|prefix|..];
    }
    forall rest | s == prefix + rest
      ensures StartsWith(s, prefix)
    {
      assert s[..|prefix|] == prefix;
    }
  }

  /** `sep` occurs in `s` starting at position `j`. */
  predicate OccursAt(s: string, sep: string, j: int)
  {
    0 <= j && j + |sep| <= |s| && s[j..j + |sep|] == sep
  }

  /** String.indexOf(sep): the leftmost occurrence of `sep` in `s`, if any. */
  function IndexOf(s: string, sep: string): (r: Option<nat>)
    requires sep != ""
    ensures r.Some? ==> OccursAt(s, sep, r.value)
    decreases |s|
  {
    if |s| < |sep| then None
    else if OccursAt(s, sep, 0) then Some(0)
    else
      match IndexOf(s[1..], sep)
      case None => None
      case Some(i) =>
        ShiftOccurs(s, sep, i);
        Some(i + 1)
  }

  /** The occurrence found is the leftmost one, and one is found whenever
      `sep` occurs at all. */
  lemma {:induction false} IndexOfLeftmost(s: string, sep: string)
    requires sep != ""
    ensures IndexOf(s, sep).Some? ==> forall j :: 0 <= j < IndexOf(s, sep).value ==> !OccursAt(s, sep, j)
    ensures IndexOf(s, sep).None? ==> forall j :: !OccursAt(s, sep, j)
    decreases |s|
  {
    if |s| >= |sep| && !OccursAt(s, sep, 0) {
      IndexOfLeftmost(s[1..], sep);
      IndexOfStep(s, sep, IndexOf(s[1..], sep));
    }
  }

  /** The search finds nothing where `sep` occurs nowhere. */
  lemma {:induction false} NoOccurrence(s: string, sep: string)
    requires sep != "" && forall j :: 0 <= j ==> !OccursAt(s, sep, j)
    ensures IndexOf(s, sep) == None
    decreases |s|
  {
    if |s| >= |sep| {
      forall j | 0 <= j
        ensures !OccursAt(s[1..], sep, j)
      {
        ShiftOccurs(s, sep, j);
      }
      NoOccurrence(s[1..], sep);
    }
  }

  /** An occurrence at j + 1 in `s` is an occurrence at j in `s[1..]`. */
  lemma {:induction false} ShiftOccurs(s: string, sep: string, j: int)
    requires s != [] && 0 <= j
    ensures OccursAt(s, sep, j + 1) <==> OccursAt(s[1..], sep, j)
  {
    if j + 1 + |sep| <= |s| {
      assert s[1..][j..j + |sep|] == s[j + 1..j + 1 + |sep|];
    }
  }

  /** The search in `s[1..]` lifts to `s` when `s` does not start with `sep`. */
  lemma {:induction false} IndexOfStep(s: string, sep: string, r: Option<nat>)
    requires s != [] && !OccursAt(s, sep, 0)
    requires r.Some? ==> OccursAt(s[1..], sep, r.value)
    requires r.Some? ==> forall j :: 0 <= j < r.value ==> !OccursAt(s[1..], sep, j)
    requires r.None? ==> forall j :: !OccursAt(s[1..], sep, j)
    ensures r.Some? ==> OccursAt(s, sep, r.value + 1)
    ensures r.Some? ==> forall j :: 0 <= j < r.value + 1 ==> !OccursAt(s, sep, j)
    ensures r.None? ==> forall j :: !OccursAt(s, sep, j)
  {
    forall j | 1 <= j
      ensures OccursAt(s, sep, j) <==> OccursAt(s[1..], sep, j - 1)
    {
      ShiftOccurs(s, sep, j - 1);
    }
  }

  /** Cuts `s` at every leftmost, non-overlapping occurrence of `sep`;
      the pieces between the occurrences, empty ones included. */
  function SplitAll(s: string, sep: string): (r: seq<string>)
    requires sep != ""
    ensures |r| >= 1
    decreases |s|
  {
    match IndexOf(s, sep)
    case None => [s]
    case Some(i) => [s[..i]] + SplitAll(s[i + |sep|..], sep)
  }

  /** The cut leaves a single piece exactly when `sep` does not occur. */
  lemma {:induction false} SplitAllSingle(s: string, sep: string)
    requires sep != ""
    ensures |SplitAll(s, sep)| == 1 <==> IndexOf(s, sep).None?
  {
    match IndexOf(s, sep)
    case None =>
    case Some(i) =>
      assert |SplitAll(s, sep)| == 1 + |SplitAll(s[i + |sep|..], sep)|;
  }

  /** The pieces joined back with `sep` between them; Java's
      String.join(sep, parts), and also the body of ArrayList.toString
      when `sep` is ", ". */
  function Join(parts: seq<string>, sep: string): string
  {
    if |parts| == 0 then ""
    else if |parts| == 1 then parts[0]
    else parts[0] + sep + Join(parts[1..], sep)
  }

  /** Cutting at the separators and joining with them loses nothing. */
  lemma {:induction false} JoinSplitAll(s: string, sep: string)
    requires sep != ""
    ensures Join(SplitAll(s, sep), sep) == s
    decreases |s|
  {
    match IndexOf(s, sep)
    case None =>
    case Some(i) =>
      var rest := s[i + |sep|..];
      JoinSplitAll(rest, sep);
      JoinCons(s[..i], SplitAll(rest, sep), sep);
      CutAround(s, sep, i);
  }

  lemma {:induction false} JoinCons(first: string, more: seq<string>, sep: string)
    requires more != []
    ensures Join([first] + more, sep) == first + sep + Join(more, sep)
  {
    assert ([first] + more)[1..] == more;
  }

  /** A string is what comes before an occurrence, the occurrence, and what follows. */
  lemma {:induction false} CutAround(s: string, sep: string, i: nat)
    requires OccursAt(s, sep, i)
    ensures s == s[..i] + sep + s[i + |sep|..]
  {
    assert s == s[..i] + s[i..i + |sep|] + s[i + |sep|..];
  }

  /** The parts with every trailing empty string removed. */
  function DropTrailingEmpty(parts: seq<string>): (r: seq<string>)
    ensures |r| <= |parts| && r == parts[..|r|]
    ensures forall k :: |r| <= k < |parts| ==> parts[k] == ""
    ensures r == [] || r[|r| - 1] != ""
  {
    if parts == [] || parts[|parts| - 1] != "" then parts
    else DropTrailingEmpty(parts[..|parts| - 1])
  }

  /** String.split with a literal separator and limit 0: when `sep` does not
      occur the result is the whole string (even the empty one); otherwise
      the pieces with trailing empty strings removed. */
  function Split(s: string, sep: string): (r: seq<string>)
    requires sep != ""
    ensures IndexOf(s, sep).None? ==> r == [s]
    ensures IndexOf(s, sep).Some? ==> r == [] || r[|r| - 1] != ""
    ensures |r| <= |SplitAll(s, sep)| && r == SplitAll(s, sep)[..|r|]
    ensures forall k :: |r| <= k < |SplitAll(s, sep)| ==> SplitAll(s, sep)[k] == ""
  {
    var parts := SplitAll(s, sep);
    SplitAllSingle(s, sep);
    if |parts| == 1 then parts else DropTrailingEmpty(parts)
  }

  /** A non-empty piece of the cut, and every piece before it, survive the
      dropping of trailing empty pieces. */
  lemma {:induction false} SplitKeeps(s: string, sep: string, k: nat)
    requires sep != "" && k < |SplitAll(s, sep)| && SplitAll(s, sep)[k] != ""
    ensures k < |Split(s, sep)| && Split(s, sep)[k] == SplitAll(s, sep)[k]
  {
  }

  /** String.replace(c, "") for a one-character target: every `c` deleted. */
  function DeleteAll(s: string, c: char): (r: string)
    ensures c !in r
    ensures forall x :: x in r ==> x in s
    ensures c !in s ==> r == s
    ensures |r| <= |s|
  {
    if s == [] then []
    else (if s[0] == c then [] else [s[0]]) + DeleteAll(s[1..], c)
  }

  lemma {:induction false} DeleteAllAppend(a: string, b: string, c: char)
    ensures DeleteAll(a + b, c) == DeleteAll(a, c) + DeleteAll(b, c)
    decreases |a|
  {
    if a != [] {
      assert (a + b)[1..] == a[1..] + b;
      DeleteAllAppend(a[1..], b, c);
    } else {
      assert a + b == b;
    }
  }

  /** What String.trim treats as white space: every character up to U+0020. */
  predicate IsBlank(c: char)
  {
    c <= ' '
  }

  function TrimStart(s: string): (r: string)
    ensures |r| <= |s| && r == s[|s| - |r|..]
    ensures forall i :: 0 <= i < |s| - |r| ==> IsBlank(s[i])
    ensures r != [] ==> !IsBlank(r[0])
  {
    if s != [] && IsBlank(s[0]) then TrimStart(s[1..]) else s
  }

  function TrimEnd(s: string): (r: string)
    ensures |r| <= |s| && r == s[..|r|]
    ensures forall i :: |r| <= i < |s| ==> IsBlank(s[i])
    ensures r != [] ==> !IsBlank(r[|r| - 1])
  {
    if s != [] && IsBlank(s[|s| - 1]) then TrimEnd(s[..|s| - 1]) else s
  }

  /** `r` is `s[i..i + |r|]` and everything of `s` outside it is blank. */
  predicate TrimmedAt(s: string, r: string, i: int)
  {
    0 <= i <= |s| - |r| && r == s[i..i + |r|]
    && (forall k :: 0 <= k < i ==> IsBlank(s[k]))
    && (forall k :: i + |r| <= k < |s| ==> IsBlank(s[k]))
  }

  /** String.trim: the substring left once blanks are cut from both ends;
      what is cut away is blank, and what is left has no blank at either end. */
  function Trim(s: string): (r: string)
    ensures exists i :: TrimmedAt(s, r, i)
    ensures r != [] ==> !IsBlank(r[0]) && !IsBlank(r[|r| - 1])
  {
    var t := TrimStart(s);
    var r := TrimEnd(t);
    var i := |s| - |t|;
    assert t == s[i..];
    assert r == s[i..i + |r|];
    assert TrimmedAt(s, r, i);
    r
  }

  /** Trimming twice is trimming once. */
  lemma {:induction false} TrimIdempotent(s: string)
    ensures Trim(Trim(s)) == Trim(s)
  {
    var r := Trim(s);
    if r != [] {
      assert TrimStart(r) == r;
      assert TrimEnd(r) == r;
    }
  }

  /** A string trims to nothing exactly when it is all blanks. */
  lemma {:induction false} TrimEmpty(s: string)
    ensures Trim(s) == [] <==> forall k :: 0 <= k < |s| ==> IsBlank(s[k])
  {
    if forall k :: 0 <= k < |s| ==> IsBlank(s[k]) {
      assert TrimStart(s) == [];
    }
  }
}
