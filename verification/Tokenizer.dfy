/**
 The command line is cut in place: spaces become NULs and the arguments are pointers into the
 buffer. Joined by single spaces again they are the line that was typed.
 */
module Tokenizer {
  const NUL: char := '\0'
  const SPACE: char := ' '
  const MAX_ARGS: nat := 10

  // ---- splitting and joining -----------------------------------------------------------

  /**
   The text from `start` on, cut at the first `n - 1` spaces; the search for the next one has got
   to `i`.
   */
  function SplitFrom(s: string, start: nat, i: nat, n: nat): (parts: seq<string>)
    requires start <= i <= |s| && n > 0
    ensures 0 < |parts| <= n
    decreases |s| - i
  {
    if i == |s| || n == 1 then [s[start..]]
    else if s[i] == SPACE then [s[start..i]] + SplitFrom(s, i + 1, i + 1, n - 1)
    else SplitFrom(s, start, i + 1, n)
  }

  function Split(s: string, n: nat): (parts: seq<string>)
    requires n > 0
    ensures 0 < |parts| <= n
  {
    SplitFrom(s, 0, 0, n)
  }

  function Join(parts: seq<string>): string
    requires |parts| > 0
  {
    if |parts| == 1 then parts[0] else parts[0] + [SPACE] + Join(parts[1..])
  }

  /** The number of spaces from `i` on. */
  function Spaces(s: string, i: nat): nat
    requires i <= |s|
    decreases |s| - i
  {
    if i == |s| then 0 else (if s[i] == SPACE then 1 else 0) + Spaces(s, i + 1)
  }

  /** No argument but the last contains a space, and the last only if the limit was reached. */
  predicate Argued(parts: seq<string>, n: nat) {
    && 0 < |parts| <= n
    && (forall j :: 0 <= j < |parts| - 1 ==> SPACE !in parts[j])
    && (|parts| < n ==> SPACE !in parts[|parts| - 1])
  }

  lemma JoinCons(p: string, rest: seq<string>)
    requires |rest| > 0
    ensures Join([p] + rest) == p + [SPACE] + Join(rest)
  {
    assert ([p] + rest)[1..] == rest;
  }

  lemma ArguedCons(p: string, rest: seq<string>, n: nat)
    requires SPACE !in p && Argued(rest, n)
    ensures Argued([p] + rest, n + 1)
  {
  }

  lemma CutAt(s: string, start: nat, i: nat)
    requires start <= i < |s| && s[i] == SPACE
    ensures s[start..] == s[start..i] + [SPACE] + s[i + 1..]
  {
  }

  lemma {:induction false} JoinSplitFrom(s: string, start: nat, i: nat, n: nat)
    requires start <= i <= |s| && n > 0 && SPACE !in s[start..i]
    ensures Join(SplitFrom(s, start, i, n)) == s[start..] && Argued(SplitFrom(s, start, i, n), n)
    decreases |s| - i
  {
    if i == |s| || n == 1 {
      if i == |s| { assert s[start..] == s[start..i]; }
    } else if s[i] == SPACE {
      var rest := SplitFrom(s, i + 1, i + 1, n - 1);
      JoinSplitFrom(s, i + 1, i + 1, n - 1);
      JoinCons(s[start..i], rest);
      ArguedCons(s[start..i], rest, n - 1);
      CutAt(s, start, i);
    } else {
      JoinSplitFrom(s, start, i + 1, n);
    }
  }

  /** Round trip, and the shape of the arguments. */
  lemma {:induction false} JoinSplit(s: string, n: nat)
    requires n > 0
    ensures Join(Split(s, n)) == s && Argued(Split(s, n), n)
  {
    JoinSplitFrom(s, 0, 0, n);
    assert s[0..] == s;
  }

  lemma {:induction false} UniqueFrom(parts: seq<string>, s: string, start: nat, i: nat, n: nat)
    requires start <= i <= |s| && Argued(parts, n) && Join(parts) == s[start..] && SPACE !in s[start..i]
    ensures parts == SplitFrom(s, start, i, n)
    decreases |s| - i
  {
    if |parts| > 1 { FirstSpace(parts, s, start, i); }
    if i < |s| && n > 1 {
      if s[i] == SPACE {
        assert s[start..][i - start] == SPACE;
        CutAt(s, start, i);
        var rest := parts[1..];
        assert rest[|rest| - 1] == parts[|parts| - 1];
        UniqueFrom(rest, s, i + 1, i + 1, n - 1);
        assert parts == [parts[0]] + rest;
      } else {
        UniqueFrom(parts, s, start, i + 1, n);
      }
    }
  }

  /** The first part ends at the first space. */
  lemma {:induction false} FirstSpace(parts: seq<string>, s: string, start: nat, i: nat)
    requires start <= i <= |s| && |parts| > 1 && Join(parts) == s[start..]
    requires SPACE !in parts[0] && SPACE !in s[start..i]
    ensures var k := |parts[0]|;
            start + k < |s| && s[start + k] == SPACE && s[start..start + k] == parts[0] && i <= start + k
            && s[start + k + 1..] == Join(parts[1..])
            && (i < |s| && s[i] == SPACE ==> i == start + k)
  {
    var p, t, rest := parts[0], s[start..], Join(parts[1..]);
    assert t == p + [SPACE] + rest;
    assert t[|p|] == SPACE && t[..|p|] == p && t[|p| + 1..] == rest;
    assert forall j :: 0 <= j < i - start ==> s[start..i][j] == t[j] != SPACE;
    assert forall j :: 0 <= j < |p| ==> p[j] == t[j] != SPACE;
  }

  /** There is no other way to cut the line like that. */
  lemma {:induction false} SplitIsUnique(parts: seq<string>, n: nat)
    requires Argued(parts, n)
    ensures parts == Split(Join(parts), n)
  {
    var s := Join(parts);
    assert s[0..] == s;
    UniqueFrom(parts, s, 0, 0, n);
  }

  lemma {:induction false} CountFrom(s: string, start: nat, i: nat, n: nat)
    requires start <= i <= |s| && n > 0
    ensures |SplitFrom(s, start, i, n)| == if Spaces(s, i) + 1 < n then Spaces(s, i) + 1 else n
    decreases |s| - i
  {
    if i < |s| && n > 1 {
      if s[i] == SPACE { CountFrom(s, i + 1, i + 1, n - 1); } else { CountFrom(s, start, i + 1, n); }
    }
  }

  /** One argument more than there are spaces, up to the limit. */
  lemma {:induction false} SplitCount(s: string, n: nat)
    requires n > 0
    ensures |Split(s, n)| == if Spaces(s, 0) + 1 < n then Spaces(s, 0) + 1 else n
  {
    CountFrom(s, 0, 0, n);
  }

  // ---- in place ------------------------------------------------------------------------

  /** The C string at position `p` of `b` is `t`. */
  predicate Reads(b: seq<char>, p: nat, t: string) {
    p + |t| < |b| && b[p + |t|] == NUL && forall k :: 0 <= k < |t| ==> b[p + k] == t[k] != NUL
  }

  /** strlen, of a buffer that holds a C string */
  method StrLen(b: array<char>) returns (n: nat)
    requires Terminated(b[..], 0)
    ensures n == |CString(b[..])|
  {
    n := 0;
    ghost var end: nat :| end < b.Length && b[..][end] == NUL;
    while b[n] != NUL
      invariant n <= end && forall k :: 0 <= k < n ==> b[k] != NUL
      decreases end - n
    {
      n := n + 1;
    }
  }

  /** The arguments finished so far: each is a C string of the buffer that ends before `start`. */
  predicate Finished(b: seq<char>, args: seq<nat>, done: seq<string>, start: nat)
    requires |done| <= |args|
  {
    forall j :: 0 <= j < |done| ==> args[j] + |done[j]| < start && Reads(b, args[j], done[j])
  }

  /** A space at `i` has become a NUL, and the word before it is finished. */
  lemma WordDone(b: seq<char>, args: seq<nat>, done: seq<string>, start: nat, i: nat, s: string)
    requires start <= i < |s| < |b| && NUL !in s && |done| + 1 < |args| && args[|done|] == start
    requires Finished(b, args, done, start) && forall k :: start <= k < i ==> b[k] == s[k]
    ensures Finished(b[i := NUL], args[|done| + 1 := i + 1], done + [s[start..i]], i + 1)
  {
    var c, more, words := b[i := NUL], args[|done| + 1 := i + 1], done + [s[start..i]];
    assert forall k :: start <= k < i ==> s[k] in s;
    forall j | 0 <= j < |words| ensures more[j] + |words[j]| < i + 1 && Reads(c, more[j], words[j]) {
      if j < |done| { assert Reads(b, args[j], done[j]); }
    }
  }

  /** What the loop has found out: the words finished and the text from `start` on. */
  predicate Progress(s: string, b: seq<char>, args: seq<nat>, done: seq<string>, start: nat) {
    && |s| < |b| && |done| < |args| && start <= |s| && args[|done|] == start
    && Finished(b, args, done, start)
    && b[|s|] == NUL && forall k :: start <= k < |s| ==> b[k] == s[k]
  }

  lemma {:induction false} WordTaken(s: string, b: seq<char>, args: seq<nat>, done: seq<string>, start: nat, i: nat,
                                     parts: seq<string>)
    requires NUL !in s && |args| == MAX_ARGS && |done| + 1 < MAX_ARGS && Progress(s, b, args, done, start)
    requires start <= i < |s| && s[i] == SPACE && parts == done + SplitFrom(s, start, i, MAX_ARGS - |done|)
    ensures Progress(s, b[i := NUL], args[|done| + 1 := i + 1], done + [s[start..i]], i + 1)
    ensures parts == done + [s[start..i]] + SplitFrom(s, i + 1, i + 1, MAX_ARGS - |done| - 1)
  {
    WordDone(b, args, done, start, i, s);
  }

  lemma Begins(b: seq<char>, args: seq<nat>)
    requires Terminated(b, 0) && |args| > 0 && args[0] == 0
    ensures Progress(CString(b), b, args, [], 0) && NUL !in CString(b)
  {
    CStringIs(b);
  }

  /** Every part is the C string that the argument of the same number points to. */
  predicate PointTo(b: seq<char>, args: seq<nat>, parts: seq<string>) {
    |parts| <= |args| && forall j :: 0 <= j < |parts| ==> Reads(b, args[j], parts[j])
  }

  /** At the end the last word is what is left. */
  lemma LastWord(s: string, b: seq<char>, args: seq<nat>, done: seq<string>, start: nat, i: nat, parts: seq<string>)
    requires NUL !in s && Progress(s, b, args, done, start) && |done| < MAX_ARGS && start <= i <= |s|
    requires parts == done + SplitFrom(s, start, i, MAX_ARGS - |done|)
    requires i == |s| || |done| + 1 == MAX_ARGS
    ensures PointTo(b, args, parts) && |parts| == |done| + 1
  {
    var t := s[start..];
    assert parts == done + [t];
    forall k | 0 <= k < |t| ensures b[start + k] == t[k] != NUL {
      assert t[k] == s[start + k] && s[start + k] in s;
    }
    assert Reads(b, start, t);
  }

  method CutWord(buffer: array<char>, args: array<nat>, argc: nat, i: nat) returns (more: nat)
    requires i < buffer.Length && argc < args.Length
    modifies buffer, args
    ensures more == argc + 1
    ensures buffer[..] == old(buffer[..])[i := NUL] && args[..] == old(args[..])[argc := i + 1]
  {
    buffer[i] := NUL;
    args[argc] := i + 1;
    return argc + 1;
  }

  /**
   The tokenizer of process_input. `args[j]` is the position of argument j; `argc` arguments are
   found, and they are the parts of the line.
   */
  method Tokenize(buffer: array<char>, args: array<nat>) returns (argc: nat)
    requires Terminated(buffer[..], 0) && args.Length == MAX_ARGS
    modifies buffer, args
    ensures var s := old(CString(buffer[..]));
            argc == |Split(s, MAX_ARGS)| && PointTo(buffer[..], args[..], Split(s, MAX_ARGS))
  {
    ghost var s := CString(buffer[..]);
    ghost var parts := Split(s, MAX_ARGS);
    args[0] := 0;
    argc := 1;
    var initialLen := StrLen(buffer);
    Begins(buffer[..], args[..]);
    ghost var done: seq<string>, start: nat := [], 0;
    var i := 0;
    while i < initialLen
      invariant 0 <= i <= initialLen == |s| && start <= i
      invariant argc == |done| + 1 < MAX_ARGS && Progress(s, buffer[..], args[..], done, start)
      invariant parts == done + SplitFrom(s, start, i, MAX_ARGS - |done|)
    {
      if buffer[i] == SPACE {
        WordTaken(s, buffer[..], args[..], done, start, i, parts);
        argc := CutWord(buffer, args, argc, i);
        done, start := done + [s[start..i]], i + 1;
      }
      if argc >= MAX_ARGS {
        LastWord(s, buffer[..], args[..], done, start, i + 1, parts);
        return;
      }
      i := i + 1;
    }
    LastWord(s, buffer[..], args[..], done, start, i, parts);
  }

  /** strlen, counting from `i` on */
  function Length(b: seq<char>, i: nat): (n: nat)
    requires Terminated(b, i)
    ensures i <= n < |b| && b[n] == NUL && forall k :: i <= k < n ==> b[k] != NUL
    decreases |b| - i
  {
    if b[i] == NUL then i else Length(b, i + 1)
  }

  /** There is a NUL at `i` or after. */
  predicate Terminated(b: seq<char>, i: nat) {
    exists k :: i <= k < |b| && b[k] == NUL
  }

  /** The C string at the start of a buffer. */
  function CString(b: seq<char>): string
    requires Terminated(b, 0)
  {
    b[..Length(b, 0)]
  }

  lemma CStringIs(b: seq<char>)
    requires Terminated(b, 0)
    ensures Reads(b, 0, CString(b)) && NUL !in CString(b)
  {
    var t := CString(b);
    forall k | 0 <= k < |t| ensures b[k] == t[k] != NUL {
      assert t[k] in t;
    }
  }

  // ---- looking a command up ------------------------------------------------------------

  /** `strncmp(command, name, strlen(name))` is zero. */
  predicate Matches(command: string, name: string) {
    name <= command
  }

  /** get_command_index: the first command whose name the text begins with. */
  method CommandIndex(command: string, names: seq<string>) returns (index: int)
    ensures -1 <= index < |names|
    ensures index >= 0 ==> Matches(command, names[index]) && forall k :: 0 <= k < index ==> !Matches(command, names[k])
    ensures index == -1 <==> forall k :: 0 <= k < |names| ==> !Matches(command, names[k])
  {
    var i := 0;
    while i < |names|
      invariant 0 <= i <= |names| && forall k :: 0 <= k < i ==> !Matches(command, names[k])
    {
      if Matches(command, names[i]) { return i; }
      i := i + 1;
    }
    return -1;
  }

  /** What CommandIndex returns. */
  predicate IsIndex(command: string, names: seq<string>, index: int) {
    && 0 <= index < |names| && Matches(command, names[index])
    && forall k :: 0 <= k < index ==> !Matches(command, names[k])
  }

  /** A command can be reached, by some text, iff no earlier name is a prefix of its own. */
  lemma ReachableIff(names: seq<string>, j: nat)
    requires j < |names|
    ensures (exists command: string :: IsIndex(command, names, j))
       <==> forall i :: 0 <= i < j ==> !(names[i] <= names[j])
  {
    if forall i :: 0 <= i < j ==> !(names[i] <= names[j]) {
      assert IsIndex(names[j], names, j);
    } else {
      var i :| 0 <= i < j && names[i] <= names[j];
      forall command: string ensures !IsIndex(command, names, j) {
        if Matches(command, names[j]) {
          assert Matches(command, names[i]);
        }
      }
    }
  }
}
