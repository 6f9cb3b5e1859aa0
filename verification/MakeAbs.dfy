/** Paths: what a client typed, made absolute and tidy in a buffer of 128 characters. */
module MakeAbs {
  // ----- Components over a stack -----

  /** The end of the component that starts at i. */
  function CompEnd(s: string, i: nat): (e: nat)
    requires i <= |s|
    ensures i <= e <= |s| && (e < |s| ==> s[e] == '/') && forall k :: i <= k < e ==> s[k] != '/'
    decreases |s| - i
  {
    if i < |s| && s[i] != '/' then CompEnd(s, i + 1) else i
  }

  /** A component as a name can be: at most 64 characters of it. */
  function Cut(c: string): string
  {
    if |c| > 64 then c[..64] else c
  }

  /** One component: "." keeps, ".." goes up and stops at the root, a name goes down. */
  function Push(stack: seq<string>, c: string): seq<string>
  {
    if c == "." then stack
    else if c == ".." then (if stack == [] then [] else stack[..|stack| - 1])
    else stack + [c]
  }

  /** The components of s from i on, folded over a stack. */
  function Fold(stack: seq<string>, s: string, i: nat): seq<string>
    requires i <= |s|
    decreases |s| - i
  {
    if i == |s| then stack
    else if s[i] == '/' then Fold(stack, s, i + 1)
    else Fold(Push(stack, Cut(s[i..CompEnd(s, i)])), s, CompEnd(s, i))
  }

  /** A directory with its trailing slash. */
  function Dir(stack: seq<string>): (d: string)
    ensures |d| >= 1 && d[0] == '/' && d[|d| - 1] == '/'
  {
    if stack == [] then "/" else Dir(stack[..|stack| - 1]) + stack[|stack| - 1] + "/"
  }

  /** The path of a stack: no slash at the end but at the root. */
  function Render(stack: seq<string>): string
  {
    if stack == [] then "/" else Dir(stack)[..|Dir(stack)| - 1]
  }

  /** Names: not empty, no slash in them, not "." or "..", short enough. */
  predicate Proper(stack: seq<string>)
  {
    forall i :: 0 <= i < |stack| ==> Name(stack[i])
  }

  predicate Name(c: string)
  {
    1 <= |c| <= 64 && c != "." && c != ".." && forall k :: 0 <= k < |c| ==> c[k] != '/' && c[k] != '\0'
  }

  predicate ZeroFree(s: string)
  {
    forall k :: 0 <= k < |s| ==> s[k] != '\0'
  }

  /** Where a path starts: at the root, or at the client's directory. */
  function Start(cwd: seq<string>, input: string): seq<string>
  {
    if input != "" && input[0] == '/' then [] else cwd
  }

  /** An absolute path has no use for the client's directory; any other starts at it, and then
      it is a path that was made, or none. */
  predicate StartsAt(cwd: string, input: string, dir: seq<string>)
  {
    && Proper(Start(dir, input)) && |Dir(Start(dir, input))| <= 127
    && ((input != "" && input[0] == '/') || cwd == Render(dir) || (cwd == "" && dir == []))
  }

  /** What a path means. */
  function Resolve(cwd: seq<string>, input: string): seq<string>
  {
    Fold(Start(cwd, input), input, 0)
  }

  /** Nothing is cut by the buffer: every name that is reached fits in it. */
  predicate Room(stack: seq<string>, s: string, i: nat)
    requires i <= |s|
    decreases |s| - i
  {
    if i == |s| then true
    else if s[i] == '/' then Room(stack, s, i + 1)
    else
      var c := Cut(s[i..CompEnd(s, i)]);
      |Dir(stack)| < 126 && (c == "." || c == ".." || |Dir(stack)| + |c| <= 126) && Room(Push(stack, c), s, CompEnd(s, i))
  }

  // ----- What is always so -----

  lemma {:induction false} PushProper(stack: seq<string>, s: string, i: nat)
    requires Proper(stack) && ZeroFree(s) && i < |s| && s[i] != '/'
    ensures Proper(Push(stack, Cut(s[i..CompEnd(s, i)]))) && CompEnd(s, i) > i
  {
    CutOk(s, i, CompEnd(s, i));
  }

  lemma CutOk(s: string, i: nat, e: nat)
    requires i < e <= |s| && ZeroFree(s) && forall k :: i <= k < e ==> s[k] != '/'
    ensures var c := Cut(s[i..e]); 1 <= |c| <= 64 && forall k :: 0 <= k < |c| ==> c[k] != '/' && c[k] != '\0'
  {
  }

  /** The result of any path is made of names only. */
  lemma {:induction false} FoldProper(stack: seq<string>, s: string, i: nat)
    requires Proper(stack) && ZeroFree(s) && i <= |s|
    ensures Proper(Fold(stack, s, i))
    decreases |s| - i
  {
    if i < |s| {
      if s[i] == '/' {
        FoldProper(stack, s, i + 1);
      } else {
        PushProper(stack, s, i);
        FoldProper(Push(stack, Cut(s[i..CompEnd(s, i)])), s, CompEnd(s, i));
      }
    }
  }

  lemma {:induction false} CompEndIs(s: string, i: nat, e: nat)
    requires i <= e <= |s| && (e < |s| ==> s[e] == '/') && forall k :: i <= k < e ==> s[k] != '/'
    ensures CompEnd(s, i) == e
    decreases e - i
  {
    if i < e {
      CompEndIs(s, i + 1, e);
    }
  }

  lemma {:induction false} FoldLast(stack: seq<string>, s: string, c: string, t: string, i: nat)
    requires i <= |s| && c != "" && (forall k :: 0 <= k < |c| ==> c[k] != '/') && t == s + "/" + c
    ensures Fold(stack, t, i) == Push(Fold(stack, s, i), Cut(c))
    decreases |s| - i
  {
    if i == |s| {
      CompEndIs(t, i + 1, |t|);
      assert t[i + 1..|t|] == c;
      assert Fold(Push(stack, Cut(c)), t, |t|) == Push(stack, Cut(c));
    } else if s[i] == '/' {
      FoldLast(stack, s, c, t, i + 1);
    } else {
      var e := CompEnd(s, i);
      CompEndIs(t, i, e);
      assert t[i..e] == s[i..e];
      FoldLast(Push(stack, Cut(s[i..e])), s, c, t, e);
    }
  }

  /** What one more component does to any path: "." leaves the directory, ".." goes up to the one
      it is in, and a name goes down to it. */
  lemma {:induction false} Appended(cwd: seq<string>, s: string, c: string)
    requires s != "" && Name(c)
    ensures Resolve(cwd, s + "/" + ".") == Resolve(cwd, s)
    ensures var dir := Resolve(cwd, s); Resolve(cwd, s + "/" + "..") == if dir == [] then [] else dir[..|dir| - 1]
    ensures Resolve(cwd, s + "/" + c) == Resolve(cwd, s) + [c]
    ensures Resolve(cwd, s + "/" + c + "/" + "..") == Resolve(cwd, s)
  {
    FoldLast(Start(cwd, s), s, ".", s + "/" + ".", 0);
    FoldLast(Start(cwd, s), s, "..", s + "/" + "..", 0);
    FoldLast(Start(cwd, s), s, c, s + "/" + c, 0);
    FoldLast(Start(cwd, s), s + "/" + c, "..", s + "/" + c + "/" + "..", 0);
  }

  /** And to the client's directory, or to the root, where it is all there is. */
  lemma {:induction false} Alone(stack: seq<string>, c: string)
    requires c != "" && forall k :: 0 <= k < |c| ==> c[k] != '/'
    ensures Fold(stack, c, 0) == Push(stack, Cut(c))
  {
    CompEndIs(c, 0, |c|);
    assert c[0..|c|] == c;
  }

  lemma {:induction false} Single(cwd: seq<string>, c: string)
    requires Name(c)
    ensures Resolve(cwd, ".") == cwd && Resolve(cwd, "..") == (if cwd == [] then [] else cwd[..|cwd| - 1])
    ensures Resolve(cwd, c) == cwd + [c]
  {
    Alone(cwd, ".");
    Alone(cwd, "..");
    Alone(cwd, c);
  }

  /** One name read where it stands. */
  lemma FoldName(stack: seq<string>, s: string, i: nat, c: string)
    requires Name(c) && i + |c| <= |s| && s[i..i + |c|] == c && (i + |c| < |s| ==> s[i + |c|] == '/')
    ensures Fold(stack, s, i) == Fold(stack + [c], s, i + |c|)
  {
    assert forall k :: i <= k < i + |c| ==> s[k] == c[k - i];
    CompEndIs(s, i, i + |c|);
  }

  /** A directory read back from its text is the directory. */
  lemma {:induction false} FoldDir(stack: seq<string>, s: string)
    requires Proper(stack) && |Dir(stack)| <= |s| && s[..|Dir(stack)|] == Dir(stack)
    ensures Fold([], s, 0) == Fold(stack, s, |Dir(stack)|)
    decreases |stack|
  {
    if stack == [] {
      assert s[0] == Dir(stack)[0];
    } else {
      var front, c := SplitLast(stack);
      var d := Dir(front);
      StartsWith(s, d, c);
      FoldDir(front, s);
      FoldName(front, s, |d|, c);
      FoldSlash(stack, s, |d| + |c|);
    }
  }

  lemma FoldSlash(stack: seq<string>, s: string, i: nat)
    requires i < |s| && s[i] == '/'
    ensures Fold(stack, s, i) == Fold(stack, s, i + 1)
  {
  }

  lemma SplitLast(stack: seq<string>) returns (front: seq<string>, c: string)
    requires stack != []
    ensures front == stack[..|stack| - 1] && c == stack[|stack| - 1] && front + [c] == stack
  {
    front, c := stack[..|stack| - 1], stack[|stack| - 1];
  }

  lemma StartsWith(s: string, d: string, c: string)
    requires |d| + |c| + 1 <= |s| && s[..|d| + |c| + 1] == d + c + "/"
    ensures s[..|d|] == d && s[|d|..|d| + |c|] == c && s[|d| + |c|] == '/'
  {
    var t := d + c + "/";
    assert t[..|d|] == d && t[|d|..|d| + |c|] == c && t[|d| + |c|] == '/';
    assert s[..|d|] == s[..|t|][..|d|] && s[|d|..|d| + |c|] == s[..|t|][|d|..|d| + |c|] && s[|d| + |c|] == s[..|t|][|d| + |c|];
  }

  /** A path that was made is made again unchanged, whatever the client's directory. */
  lemma ResolveAgain(cwd: seq<string>, stack: seq<string>)
    requires Proper(stack)
    ensures Resolve(cwd, Render(stack)) == stack
  {
    Tidy(stack);
    FoldRender(stack);
  }

  lemma FoldRender(stack: seq<string>)
    requires Proper(stack)
    ensures Fold([], Render(stack), 0) == stack
  {
    if stack == [] {
      FoldRoot();
    } else {
      FoldPath(stack[..|stack| - 1], stack[|stack| - 1], Dir(stack[..|stack| - 1]));
      assert stack[..|stack| - 1] + [stack[|stack| - 1]] == stack;
    }
  }

  lemma FoldRoot()
    ensures Fold([], "/", 0) == []
  {
    var i: nat := 1;
    assert Fold([], "/", i) == [];
  }

  lemma {:induction false} FoldPath(front: seq<string>, c: string, d: string)
    requires Proper(front) && Name(c) && d == Dir(front)
    ensures Fold([], d + c, 0) == front + [c]
  {
    var s := d + c;
    assert s[..|d|] == d && s[|d|..|d| + |c|] == c;
    FoldDir(front, s);
    FoldName(front, s, |d|, c);
  }

  /** The shape of every result: absolute, no component empty or "." or "..", and no slash at
      the end but the root's. */
  lemma Tidy(stack: seq<string>)
    requires Proper(stack)
    ensures Render(stack)[0] == '/'
    ensures Render(stack)[|Render(stack)| - 1] == '/' ==> stack == []
  {
    if stack != [] {
      var front, c := stack[..|stack| - 1], stack[|stack| - 1];
      assert Render(stack) == Dir(front) + c;
    }
  }

  /** The text of a directory below another one. */
  lemma DirUp(stack: seq<string>, b: string) returns (d: nat, up: string)
    requires Proper(stack) && stack != [] && b == Dir(stack)
    ensures up == Dir(Push(stack, "..")) && d == |up| && 1 <= d < |b| - 1
    ensures b[..d] == up && b[d - 1] == '/' && forall k :: d <= k < |b| - 1 ==> b[k] != '/'
  {
    var front, c := SplitLast(stack);
    PushUp(stack);
    up := Dir(front);
    d := |up|;
    assert b == up + c + "/";
    assert b[d - 1] == up[d - 1];
    assert forall k :: d <= k < |b| - 1 ==> b[k] == c[k - d];
  }

  lemma PushUp(stack: seq<string>)
    requires stack != []
    ensures Push(stack, "..") == stack[..|stack| - 1]
  {
  }

  // ----- The buffer -----

  /** Where the loop for ".." stops: at the last slash before the one at the end, or at 1. */
  function Before(b: string, n: nat): (d: nat)
    requires 1 <= n <= |b|
    ensures 1 <= d <= n
  {
    if n > 1 && b[n - 1] != '/' then Before(b, n - 1) else n
  }

  lemma {:induction false} BeforeIs(b: string, n: nat, d: nat)
    requires 1 <= d <= n <= |b| && (d == 1 || b[d - 1] == '/') && forall k :: d <= k < n ==> b[k] != '/'
    ensures Before(b, n) == d
    decreases n
  {
    if d < n {
      BeforeIs(b, n - 1, d);
    }
  }

  /** The part for "..": back to the slash before the last name, or to the root. */
  method Up(buf: array<char>, from: nat, ghost stack: seq<string>) returns (n: nat)
    requires buf.Length == 128 && 1 <= from <= 127
    ensures 1 <= n <= from
    ensures Proper(stack) && buf[..from] == Dir(stack) ==> buf[..n] == Dir(Push(stack, ".."))
  {
    n := from;
    if n > 1 {
      ghost var b := buf[..from];
      n := n - 1;
      while n > 1 && buf[n - 1] != '/'
        invariant 1 <= n < from && Before(b, n) == Before(b, from - 1)
      {
        assert b[n - 1] == buf[n - 1];
        n := n - 1;
      }
      assert n > 1 ==> b[n - 1] == buf[n - 1];
      assert buf[..n] == b[..n];
      if Proper(stack) && b == Dir(stack) {
        UpIs(stack, b);
      }
    }
  }

  lemma {:induction false} UpIs(stack: seq<string>, b: string)
    requires Proper(stack) && |b| > 1 && b == Dir(stack)
    ensures b[..Before(b, |b| - 1)] == Dir(Push(stack, ".."))
  {
    assert stack != [];
    var d, up := DirUp(stack, b);
    BeforeIs(b, |b| - 1, d);
  }

  /** A full buffer, with room for all, has nothing left to take but slashes. */
  lemma {:induction false} FullRest(stack: seq<string>, s: string, i: nat)
    requires i <= |s| && Room(stack, s, i) && |Dir(stack)| >= 126
    ensures Fold(stack, s, i) == stack
    decreases |s| - i
  {
    if i < |s| && s[i] == '/' {
      FullRest(stack, s, i + 1);
    }
  }

  /** The loops that take one component out of the input. */
  method ReadComp(input: string, from: nat) returns (comp: string, i: nat)
    requires from < |input| && input[from] != '/'
    ensures i == CompEnd(input, from) && comp == Cut(input[from..i])
  {
    comp, i := "", from;
    while i < |input| && input[i] != '/' && |comp| < 64
      invariant from <= i <= |input| && comp == input[from..i] && |comp| <= 64 && CompEnd(input, i) == CompEnd(input, from)
    {
      comp := comp + [input[i]];
      i := i + 1;
    }
    ghost var cut := i;
    while i < |input| && input[i] != '/'
      invariant cut <= i <= |input| && (i > cut ==> |comp| == 64) && comp == input[from..cut] && CompEnd(input, i) == CompEnd(input, from)
    {
      i := i + 1;
    }
    if i > cut {
      assert input[from..i][..64] == input[from..cut];
    }
  }

  /** A name and its slash put in the buffer, as much of it as there is room for. */
  method Append(buf: array<char>, from: nat, comp: string, ghost stack: seq<string>) returns (n: nat)
    requires buf.Length == 128 && 1 <= from < 126
    modifies buf
    ensures 1 <= n <= 127 && buf[0] == old(buf[0])
    ensures old(buf[..from]) == Dir(stack) && from + |comp| <= 126 ==> buf[..n] == Dir(stack + [comp])
  {
    n := from;
    ghost var was := buf[..from];
    var k := 0;
    while k < |comp| && n < 126
      invariant k <= |comp| && n == from + k <= 126 && buf[..n] == was + comp[..k]
    {
      buf[n] := comp[k];
      n := n + 1;
      k := k + 1;
    }
    assert buf[0] == buf[..n][0] == was[0];
    buf[n] := '/';
    n := n + 1;
    assert buf[..n] == was + comp[..k] + "/";
    assert (stack + [comp])[..|stack|] == stack;
  }

  /** A directory with a slash at its end. */
  function Slashed(cwd: string): string
  {
    if cwd != "" && cwd[|cwd| - 1] == '/' then cwd else cwd + "/"
  }

  /** The client's directory put in the buffer, as much of it as there is room for. */
  method CopyDir(cwd: string, buf: array<char>) returns (n: nat)
    requires buf.Length == 128
    modifies buf
    ensures 1 <= n <= 127 && (cwd == "" || cwd[0] == '/' ==> buf[0] == '/')
    ensures |cwd| <= 126 ==> buf[..n] == Slashed(cwd)
  {
    n := 0;
    while n < |cwd| && n < 126
      invariant n <= |cwd| && n <= 126 && buf[..n] == cwd[..n]
    {
      buf[n] := cwd[n];
      n := n + 1;
    }
    assert n > 0 ==> buf[n - 1] == buf[..n][n - 1] && buf[0] == buf[..n][0];
    if n == 0 || buf[n - 1] != '/' {
      ghost var was := buf[..n];
      buf[n] := '/';
      n := n + 1;
      assert buf[..n] == was + "/";
    }
  }

  /** The start of the buffer: the client's directory, or the root. */
  method Begin(cwd: string, input: string, buf: array<char>, ghost dir: seq<string>) returns (n: nat)
    requires buf.Length == 128
    modifies buf
    ensures 1 <= n <= 127 && (cwd == "" || cwd[0] == '/' ==> buf[0] == '/')
    ensures StartsAt(cwd, input, dir) ==> buf[..n] == Dir(Start(dir, input))
  {
    BeginIs(cwd, input, dir);
    if input == "" || input[0] != '/' {
      n := CopyDir(cwd, buf);
    } else {
      buf[0] := '/';
      n := 1;
      assert buf[..n] == "/";
    }
  }

  lemma BeginIs(cwd: string, input: string, dir: seq<string>)
    ensures StartsAt(cwd, input, dir) ==>
      (if input != "" && input[0] == '/' then Dir(Start(dir, input)) == "/" else |cwd| <= 126 && Dir(Start(dir, input)) == Slashed(cwd))
  {
    if StartsAt(cwd, input, dir) && cwd == Render(dir) && !(input != "" && input[0] == '/') {
      Tidy(dir);
    }
  }

  /** The loop over the input. */
  method Walk(input: string, buf: array<char>, from: nat, ghost stack: seq<string>) returns (n: nat)
    requires buf.Length == 128 && 1 <= from <= 127 && ZeroFree(input)
    modifies buf
    ensures 1 <= n <= 127 && buf[0] == old(buf[0])
    ensures Proper(stack) && old(buf[..from]) == Dir(stack) && Room(stack, input, 0) ==> buf[..n] == Dir(Fold(stack, input, 0))
  {
    n := from;
    var i := 0;
    ghost var tidy, now := Proper(stack) && buf[..from] == Dir(stack) && Room(stack, input, 0), stack;
    while i < |input| && n < 126
      invariant i <= |input| && 1 <= n <= 127 && buf[0] == old(buf[0])
      invariant tidy ==> Proper(now) && buf[..n] == Dir(now) && Room(now, input, i) && Fold(now, input, i) == Fold(stack, input, 0)
      decreases |input| - i
    {
      if input[i] == '/' {
        i := i + 1;
        continue;
      }
      ghost var at := i;
      var comp;
      comp, i := ReadComp(input, i);
      if tidy {
        PushProper(now, input, at);
      }
      if comp == "." {
        continue;
      }
      if comp == ".." {
        n := Up(buf, n, now);
      } else {
        n := Append(buf, n, comp, now);
      }
      now := Push(now, comp);
    }
    if tidy && i < |input| {
      FullRest(now, input, i);
    }
  }

  /** The path starts at a directory that fits, and nothing is cut by the buffer. */
  predicate Fits(cwd: string, input: string, dir: seq<string>)
  {
    StartsAt(cwd, input, dir) && Room(Start(dir, input), input, 0)
  }

  /** With room for all, the result fits too. */
  lemma {:induction false} FoldFits(stack: seq<string>, s: string, i: nat)
    requires i <= |s| && |Dir(stack)| <= 127 && Room(stack, s, i)
    ensures |Dir(Fold(stack, s, i))| <= 127
    decreases |s| - i
  {
    if i < |s| {
      if s[i] == '/' {
        FoldFits(stack, s, i + 1);
      } else {
        var c := Cut(s[i..CompEnd(s, i)]);
        PushFits(stack, c);
        FoldFits(Push(stack, c), s, CompEnd(s, i));
      }
    }
  }

  lemma {:induction false} PushFits(stack: seq<string>, c: string)
    requires |Dir(stack)| <= 127 && (c == "." || c == ".." || |Dir(stack)| + |c| <= 126)
    ensures |Dir(Push(stack, c))| <= 127
  {
    if c != "." && c != ".." {
      assert (stack + [c])[..|stack|] == stack;
    }
  }

  /** One name read where it stands needs room for itself only. */
  lemma RoomName(stack: seq<string>, s: string, i: nat, c: string)
    requires Name(c) && i + |c| <= |s| && s[i..i + |c|] == c && (i + |c| < |s| ==> s[i + |c|] == '/')
    requires |Dir(stack)| + |c| <= 126
    ensures Room(stack, s, i) == Room(stack + [c], s, i + |c|)
  {
    assert forall k :: i <= k < i + |c| ==> s[k] == c[k - i];
    CompEndIs(s, i, i + |c|);
  }

  lemma {:induction false} RoomDir(stack: seq<string>, s: string)
    requires Proper(stack) && |Dir(stack)| <= 127 && |Dir(stack)| <= |s| && s[..|Dir(stack)|] == Dir(stack)
    ensures Room([], s, 0) == Room(stack, s, |Dir(stack)|)
    decreases |stack|
  {
    if stack == [] {
      assert s[0] == Dir(stack)[0];
    } else {
      var front, c := SplitLast(stack);
      var d := Dir(front);
      StartsWith(s, d, c);
      RoomDir(front, s);
      RoomName(front, s, |d|, c);
      RoomSlash(stack, s, |d| + |c|);
    }
  }

  lemma RoomSlash(stack: seq<string>, s: string, i: nat)
    requires i < |s| && s[i] == '/'
    ensures Room(stack, s, i) == Room(stack, s, i + 1)
  {
  }

  lemma Halves(d: string, c: string, s: string)
    requires s == d + c
    ensures s[..|d|] == d && s[|d|..|d| + |c|] == c
  {
  }

  lemma {:induction false} RoomPath(front: seq<string>, c: string, d: string)
    requires Proper(front) && Name(c) && d == Dir(front) && |d| + |c| <= 126
    ensures Room([], d + c, 0)
  {
    var s := d + c;
    Halves(d, c, s);
    RoomDir(front, s);
    RoomName(front, s, |d|, c);
  }

  lemma RoomRoot()
    ensures Room([], "/", 0)
  {
    var i: nat := 1;
    assert Room([], "/", i);
  }

  /** A path that was made fits the buffer again, wherever the client is. */
  lemma {:induction false} RenderFits(stack: seq<string>, cwd: string, dir: seq<string>)
    requires Proper(stack) && |Dir(stack)| <= 127
    ensures Fits(cwd, Render(stack), dir)
  {
    Tidy(stack);
    if stack == [] {
      RoomRoot();
    } else {
      var front, c := SplitLast(stack);
      assert Render(stack) == Dir(front) + c;
      RoomPath(front, c, Dir(front));
    }
  }

  lemma {:induction false} Trimmed(stack: seq<string>)
    requires Proper(stack)
    ensures Render(stack) == if |Dir(stack)| > 1 then Dir(stack)[..|Dir(stack)| - 1] else Dir(stack)
  {
  }

  lemma {:induction false} DirZeroFree(stack: seq<string>)
    requires Proper(stack)
    ensures ZeroFree(Dir(stack))
  {
    if stack != [] {
      DirZeroFree(stack[..|stack| - 1]);
    }
  }

  /** The buffer's text copied out, as much of it as there is room for. */
  method CopyOut(buf: array<char>, n: nat, out: array<char>) returns (k: nat)
    requires buf.Length == 128 && n <= 127 && buf[n] == '\0' && buf != out && out.Length >= 1
    modifies out
    ensures k <= n && k < out.Length && out[k] == '\0' && out[..k] == buf[..k] && ZeroFree(out[..k])
    ensures (forall j :: 0 <= j < n ==> buf[j] != '\0') && n < out.Length ==> k == n
    ensures k > 0 ==> out[0] == buf[0]
    ensures n > 0 && buf[0] != '\0' && out.Length >= 2 ==> k > 0
  {
    k := 0;
    while buf[k] != '\0' && k < out.Length - 1
      invariant k <= n && k < out.Length && out[..k] == buf[..k] && ZeroFree(out[..k])
      decreases n - k
    {
      out[k] := buf[k];
      k := k + 1;
    }
    assert k > 0 ==> out[..k][0] == buf[..k][0];
    out[k] := '\0';
  }

  /** The end of make_abs: the trailing slash goes, and the text is copied out. */
  method Finish(buf: array<char>, from: nat, out: array<char>, ghost d: string, ghost fits: bool) returns (len: nat)
    requires buf.Length == 128 && 1 <= from <= 127 && buf != out && out.Length >= 1
    requires fits ==> buf[..from] == d && ZeroFree(d) && d[|d| - 1] == '/'
    modifies buf, out
    ensures len < out.Length && out[len] == '\0' && ZeroFree(out[..len])
    ensures old(buf[0]) == '/' && out.Length >= 2 ==> len >= 1 && out[0] == '/'
    ensures fits && out.Length >= 128 ==> out[..len] == if |d| > 1 then d[..|d| - 1] else d
  {
    ghost var was := buf[..from];
    assert buf[0] == was[0] && buf[from - 1] == was[from - 1];
    var n := from;
    if n > 1 && buf[n - 1] == '/' {
      n := n - 1;
    }
    buf[n] := '\0';
    assert buf[..n] == was[..n] && buf[0] == was[0];
    assert fits ==> forall j :: 0 <= j < n ==> was[..n][j] != '\0';
    assert fits ==> forall j :: 0 <= j < n ==> buf[j] != '\0';
    len := CopyOut(buf, n, out);
  }

  /** make_abs. Every index is inside its buffer, whatever the input; when nothing is cut the
      result is the input's components folded over the client's directory. */
  method MakeAbs(cwd: string, input: string, out: array<char>, ghost dir: seq<string>) returns (len: nat)
    requires ZeroFree(cwd) && ZeroFree(input) && out.Length >= 1
    modifies out
    ensures len < out.Length && out[len] == '\0' && ZeroFree(out[..len])
    ensures (cwd == "" || cwd[0] == '/') && out.Length >= 2 ==> len >= 1 && out[0] == '/'
    ensures Fits(cwd, input, dir) && out.Length >= 128 ==> out[..len] == Render(Resolve(dir, input))
  {
    var buf := new char[128](i => 'x');
    var n := Begin(cwd, input, buf, dir);
    n := Walk(input, buf, n, Start(dir, input));
    ghost var fits, d := Fits(cwd, input, dir), Dir(Resolve(dir, input));
    if fits {
      FoldProper(Start(dir, input), input, 0);
      DirZeroFree(Resolve(dir, input));
      Trimmed(Resolve(dir, input));
    }
    len := Finish(buf, n, out, d, fits);
  }

  /** Making a path that was made: the same path, for whatever client and directory, when
      nothing was cut the first time. */
  method MakeTwice(cwd: string, input: string, out: array<char>, other: string, again: array<char>, ghost dir: seq<string>)
    returns (len: nat, size: nat)
    requires ZeroFree(cwd) && ZeroFree(input) && ZeroFree(other) && out.Length >= 128 && again.Length >= 128 && out != again
    modifies out, again
    ensures len < out.Length && size < again.Length
    ensures Fits(cwd, input, dir) ==> again[..size] == out[..len] == Render(Resolve(dir, input))
  {
    len := MakeAbs(cwd, input, out, dir);
    var made := out[..len];
    if Fits(cwd, input, dir) {
      var stack := Resolve(dir, input);
      FoldProper(Start(dir, input), input, 0);
      FoldFits(Start(dir, input), input, 0);
      RenderFits(stack, other, []);
      ResolveAgain([], stack);
    }
    size := MakeAbs(other, made, again, []);
  }
}
