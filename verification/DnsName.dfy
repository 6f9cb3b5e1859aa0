/** Names in DNS messages: labels and the pointers that abbreviate them (sections 3.1 and
    4.1.4 of RFC 1035), read into a buffer, and a question written. */
module DnsName {
  import opened Bits

  type Label = seq<byte>

  function Lower(c: byte): byte
  {
    if 65 <= c <= 90 then c + 32 else c
  }

  function LowerAll(s: seq<byte>): (t: seq<byte>)
    ensures |t| == |s|
  {
    seq<byte>(|s|, i requires 0 <= i < |s| => Lower(s[i]))
  }

  /** Labels as text, with dots between them. */
  function Join(labels: seq<Label>): seq<byte>
  {
    if labels == [] then [] else if |labels| == 1 then labels[0] else labels[0] + [46] + Join(labels[1..])
  }

  function Cut(s: seq<byte>, n: nat): seq<byte>
  {
    if |s| <= n then s else s[..n]
  }

  /** The offset a pointer names: fourteen bits. */
  function Pointer(msg: seq<byte>, at: nat): nat
    requires at + 1 < |msg|
  {
    var high: nat, low: nat := msg[at], msg[at + 1];
    high % 0x40 * 0x100 + low
  }

  /** Does the message hold these labels at `at`, through at most `hops` pointers? */
  predicate Spells(msg: seq<byte>, at: nat, labels: seq<Label>, hops: nat)
    decreases hops, |labels|
  {
    at < |msg|
    && if msg[at] >= 0xc0 then at + 1 < |msg| && hops > 0 && Spells(msg, Pointer(msg, at), labels, hops - 1)
       else if msg[at] == 0 then labels == []
       else labels != [] && |labels[0]| == msg[at] && at + 1 + |labels[0]| <= |msg| && msg[at + 1..at + 1 + |labels[0]|] == labels[0]
            && Spells(msg, at + 1 + |labels[0]|, labels[1..], hops)
  }

  /** Where the reading goes on after a name: past its zero, or past its first pointer. */
  function Next(msg: seq<byte>, at: nat): nat
    decreases |msg| - at
  {
    if at >= |msg| then at
    else if msg[at] >= 0xc0 then at + 2
    else if msg[at] == 0 then at + 1
    else Next(msg, at + 1 + msg[at])
  }

  // ----- Reading -----

  /** A label put after what is there, as much as fits. */
  method PutLabel(out: seq<byte>, cap: nat, msg: seq<byte>, at: nat, l: nat) returns (r: seq<byte>)
    requires |out| < cap && at + l <= |msg|
    ensures r == Cut(out + (if out != [] then [46] else []) + LowerAll(msg[at..at + l]), cap - 1)
  {
    r := out;
    if r != [] && |r| + 1 < cap {
      r := r + [46];
    }
    ghost var front := out + if out != [] then [46] else [];
    ghost var text := LowerAll(msg[at..at + l]);
    var i := 0;
    while i < l && |r| + 1 < cap
      invariant i <= l && SoFar(r, front, text, i, cap)
    {
      LetterMore(r, front, text, i, cap, Lower(msg[at + i]));
      r := r + [Lower(msg[at + i])];
      i := i + 1;
    }
    LettersEnd(r, front, text, i, cap);
  }

  /** What is there after i letters: all of them, or as many as fit. */
  ghost predicate SoFar(r: seq<byte>, front: seq<byte>, text: seq<byte>, i: nat, cap: nat)
    requires i <= |text|
  {
    |r| < cap && r == Cut(front + text[..i], cap - 1) && (|r| + 1 < cap ==> r == front + text[..i])
  }

  lemma LetterMore(r: seq<byte>, front: seq<byte>, text: seq<byte>, i: nat, cap: nat, c: byte)
    requires i < |text| && SoFar(r, front, text, i, cap) && |r| + 1 < cap && c == text[i]
    ensures SoFar(r + [c], front, text, i + 1, cap)
  {
    assert front + text[..i + 1] == (front + text[..i]) + [text[i]];
  }

  lemma LettersEnd(r: seq<byte>, front: seq<byte>, text: seq<byte>, i: nat, cap: nat)
    requires i <= |text| && SoFar(r, front, text, i, cap) && (i == |text| || |r| + 1 >= cap)
    ensures r == Cut(front + text, cap - 1)
  {
    if i == |text| {
      assert text[..i] == text;
    } else {
      CutMore(front + text[..i], front + text, cap - 1);
    }
  }

  lemma CutMore(a: seq<byte>, b: seq<byte>, n: nat)
    requires |a| <= |b| && b[..|a|] == a && |a| >= n
    ensures Cut(a, n) == Cut(b, n)
  {
  }

  /** What the labels read so far, and those still to come, make together. */
  function Text(done: seq<byte>, labels: seq<Label>): seq<byte>
    decreases |labels|
  {
    if labels == [] then done else Text(done + (if done != [] then [46] else []) + LowerAll(labels[0]), labels[1..])
  }

  lemma {:induction false} CutText(done: seq<byte>, cut: seq<byte>, labels: seq<Label>, n: nat)
    requires cut == Cut(done, n) && (done != [] ==> cut != [] || n == 0)
    ensures Cut(Text(cut, labels), n) == Cut(Text(done, labels), n)
    decreases |labels|
  {
    if labels != [] && |done| > n {
      CutPrefix(cut, labels, n);
      CutPrefix(done, labels, n);
    }
  }

  /** Text only grows at its end. */
  lemma {:induction false} CutPrefix(done: seq<byte>, labels: seq<Label>, n: nat)
    requires |done| >= n
    ensures Cut(Text(done, labels), n) == Cut(done, n)
    decreases |labels|
  {
    if labels != [] {
      var more := done + (if done != [] then [46] else []) + LowerAll(labels[0]);
      CutPrefix(more, labels[1..], n);
    }
  }

  /** The state of the reading: what is left is spelled at `at`, what is out is the start of
      the whole, and the place to go on is known or still ahead. */
  predicate Going(msg: seq<byte>, at: nat, rest: seq<Label>, left: int, out: seq<byte>, n: nat, cursor: nat, want: seq<byte>, next: nat)
  {
    left >= 0 && Spells(msg, at, rest, left) && Cut(Text(out, rest), n) == want && next == if cursor == 0 then Next(msg, at) else cursor
  }

  lemma GoPointer(msg: seq<byte>, at: nat, rest: seq<Label>, left: int, out: seq<byte>, n: nat, cursor: nat, want: seq<byte>, next: nat)
    requires Going(msg, at, rest, left, out, n, cursor, want, next) && msg[at] >= 0xc0
    ensures at + 1 < |msg| && Going(msg, Pointer(msg, at), rest, left - 1, out, n, if cursor == 0 then at + 2 else cursor, want, next)
  {
  }

  lemma GoLabel(msg: seq<byte>, at: nat, rest: seq<Label>, left: int, out: seq<byte>, n: nat, cursor: nat, want: seq<byte>, next: nat,
                l: nat, out': seq<byte>)
    requires Going(msg, at, rest, left, out, n, cursor, want, next) && l == msg[at] && 0 < l < 0xc0 && at + 1 + l <= |msg|
    requires out' == Cut(out + (if out != [] then [46] else []) + LowerAll(msg[at + 1..at + 1 + l]), n)
    ensures rest != [] && Going(msg, at + 1 + l, rest[1..], left, out', n, cursor, want, next)
  {
    CutText(out + (if out != [] then [46] else []) + LowerAll(rest[0]), out', rest[1..], n);
  }

  lemma GoEnd(msg: seq<byte>, at: nat, rest: seq<Label>, left: int, out: seq<byte>, n: nat, cursor: nat, want: seq<byte>, next: nat)
    requires Going(msg, at, rest, left, out, n, cursor, want, next)
    ensures msg[at] == 0 ==> Cut(out, n) == want && next == (if cursor == 0 then at + 1 else cursor)
    ensures 0 < msg[at] < 0xc0 ==> at + 1 + msg[at] as nat <= |msg|
  {
  }

  /** What the loop keeps, when the message spells a name at all. */
  datatype Trace = Trace(good: bool, rest: seq<Label>, want: seq<byte>, next: nat)

  predicate Kept(t: Trace, msg: seq<byte>, at: nat, hops: nat, out: seq<byte>, cap: nat, cursor: nat)
  {
    cap >= 1 && (t.good ==> Going(msg, at, t.rest, 8 - hops, out, cap - 1, cursor, t.want, t.next))
  }

  lemma KeptPointer(t: Trace, msg: seq<byte>, at: nat, hops: nat, out: seq<byte>, cap: nat, cursor: nat)
    requires at < |msg| && msg[at] >= 0xc0 && Kept(t, msg, at, hops, out, cap, cursor)
    ensures at + 1 >= |msg| || hops >= 8 ==> !t.good
    ensures at + 1 < |msg| ==> Kept(t, msg, Pointer(msg, at), hops + 1, out, cap, if cursor == 0 then at + 2 else cursor)
  {
    if t.good {
      GoPointer(msg, at, t.rest, 8 - hops, out, cap - 1, cursor, t.want, t.next);
    }
  }

  method TakeLabel(ghost t: Trace, msg: seq<byte>, at: nat, l: nat, ghost hops: nat, out: seq<byte>, cap: nat, ghost cursor: nat)
    returns (r: seq<byte>, ghost u: Trace)
    requires at < |msg| && l == msg[at] && 0 < l < 0xc0 && at + 1 + l <= |msg| && |out| < cap && Kept(t, msg, at, hops, out, cap, cursor)
    ensures |r| < cap && Kept(u, msg, at + 1 + l, hops, r, cap, cursor) && u.good == t.good && u.want == t.want && u.next == t.next
  {
    r := PutLabel(out, cap, msg, at + 1, l);
    CutFits(out + (if out != [] then [46] else []) + LowerAll(msg[at + 1..at + 1 + l]), cap - 1);
    u := KeptLabel(t, msg, at, l, hops, out, cap, cursor, r);
  }

  lemma CutFits(s: seq<byte>, n: nat)
    ensures |Cut(s, n)| <= n
  {
  }

  lemma KeptLabel(t: Trace, msg: seq<byte>, at: nat, l: nat, hops: nat, out: seq<byte>, cap: nat, cursor: nat, out': seq<byte>) returns (u: Trace)
    requires at < |msg| && l == msg[at] && 0 < l < 0xc0 && at + 1 + l <= |msg| && Kept(t, msg, at, hops, out, cap, cursor)
    requires out' == Cut(out + (if out != [] then [46] else []) + LowerAll(msg[at + 1..at + 1 + l]), cap - 1)
    ensures Kept(u, msg, at + 1 + l, hops, out', cap, cursor) && u.good == t.good && u.want == t.want && u.next == t.next
  {
    u := t;
    if t.good {
      GoLabel(msg, at, t.rest, 8 - hops, out, cap - 1, cursor, t.want, t.next, l, out');
      u := t.(rest := t.rest[1..]);
    }
  }

  lemma KeptEnd(t: Trace, msg: seq<byte>, at: nat, hops: nat, out: seq<byte>, cap: nat, cursor: nat)
    requires |out| < cap && Kept(t, msg, at, hops, out, cap, cursor)
    ensures at >= |msg| ==> !t.good
    ensures at < |msg| && msg[at] == 0 && t.good ==> out == t.want && t.next == if cursor == 0 then at + 1 else cursor
    ensures at < |msg| && 0 < msg[at] < 0xc0 && at + 1 + msg[at] as nat > |msg| ==> !t.good
  {
    if t.good {
      GoEnd(msg, at, t.rest, 8 - hops, out, cap - 1, cursor, t.want, t.next);
    }
  }

  /** read_name. It ends on every message, pointers in a circle included; it reads inside the
      message and writes inside the buffer, and goes on at most at the message's end, but for
      a start outside the message, which it returns. Where
      the message spells a name, through at most eight pointers, the text is that name in
      lower case, cut to the buffer, and the reading goes on just after the name. */
  method ReadName(msg: seq<byte>, from: nat, cap: nat, ghost labels: seq<Label>) returns (out: seq<byte>, next: nat)
    requires cap >= 1
    ensures |out| < cap && (next <= |msg| <==> from <= |msg|)
    ensures from >= |msg| ==> next == from && out == []
    ensures Spells(msg, from, labels, 8) ==> out == Cut(Text([], labels), cap - 1) && next == Next(msg, from)
  {
    ghost var t := Trace(Spells(msg, from, labels, 8), labels, Cut(Text([], labels), cap - 1), Next(msg, from));
    out, next := ReadLabels(msg, from, cap, t);
  }

  method ReadLabels(msg: seq<byte>, from: nat, cap: nat, ghost t0: Trace) returns (out: seq<byte>, next: nat)
    requires cap >= 1 && Kept(t0, msg, from, 0, [], cap, 0)
    ensures |out| < cap && (if from >= |msg| then next == from && out == [] else next <= |msg|)
    ensures t0.good ==> out == t0.want && next == t0.next
  {
    out := [];
    ghost var t := t0;
    var at: nat, hops: nat, cursor: nat := from, 0, 0;
    while at < |msg|
      invariant |out| < cap && hops <= 8 && cursor <= |msg| && (cursor == 0 ==> at <= |msg| || at == from)
      invariant from >= |msg| ==> at == from && cursor == 0 && out == []
      invariant (Kept(t, msg, at, hops, out, cap, cursor) <==> true) && t.good == t0.good && t.want == t0.want && t.next == t0.next
      decreases 8 - hops, |msg| - at
    {
      KeptEnd(t, msg, at, hops, out, cap, cursor);
      var l: nat := msg[at];
      if l >= 0xc0 {
        KeptPointer(t, msg, at, hops, out, cap, cursor);
        if at + 1 >= |msg| {
          break;
        }
        if cursor == 0 {
          cursor := at + 2;
        }
        at := Pointer(msg, at);
        hops := hops + 1;
        if hops > 8 {
          break;
        }
        continue;
      }
      at := at + 1;
      if l == 0 {
        break;
      }
      if at + l > |msg| {
        break;
      }
      out, t := TakeLabel(t, msg, at - 1, l, hops, out, cap, cursor);
      at := at + l;
    }
    next := if cursor > 0 then cursor else at;
  }

  // ----- Writing -----

  predicate LabelOk(l: Label)
  {
    1 <= |l| <= 63 && forall i :: 0 <= i < |l| ==> l[i] != 46
  }

  predicate LabelsOk(labels: seq<Label>)
  {
    forall i :: 0 <= i < |labels| ==> LabelOk(labels[i])
  }

  /** Labels as they lie in a message, before the zero. */
  function Encode(labels: seq<Label>): seq<byte>
    requires forall i :: 0 <= i < |labels| ==> |labels[i]| < 256
  {
    if labels == [] then [] else [|labels[0]|] + labels[0] + Encode(labels[1..])
  }

  function Header(): (h: seq<byte>)
    ensures |h| == 12
  {
    [0, 0, 0, 0, 0, 1, 0, 0, 0, 0, 0, 0]
  }

  /** A question: the header, the name, the type, and the class with its unicast bit. */
  function Question(labels: seq<Label>, qtype: nat): seq<byte>
    requires LabelsOk(labels) && qtype < 0x1_0000
  {
    Header() + (Encode(labels) + ([0] + [qtype / 256, qtype % 256, 0x80, 0x01]))
  }

  function DotAt(name: seq<byte>, p: nat): (d: nat)
    requires p <= |name|
    ensures p <= d <= |name| && (d < |name| ==> name[d] == 46) && forall k :: p <= k < d ==> name[k] != 46
    decreases |name| - p
  {
    if p < |name| && name[p] != 46 then DotAt(name, p + 1) else p
  }

  datatype Parsed = Bad | Labels(labels: seq<Label>)

  /** The labels of a text from p on; a dot at the very end is allowed. */
  function Split(name: seq<byte>, p: nat): (r: Parsed)
    requires p <= |name|
    ensures r.Labels? ==> LabelsOk(r.labels)
    decreases |name| - p
  {
    if p == |name| then Labels([])
    else
      var d := DotAt(name, p);
      if d == p || d - p > 63 then Bad
      else match Split(name, if d < |name| then d + 1 else d)
           case Bad => Bad
           case Labels(rest) => Labels([name[p..d]] + rest)
  }

  lemma {:induction false} EncodeMore(labels: seq<Label>, l: Label)
    requires LabelsOk(labels) && LabelOk(l)
    ensures Encode(labels + [l]) == Encode(labels) + ([|l|] + l)
  {
    if labels == [] {
      assert [l][1..] == [];
    } else {
      assert (labels + [l])[1..] == labels[1..] + [l];
      EncodeMore(labels[1..], l);
    }
  }

  method FindDot(name: seq<byte>, from: nat) returns (dot: nat)
    requires from <= |name|
    ensures dot == DotAt(name, from)
  {
    dot := from;
    while dot < |name| && name[dot] != 46
      invariant from <= dot <= |name| && DotAt(name, dot) == DotAt(name, from)
    {
      dot := dot + 1;
    }
  }

  lemma SplitStep(name: seq<byte>, p: nat, done: seq<Label>)
    requires p < |name| && p < DotAt(name, p) <= p + 63
    ensures var d := DotAt(name, p); var q := if d < |name| then d + 1 else d;
      LabelOk(name[p..d]) && Split(name, p).Labels? == Split(name, q).Labels?
      && (Split(name, p).Labels? ==> done + Split(name, p).labels == (done + [name[p..d]]) + Split(name, q).labels)
  {
  }

  /** A label with its length before it. */
  method PutName(out: seq<byte>, l: Label, ghost done: seq<Label>) returns (r: seq<byte>)
    requires LabelsOk(done) && LabelOk(l) && out == Encode(done)
    ensures LabelsOk(done + [l]) && r == Encode(done + [l])
  {
    EncodeMore(done, l);
    r := out + ([|l|] + l);
  }

  /** The loop of build over the name. */
  method BuildName(name: seq<byte>) returns (ok: bool, out: seq<byte>)
    ensures ok == Split(name, 0).Labels? && (ok ==> out == Encode(Split(name, 0).labels))
  {
    out := [];
    var p := 0;
    ghost var done: seq<Label> := [];
    while p < |name|
      invariant p <= |name| && LabelsOk(done) && out == Encode(done)
      invariant Split(name, 0).Labels? == Split(name, p).Labels?
      invariant Split(name, p).Labels? ==> Split(name, 0).labels == done + Split(name, p).labels
    {
      var dot := FindDot(name, p);
      var l := dot - p;
      if l == 0 || l > 63 {
        return false, [];
      }
      SplitStep(name, p, done);
      out := PutName(out, name[p..dot], done);
      done := done + [name[p..dot]];
      p := if dot < |name| then dot + 1 else dot;
    }
    ok := true;
    assert done + [] == done;
  }

  /** build: the question about a name, or nothing when a label is empty or too long. */
  method Build(name: seq<byte>, qtype: nat) returns (out: seq<byte>)
    requires qtype < 0x1_0000
    ensures out == match Split(name, 0) case Bad => [] case Labels(ls) => Question(ls, qtype)
  {
    out := seq<byte>(12, i => 0);
    out := out[5 := 1];
    assert out == Header();
    var ok, labels := BuildName(name);
    if !ok {
      return [];
    }
    out := out + (labels + ([0] + [qtype / 256, qtype % 256, 0x80, 0x01]));
  }

  // ----- The round trip -----

  lemma {:induction false} DotAtIs(name: seq<byte>, p: nat, d: nat)
    requires p <= d <= |name| && (d < |name| ==> name[d] == 46) && forall k :: p <= k < d ==> name[k] != 46
    ensures DotAt(name, p) == d
    decreases d - p
  {
    if p < d {
      DotAtIs(name, p + 1, d);
    }
  }

  /** A text of labels is split into those labels. */
  lemma {:induction false} SplitJoin(front: seq<byte>, labels: seq<Label>, name: seq<byte>)
    requires LabelsOk(labels) && name == front + Join(labels)
    ensures Split(name, |front|) == Labels(labels)
    decreases |labels|
  {
    if labels != [] {
      var l, p := labels[0], |front|;
      var next := if |labels| == 1 then name else front + l + [46];
      JoinStep(front, labels, name, next);
      DotAtIs(name, p, p + |l|);
      SplitJoin(next, labels[1..], name);
      assert labels == [l] + labels[1..];
    }
  }

  lemma {:induction false} JoinStep(front: seq<byte>, labels: seq<Label>, name: seq<byte>, next: seq<byte>)
    requires labels != [] && LabelsOk(labels) && name == front + Join(labels)
    requires next == if |labels| == 1 then name else front + labels[0] + [46]
    ensures var l, p := labels[0], |front|;
      p + |l| <= |name| && name[p..p + |l|] == l && (if |labels| == 1 then p + |l| == |name| else p + |l| < |name| && name[p + |l|] == 46)
      && (forall k :: p <= k < p + |l| ==> name[k] != 46) && name == next + Join(labels[1..])
  {
    if |labels| == 1 {
      JoinLast(front, labels[0], name);
      assert labels[1..] == [];
    } else {
      JoinMore(front, labels[0], Join(labels[1..]), name, next);
    }
  }

  lemma JoinLast(front: seq<byte>, l: Label, name: seq<byte>)
    requires LabelOk(l) && name == front + l
    ensures var p := |front|; p + |l| == |name| && name[p..p + |l|] == l && forall k :: p <= k < p + |l| ==> name[k] != 46
    ensures name == name + Join([])
  {
    assert name == front + (l + []);
    LabelIn(front, l, [], name);
  }

  lemma JoinMore(front: seq<byte>, l: Label, more: seq<byte>, name: seq<byte>, next: seq<byte>)
    requires LabelOk(l) && name == front + (l + [46] + more) && next == front + l + [46]
    ensures var p := |front|; p + |l| < |name| && name[p..p + |l|] == l && name[p + |l|] == 46 && forall k :: p <= k < p + |l| ==> name[k] != 46
    ensures name == next + more
  {
    assert name == front + (l + ([46] + more));
    LabelIn(front, l, [46] + more, name);
  }

  lemma LabelIn(front: seq<byte>, l: Label, more: seq<byte>, name: seq<byte>)
    requires LabelOk(l) && name == front + (l + more)
    ensures var p := |front|; p + |l| <= |name| && name[p..p + |l|] == l && (forall k :: p <= k < p + |l| ==> name[k] != 46)
    ensures more != [] ==> name[|front| + |l|] == more[0]
    ensures more == [] ==> |front| + |l| == |name|
  {
    assert forall k :: |front| <= k < |front| + |l| ==> name[k] == l[k - |front|];
  }

  /** What is written is spelled where it lies. */
  lemma {:induction false} Spelled(msg: seq<byte>, at: nat, labels: seq<Label>, e: seq<byte>, hops: nat)
    requires LabelsOk(labels) && e == Encode(labels) && at + |e| < |msg| && msg[at..at + |e|] == e && msg[at + |e|] == 0
    ensures Spells(msg, at, labels, hops) && Next(msg, at) == at + |e| + 1
    decreases |labels|
  {
    if labels != [] {
      var l := labels[0];
      var f := Encode(labels[1..]);
      Heads(msg, at, l, e, f);
      Spelled(msg, at + 1 + |l|, labels[1..], f, hops);
      SpellStep(msg, at, labels, hops);
    }
  }

  lemma Heads(msg: seq<byte>, at: nat, l: Label, e: seq<byte>, f: seq<byte>)
    requires LabelOk(l) && e == [|l|] + l + f && at + |e| <= |msg| && msg[at..at + |e|] == e
    ensures msg[at] == |l| && msg[at + 1..at + 1 + |l|] == l && at + 1 + |l| + |f| == at + |e|
    ensures msg[at + 1 + |l|..at + 1 + |l| + |f|] == f
  {
    assert msg[at] == e[0] && e[1..1 + |l|] == l && e[1 + |l|..] == f;
    Inner(msg, at, e, 1, 1 + |l|);
    Inner(msg, at, e, 1 + |l|, |e|);
  }

  lemma Inner(msg: seq<byte>, at: nat, e: seq<byte>, i: nat, j: nat)
    requires at + |e| <= |msg| && msg[at..at + |e|] == e && i <= j <= |e|
    ensures msg[at + i..at + j] == e[i..j]
  {
    forall k | 0 <= k < j - i
      ensures msg[at + i..at + j][k] == e[i..j][k]
    {
      assert msg[at + (i + k)] == msg[at..at + |e|][i + k];
    }
  }

  lemma SpellStep(msg: seq<byte>, at: nat, labels: seq<Label>, hops: nat)
    requires labels != [] && LabelOk(labels[0]) && at + 1 + |labels[0]| <= |msg| && msg[at] == |labels[0]|
    requires msg[at + 1..at + 1 + |labels[0]|] == labels[0] && Spells(msg, at + 1 + |labels[0]|, labels[1..], hops)
    ensures Spells(msg, at, labels, hops) && Next(msg, at) == Next(msg, at + 1 + |labels[0]|)
  {
  }

  lemma {:induction false} TextMore(done: seq<byte>, labels: seq<Label>)
    requires LabelsOk(labels) && labels != [] && done != []
    ensures Text(done, labels) == done + [46] + LowerAll(Join(labels))
    decreases |labels|
  {
    var more := done + [46] + LowerAll(labels[0]);
    if |labels| == 1 {
      assert labels[1..] == [];
    } else {
      TextMore(more, labels[1..]);
      assert LowerAll(Join(labels)) == LowerAll(labels[0]) + [46] + LowerAll(Join(labels[1..]));
    }
  }

  lemma {:induction false} TextIsJoin(labels: seq<Label>)
    requires LabelsOk(labels)
    ensures Text([], labels) == LowerAll(Join(labels))
  {
    if |labels| == 1 {
      assert labels[1..] == [];
      assert [] + [] + LowerAll(labels[0]) == LowerAll(labels[0]);
    } else if |labels| > 1 {
      assert [] + [] + LowerAll(labels[0]) == LowerAll(labels[0]);
      TextMore(LowerAll(labels[0]), labels[1..]);
      assert LowerAll(Join(labels)) == LowerAll(labels[0]) + [46] + LowerAll(Join(labels[1..]));
    }
  }

  // ----- Names that are abbreviated -----

  /** Two bytes that point to o: the two high bits, and fourteen of the offset. */
  predicate PointsTo(msg: seq<byte>, at: nat, o: nat)
  {
    at + 1 < |msg| && o < 0x4000 && msg[at] == 0xc0 + o / 0x100 && msg[at + 1] == o % 0x100
  }

  lemma PointerIs(msg: seq<byte>, at: nat, o: nat)
    requires PointsTo(msg, at, o)
    ensures msg[at] >= 0xc0 && Pointer(msg, at) == o
  {
    var high: nat := msg[at];
    assert high % 0x40 == o / 0x100;
  }

  lemma PointerSpells(msg: seq<byte>, at: nat, o: nat, labels: seq<Label>, hops: nat)
    requires PointsTo(msg, at, o) && hops > 0 && Spells(msg, o, labels, hops - 1)
    ensures Spells(msg, at, labels, hops) && Next(msg, at) == at + 2
  {
    PointerIs(msg, at, o);
  }

  lemma OneThenRest(front: seq<Label>, labels: seq<Label>)
    requires front != []
    ensures (front + labels)[0] == front[0] && (front + labels)[1..] == front[1..] + labels
  {
  }

  lemma {:induction false} NextFrom(msg: seq<byte>, at: nat, l: Label, labels: seq<Label>, hops: nat, end: nat)
    requires LabelOk(l) && at + 1 + |l| <= |msg| && msg[at] == |l| && msg[at + 1..at + 1 + |l|] == l
    requires Spells(msg, at + 1 + |l|, labels, hops) && Next(msg, at + 1 + |l|) == end
    ensures Spells(msg, at, [l] + labels, hops) && Next(msg, at) == end
  {
    assert ([l] + labels)[1..] == labels;
    SpellStep(msg, at, [l] + labels, hops);
  }

  lemma FrontLabels(front: seq<Label>, labels: seq<Label>)
    requires LabelsOk(front) && front != []
    ensures LabelOk(front[0]) && LabelsOk(front[1..]) && front + labels == [front[0]] + (front[1..] + labels)
  {
  }

  /** Labels before those that are spelled after them. */
  lemma {:induction false} SpelledBefore(msg: seq<byte>, at: nat, front: seq<Label>, e: seq<byte>, labels: seq<Label>, hops: nat)
    requires LabelsOk(front) && e == Encode(front) && at + |e| < |msg| && msg[at..at + |e|] == e && Spells(msg, at + |e|, labels, hops)
    ensures Spells(msg, at, front + labels, hops) && Next(msg, at) == Next(msg, at + |e|)
    decreases |front|
  {
    if front == [] {
      assert front + labels == labels;
    } else {
      var l, rest := front[0], front[1..];
      var f := Encode(rest);
      FrontLabels(front, labels);
      Heads(msg, at, l, e, f);
      SpelledBefore(msg, at + 1 + |l|, rest, f, labels, hops);
      NextFrom(msg, at, l, rest + labels, hops, Next(msg, at + |e|));
    }
  }

  lemma {:induction false} Abbreviated(msg: seq<byte>, at: nat, front: seq<Label>, e: seq<byte>, o: nat, labels: seq<Label>, f: seq<byte>)
    requires LabelsOk(front) && LabelsOk(labels) && e == Encode(front) && f == Encode(labels)
    requires |e| + at < |msg| && msg[at..at + |e|] == e && PointsTo(msg, at + |e|, o)
    requires |f| + o < |msg| && msg[o..o + |f|] == f && msg[o + |f|] == 0
    ensures Spells(msg, at, front + labels, 8) && Next(msg, at) == at + |e| + 2
  {
    Spelled(msg, o, labels, f, 7);
    PointerSpells(msg, at + |e|, o, labels, 8);
    SpelledBefore(msg, at, front, e, labels, 8);
  }

  /** A name whose end lies elsewhere in the message is read whole, and the reading goes on
      after the pointer to it. */
  method ReadAbbreviated(msg: seq<byte>, at: nat, front: seq<Label>, o: nat, labels: seq<Label>) returns (text: seq<byte>, next: nat)
    requires LabelsOk(front) && LabelsOk(labels) && |Encode(front)| + at < |msg| && |Encode(labels)| + o < |msg|
    requires msg[at..at + |Encode(front)|] == Encode(front) && PointsTo(msg, at + |Encode(front)|, o)
    requires msg[o..o + |Encode(labels)|] == Encode(labels) && msg[o + |Encode(labels)|] == 0
    ensures text == Cut(LowerAll(Join(front + labels)), 63) && next == at + |Encode(front)| + 2
  {
    Abbreviated(msg, at, front, Encode(front), o, labels, Encode(labels));
    text, next := ReadName(msg, at, 64, front + labels);
    TextIsJoin(front + labels);
  }

  // ----- A question read back -----

  /** Two bytes, the more significant first. */
  function Half(msg: seq<byte>, at: nat): nat
    requires at + 1 < |msg|
  {
    var high: nat, low: nat := msg[at], msg[at + 1];
    0x100 * high + low
  }

  lemma {:induction false} Asked(labels: seq<Label>, qtype: nat)
    requires LabelsOk(labels) && qtype < 0x1_0000
    ensures Spells(Question(labels, qtype), 12, labels, 8) && Next(Question(labels, qtype), 12) == 12 + |Encode(labels)| + 1
  {
    var e, m := Encode(labels), Question(labels, qtype);
    assert m[12..12 + |e|] == e && m[12 + |e|] == 0;
    Spelled(m, 12, labels, e, 8);
  }

  /** One question and nothing else, and after its name the type and the class, which is IN
      with the bit that asks for an answer to this host alone. */
  lemma {:induction false} QuestionRead(labels: seq<Label>, qtype: nat, m: seq<byte>, at: nat)
    requires LabelsOk(labels) && qtype < 0x1_0000 && m == Question(labels, qtype) && at == 12 + |Encode(labels)| + 1
    ensures |m| == at + 4 && Half(m, 0) == 0 && Half(m, 2) == 0 && Half(m, 4) == 1 && Half(m, 6) == 0 && Half(m, 8) == 0 && Half(m, 10) == 0
    ensures Half(m, at) == qtype && Half(m, at + 2) == 0x8001
  {
    var e := Encode(labels);
    assert m == Header() + e + [0, qtype / 256, qtype % 256, 0x80, 0x01];
    assert m[at] == qtype / 256 && m[at + 1] == qtype % 256 && m[at + 2] == 0x80 && m[at + 3] == 0x01;
    assert forall i :: 0 <= i < 12 ==> m[i] == Header()[i];
  }

  /** The round trip: a name of proper labels, asked about and read back from the question, is
      the name in lower case, and the reading goes on at the type and the class that follow it. */
  method AskAndRead(labels: seq<Label>, qtype: nat) returns (msg: seq<byte>, text: seq<byte>, next: nat)
    requires LabelsOk(labels) && |Join(labels)| <= 63 && qtype < 0x1_0000
    ensures text == LowerAll(Join(labels)) && next == 12 + |Encode(labels)| + 1
    ensures |msg| == next + 4 && Half(msg, 4) == 1 && Half(msg, next) == qtype && Half(msg, next + 2) == 0x8001
  {
    assert [] + Join(labels) == Join(labels);
    SplitJoin([], labels, Join(labels));
    msg := Build(Join(labels), qtype);
    Asked(labels, qtype);
    text, next := ReadName(msg, 12, 64, labels);
    TextIsJoin(labels);
    QuestionRead(labels, qtype, msg, next);
  }
}
