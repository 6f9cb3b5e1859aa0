/** The settings: one line of config.txt, a text of lines, and the text kept in a flash
    sector, which is a map from keys to values. */
module Config {
  import opened Bits
  import Address
  import opened Timezones

  // ----- Keys -----

  function Lower(c: char): char
  {
    if 'A' <= c <= 'Z' then (c as int + 32) as char else c
  }

  function LowerAll(s: string): (t: string)
    ensures |t| == |s|
  {
    seq(|s|, i requires 0 <= i < |s| => Lower(s[i]))
  }

  /** key_is: without regard to case. */
  method KeyIs(k: string, want: string) returns (same: bool)
    ensures same == (LowerAll(k) == want)
  {
    var i := 0;
    while i < |k|
      invariant 0 <= i <= |k| && i <= |want| && LowerAll(k)[..i] == want[..i]
    {
      if i >= |want| || Lower(k[i]) != want[i] {
        return false;
      }
      i := i + 1;
    }
    assert LowerAll(k)[..|k|] == LowerAll(k);
    return |want| == |k|;
  }

  // ----- Values -----

  predicate NameChar(c: char)
  {
    'a' <= Lower(c) <= 'z' || '0' <= c <= '9' || c == '-'
  }

  /** A name that is also a DNS label. */
  predicate Hostname(v: string)
  {
    1 <= |v| <= 31 && (forall i :: 0 <= i < |v| ==> NameChar(v[i])) && v[0] != '-' && v[|v| - 1] != '-'
  }

  /** valid_hostname */
  method ValidHostname(s: string) returns (ok: bool)
    ensures ok == Hostname(s)
  {
    if |s| == 0 || |s| > 31 {
      return false;
    }
    for i := 0 to |s|
      invariant forall j :: 0 <= j < i ==> NameChar(s[j])
    {
      var c := Lower(s[i]);
      if !(('a' <= c <= 'z') || ('0' <= c <= '9') || c == '-') {
        return false;
      }
    }
    return s[0] != '-' && s[|s| - 1] != '-';
  }

  /** What a setting can be. The network's name and password can be anything. */
  predicate Accepts(key: string, v: string)
  {
    if key == "hostname" then Hostname(v)
    else if key == "usb_address" then Address.Parse(v).Good?
    else if key == "timezone" then Timezone(v).East?
    else key == "ssid" || key == "password"
  }

  // ----- One line -----

  predicate Blank(c: char)
  {
    c == ' ' || c == '\t'
  }

  /** Where a comment starts: at a '#' that begins the line or follows a blank. */
  function CommentAt(l: string, i: nat): (n: nat)
    requires i <= |l|
    ensures i <= n <= |l|
    decreases |l| - i
  {
    if i == |l| || (l[i] == '#' && (i == 0 || Blank(l[i - 1]))) then i else CommentAt(l, i + 1)
  }

  function SkipBlanks(l: string, k: nat): (j: nat)
    requires k <= |l|
    ensures k <= j <= |l|
    decreases |l| - k
  {
    if k < |l| && Blank(l[k]) then SkipBlanks(l, k + 1) else k
  }

  function KeyEnd(l: string, k: nat): (j: nat)
    requires k <= |l|
    ensures k <= j <= |l|
    decreases |l| - k
  {
    if k < |l| && l[k] != '=' && !Blank(l[k]) then KeyEnd(l, k + 1) else k
  }

  /** The end of a value that starts at k, without the blanks behind it. */
  function TrimEnd(l: string, n: nat, k: nat): (e: nat)
    requires k <= n <= |l|
    ensures k <= e <= n
  {
    if n > k && (Blank(l[n - 1]) || l[n - 1] == '\r') then TrimEnd(l, n - 1, k) else n
  }

  datatype Setting = Nothing | Sets(key: string, value: string)

  /** What a line says. */
  function Read(l: string): Setting
  {
    var b := l[..CommentAt(l, 0)];
    var k0 := SkipBlanks(b, 0);
    var k1 := KeyEnd(b, k0);
    var k2 := SkipBlanks(b, k1);
    if k0 == k1 || k2 >= |b| || b[k2] != '=' then Nothing
    else
      var k3 := SkipBlanks(b, k2 + 1);
      var e := TrimEnd(b, |b|, k3);
      if e == k3 then Nothing else Sets(b[k0..k1], b[k3..e])
  }

  type Known = map<string, string>

  function Cut(v: string, cap: nat): string
  {
    if |v| <= cap then v else v[..cap]
  }

  /** What is known after a line: its value for its key, if the key is one of ours and the
      value one it can have. */
  function Take(m: Known, l: string): Known
  {
    match Read(l)
    case Nothing => m
    case Sets(k, v) =>
      var key := LowerAll(k);
      if !Accepts(key, v) then m
      else m[key := if key == "ssid" then Cut(v, 32) else if key == "password" then Cut(v, 63) else v]
  }

  /** Of a network's name 32 characters are kept, of its password 63, and any other value whole;
      and a line sets no other key than its own. */
  lemma {:induction false} Kept32And63(m: Known, l: string, k: string, v: string)
    requires Read(l) == Sets(k, v) && Accepts(LowerAll(k), v)
    ensures var key, r := LowerAll(k), Take(m, l);
      key in r && r[key] <= v && |r[key]| == (if key == "ssid" && |v| > 32 then 32 else if key == "password" && |v| > 63 then 63 else |v|)
      && forall other :: other != key ==> (other in r <==> other in m) && (other in r ==> r[other] == m[other])
  {
  }

  method Skip(l: string, from: nat) returns (k: nat)
    requires from <= |l|
    ensures k == SkipBlanks(l, from)
  {
    k := from;
    while k < |l| && Blank(l[k])
      invariant from <= k <= |l| && SkipBlanks(l, k) == SkipBlanks(l, from)
    {
      k := k + 1;
    }
  }

  method FindKeyEnd(l: string, from: nat) returns (k: nat)
    requires from <= |l|
    ensures k == KeyEnd(l, from)
  {
    k := from;
    while k < |l| && l[k] != '=' && !Blank(l[k])
      invariant from <= k <= |l| && KeyEnd(l, k) == KeyEnd(l, from)
    {
      k := k + 1;
    }
  }

  method FindComment(l: string) returns (n: nat)
    ensures n == CommentAt(l, 0)
  {
    for i := 0 to |l|
      invariant CommentAt(l, i) == CommentAt(l, 0)
    {
      if l[i] == '#' && (i == 0 || Blank(l[i - 1])) {
        return i;
      }
    }
    return |l|;
  }

  method Trim(l: string, from: nat) returns (n: nat)
    requires from <= |l|
    ensures n == TrimEnd(l, |l|, from)
  {
    n := |l|;
    while n > from && (Blank(l[n - 1]) || l[n - 1] == '\r')
      invariant from <= n <= |l| && TrimEnd(l, n, from) == TrimEnd(l, |l|, from)
    {
      n := n - 1;
    }
  }

  /** The reading of take_line. */
  method ReadLine(l: string) returns (r: Setting)
    ensures r == Read(l)
  {
    var n := FindComment(l);
    var b := l[..n];
    var key := Skip(b, 0);
    var keyEnd := FindKeyEnd(b, key);
    if key == keyEnd {
      return Nothing;
    }
    var k := Skip(b, keyEnd);
    if k >= |b| || b[k] != '=' {
      return Nothing;
    }
    var val := Skip(b, k + 1);
    n := Trim(b, val);
    if n == val {
      return Nothing;
    }
    return Sets(b[key..keyEnd], b[val..n]);
  }

  /** take_line: the settings as the file leaves them. */
  method TakeLine(m: Known, l: string) returns (r: Known)
    ensures r == Take(m, l)
  {
    var s := ReadLine(l);
    if s.Nothing? {
      return m;
    }
    var hostname := KeyIs(s.key, "hostname");
    var ssid := KeyIs(s.key, "ssid");
    var password := KeyIs(s.key, "password");
    var timezone := KeyIs(s.key, "timezone");
    var usb := KeyIs(s.key, "usb_address");
    r := m;
    if hostname {
      var ok := ValidHostname(s.value);
      if ok {
        r := m["hostname" := s.value];
      }
    } else if ssid {
      r := m["ssid" := Cut(s.value, 32)];
    } else if password {
      r := m["password" := Cut(s.value, 63)];
    } else if timezone {
      var minutes := ParseTimezone(s.value);
      if minutes.East? {
        r := m["timezone" := s.value];
      }
    } else if usb {
      var a := Address.ParseUsbAddress(s.value);
      if a.Good? {
        r := m["usb_address" := s.value];
      }
    }
  }

  // ----- A text of lines -----

  function LineEnd(t: string, i: nat): (e: nat)
    requires i <= |t|
    ensures i <= e <= |t| && (e < |t| ==> t[e] == '\n') && forall k :: i <= k < e ==> t[k] != '\n'
    decreases |t| - i
  {
    if i < |t| && t[i] != '\n' then LineEnd(t, i + 1) else i
  }

  /** What is known after the lines from i on, each taken by f; of a long line its first 160
      characters. */
  ghost function TakeFrom(f: (Known, string) -> Known, m: Known, t: string, i: nat): Known
    requires i <= |t|
    decreases |t| - i
  {
    var e := LineEnd(t, i);
    var m' := if e == i then m else f(m, Cut(t[i..e], 160));
    if e == |t| then m' else TakeFrom(f, m', t, e + 1)
  }

  /** take_text: every line taken as the file's lines are. */
  method TakeText(m: Known, t: string) returns (r: Known)
    ensures r == TakeFrom(Take, m, t, 0)
  {
    r := TakeTextBy(m, t, Take);
  }

  /** Its loop, which gathers a line character by character. */
  method TakeTextBy(m: Known, t: string, ghost f: (Known, string) -> Known) returns (r: Known)
    requires forall k: Known, l: string {:trigger Take(k, l)} :: f(k, l) == Take(k, l)
    ensures r == TakeFrom(f, m, t, 0)
  {
    r := m;
    var line := "";
    ghost var start := 0;
    for i := 0 to |t| + 1
      invariant start <= |t| + 1 && (i <= |t| ==> start <= i && LineEnd(t, start) == LineEnd(t, i) && line == Cut(t[start..i], 160))
      invariant i <= |t| ==> TakeFrom(f, r, t, start) == TakeFrom(f, m, t, 0)
      invariant i == |t| + 1 ==> r == TakeFrom(f, m, t, 0)
    {
      if i == |t| || t[i] == '\n' {
        ghost var was := r;
        if line != "" {
          r := TakeLine(r, line);
        }
        LineTaken(f, was, t, start, i, line, r);
        line := "";
        start := i + 1;
        continue;
      }
      CutMore(t, start, i);
      if |line| < 160 {
        line := line + [t[i]];
      }
    }
  }

  lemma LineTaken(f: (Known, string) -> Known, m: Known, t: string, start: nat, i: nat, line: string, m': Known)
    requires start <= i <= |t| && LineEnd(t, start) == i && line == Cut(t[start..i], 160)
    requires m' == if line == "" then m else f(m, line)
    ensures TakeFrom(f, m, t, start) == if i == |t| then m' else TakeFrom(f, m', t, i + 1)
  {
    assert line == "" <==> i == start;
  }

  lemma CutMore(t: string, start: nat, i: nat)
    requires start <= i < |t|
    ensures Cut(t[start..i + 1], 160) == var c := Cut(t[start..i], 160); if |c| < 160 then c + [t[i]] else c
  {
    assert t[start..i + 1] == t[start..i] + [t[i]];
  }

  // ----- The settings kept in flash -----

  datatype Entry = Entry(key: string, value: string)

  predicate KeptKey(key: string, usb: bool)
  {
    key == "hostname" || key == "timezone" || (usb && key == "usb_address")
  }

  /** Every key at most once, each with a value it can have. */
  predicate Kept(es: seq<Entry>, usb: bool)
  {
    && (forall i :: 0 <= i < |es| ==> KeptKey(es[i].key, usb) && Accepts(es[i].key, es[i].value))
    && (forall i, j :: 0 <= i < j < |es| ==> es[i].key != es[j].key)
  }

  function LineOf(e: Entry): string
  {
    e.key + " = " + e.value
  }

  function TextOf(es: seq<Entry>): string
  {
    if es == [] then "" else LineOf(es[0]) + "\n" + TextOf(es[1..])
  }

  function MapOf(m: Known, es: seq<Entry>): Known
    decreases |es|
  {
    if es == [] then m else MapOf(m[es[0].key := es[0].value], es[1..])
  }

  function Without(es: seq<Entry>, key: string): seq<Entry>
  {
    if es == [] then [] else (if es[0].key == key then [] else [es[0]]) + Without(es[1..], key)
  }

  /** What is kept once a key is set, or with no value forgotten. */
  function After(es: seq<Entry>, key: string, value: string): seq<Entry>
  {
    Without(es, key) + if value == "" then [] else [Entry(key, value)]
  }

  lemma {:induction false} MapWithout(m: Known, es: seq<Entry>, key: string)
    ensures MapOf(m - {key}, Without(es, key)) == MapOf(m, es) - {key}
    decreases |es|
  {
    if es != [] {
      var k, v := es[0].key, es[0].value;
      MapWithout(m[k := v], es[1..], key);
      if k == key {
        assert m[k := v] - {key} == m - {key};
        assert Without(es, key) == Without(es[1..], key);
      } else {
        assert m[k := v] - {key} == (m - {key})[k := v];
        assert ([es[0]] + Without(es[1..], key))[1..] == Without(es[1..], key);
      }
    }
  }

  lemma {:induction false} MapAppend(m: Known, es: seq<Entry>, e: Entry)
    ensures MapOf(m, es + [e]) == MapOf(m, es)[e.key := e.value]
    decreases |es|
  {
    if es == [] {
      assert (es + [e])[1..] == [];
    } else {
      assert (es + [e])[1..] == es[1..] + [e];
      MapAppend(m[es[0].key := es[0].value], es[1..], e);
    }
  }

  /** Keeping a value changes that key and no other; keeping none forgets it. */
  lemma {:induction false} MapAfter(es: seq<Entry>, key: string, value: string)
    ensures MapOf(map[], After(es, key, value)) == if value == "" then MapOf(map[], es) - {key} else MapOf(map[], es)[key := value]
  {
    var none: Known := map[];
    MapWithout(none, es, key);
    assert none - {key} == none;
    if value == "" {
      assert After(es, key, value) == Without(es, key);
    } else {
      MapAppend(map[], Without(es, key), Entry(key, value));
      assert (MapOf(map[], es) - {key})[key := value] == MapOf(map[], es)[key := value];
    }
  }

  lemma {:induction false} WithoutIn(es: seq<Entry>, key: string)
    ensures |Without(es, key)| <= |es|
    ensures forall i :: 0 <= i < |Without(es, key)| ==> Without(es, key)[i].key != key && Without(es, key)[i] in es
  {
    if es != [] {
      WithoutIn(es[1..], key);
    }
  }

  lemma FirstKept(e: Entry, es: seq<Entry>, usb: bool)
    requires KeptKey(e.key, usb) && Accepts(e.key, e.value) && Kept(es, usb) && forall i :: 0 <= i < |es| ==> es[i].key != e.key
    ensures Kept([e] + es, usb)
  {
  }

  lemma KeysDiffer(es: seq<Entry>, w: seq<Entry>, usb: bool)
    requires es != [] && Kept(es, usb) && forall i :: 0 <= i < |w| ==> w[i] in es[1..]
    ensures forall i :: 0 <= i < |w| ==> w[i].key != es[0].key
  {
    forall i | 0 <= i < |w|
      ensures w[i].key != es[0].key
    {
      var j :| 0 <= j < |es[1..]| && es[1..][j] == w[i];
      assert es[j + 1] == w[i];
    }
  }

  lemma {:induction false} WithoutKept(es: seq<Entry>, key: string, usb: bool)
    requires Kept(es, usb)
    ensures Kept(Without(es, key), usb) && |Without(es, key)| <= |es|
    ensures forall i :: 0 <= i < |Without(es, key)| ==> Without(es, key)[i].key != key && Without(es, key)[i] in es
  {
    WithoutIn(es, key);
    if es != [] {
      KeptTail(es, usb);
      WithoutKept(es[1..], key, usb);
      WithoutIn(es[1..], key);
      KeysDiffer(es, Without(es[1..], key), usb);
      if es[0].key != key {
        FirstKept(es[0], Without(es[1..], key), usb);
      }
    }
  }

  lemma AfterKept(es: seq<Entry>, key: string, value: string, usb: bool)
    requires Kept(es, usb) && KeptKey(key, usb) && (value != "" ==> Accepts(key, value))
    ensures Kept(After(es, key, value), usb)
  {
    WithoutKept(es, key, usb);
  }

  // ----- Lines that are written are lines that are read -----

  predicate PlainChar(c: char)
  {
    c != ' ' && c != '\t' && c != '\r' && c != '\n' && c != '#' && c != '='
  }

  predicate Plain(v: string)
  {
    1 <= |v| <= 31 && forall i :: 0 <= i < |v| ==> PlainChar(v[i])
  }

  lemma {:induction false} PartsPlain(v: string, i: nat, part: nat, a: nat)
    requires i <= |v| && part <= 3 && Address.Parts(v, i, part, a).Good?
    ensures |v| - i <= 5 * (4 - part) - 1 && i < |v| && forall k :: i <= k < |v| ==> PlainChar(v[k])
    decreases 4 - part
  {
    var n := Address.Num(v, i, 0, 0, 4);
    if part < 3 {
      PartsPlain(v, n.end + 1, part + 1, a * 256 + n.x);
    }
  }

  /** What a kept setting can be has nothing in it that ends a line, a value or a key. */
  lemma AcceptedPlain(key: string, v: string, usb: bool)
    requires KeptKey(key, usb) && Accepts(key, v)
    ensures Plain(v)
  {
    if key == "hostname" {
      assert forall i :: 0 <= i < |v| ==> NameChar(v[i]);
    } else if key == "usb_address" {
      PartsPlain(v, 0, 0, 0);
    } else {
      TimezonePlain(v);
    }
  }

  lemma TimezonePlain(v: string)
    requires Timezone(v).East?
    ensures Plain(v)
  {
    var from := if v != "" && (v[0] == '+' || v[0] == '-') then 1 else 0;
    var h := Address.Num(v, from, 0, 0, 3);
    if h.end < |v| && v[h.end] == ':' {
      var m := Address.Num(v, h.end + 1, 0, 0, 3);
    }
  }

  lemma {:induction false} NoComment(l: string, i: nat)
    requires i <= |l| && forall k :: 0 <= k < |l| ==> l[k] != '#'
    ensures CommentAt(l, i) == |l|
    decreases |l| - i
  {
    if i < |l| {
      NoComment(l, i + 1);
    }
  }

  lemma {:induction false} KeyEndIs(l: string, i: nat, n: nat)
    requires i <= n < |l| && Blank(l[n]) && forall k :: i <= k < n ==> PlainChar(l[k])
    ensures KeyEnd(l, i) == n
    decreases n - i
  {
    if i < n {
      KeyEndIs(l, i + 1, n);
    }
  }

  lemma Unblank(l: string, n: nat)
    requires 0 < n && n + 3 < |l| && l[n] == ' ' && l[n + 1] == '=' && l[n + 2] == ' '
    requires PlainChar(l[0]) && PlainChar(l[n + 3]) && PlainChar(l[|l| - 1])
    ensures SkipBlanks(l, 0) == 0 && SkipBlanks(l, n) == n + 1 && SkipBlanks(l, n + 2) == n + 3 && TrimEnd(l, |l|, n + 3) == |l|
  {
  }

  /** A line as it is kept says exactly its key and its value. */
  lemma ReadLineOf(e: Entry)
    requires Plain(e.key) && Plain(e.value)
    ensures Read(LineOf(e)) == Sets(e.key, e.value) && |LineOf(e)| <= 65 && forall k :: 0 <= k < |LineOf(e)| ==> LineOf(e)[k] != '\n'
  {
    var l, n := LineOf(e), |e.key|;
    assert forall k :: 0 <= k < n ==> l[k] == e.key[k];
    assert l[n] == ' ' && l[n + 1] == '=' && l[n + 2] == ' ';
    assert forall k :: n + 3 <= k < |l| ==> l[k] == e.value[k - n - 3];
    NoComment(l, 0);
    assert l[..|l|] == l;
    KeyEndIs(l, 0, n);
    Unblank(l, n);
    assert l[0..n] == e.key && l[n + 3..|l|] == e.value;
  }

  lemma KeptPlain(e: Entry, usb: bool)
    requires KeptKey(e.key, usb) && Accepts(e.key, e.value)
    ensures Plain(e.key) && Plain(e.value) && LowerAll(e.key) == e.key
    ensures |LineOf(e)| <= 45
  {
    AcceptedPlain(e.key, e.value, usb);
    KeysPlain();
  }

  lemma KeysPlain()
    ensures Plain("hostname") && Plain("usb_address") && Plain("timezone")
    ensures LowerAll("hostname") == "hostname" && LowerAll("usb_address") == "usb_address" && LowerAll("timezone") == "timezone"
  {
  }

  lemma {:induction false} LineEndIs(t: string, i: nat, n: nat)
    requires i <= n <= |t| && (n < |t| ==> t[n] == '\n') && forall k :: i <= k < n ==> t[k] != '\n'
    ensures LineEnd(t, i) == n
    decreases n - i
  {
    if i < n {
      LineEndIs(t, i + 1, n);
    }
  }

  /** A line of a text, whatever stands around it. */
  lemma {:induction false} FirstLine(t: string, front: string, l: string, rest: string, i: nat)
    requires t == front + (l + "\n" + rest) && i == |front| && forall k :: 0 <= k < |l| ==> l[k] != '\n'
    ensures i + |l| < |t| && LineEnd(t, i) == i + |l| && t[i..i + |l|] == l
  {
    assert forall k :: i <= k < i + |l| ==> t[k] == l[k - i];
    assert t[i + |l|] == '\n';
    LineEndIs(t, i, i + |l|);
  }

  lemma TakeStep(f: (Known, string) -> Known, m: Known, t: string, i: nat, l: string, m': Known)
    requires i + |l| < |t| && LineEnd(t, i) == i + |l| && t[i..i + |l|] == l && 0 < |l| <= 160 && f(m, l) == m'
    ensures TakeFrom(f, m, t, i) == TakeFrom(f, m', t, i + |l| + 1)
  {
    assert Cut(l, 160) == l;
  }

  lemma TakeLineOf(m: Known, e: Entry, usb: bool)
    requires KeptKey(e.key, usb) && Accepts(e.key, e.value)
    ensures Take(m, LineOf(e)) == m[e.key := e.value]
  {
    KeptPlain(e, usb);
    ReadLineOf(e);
  }

  lemma Lines(front: string, l: string, rest: string)
    ensures front + (l + "\n" + rest) == (front + (l + "\n")) + rest && |front + (l + "\n")| == |front| + |l| + 1
  {
  }

  /** Reading a kept text at the next start gives back the map that was kept. */
  lemma {:induction false} TakeKept(m: Known, es: seq<Entry>, usb: bool)
    requires Kept(es, usb)
    ensures TakeFrom(Take, m, TextOf(es), 0) == MapOf(m, es)
  {
    forall k: Known, e: Entry | KeptKey(e.key, usb) && Accepts(e.key, e.value)
      ensures Take(k, LineOf(e)) == k[e.key := e.value]
    {
      TakeLineOf(k, e, usb);
    }
    TakeKeptBy(Take, m, TextOf(es), "", 0, es, usb);
  }

  lemma {:induction false} TakeKeptBy(f: (Known, string) -> Known, m: Known, t: string, front: string, i: nat, es: seq<Entry>, usb: bool)
    requires Kept(es, usb) && t == front + TextOf(es) && i == |front|
    requires forall k: Known, e: Entry {:trigger f(k, LineOf(e))} :: KeptKey(e.key, usb) && Accepts(e.key, e.value) ==> f(k, LineOf(e)) == k[e.key := e.value]
    ensures TakeFrom(f, m, t, i) == MapOf(m, es)
    decreases |es|
  {
    if es != [] {
      var next, j := KeptStep(f, m, t, front, i, es, usb);
      TakeKeptBy(f, m[es[0].key := es[0].value], t, next, j, es[1..], usb);
    }
  }

  lemma KeptStep(f: (Known, string) -> Known, m: Known, t: string, front: string, i: nat, es: seq<Entry>, usb: bool) returns (next: string, j: nat)
    requires es != [] && Kept(es, usb) && t == front + TextOf(es) && i == |front|
    requires f(m, LineOf(es[0])) == m[es[0].key := es[0].value]
    ensures t == next + TextOf(es[1..]) && j == |next| && TakeFrom(f, m, t, i) == TakeFrom(f, m[es[0].key := es[0].value], t, j)
  {
    var l := GoodLine(es[0], usb);
    next, j := front + (l + "\n"), i + |l| + 1;
    StepOver(f, m, m[es[0].key := es[0].value], t, front, i, l, TextOf(es[1..]), next, j);
  }

  lemma StepOver(f: (Known, string) -> Known, m: Known, m': Known, t: string, front: string, i: nat, l: string, rest: string, next: string, j: nat)
    requires t == front + (l + "\n" + rest) && i == |front| && 0 < |l| <= 160 && (forall k :: 0 <= k < |l| ==> l[k] != '\n')
    requires f(m, l) == m' && next == front + (l + "\n") && j == i + |l| + 1
    ensures t == next + rest && j == |next| && TakeFrom(f, m, t, i) == TakeFrom(f, m', t, j)
  {
    FirstLine(t, front, l, rest, i);
    TakeStep(f, m, t, i, l, m');
    Lines(front, l, rest);
  }

  lemma GoodLine(e: Entry, usb: bool) returns (l: string)
    requires KeptKey(e.key, usb) && Accepts(e.key, e.value)
    ensures l == LineOf(e) && 0 < |l| <= 160 && forall k :: 0 <= k < |l| ==> l[k] != '\n'
  {
    KeptPlain(e, usb);
    ReadLineOf(e);
    l := LineOf(e);
  }

  /** There are three keys, so at most three lines, and they always fit. */
  lemma {:induction false} KeptSize(es: seq<Entry>, usb: bool)
    requires Kept(es, usb)
    ensures |es| <= 3 && |TextOf(es)| <= 46 * |es|
  {
    if |es| > 3 {
      FourKeys(es[0].key, es[1].key, es[2].key, es[3].key, usb);
    }
    TextSize(es, usb);
  }

  lemma FourKeys(a: string, b: string, c: string, d: string, usb: bool)
    requires KeptKey(a, usb) && KeptKey(b, usb) && KeptKey(c, usb) && KeptKey(d, usb)
    ensures a == b || a == c || a == d || b == c || b == d || c == d
  {
  }

  lemma {:induction false} TextSize(es: seq<Entry>, usb: bool)
    requires Kept(es, usb)
    ensures |TextOf(es)| <= 46 * |es|
    decreases |es|
  {
    if es != [] {
      KeptPlain(es[0], usb);
      TextSize(es[1..], usb);
    }
  }

  lemma {:induction false} TextAppend(es: seq<Entry>, e: Entry)
    ensures TextOf(es + [e]) == TextOf(es) + (LineOf(e) + "\n")
    decreases |es|
  {
    if es == [] {
      assert (es + [e])[1..] == [];
    } else {
      assert (es + [e])[1..] == es[1..] + [e];
      TextAppend(es[1..], e);
    }
  }

  // ----- The sector -----

  /** FNV-1a over the text. */
  function Fnv(t: string): word
  {
    if t == "" then 2166136261 else U32(XorWord(Fnv(t[..|t| - 1]), t[|t| - 1] as int % 256) * 16777619)
  }

  method FnvOf(t: string) returns (h: word)
    ensures h == Fnv(t)
  {
    h := 2166136261;
    for i := 0 to |t|
      invariant h == Fnv(t[..i])
    {
      assert t[..i + 1][..i] == t[..i];
      h := U32(XorWord(h, t[i] as int % 256) * 16777619);
    }
    assert t[..|t|] == t;
  }

  datatype Sector = Erased | Image(magic: word, len: nat, sum: word, body: string)

  datatype Stored = NoText | Stored(text: string)

  /** The text of a sector, or none when it does not add up. */
  function StoredText(s: Sector): Stored
  {
    if s.Image? && s.magic == 0x47464355 && s.len <= 1024 && |s.body| == 1024 && Fnv(s.body[..s.len]) == s.sum
    then Stored(s.body[..s.len]) else NoText
  }

  /** The key a line sets, as line_key finds it. */
  method LineKey(l: string) returns (key: string)
    ensures var k0 := SkipBlanks(l, 0); key == l[k0..KeyEnd(l, k0)]
  {
    var k := Skip(l, 0);
    var e := FindKeyEnd(l, k);
    key := l[k..e];
  }

  lemma LineKeyOf(e: Entry)
    requires Plain(e.key) && Plain(e.value)
    ensures SkipBlanks(LineOf(e), 0) == 0 && KeyEnd(LineOf(e), 0) == |e.key| && LineOf(e)[0..|e.key|] == e.key
  {
    var l, n := LineOf(e), |e.key|;
    assert forall k :: 0 <= k < n ==> l[k] == e.key[k];
    assert l[n] == ' ';
    KeyEndIs(l, 0, n);
  }

  method FindLineEnd(t: string, from: nat) returns (e: nat)
    requires from <= |t|
    ensures e == LineEnd(t, from)
  {
    e := from;
    while e < |t| && t[e] != '\n'
      invariant from <= e <= |t| && LineEnd(t, e) == LineEnd(t, from)
    {
      e := e + 1;
    }
  }

  /** What was kept, less the line of one key: the loop over the old text. */
  method CopyOthers(old': string, canon: string, usb: bool, ghost es: seq<Entry>) returns (text: string, full: bool)
    requires Kept(es, usb) && old' == TextOf(es)
    ensures !full && text == TextOf(Without(es, canon))
  {
    text, full := "", false;
    var at := 0;
    ghost var done: seq<Entry>, rest, front := [], es, "";
    KeptSize(es, usb);
    while at < |old'|
      invariant old' == front + TextOf(rest) && at == |front| && Kept(rest, usb) && |old'| <= 200
      invariant !full && text == TextOf(done) && |text| <= |front| && done + Without(rest, canon) == Without(es, canon)
      decreases |rest|
    {
      WithoutStep(done, rest, canon);
      KeptTail(rest, usb);
      front, done, at, text, full := CopyNext(old', at, text, canon, usb, front, rest, done);
      rest := rest[1..];
    }
    assert rest == [] && done + Without(rest, canon) == done;
  }

  /** One turn of its loop: a line copied, or left out when it sets the key. */
  method CopyNext(old': string, at: nat, text: string, canon: string, usb: bool, ghost front: string, ghost rest: seq<Entry>, ghost done: seq<Entry>)
    returns (ghost front': string, ghost done': seq<Entry>, at': nat, text': string, full: bool)
    requires rest != [] && Kept(rest, usb) && old' == front + TextOf(rest) && at == |front| && |old'| <= 200
    requires text == TextOf(done) && |text| <= |front|
    ensures old' == front' + TextOf(rest[1..]) && at' == |front'|
    ensures done' == (if rest[0].key == canon then done else done + [rest[0]])
    ensures !full && text' == TextOf(done') && |text'| <= |front'|
  {
    ghost var l := NextLine(old', front, at, rest, usb);
    var line, same := ReadKey(old', at, canon, rest[0], usb);
    text', full, done' := text, false, done;
    if !same {
      text', full := CopyLine(text, line, done, rest[0]);
      done' := done + [rest[0]];
    }
    at' := at + |line| + 1;
    front' := front + (l + "\n");
  }

  /** The line of the old text that is looked at, and what is left after it. */
  lemma NextLine(t: string, front: string, at: nat, rest: seq<Entry>, usb: bool) returns (l: string)
    requires t == front + TextOf(rest) && at == |front| && rest != [] && Kept(rest, usb)
    ensures l == LineOf(rest[0]) && at + |l| < |t| && LineEnd(t, at) == at + |l| && t[at..at + |l|] == l
    ensures t == (front + (l + "\n")) + TextOf(rest[1..]) && |front + (l + "\n")| == at + |l| + 1
  {
    l := GoodLine(rest[0], usb);
    Lines(front, l, TextOf(rest[1..]));
    FirstLine(t, front, l, TextOf(rest[1..]), at);
  }

  method CopyLine(text: string, line: string, ghost done: seq<Entry>, ghost e: Entry) returns (r: string, full: bool)
    requires text == TextOf(done) && line == LineOf(e) && |text| + |line| + 1 <= 1024
    ensures !full && r == TextOf(done + [e]) && |r| == |text| + |line| + 1
  {
    r, full := text, false;
    if |text| + |line| + 1 > 1024 {
      full := true;
    } else {
      TextAppend(done, e);
      AppendLine(text, line);
      r := text + line + "\n";
    }
  }

  lemma KeptTail(es: seq<Entry>, usb: bool)
    requires Kept(es, usb) && es != []
    ensures Kept(es[1..], usb)
  {
  }

  lemma {:induction false} WithoutStep(done: seq<Entry>, rest: seq<Entry>, key: string)
    requires rest != []
    ensures done + Without(rest, key) == (if rest[0].key == key then done else done + [rest[0]]) + Without(rest[1..], key)
  {
    Regroup(done, if rest[0].key == key then [] else [rest[0]], Without(rest[1..], key));
  }

  lemma Regroup(a: seq<Entry>, b: seq<Entry>, c: seq<Entry>)
    ensures a + (b + c) == (a + b) + c && a + [] == a
  {
  }

  lemma AppendLine(a: string, l: string)
    ensures a + l + "\n" == a + (l + "\n")
  {
  }

  /** Where a line ends, and whether it sets the key or none at all. */
  method ReadKey(t: string, at: nat, canon: string, ghost e: Entry, ghost usb: bool) returns (line: string, skip: bool)
    requires at + |LineOf(e)| < |t| && LineEnd(t, at) == at + |LineOf(e)| && t[at..at + |LineOf(e)|] == LineOf(e)
    requires KeptKey(e.key, usb) && Accepts(e.key, e.value)
    ensures line == LineOf(e) && skip == (e.key == canon)
  {
    var end := FindLineEnd(t, at);
    line := t[at..end];
    KeptPlain(e, usb);
    LineKeyOf(e);
    var k := LineKey(line);
    var same := KeyIs(k, canon);
    skip := k == "" || same;
  }

  // ----- The store -----

  class Settings {
    const usb: bool
    var sector: Sector
    ghost var kept: seq<Entry>

    /** The sector holds what is kept, or nothing readable when nothing is. */
    ghost predicate Valid()
      reads this
    {
      && Kept(kept, usb)
      && (StoredText(sector) == Stored(TextOf(kept)) || (kept == [] && StoredText(sector).NoText?))
    }

    /** What the next start will read. */
    ghost function Map(): Known
      reads this
    {
      MapOf(map[], kept)
    }

    constructor (usb: bool, sector: Sector)
      requires StoredText(sector).NoText?
      ensures Valid() && kept == [] && this.usb == usb && this.sector == sector
    {
      this.usb, this.sector, kept := usb, sector, [];
    }

    /** The text and the next start agree. */
    method Start() returns (m: Known)
      requires Valid()
      ensures m == Map()
    {
      m := map[];
      var t := StoredText(sector);
      if t.Stored? {
        TakeKept(m, kept, usb);
        m := TakeText(m, t.text);
      }
    }

    /** The key of the list that this one is, or none. */
    method Canon(key: string) returns (canon: string)
      ensures canon == if KeptKey(LowerAll(key), usb) then LowerAll(key) else ""
    {
      var hostname := KeyIs(key, "hostname");
      var address := KeyIs(key, "usb_address");
      var timezone := KeyIs(key, "timezone");
      canon := "";
      if hostname {
        canon := "hostname";
      }
      if usb && address {
        canon := "usb_address";
      }
      if timezone {
        canon := "timezone";
      }
    }

    method Check(canon: string, value: string) returns (ok: bool)
      requires KeptKey(canon, usb)
      ensures ok == Accepts(canon, value)
    {
      if canon == "hostname" {
        ok := ValidHostname(value);
      } else if canon == "usb_address" {
        var a := Address.ParseUsbAddress(value);
        ok := a.Good?;
      } else {
        var m := ParseTimezone(value);
        ok := m.East?;
      }
    }

    /** The new text: what was kept for the other keys, and this one last. It always fits. */
    method NewText(canon: string, value: string) returns (text: string, full: bool)
      requires Valid() && KeptKey(canon, usb) && (value != "" ==> Accepts(canon, value))
      ensures !full && text == TextOf(After(kept, canon, value)) && |text| <= 1024 && Kept(After(kept, canon, value), usb)
    {
      AfterKept(kept, canon, value, usb);
      KeptSize(After(kept, canon, value), usb);
      text, full := "", false;
      var t := StoredText(sector);
      if t.Stored? {
        text, full := CopyOthers(t.text, canon, usb, kept);
      }
      if value != "" {
        AddLast(kept, canon, value, usb);
        if |text| + |canon| + 3 + |value| + 1 > 1024 {
          full := true;
        } else {
          AppendLine(text, canon + " = " + value);
          text := text + (canon + " = " + value) + "\n";
        }
      } else {
        assert After(kept, canon, value) == Without(kept, canon);
      }
    }

    /** ubiqos_config_store. The key is set, or forgotten when the value is empty, and every
        other stays; a bad key, a bad value or no memory changes nothing; -4, "full", is never
        the answer. When the flash does not take the text, what is left reads as no settings. */
    method Store(key: string, value: string, alloc: bool, programs: bool) returns (rc: int)
      requires Valid()
      modifies this
      ensures Valid() && rc != -4
      ensures rc == -2 <==> !KeptKey(LowerAll(key), usb)
      ensures rc == -3 <==> KeptKey(LowerAll(key), usb) && value != "" && !Accepts(LowerAll(key), value)
      ensures rc == -2 || rc == -3 || rc == -6 ==> sector == old(sector) && kept == old(kept)
      ensures rc == -6 ==> !alloc
      ensures rc == 0 ==> Map() == if value == "" then old(Map()) - {LowerAll(key)} else old(Map())[LowerAll(key) := value]
      ensures rc == -5 ==> !programs && kept == []
      ensures rc == 0 || rc == -2 || rc == -3 || rc == -5 || rc == -6
      ensures rc == 0 && kept == [] ==> sector == Erased
    {
      var canon := Canon(key);
      if canon == "" {
        return -2;
      }
      if value != "" {
        var ok := Check(canon, value);
        if !ok {
          return -3;
        }
      }
      if !alloc {
        return -6;
      }
      var text, full := NewText(canon, value);
      if full {
        return -4;
      }
      MapAfter(kept, canon, value);
      rc := Write(text, programs, After(kept, canon, value));
    }

    /** The sector written: the header and the text, or erased when there is no text. */
    method Write(text: string, programs: bool, ghost es: seq<Entry>) returns (rc: int)
      requires Kept(es, usb) && text == TextOf(es) && |text| <= 1024
      modifies this
      ensures Valid() && (rc == 0 || rc == -5)
      ensures rc == 0 ==> kept == es && (es == [] ==> sector == Erased)
      ensures rc == -5 ==> !programs && kept == []
    {
      var sum := FnvOf(text);
      var image := Image(0x47464355, |text|, sum, text + seq(1024 - |text|, i => '\U{00ff}'));
      assert image.body[..|text|] == text;
      EmptyText(es);
      kept, sector := es, Erased;
      if text == "" {
        return 0;
      }
      if !programs {
        kept := [];
        return -5;
      }
      sector := image;
      return 0;
    }
  }

  lemma {:induction false} EmptyText(es: seq<Entry>)
    ensures TextOf(es) == "" <==> es == []
  {
  }

  lemma {:induction false} AddLast(es: seq<Entry>, canon: string, value: string, usb: bool)
    requires Kept(es, usb) && KeptKey(canon, usb) && Accepts(canon, value) && value != ""
    ensures TextOf(After(es, canon, value)) == TextOf(Without(es, canon)) + ((canon + " = " + value) + "\n")
    ensures |TextOf(Without(es, canon))| + |canon| + 3 + |value| + 1 <= 1024
  {
    TextAppend(Without(es, canon), Entry(canon, value));
    AfterKept(es, canon, value, usb);
    KeptSize(After(es, canon, value), usb);
  }
}
