/** A module as the build tool writes it: header, code, name, relocation table, and for a
    module with one tail of writable data a trailer. */
module ModuleFile {
  import opened Bits
  import opened Words
  import opened Relocate
  import opened FlashImage
  import opened Unicode
  import FlashWriter

  // ----- Words in a row -----

  function WordBytes(ws: seq<word>): (b: seq<byte>)
    ensures |b| == 4 * |ws|
  {
    if ws == [] then [] else WordBytes(ws[..|ws| - 1]) + Le32(ws[|ws| - 1])
  }

  function SumOf(ws: seq<word>): nat
  {
    if ws == [] then 0 else SumOf(ws[..|ws| - 1]) + ws[|ws| - 1]
  }

  lemma {:induction false} WordAt(ws: seq<word>, rest: seq<byte>, i: nat)
    requires i < |ws|
    ensures Load32(WordBytes(ws) + rest, 4 * i) == ws[i]
    decreases |ws|
  {
    var n := |ws| - 1;
    var front := WordBytes(ws[..n]);
    if i == n {
      LoadIn(front, ws[n], rest);
    } else {
      WordAt(ws[..n], Le32(ws[n]) + rest, i);
    }
    Joined(front, Le32(ws[n]), rest);
  }

  lemma Joined(a: seq<byte>, b: seq<byte>, c: seq<byte>)
    ensures (a + b) + c == a + (b + c)
  {
  }

  lemma LoadIn(front: seq<byte>, w: word, rest: seq<byte>)
    ensures Load32(front + (Le32(w) + rest), |front|) == w
  {
    var m := front + (Le32(w) + rest);
    assert m[|front|..|front| + 4] == Le32(w);
    LoadLe32(w, m, |front|);
  }

  lemma {:induction false} SumAt(ws: seq<word>, rest: seq<byte>, n: nat)
    requires n <= |ws|
    ensures Sum(WordBytes(ws) + rest, 0, n) == SumOf(ws[..n])
  {
    if n > 0 {
      SumAt(ws, rest, n - 1);
      WordAt(ws, rest, n - 1);
      assert ws[..n][..n - 1] == ws[..n - 1];
    }
  }

  // ----- The file -----

  /** What the header says of a module besides its sizes: its third word, and what comes from
      the symbols and sections of the linked file. */
  datatype Found = Found(exec: word, mem: word, tlsOffset: word, tlsInit: word, tlsTotal: word, revision: word)

  datatype Head = Head(word3: word, found: Found)

  datatype Cut = NoTail | TailAt(offset: nat)

  function TableStart(l: Linked, name: seq<byte>): nat
  {
    56 + |l.code| + |name|
  }

  function Size(l: Linked, name: seq<byte>, es: seq<Entry>, cut: Cut): nat
  {
    TableStart(l, name) + 8 * |es| + if cut.TailAt? then 16 else 0
  }

  /** What the tool can write: sizes of 32 bits, a name of whole words, sites and kinds that
      share a word, and a tail that starts in the code. */
  predicate Writable(l: Linked, name: seq<byte>, es: seq<Entry>, cut: Cut)
  {
    && Size(l, name, es, cut) < 0x1_0000_0000 - 16 && l.bss < 0x1_0000_0000 && |name| >= 4
    && (forall i :: 0 <= i < |es| ==> es[i].site < 0x1000_0000 && es[i].kind < 16)
    && (cut.TailAt? ==> 56 <= cut.offset <= 56 + |l.code|)
  }

  function HeadWords(h: Head, l: Linked, name: seq<byte>, es: seq<Entry>, cut: Cut): (ws: seq<word>)
    requires Writable(l, name, es, cut)
    ensures |ws| == 13
  {
    [0x0509000B, Size(l, name, es, cut), 56 + |l.code|, h.word3, h.found.exec, h.found.mem, h.found.tlsOffset, h.found.tlsInit, h.found.tlsTotal,
     h.found.revision,
     TableStart(l, name), |es|, l.bss]
  }

  function Header(h: Head, l: Linked, name: seq<byte>, es: seq<Entry>, cut: Cut): (ws: seq<word>)
    requires Writable(l, name, es, cut)
    ensures |ws| == 14
  {
    var ws := HeadWords(h, l, name, es, cut);
    ws + [NotWord(U32(SumOf(ws)))]
  }

  function TrailerBytes(cut: Cut): (b: seq<byte>)
    requires cut.TailAt? ==> cut.offset < 0x1_0000_0000
    ensures |b| == if cut.TailAt? then 16 else 0
  {
    if cut.TailAt? then Le32(0x54494c53) + Le32(cut.offset) + Le32(0) + Le32(0) else []
  }

  /** Everything after the header. */
  function Rest(l: Linked, name: seq<byte>, es: seq<Entry>, cut: Cut): (b: seq<byte>)
    requires Writable(l, name, es, cut)
    ensures |b| == Size(l, name, es, cut) - 56
  {
    l.code + name + TableBytes(es) + TrailerBytes(cut)
  }

  /** create_module: the whole file. */
  function File(h: Head, l: Linked, name: seq<byte>, es: seq<Entry>, cut: Cut): (b: seq<byte>)
    requires Writable(l, name, es, cut)
    ensures |b| == Size(l, name, es, cut)
  {
    WordBytes(Header(h, l, name, es, cut)) + Rest(l, name, es, cut)
  }

  lemma HeaderRead(h: Head, l: Linked, name: seq<byte>, es: seq<Entry>, cut: Cut, ws: seq<word>, m: seq<byte>)
    requires Writable(l, name, es, cut) && ws == Header(h, l, name, es, cut) && m == File(h, l, name, es, cut)
    ensures Load32(m, 0) == ws[0] && Load32(m, 4) == ws[1] && Load32(m, 8) == ws[2] && Load32(m, 12) == ws[3]
    ensures Load32(m, 40) == ws[10] && Load32(m, 44) == ws[11] && Load32(m, 48) == ws[12] && Load32(m, 52) == ws[13]
    ensures Sum(m, 0, 13) == SumOf(ws[..13])
  {
    var rest := Rest(l, name, es, cut);
    WordAt(ws, rest, 0);
    WordAt(ws, rest, 1);
    WordAt(ws, rest, 2);
    WordAt(ws, rest, 3);
    WordAt(ws, rest, 10);
    WordAt(ws, rest, 11);
    WordAt(ws, rest, 12);
    WordAt(ws, rest, 13);
    SumAt(ws, rest, 13);
  }

  /** Where the kernel starts a module, and the memory it gives it, are read where the tool put
      what it found. */
  lemma {:induction false} FoundRead(h: Head, l: Linked, name: seq<byte>, es: seq<Entry>, cut: Cut, m: seq<byte>)
    requires Writable(l, name, es, cut) && m == File(h, l, name, es, cut)
    ensures Load32(m, 16) == h.found.exec && Load32(m, 20) == h.found.mem && Load32(m, 36) == h.found.revision
    ensures Load32(m, 24) == h.found.tlsOffset && Load32(m, 28) == h.found.tlsInit && Load32(m, 32) == h.found.tlsTotal
  {
    var ws, rest := Header(h, l, name, es, cut), Rest(l, name, es, cut);
    WordAt(ws, rest, 4);
    WordAt(ws, rest, 5);
    WordAt(ws, rest, 6);
    WordAt(ws, rest, 7);
    WordAt(ws, rest, 8);
    WordAt(ws, rest, 9);
  }

  /** The kernel accepts what the tool writes, and it says its own size. */
  lemma FileIsReady(h: Head, l: Linked, name: seq<byte>, es: seq<Entry>, cut: Cut, here: nat)
    requires Writable(l, name, es, cut) && FlashWriter.RightKind(h.word3, here)
    ensures Ready(File(h, l, name, es, cut), here)
  {
    var ws := Header(h, l, name, es, cut);
    HeaderRead(h, l, name, es, cut, ws, File(h, l, name, es, cut));
    assert ws[..13] == HeadWords(h, l, name, es, cut);
  }

  lemma TableInFile(h: Head, l: Linked, name: seq<byte>, es: seq<Entry>, cut: Cut, m: seq<byte>)
    requires Writable(l, name, es, cut) && m == File(h, l, name, es, cut)
    ensures Entries(m, TableStart(l, name), |es|) == es
  {
    var front := WordBytes(Header(h, l, name, es, cut)) + (l.code + name);
    Parts(WordBytes(Header(h, l, name, es, cut)), l.code + name, TableBytes(es), TrailerBytes(cut));
    TableRead(front, es, TrailerBytes(cut));
  }

  lemma Parts(a: seq<byte>, b: seq<byte>, c: seq<byte>, d: seq<byte>)
    ensures a + (b + c + d) == (a + b) + c + d && a + (b + c + d) == (a + b + c) + d
  {
  }

  lemma TrailerInFile(h: Head, l: Linked, name: seq<byte>, es: seq<Entry>, cut: Cut, m: seq<byte>)
    requires Writable(l, name, es, cut) && m == File(h, l, name, es, cut) && cut.TailAt?
    ensures var at := TableStart(l, name) + 8 * |es|;
      at + 16 <= |m| && Load32(m, at) == 0x54494c53 && Load32(m, at + 4) == cut.offset
  {
    var front := WordBytes(Header(h, l, name, es, cut)) + (l.code + name) + TableBytes(es);
    Parts(WordBytes(Header(h, l, name, es, cut)), l.code + name, TableBytes(es), TrailerBytes(cut));
    LoadTwo(front, 0x54494c53, cut.offset, Le32(0) + Le32(0));
    assert TrailerBytes(cut) == Le32(0x54494c53) + (Le32(cut.offset) + (Le32(0) + Le32(0)));
  }

  lemma LoadTwo(front: seq<byte>, v: word, w: word, rest: seq<byte>)
    ensures var m := front + (Le32(v) + (Le32(w) + rest));
      Load32(m, |front|) == v && Load32(m, |front| + 4) == w
  {
    LoadIn(front, v, Le32(w) + rest);
    Joined(front, Le32(v), Le32(w) + rest);
    LoadIn(front + Le32(v), w, rest);
  }

  /** Entries that stand for records have their sites in the code. */
  lemma SitesInCode(l: Linked, records: seq<Record>, es: seq<Entry>)
    requires LinkedOk(l) && forall e :: e in es ==> exists r :: r in records && Stands(l, r, e)
    ensures forall i :: 0 <= i < |es| ==> 56 <= es[i].site < 56 + |l.code| && es[i].site < 0x1000_0000
  {
    forall i | 0 <= i < |es|
      ensures 56 <= es[i].site < 56 + |l.code| && es[i].site < 0x1000_0000
    {
      assert es[i] in es;
      var r :| r in records && Stands(l, r, es[i]);
    }
  }

  /** What the tool writes from what it collected is a module that can be laid out: its table
      lies in it and is read back, every site lies between header and table, and a module that
      is to be split has its trailer. */
  lemma FileIsWellMade(h: Head, l: Linked, name: seq<byte>, records: seq<Record>, es: seq<Entry>, cut: Cut, here: nat)
    requires Writable(l, name, es, cut) && LinkedOk(l) && FlashWriter.RightKind(h.word3, here)
    requires forall e :: e in es ==> exists r :: r in records && Stands(l, r, e)
    requires FlashWriter.IsSplit(h.word3) ==> cut.TailAt?
    ensures FlashWriter.WellMade(File(h, l, name, es, cut), here) && FlashWriter.TableOf(File(h, l, name, es, cut)) == es
  {
    var m, ws := File(h, l, name, es, cut), Header(h, l, name, es, cut);
    HeaderRead(h, l, name, es, cut, ws, m);
    TableInFile(h, l, name, es, cut, m);
    SitesInCode(l, records, es);
    assert SitesOk(m, TableStart(l, name), |es|);
    if cut.TailAt? {
      TrailerInFile(h, l, name, es, cut, m);
    }
  }

  // ----- The attributes -----

  datatype Kind = Program | Driver | Data | Library

  /** What the build asks for. */
  datatype Asked = Asked(kind: Kind, single: bool, realtime: bool, autostart: bool, plain: bool)

  /** What the tool finds in the sections of the linked file: the machine, whether there is
      writable data, where that starts if it is one tail, and the strictest alignment. */
  datatype Sections = Sections(arch: nat, writable: bool, tail: Cut, alignment: nat)

  /** Only a program is started at boot, only data is plain, and the loader aligns to sixteen. */
  predicate Stopped(a: Asked, s: Sections)
  {
    (a.autostart && !a.kind.Program?) || (a.plain && !a.kind.Data?) || s.alignment > 16
  }

  function TypeOf(k: Kind): nat
  {
    match k case Program => 1 case Driver => 2 case Data => 3 case Library => 4
  }

  /** It cannot run where it lies: it has addresses to fix, memory to clear, or data to write. */
  predicate MustMove(l: Linked, es: seq<Entry>, s: Sections)
  {
    es != [] || l.bss > 0 || s.writable
  }

  /** Once its addresses are fixed it can. */
  predicate CanRunInPlace(a: Asked, l: Linked, es: seq<Entry>, s: Sections)
  {
    es != [] && l.bss == 0 && !s.writable && !a.single
  }

  /** Where a program of one instance is cut, its writable data being one tail. */
  function CutOf(a: Asked, l: Linked, s: Sections): Cut
  {
    if a.single && a.kind.Program? && (l.bss > 0 || s.writable) then s.tail else NoTail
  }

  function If(b: bool): (n: nat)
    ensures n <= 1
  {
    if b then 1 else 0
  }

  function Attributes(a: Asked, l: Linked, es: seq<Entry>, s: Sections): (n: nat)
    ensures n < 0x80
  {
    If(!a.single) + 2 * If(a.realtime) + 4 * If(MustMove(l, es, s)) + 8 * If(a.autostart) + 0x10 * If(a.plain)
    + 0x20 * If(CanRunInPlace(a, l, es, s)) + 0x40 * If(CutOf(a, l, s).TailAt?)
  }

  /** Type, machine and language below, the interface's version and the attributes above. */
  function Word3Of(a: Asked, l: Linked, es: seq<Entry>, s: Sections): word
    requires s.arch < 16
  {
    TypeOf(a.kind) * 0x100 + s.arch * 0x10 + 1 + 0x1_0000 * (10 + 0x100 * Attributes(a, l, es, s))
  }

  lemma FieldsOf(w: nat, t: nat, arch: nat, attrs: nat)
    requires t < 0x100 && arch < 16 && w == t * 0x100 + arch * 0x10 + 1 + 0x1_0000 * (10 + 0x100 * attrs)
    ensures w / 0x100_0000 == attrs && w / 0x1_0000 % 0x100 == 10 && w / 0x100 % 0x100 == t && w / 0x10 % 0x10 == arch
  {
    HighField(w, t * 0x100 + arch * 0x10 + 1, attrs);
    TypeIs(w, t, arch * 0x10 + 1, 10 + 0x100 * attrs);
    MachineIs(w, t, arch, 10 + 0x100 * attrs);
  }

  lemma HighField(w: nat, low: nat, attrs: nat)
    requires low < 0x1_0000 && w == low + 0x1_0000 * (10 + 0x100 * attrs)
    ensures w / 0x100_0000 == attrs && w / 0x1_0000 % 0x100 == 10
  {
    assert w / 0x1_0000 == 10 + 0x100 * attrs;
  }

  lemma TypeIs(w: nat, t: nat, low: nat, high: nat)
    requires t < 0x100 && low < 0x100 && w == t * 0x100 + low + 0x1_0000 * high
    ensures w / 0x100 % 0x100 == t
  {
    assert w / 0x100 == t + 0x100 * high;
  }

  lemma MachineIs(w: nat, t: nat, arch: nat, high: nat)
    requires arch < 16 && w == t * 0x100 + arch * 0x10 + 1 + 0x1_0000 * high
    ensures w / 0x10 % 0x10 == arch
  {
    assert w / 0x10 == arch + 0x10 * (t + 0x100 * high);
  }

  /** The attributes, wherever they lie in the word. */
  lemma AttributeBits(w: nat, low: nat, plain: nat, place: nat, cut: nat, move: nat, auto: nat)
    requires low < 4 && plain <= 1 && place <= 1 && cut <= 1 && move <= 1 && auto <= 1
    requires w / 0x100_0000 == low + 4 * move + 8 * auto + 0x10 * plain + 0x20 * place + 0x40 * cut
    ensures w / 0x400_0000 % 2 == move && w / 0x1000_0000 % 2 == plain && w / 0x2000_0000 % 2 == place && w / 0x4000_0000 % 2 == cut
  {
    var q := w / 0x100_0000;
    Nested(w, q);
    BitTwo(q, low, move, auto + 2 * plain + 4 * place + 8 * cut);
    BitFour(q, low + 4 * move + 8 * auto, plain, place + 2 * cut);
    BitFive(q, low + 4 * move + 8 * auto + 0x10 * plain, place, cut);
    BitSix(q, low + 4 * move + 8 * auto + 0x10 * plain + 0x20 * place, cut);
  }

  lemma Nested(w: nat, q: nat)
    requires q == w / 0x100_0000
    ensures w / 0x400_0000 == q / 4 && w / 0x1000_0000 == q / 0x10 && w / 0x2000_0000 == q / 0x20 && w / 0x4000_0000 == q / 0x40
  {
  }

  lemma BitTwo(q: nat, low: nat, bit: nat, high: nat)
    requires low < 4 && bit <= 1 && q == low + 4 * bit + 8 * high
    ensures q / 4 % 2 == bit
  {
    assert q / 4 == bit + 2 * high;
  }

  lemma BitFour(q: nat, low: nat, bit: nat, high: nat)
    requires low < 0x10 && bit <= 1 && q == low + 0x10 * bit + 0x20 * high
    ensures q / 0x10 % 2 == bit
  {
    assert q / 0x10 == bit + 2 * high;
  }

  lemma BitFive(q: nat, low: nat, bit: nat, high: nat)
    requires low < 0x20 && bit <= 1 && q == low + 0x20 * bit + 0x40 * high
    ensures q / 0x20 % 2 == bit
  {
    assert q / 0x20 == bit + 2 * high;
  }

  lemma BitSix(q: nat, low: nat, bit: nat)
    requires low < 0x40 && bit <= 1 && q == low + 0x40 * bit
    ensures q / 0x40 % 2 == bit
  {
    assert q / 0x40 == bit;
  }

  lemma {:induction false} BitZero(q: nat, bit: nat, high: nat)
    requires bit <= 1 && q == bit + 2 * high
    ensures q % 2 == bit
  {
  }

  lemma {:induction false} BitOne(q: nat, low: nat, bit: nat, high: nat)
    requires low < 2 && bit <= 1 && q == low + 2 * bit + 4 * high
    ensures q / 2 % 2 == bit
  {
    assert q / 2 == bit + 2 * high;
  }

  lemma {:induction false} BitThree(q: nat, low: nat, bit: nat, high: nat)
    requires low < 8 && bit <= 1 && q == low + 8 * bit + 0x10 * high
    ensures q / 8 % 2 == bit
  {
    assert q / 8 == bit + 2 * high;
  }

  /** And in the attributes, what the build asked for: one instance or any number, memory that
      is fast, a start at boot. */
  lemma AskedFor(a: Asked, l: Linked, es: seq<Entry>, s: Sections, w: word)
    requires s.arch < 16 && w == Word3Of(a, l, es, s)
    ensures var q := w / 0x100_0000; (q % 2 == 0 <==> a.single) && (q / 2 % 2 == 1 <==> a.realtime) && (q / 8 % 2 == 1 <==> a.autostart)
  {
    FieldsOf(w, TypeOf(a.kind), s.arch, Attributes(a, l, es, s));
    LowBits(w / 0x100_0000, If(!a.single), If(a.realtime), If(MustMove(l, es, s)), If(a.autostart),
            If(a.plain) + 2 * If(CanRunInPlace(a, l, es, s)) + 4 * If(CutOf(a, l, s).TailAt?));
  }

  lemma LowBits(q: nat, many: nat, fast: nat, move: nat, auto: nat, high: nat)
    requires many <= 1 && fast <= 1 && move <= 1 && auto <= 1 && q == many + 2 * fast + 4 * move + 8 * auto + 0x10 * high
    ensures q % 2 == many && q / 2 % 2 == fast && q / 8 % 2 == auto
  {
    BitZero(q, many, fast + 2 * move + 4 * auto + 8 * high);
    BitOne(q, many, fast, move + 2 * auto + 4 * high);
    BitThree(q, many + 2 * fast + 4 * move, auto, high);
  }

  /** What the kernel and the image tool read in the third word is what the tool found: for which
      machine, whether it is a descriptor, and how it can be placed. */
  lemma AttributesSay(a: Asked, l: Linked, es: seq<Entry>, s: Sections, w: word)
    requires s.arch < 16 && w == Word3Of(a, l, es, s)
    ensures forall here: nat :: FlashWriter.RightKind(w, here) <==> a.kind.Data? || here == s.arch
    ensures w / 0x100 % 0x100 == TypeOf(a.kind) && (w / 0x1000_0000 % 2 == 0 <==> !a.plain)
    ensures FlashWriter.Private(w) == MustMove(l, es, s)
    ensures FlashWriter.Placeable(w) == CanRunInPlace(a, l, es, s)
    ensures FlashWriter.IsSplit(w) == CutOf(a, l, s).TailAt?
  {
    FieldsOf(w, TypeOf(a.kind), s.arch, Attributes(a, l, es, s));
    AttributeBits(w, If(!a.single) + 2 * If(a.realtime), If(a.plain), If(CanRunInPlace(a, l, es, s)), If(CutOf(a, l, s).TailAt?),
                  If(MustMove(l, es, s)), If(a.autostart));
  }

  // ----- The name -----

  /** A character that the command line can hold. */
  type CodePoint = c: nat | 0 < c < 0xd800 || 0xe000 <= c < 0x11_0000 witness 1

  /** Space, tab and / \ : * ? " < > | are not for a name. */
  const BAD: seq<nat> := [32, 9, 47, 92, 58, 42, 63, 34, 60, 62, 124]

  predicate Usable(title: seq<CodePoint>)
  {
    0 < |title| <= 15 && forall i :: 0 <= i < |title| ==> title[i] !in BAD
  }

  /** The name in the file: it ends with a zero, and fills whole words. */
  function NameBytes(title: seq<CodePoint>): (b: seq<byte>)
    ensures |b| >= 4 && |b| % 4 == 0 && Encoded(title) + [0] <= b
  {
    Padded(Encoded(title) + [0], 4)
  }

  /** The first fifteen bytes of a text. */
  function FirstFifteen(t: seq<byte>): seq<byte>
  {
    if |t| <= 15 then t else t[..15]
  }

  /** The name that the kernel reads in a module. */
  predicate Named(m: seq<byte>, name: seq<byte>)
  {
    12 <= |m| && NameEnds(m, Load32(m, 8), 0) && NameOf(m, Load32(m, 8), 0) == name
  }

  lemma {:induction false} NameRead(m: seq<byte>, at: nat, t: seq<byte>, n: nat)
    requires at + |t| < |m| && m[at..at + |t| + 1] == t + [0] && 0 !in t && n <= 15 && n <= |t|
    ensures NameEnds(m, at + n, n) && NameOf(m, at + n, n) == FirstFifteen(t)[n..]
    decreases 15 - n
  {
    assert m[at + n] == m[at..at + |t| + 1][n];
    if n < 15 && n < |t| {
      NameRead(m, at, t, n + 1);
    }
  }

  /** A file with a usable name is known by the first fifteen bytes of it: by the whole name
      exactly when that is no longer in UTF-8, as it never is in ASCII. */
  lemma NameKnown(h: Head, l: Linked, title: seq<CodePoint>, es: seq<Entry>, cut: Cut)
    requires Usable(title) && Writable(l, NameBytes(title), es, cut)
    ensures Named(File(h, l, NameBytes(title), es, cut), FirstFifteen(Encoded(title)))
    ensures Named(File(h, l, NameBytes(title), es, cut), Encoded(title)) <==> |Encoded(title)| <= 15
    ensures (forall i :: 0 <= i < |title| ==> title[i] < 0x80) ==> |Encoded(title)| <= 15
  {
    NoZero(title);
    NameIs(h, l, NameBytes(title), es, cut, Encoded(title));
    if forall i :: 0 <= i < |title| ==> title[i] < 0x80 {
      AsciiSize(title);
    }
  }

  lemma NameIs(h: Head, l: Linked, name: seq<byte>, es: seq<Entry>, cut: Cut, t: seq<byte>)
    requires Writable(l, name, es, cut) && t + [0] <= name && 0 !in t
    ensures Named(File(h, l, name, es, cut), FirstFifteen(t))
  {
    var m, at, n := File(h, l, name, es, cut), 56 + |l.code|, 0;
    HeaderRead(h, l, name, es, cut, Header(h, l, name, es, cut), m);
    NameInFile(WordBytes(Header(h, l, name, es, cut)), l.code, name, TableBytes(es), TrailerBytes(cut), m, t);
    NameRead(m, at, t, n);
    NamedBy(m, at, t);
  }

  lemma NamedBy(m: seq<byte>, at: nat, t: seq<byte>)
    requires 12 <= |m| && Load32(m, 8) == at && NameEnds(m, at, 0) && NameOf(m, at, 0) == FirstFifteen(t)
    ensures Named(m, FirstFifteen(t))
  {
  }

  lemma NameInFile(head: seq<byte>, code: seq<byte>, name: seq<byte>, table: seq<byte>, trailer: seq<byte>, m: seq<byte>, t: seq<byte>)
    requires |head| == 56 && m == head + (code + name + table + trailer) && t + [0] <= name
    ensures 56 + |code| + |t| < |m| && m[56 + |code|..56 + |code| + |t| + 1] == t + [0]
  {
    assert m == (head + code) + name + (table + trailer);
  }

  /** Eight letters of two bytes are cut to seven and a half. */
  lemma NameCut(title: seq<CodePoint>)
    requires title == [0xe9, 0xe9, 0xe9, 0xe9, 0xe9, 0xe9, 0xe9, 0xe9]
    ensures Usable(title) && FirstFifteen(Encoded(title)) != Encoded(title)
  {
    Doubled(title);
  }

  lemma {:induction false} Doubled(title: seq<CodePoint>)
    requires forall i :: 0 <= i < |title| ==> title[i] == 0xe9
    ensures |Encoded(title)| == 2 * |title|
  {
    if title != [] {
      Doubled(title[..|title| - 1]);
    }
  }

  // ----- The whole tool -----

  datatype Made = Refused | TooLarge | Module(file: seq<byte>)

  /** collect_relocs and create_module: whatever the records, the tool stops, or writes a module
      that the kernel of its machine accepts, and of every machine if it is data, and that the
      image tool can lay out, with an entry for every record that means an address in it. */
  method CreateModule(l: Linked, records: seq<Record>, a: Asked, s: Sections, f: Found, title: seq<CodePoint>)
    returns (r: Made, ghost es: seq<Entry>)
    requires LinkedOk(l) && s.arch < 16 && (forall r :: r in records ==> r.kind < 16)
    requires s.tail.TailAt? ==> 56 <= s.tail.offset <= 56 + |l.code|
    ensures r.Refused? <==> !Usable(title) || Stopped(a, s) || exists q :: q in records && Relocate.Refused(l, q)
    ensures r.Module? ==> forall here: nat :: Ready(r.file, here) <==> a.kind.Data? || here == s.arch
    ensures r.Module? ==> forall here: nat :: a.kind.Data? || here == s.arch ==> FlashWriter.WellMade(r.file, here)
    ensures r.Module? ==> FlashWriter.WellMade(r.file, s.arch) && FlashWriter.TableOf(r.file) == es && Load32(r.file, 12) == Word3Of(a, l, es, s)
    ensures r.Module? ==> Named(r.file, FirstFifteen(Encoded(title)))
    ensures r.Module? ==> forall q :: q in records && Meaning(l, q).Value? ==> Inside(l, Meaning(l, q).value) && EntryOf(l, q) in es
  {
    es := [];
    if !Usable(title) || s.alignment > 16 {
      return Refused, es;
    }
    var t := Collect(l, records);
    if t.Bad? {
      return Refused, es;
    }
    es := t.entries;
    if (a.autostart && a.kind != Program) || (a.plain && a.kind != Data) {
      return Refused, es;
    }
    var cut, word3 := CutOf(a, l, s), Word3Of(a, l, t.entries, s);
    if Size(l, NameBytes(title), t.entries, cut) >= 0x1_0000_0000 - 16 {
      return TooLarge, es;
    }
    KindsFit(l, records, t.entries);
    NameKnown(Head(word3, f), l, title, es, cut);
    AttributesSay(a, l, es, s, word3);
    FileIs(Head(word3, f), l, NameBytes(title), records, es, cut, s.arch, a.kind.Data?);
    return Module(File(Head(word3, f), l, NameBytes(title), t.entries, cut)), es;
  }

  /** The two laws of a file, on every machine that it is for. */
  lemma FileIs(h: Head, l: Linked, name: seq<byte>, records: seq<Record>, es: seq<Entry>, cut: Cut, arch: nat, data: bool)
    requires Writable(l, name, es, cut) && LinkedOk(l) && (FlashWriter.IsSplit(h.word3) ==> cut.TailAt?)
    requires forall here: nat :: FlashWriter.RightKind(h.word3, here) <==> data || here == arch
    requires forall e :: e in es ==> exists r :: r in records && Stands(l, r, e)
    ensures var m := File(h, l, name, es, cut);
      FlashWriter.WellMade(m, arch) && FlashWriter.TableOf(m) == es && Load32(m, 12) == h.word3
      && (forall here: nat :: Ready(m, here) <==> data || here == arch)
      && forall here: nat :: data || here == arch ==> FlashWriter.WellMade(m, here)
  {
    var m := File(h, l, name, es, cut);
    HeaderRead(h, l, name, es, cut, Header(h, l, name, es, cut), m);
    FileIsWellMade(h, l, name, records, es, cut, arch);
    forall here: nat
      ensures Ready(m, here) <==> data || here == arch
      ensures data || here == arch ==> FlashWriter.WellMade(m, here)
    {
      if FlashWriter.RightKind(h.word3, here) {
        FileIsReady(h, l, name, es, cut, here);
        FileIsWellMade(h, l, name, records, es, cut, here);
      } else {
        OnlyRightKind(m, h.word3, here);
      }
    }
  }

  lemma OnlyRightKind(m: seq<byte>, word3: word, here: nat)
    requires 56 <= |m| && Load32(m, 12) == word3 && !FlashWriter.RightKind(word3, here)
    ensures !Ready(m, here)
  {
  }

  lemma KindsFit(l: Linked, records: seq<Record>, es: seq<Entry>)
    requires LinkedOk(l) && (forall r :: r in records ==> r.kind < 16) && forall e :: e in es ==> exists r :: r in records && Stands(l, r, e)
    ensures forall i :: 0 <= i < |es| ==> es[i].site < 0x1000_0000 && es[i].kind < 16
  {
    forall i | 0 <= i < |es|
      ensures es[i].site < 0x1000_0000 && es[i].kind < 16
    {
      assert es[i] in es;
      var r :| r in records && Stands(l, r, es[i]);
    }
  }
}
