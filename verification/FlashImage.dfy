/** The image of modules in flash: the tool that lays modules out one after another, and
    the kernel that walks from one to the next until the first word that is no module. */
module FlashImage {
  import opened Bits
  import opened Relocate

  // ----- The header -----

  /** The sum of n words of memory from o on. */
  function Sum(mem: seq<byte>, o: nat, n: nat): nat
    requires o + 4 * n <= |mem|
    decreases n, mem
  {
    if n == 0 then 0 else Sum(mem, o, n - 1) + Load32(mem, o + 4 * (n - 1))
  }

  /** verify_ubiqos_header for a header at o: a module, of this interface, for this machine
      unless it is data, whose first thirteen words sum to the complement of the last. */
  predicate Verified(mem: seq<byte>, o: nat, here: nat)
  {
    && o + 56 <= |mem|
    && Load32(mem, o) == 0x0509000B
    && Load32(mem, o + 12) / 0x1_0000 % 0x100 == 10
    && (Load32(mem, o + 12) / 0x100 % 0x100 != 3 ==> Load32(mem, o + 12) / 0x10 % 0x10 == here)
    && Load32(mem, o + 52) == NotWord(U32(Sum(mem, o, 13)))
  }

  method VerifyHeader(mem: seq<byte>, o: nat, here: nat) returns (ok: bool)
    requires o + 56 <= |mem|
    ensures ok == Verified(mem, o, here)
  {
    var sync := LoadWord(mem, o);
    if sync != 0x0509000B {
      return false;
    }
    var word3 := LoadWord(mem, o + 12);
    var typeLang, attrRev := word3 % 0x1_0000, word3 / 0x1_0000;
    if attrRev % 0x100 != 10 {
      return false;
    }
    if typeLang / 0x100 != 3 && typeLang / 0x10 % 0x10 != here {
      TypeField(word3);
      return false;
    }
    TypeField(word3);
    var checksum: word := 0;
    for i := 0 to 13
      invariant checksum == U32(Sum(mem, o, i))
    {
      var w := LoadWord(mem, o + 4 * i);
      SumWraps(Sum(mem, o, i), w);
      checksum := AddWord(checksum, w);
    }
    var crc := LoadWord(mem, o + 52);
    return crc == NotWord(checksum);
  }

  lemma TypeField(w: word)
    ensures w % 0x1_0000 / 0x100 == w / 0x100 % 0x100 && w % 0x1_0000 / 0x10 % 0x10 == w / 0x10 % 0x10
  {
    HalfBits(w / 0x1_0000, w % 0x1_0000);
  }

  lemma HalfBits(q: nat, r: nat)
    requires r < 0x1_0000
    ensures (0x1_0000 * q + r) / 0x100 % 0x100 == r / 0x100 && (0x1_0000 * q + r) / 0x10 % 0x10 == r / 0x10 % 0x10
  {
    ByteOf(q, r / 0x100, r % 0x100);
    NibbleOf(0x100 * q + r / 0x100, r % 0x100);
    NibbleOf(r / 0x100, r % 0x100);
    assert 0x1_0000 * q + r == 0x100 * (0x100 * q + r / 0x100) + r % 0x100;
  }

  lemma ByteOf(q: nat, x: nat, r: nat)
    requires x < 0x100 && r < 0x100
    ensures (0x100 * (0x100 * q + x) + r) / 0x100 % 0x100 == x
  {
    assert (0x100 * (0x100 * q + x) + r) / 0x100 == 0x100 * q + x;
  }

  lemma NibbleOf(q: nat, r: nat)
    requires r < 0x100
    ensures (0x100 * q + r) / 0x10 % 0x10 == r / 0x10
  {
    assert (0x100 * q + r) / 0x10 == 0x10 * q + r / 0x10;
  }

  lemma SumWraps(a: nat, w: word)
    ensures AddWord(U32(a), w) == U32(a + w)
  {
  }

  lemma {:induction false} SameSum(mem: seq<byte>, o: nat, m: seq<byte>, n: nat)
    requires o + |m| <= |mem| && 4 * n <= |m| && mem[o..o + |m|] == m
    ensures Sum(mem, o, n) == Sum(m, 0, n)
  {
    if n > 0 {
      SameSum(mem, o, m, n - 1);
      SameWord(mem, o, m, 4 * (n - 1));
    }
  }

  lemma SameWord(mem: seq<byte>, o: nat, m: seq<byte>, i: nat)
    requires i + 4 <= |m| && o + |m| <= |mem| && mem[o..o + |m|] == m
    ensures Load32(mem, o + i) == Load32(m, i)
  {
    assert m[i] == mem[o + i] && m[i + 1] == mem[o + (i + 1)] && m[i + 2] == mem[o + (i + 2)] && m[i + 3] == mem[o + (i + 3)];
  }

  /** A header verifies wherever its module lies. */
  lemma VerifiedMoves(mem: seq<byte>, o: nat, m: seq<byte>, here: nat)
    requires 56 <= |m| && o + |m| <= |mem| && mem[o..o + |m|] == m
    ensures Verified(mem, o, here) == Verified(m, 0, here) && Load32(mem, o + 4) == Load32(m, 4)
  {
    SameSum(mem, o, m, 13);
    SameWord(mem, o, m, 0);
    SameWord(mem, o, m, 4);
    SameWord(mem, o, m, 12);
    SameWord(mem, o, m, 52);
  }

  /** A module as the walk needs it: it verifies, and says its own size. */
  predicate Ready(m: seq<byte>, here: nat)
  {
    Verified(m, 0, here) && Load32(m, 4) == |m|
  }

  // ----- The image -----

  function Gap4(n: nat): (g: nat)
    ensures g < 4 && (n + g) % 4 == 0
  {
    if n % 4 == 0 then 0 else 4 - n % 4
  }

  function Gap16(n: nat): (g: nat)
    ensures g < 16 && (n + g) % 16 == 0
  {
    if n % 16 == 0 then 0 else 16 - n % 16
  }

  /** A sequence made a multiple of k long with zeros. */
  function Padded(m: seq<byte>, k: nat): (p: seq<byte>)
    requires k == 4 || k == 16
    ensures (if k == 4 then |p| % 4 else |p| % 16) == 0 && |m| <= |p| < |m| + k && p[..|m|] == m
  {
    m + Zeros(if k == 4 then Gap4(|m|) else Gap16(|m|))
  }

  /** Modules one after another, each on a multiple of four. */
  function Laid(mods: seq<seq<byte>>): (b: seq<byte>)
    ensures |b| % 4 == 0
  {
    if mods == [] then [] else Laid(mods[..|mods| - 1]) + Padded(mods[|mods| - 1], 4)
  }

  /** Where module i starts. */
  function Offset(mods: seq<seq<byte>>, i: nat): nat
    requires i <= |mods|
  {
    |Laid(mods[..i])|
  }

  lemma {:induction false} LaidFront(mods: seq<seq<byte>>, i: nat)
    requires i <= |mods|
    ensures Offset(mods, i) <= |Laid(mods)| && Laid(mods)[..Offset(mods, i)] == Laid(mods[..i])
    decreases |mods|
  {
    if i == |mods| {
      assert mods[..i] == mods;
    } else {
      var front := mods[..|mods| - 1];
      LaidFront(front, i);
      assert front[..i] == mods[..i];
    }
  }

  lemma {:induction false} LaidSplit(mods: seq<seq<byte>>, i: nat)
    requires i < |mods|
    ensures Offset(mods, i) + |Padded(mods[i], 4)| == Offset(mods, i + 1) <= |Laid(mods)|
    ensures Laid(mods)[..Offset(mods, i)] == Laid(mods[..i])
    ensures Laid(mods)[Offset(mods, i)..Offset(mods, i + 1)] == Padded(mods[i], 4)
  {
    LaidFront(mods, i + 1);
    assert mods[..i + 1][..i] == mods[..i];
    LastPart(Laid(mods), Laid(mods[..i]), Padded(mods[i], 4));
  }

  lemma LastPart(l: seq<byte>, a: seq<byte>, p: seq<byte>)
    requires |a + p| <= |l| && l[..|a + p|] == a + p
    ensures l[..|a|] == a && l[|a|..|a| + |p|] == p
  {
    assert l[..|a|] == l[..|a + p|][..|a|] && l[|a|..|a| + |p|] == l[..|a + p|][|a|..];
  }

  // ----- One step -----

  /** Memory is the whole address space: a header with a wild size or a wild name offset is
      followed wherever that leads. */
  predicate AddressSpace(mem: seq<byte>)
  {
    |mem| == 0x1_0000_0000
  }

  /** Where a region may begin and end: low enough that the end of a header still has a 32-bit
      address at every place that a walk comes to, three bytes past the end of the region at
      most. */
  type Low = a: nat | a <= 0xffff_ffc4

  /** A module lies at p: it verifies, and ends before the region does. */
  predicate Module(mem: seq<byte>, end: Low, p: nat, here: nat)
  {
    p + 56 < end <= |mem| && Verified(mem, p, here) && 0 < Load32(mem, p + 4) && p + Load32(mem, p + 4) <= end
  }

  function Up4(n: nat): nat
  {
    (n + 3) / 4 * 4
  }

  /** A header that verifies and whose size takes its address past 32 bits, so that the check
      against the end of the region does not see it. */
  predicate Wraps(mem: seq<byte>, end: Low, p: nat, here: nat)
  {
    p + 56 < end <= |mem| && Verified(mem, p, here) && p + Load32(mem, p + 4) >= 0x1_0000_0000
  }

  /** p past a module of that size, on the next multiple of four, in 32-bit numbers. */
  function Stepped(p: nat, size: word): word
  {
    var padded: nat := U32(size + 3);
    U32(p + padded / 4 * 4)
  }

  /** Where flash_step goes on from p, or -1 where it finds nothing. */
  function Next(mem: seq<byte>, end: Low, p: nat, here: nat): (n: int)
    ensures n < 0x1_0000_0000 && (n >= 0 ==> p < end)
  {
    if p + 56 < end <= |mem| && Verified(mem, p, here) && Load32(mem, p + 4) != 0 && U32(p + Load32(mem, p + 4)) <= end
    then Stepped(p, Load32(mem, p + 4)) else -1
  }

  /** flash_step */
  method FlashStep(mem: seq<byte>, end: Low, p: word, here: nat) returns (found: bool, next: word)
    requires AddressSpace(mem) && p + 56 < 0x1_0000_0000
    ensures found == (Next(mem, end, p, here) >= 0) && next + 56 < 0x1_0000_0000
    ensures next == if found then Next(mem, end, p, here) else p
  {
    next := p;
    if p + 56 >= end {
      return false, p;
    }
    var sync := LoadWord(mem, p);
    if sync != 0x0509000B {
      return false, p;
    }
    var size := LoadWord(mem, p + 4);
    if size == 0 || U32(p + size) > end {
      return false, p;
    }
    var ok := VerifyHeader(mem, p, here);
    if !ok {
      return false, p;
    }
    SizeFits(p, size, end);
    return true, Stepped(p, size);
  }

  /** It goes on exactly from a module, to where that ends; or from a size that wraps, which it
      takes for a module, and then it goes no further on. */
  lemma NextIs(mem: seq<byte>, end: Low, p: nat, here: nat)
    requires AddressSpace(mem)
    ensures Next(mem, end, p, here) >= 0 <==> Module(mem, end, p, here) || Wraps(mem, end, p, here)
    ensures Module(mem, end, p, here) ==> Next(mem, end, p, here) == p + Up4(Load32(mem, p + 4)) > p
    ensures Wraps(mem, end, p, here) ==> Next(mem, end, p, here) <= p
  {
    if p + 56 < end && Verified(mem, p, here) {
      SizeFits(p, Load32(mem, p + 4), end);
    }
  }

  /** The check against the end of the region, with and without a wrap. */
  lemma SizeFits(p: nat, size: word, end: Low)
    requires p < end
    ensures p + size < 0x1_0000_0000 ==> U32(p + size) == p + size
    ensures p + size >= 0x1_0000_0000 ==> U32(p + size) < p && Stepped(p, size) <= p
    ensures p + size <= end ==> Stepped(p, size) == p + Up4(size)
  {
    if size + 3 < 0x1_0000_0000 {
      assert U32(size + 3) == size + 3;
    } else {
      assert U32(size + 3) < 3 && U32(size + 3) / 4 * 4 == 0;
    }
  }

  // ----- Steps one after another -----

  /** The places visited from p, n at most. */
  function Path(f: nat -> int, p: nat, n: nat): (w: seq<nat>)
    ensures |w| <= n
    decreases n
  {
    if n == 0 || f(p) < 0 then [] else [p] + Path(f, f(p), n - 1)
  }

  /** No more than n steps lead to a place where nothing is found. */
  predicate Ends(f: nat -> int, p: nat, n: nat)
    decreases n
  {
    f(p) < 0 || (n > 0 && Ends(f, f(p), n - 1))
  }

  lemma {:induction false} MoreSteps(f: nat -> int, p: nat, n: nat, k: nat)
    requires Ends(f, p, n) && n <= k
    ensures Ends(f, p, k) && Path(f, p, k) == Path(f, p, n)
    decreases n
  {
    if f(p) >= 0 {
      MoreSteps(f, f(p), n - 1, k - 1);
    }
  }

  lemma {:induction false} JustEnough(f: nat -> int, p: nat, n: nat)
    requires Ends(f, p, n)
    ensures Ends(f, p, |Path(f, p, n)|)
    decreases n
  {
    if f(p) >= 0 {
      JustEnough(f, f(p), n - 1);
    }
  }

  lemma {:induction false} Suffix(f: nat -> int, p: nat, n: nat, i: nat)
    requires Ends(f, p, n) && i < |Path(f, p, n)|
    ensures Ends(f, Path(f, p, n)[i], n) && Path(f, Path(f, p, n)[i], n) == Path(f, p, n)[i..]
    decreases n
  {
    var w := Path(f, p, n);
    if i > 0 {
      Suffix(f, f(p), n - 1, i - 1);
      MoreSteps(f, w[i], n - 1, n);
      assert w[1..] == Path(f, f(p), n - 1) && w[1..][i - 1..] == w[i..];
    }
  }

  predicate Distinct(w: seq<nat>)
  {
    forall i, j :: 0 <= i < j < |w| ==> w[i] != w[j]
  }

  /** A walk that ends comes to no place twice. */
  lemma {:induction false} EndsDistinct(f: nat -> int, p: nat, n: nat)
    requires Ends(f, p, n)
    ensures Distinct(Path(f, p, n))
  {
    var w := Path(f, p, n);
    forall i, j | 0 <= i < j < |w|
      ensures w[i] != w[j]
    {
      Suffix(f, p, n, i);
      Suffix(f, p, n, j);
      assert |w[i..]| != |w[j..]|;
    }
  }

  /** Different numbers below n are at most n. */
  lemma {:induction false} Pigeons(w: seq<nat>, n: nat)
    requires Distinct(w) && forall i :: 0 <= i < |w| ==> w[i] < n
    ensures |w| <= n
    decreases n
  {
    if w != [] {
      assert n > 0 by {
        assert w[0] < n;
      }
      if i :| 0 <= i < |w| && w[i] == n - 1 {
        var v := w[..i] + w[i + 1..];
        assert forall k :: 0 <= k < |v| ==> v[k] == w[if k < i then k else k + 1];
        Pigeons(v, n - 1);
      } else {
        Pigeons(w, n - 1);
      }
    }
  }

  lemma {:induction false} PathFound(f: nat -> int, p: nat, n: nat)
    ensures forall i :: 0 <= i < |Path(f, p, n)| ==> f(Path(f, p, n)[i]) >= 0
    decreases n
  {
    if n > 0 && f(p) >= 0 {
      PathFound(f, f(p), n - 1);
    }
  }

  lemma {:induction false} FullPath(f: nat -> int, p: nat, n: nat)
    requires !Ends(f, p, n)
    ensures |Path(f, p, n + 1)| == n + 1
    decreases n
  {
    if n > 0 {
      FullPath(f, f(p), n - 1);
    }
  }

  /** A walk among n places ends, if ever, within n steps: exactly if its first n + 1 places are
      all different, and for ever otherwise. */
  lemma {:induction false} EndsWhen(f: nat -> int, p: nat, n: nat)
    requires forall q: nat {:trigger f(q)} :: f(q) >= 0 ==> q < n
    ensures Ends(f, p, n) <==> exists k: nat {:trigger Ends(f, p, k)} :: Ends(f, p, k)
    ensures Ends(f, p, n) <==> Distinct(Path(f, p, n + 1))
  {
    PathFound(f, p, n + 1);
    if k: nat :| Ends(f, p, k) {
      EndsWithin(f, p, k, n);
      MoreSteps(f, p, n, n + 1);
      EndsDistinct(f, p, n + 1);
    } else {
      FullPath(f, p, n);
      if Distinct(Path(f, p, n + 1)) {
        Pigeons(Path(f, p, n + 1), n);
      }
    }
  }

  lemma {:induction false} EndsWithin(f: nat -> int, p: nat, k: nat, n: nat)
    requires Ends(f, p, k) && forall q: nat {:trigger f(q)} :: f(q) >= 0 ==> q < n
    ensures Ends(f, p, n) && Path(f, p, n) == Path(f, p, k)
  {
    PathFound(f, p, k);
    EndsDistinct(f, p, k);
    Pigeons(Path(f, p, k), n);
    JustEnough(f, p, k);
    MoreSteps(f, p, |Path(f, p, k)|, k);
    MoreSteps(f, p, |Path(f, p, k)|, n);
  }

  // ----- A region -----

  datatype Region = Region(start: Low, end: Low)

  function Nexts(mem: seq<byte>, end: Low, here: nat): nat -> int
  {
    (p: nat) => Next(mem, end, p, here)
  }

  /** The places that the kernel's loop visits in a region, when it ends. */
  function Walk(mem: seq<byte>, r: Region, here: nat): seq<nat>
  {
    Path(Nexts(mem, r.end, here), r.start, r.end)
  }

  /** The kernel's loop over a region ends; as many steps as the region has addresses tell. */
  predicate Regular(mem: seq<byte>, r: Region, here: nat)
  {
    Ends(Nexts(mem, r.end, here), r.start, r.end)
  }

  /** The loop ends if after any number of steps it ends, and exactly when it comes to no place
      twice. */
  lemma RegularWhen(mem: seq<byte>, r: Region, here: nat)
    ensures Regular(mem, r, here) <==> exists n: nat {:trigger Ends(Nexts(mem, r.end, here), r.start, n)} :: Ends(Nexts(mem, r.end, here), r.start, n)
    ensures Regular(mem, r, here) <==> Distinct(Path(Nexts(mem, r.end, here), r.start, r.end + 1))
  {
    EndsWhen(Nexts(mem, r.end, here), r.start, r.end);
  }

  /** The places from p on, each of which leads to a later one until a place before the end does
      not; and that place. */
  function Chain(g: nat -> int, end: nat, p: nat): (w: seq<nat>)
    decreases if p < end then end - p else 0
  {
    if p < end && p < g(p) then [p] + Chain(g, end, g(p)) else []
  }

  function ChainEnd(g: nat -> int, end: nat, p: nat): (e: nat)
    ensures !(e < end && e < g(e))
    decreases if p < end then end - p else 0
  {
    if p < end && p < g(p) then ChainEnd(g, end, g(p)) else p
  }

  lemma {:induction false} ChainFits(g: nat -> int, end: nat, p: nat)
    ensures |Chain(g, end, p)| <= if p < end then end - p else 0
    decreases if p < end then end - p else 0
  {
    if p < end && p < g(p) {
      ChainFits(g, end, g(p));
    }
  }

  /** Where a module lies, the place where it ends. */
  function PastModule(mem: seq<byte>, end: Low, here: nat): nat -> int
  {
    (p: nat) => if Module(mem, end, p, here) then p + Up4(Load32(mem, p + 4)) else -1
  }

  /** The modules of a region, each where the one before it ends, and the first place after them
      where no module lies. */
  function Modules(mem: seq<byte>, end: Low, p: nat, here: nat): seq<nat>
  {
    Chain(PastModule(mem, end, here), end, p)
  }

  function ModulesEnd(mem: seq<byte>, end: Low, p: nat, here: nat): (e: nat)
    ensures !Module(mem, end, e, here)
  {
    ChainEnd(PastModule(mem, end, here), end, p)
  }

  /** f is the walk's step in this memory; what that means for a place is looked up only where
      a step is asked about. */
  ghost predicate IsNext(f: nat -> int, mem: seq<byte>, end: Low, here: nat)
  {
    forall p: nat {:trigger Next(mem, end, p, here)} :: f(p) == Next(mem, end, p, here)
  }

  lemma AtModule(f: nat -> int, mem: seq<byte>, end: Low, p: nat, here: nat)
    requires AddressSpace(mem) && IsNext(f, mem, end, here)
    ensures Module(mem, end, p, here) ==> f(p) == p + Up4(Load32(mem, p + 4)) > p
    ensures !Module(mem, end, p, here) ==> (f(p) >= 0 <==> Wraps(mem, end, p, here)) && f(p) <= p
  {
    NextIs(mem, end, p, here);
  }

  /** f goes on as g does, from wherever g goes on. */
  ghost predicate Leads(f: nat -> int, g: nat -> int)
  {
    forall p: nat {:trigger g(p)} :: g(p) >= 0 ==> f(p) == g(p)
  }

  lemma PastLeads(f: nat -> int, mem: seq<byte>, end: Low, here: nat)
    requires AddressSpace(mem) && IsNext(f, mem, end, here)
    ensures Leads(f, PastModule(mem, end, here))
  {
    var g := PastModule(mem, end, here);
    forall p: nat {:trigger g(p)}
      ensures g(p) >= 0 ==> f(p) == g(p)
    {
      AtModule(f, mem, end, p, here);
    }
  }

  /** The walk follows the modules, and at their end does what it does there. */
  lemma {:induction false} FollowsChain(f: nat -> int, g: nat -> int, end: nat, p: nat, n: nat)
    requires Leads(f, g) && n >= |Chain(g, end, p)|
    ensures var w, e := Chain(g, end, p), ChainEnd(g, end, p);
      Path(f, p, n) == w + Path(f, e, n - |w|) && Ends(f, p, n) == Ends(f, e, n - |w|)
    decreases if p < end then end - p else 0
  {
    if p < end && p < g(p) {
      FollowsChain(f, g, end, g(p), n - 1);
      OneStep(f, p, n, [p], Chain(g, end, g(p)), ChainEnd(g, end, g(p)));
    }
  }

  lemma OneStep(f: nat -> int, p: nat, n: nat, first: seq<nat>, w: seq<nat>, e: nat)
    requires n > |w| && f(p) >= 0 && first == [p]
    requires Path(f, f(p), n - 1) == w + Path(f, e, n - 1 - |w|) && Ends(f, f(p), n - 1) == Ends(f, e, n - 1 - |w|)
    ensures Path(f, p, n) == (first + w) + Path(f, e, n - |first + w|) && Ends(f, p, n) == Ends(f, e, n - |first + w|)
  {
    assert n - 1 - |w| == n - |first + w|;
  }

  /** The kernel visits exactly the modules, and stops after the last, if and only if no header
      at their end has a size that wraps. Where one has, the kernel takes it for one module
      more and goes back, to stop or not. */
  lemma WalkIs(mem: seq<byte>, r: Region, here: nat)
    requires AddressSpace(mem)
    ensures var w, e := Modules(mem, r.end, r.start, here), ModulesEnd(mem, r.end, r.start, here);
      (Regular(mem, r, here) && Walk(mem, r, here) == w <==> !Wraps(mem, r.end, e, here))
      && (Wraps(mem, r.end, e, here) && Regular(mem, r, here) ==> |w| < |Walk(mem, r, here)| && Walk(mem, r, here)[..|w| + 1] == w + [e])
  {
    WalkIsBy(Nexts(mem, r.end, here), mem, r, here, Modules(mem, r.end, r.start, here), ModulesEnd(mem, r.end, r.start, here));
  }

  lemma WalkIsBy(f: nat -> int, mem: seq<byte>, r: Region, here: nat, w: seq<nat>, e: nat)
    requires AddressSpace(mem) && IsNext(f, mem, r.end, here)
    requires w == Modules(mem, r.end, r.start, here) && e == ModulesEnd(mem, r.end, r.start, here)
    ensures Ends(f, r.start, r.end) && Path(f, r.start, r.end) == w <==> !Wraps(mem, r.end, e, here)
    ensures Wraps(mem, r.end, e, here) && Ends(f, r.start, r.end) ==>
      |w| < |Path(f, r.start, r.end)| && Path(f, r.start, r.end)[..|w| + 1] == w + [e]
  {
    var g := PastModule(mem, r.end, here);
    PastLeads(f, mem, r.end, here);
    ChainFits(g, r.end, r.start);
    FollowsChain(f, g, r.end, r.start, r.end);
    AtModule(f, mem, r.end, e, here);
    var rest := Path(f, e, r.end - |w|);
    if f(e) < 0 {
      assert rest == [];
    } else if Ends(f, e, r.end - |w|) {
      assert rest[0] == e;
      assert (w + rest)[..|w| + 1] == w + [e];
    }
  }

  // ----- The kernel's loops -----

  /** flash_step, as the walk knows it. */
  method StepBy(mem: seq<byte>, end: Low, p: word, here: nat, ghost f: nat -> int) returns (found: bool, next: word)
    requires AddressSpace(mem) && IsNext(f, mem, end, here) && p + 56 < 0x1_0000_0000
    ensures found == (f(p) >= 0) && next == (if found then f(p) else p) && (found ==> p + 56 < end)
    ensures next + 56 < 0x1_0000_0000
  {
    assert f(p) == Next(mem, end, p, here);
    found, next := FlashStep(mem, end, p, here);
  }

  /** A descriptor: a data module that is not plain data. */
  predicate IsDescriptor(mem: seq<byte>, o: nat)
  {
    o + 16 <= |mem| && Load32(mem, o + 12) / 0x100 % 0x100 == 3 && Load32(mem, o + 12) / 0x1000_0000 % 2 == 0
  }

  function Descriptors(mem: seq<byte>, w: seq<nat>): (d: seq<nat>)
  {
    if w == [] then []
    else Descriptors(mem, w[..|w| - 1]) + if IsDescriptor(mem, w[|w| - 1]) then [w[|w| - 1]] else []
  }

  lemma DescriptorBits(w: word)
    ensures w % 0x1_0000 / 0x100 == w / 0x100 % 0x100 && w / 0x1_0000 / 0x100 / 0x10 % 2 == w / 0x1000_0000 % 2
  {
    TypeField(w);
  }

  lemma PathStep(f: nat -> int, done: seq<nat>, p: nat, n: nat)
    requires n > 0 && f(p) >= 0
    ensures done + Path(f, p, n) == (done + [p]) + Path(f, f(p), n - 1)
  {
  }

  /** scan_region, whenever its loop ends: how many places it visits, and which it registers. */
  method ScanRegion(mem: seq<byte>, r: Region, here: nat) returns (n: nat, registered: seq<nat>)
    requires AddressSpace(mem) && Regular(mem, r, here)
    ensures n == |Walk(mem, r, here)| && registered == Descriptors(mem, Walk(mem, r, here))
  {
    n, registered := ScanBy(mem, r, here, Nexts(mem, r.end, here));
  }

  method ScanBy(mem: seq<byte>, r: Region, here: nat, ghost f: nat -> int) returns (n: nat, registered: seq<nat>)
    requires AddressSpace(mem) && IsNext(f, mem, r.end, here) && Ends(f, r.start, r.end)
    ensures n == |Path(f, r.start, r.end)| && registered == Descriptors(mem, Path(f, r.start, r.end))
  {
    n, registered := 0, [];
    var p: word, going := r.start, true;
    ghost var done: seq<nat>, left: nat := [], r.end;
    while going
      invariant n == |done| && registered == Descriptors(mem, done) && Ends(f, p, left) && p + 56 < 0x1_0000_0000
      invariant done + Path(f, p, left) == Path(f, r.start, r.end) && (!going ==> Path(f, p, left) == [])
      decreases left, going
    {
      var found, next := StepBy(mem, r.end, p, here, f);
      if found {
        PathStep(f, done, p, left);
        registered := Register(mem, p, registered, done);
        done, left := done + [p], left - 1;
        n := n + 1;
        p := next;
      } else {
        going := false;
      }
    }
    assert done + [] == done;
  }

  /** The descriptors are what devices are made of: only they are registered. */
  method Register(mem: seq<byte>, o: nat, registered: seq<nat>, ghost done: seq<nat>) returns (r: seq<nat>)
    requires o + 16 <= |mem| && registered == Descriptors(mem, done)
    ensures r == Descriptors(mem, done + [o])
  {
    var word3 := LoadWord(mem, o + 12);
    DescriptorBits(word3);
    assert (done + [o])[..|done|] == done;
    r := registered;
    if word3 % 0x1_0000 / 0x100 == 3 && word3 / 0x1_0000 / 0x100 / 0x10 % 2 == 0 {
      r := r + [o];
    }
  }

  datatype Found = Nowhere | At(address: nat)

  /** Where the module of that number lies: the first region's modules come first. */
  function Place(w: seq<nat>, i: nat): Found
  {
    if i < |w| then At(w[i]) else Nowhere
  }

  /** The loop of ubiqos_flash_nth over one region: the module, or the count that is left. */
  method NthIn(mem: seq<byte>, r: Region, index: nat, here: nat, ghost f: nat -> int) returns (found: bool, p: word, left: nat)
    requires AddressSpace(mem) && IsNext(f, mem, r.end, here) && Ends(f, r.start, r.end)
    ensures found == (index < |Path(f, r.start, r.end)|)
    ensures found ==> p == Path(f, r.start, r.end)[index]
    ensures !found ==> left == index - |Path(f, r.start, r.end)|
  {
    p, left := r.start, index;
    ghost var done: seq<nat>, steps: nat := [], r.end;
    while true
      invariant |done| <= index && left == index - |done| && Ends(f, p, steps) && p + 56 < 0x1_0000_0000
      invariant done + Path(f, p, steps) == Path(f, r.start, r.end)
      decreases steps
    {
      var step, next := StepBy(mem, r.end, p, here, f);
      if !step {
        return false, p, left;
      }
      PathStep(f, done, p, steps);
      if left == 0 {
        return true, p, left;
      }
      done, steps := done + [p as nat], steps - 1;
      left := left - 1;
      p := next;
    }
  }

  /** ubiqos_flash_nth */
  method Nth(mem: seq<byte>, a: Region, b: Region, index: nat, here: nat) returns (found: Found)
    requires AddressSpace(mem) && Regular(mem, a, here) && Regular(mem, b, here)
    ensures found == Place(Walk(mem, a, here) + Walk(mem, b, here), index)
  {
    found := NthBy(mem, a, b, index, here, Nexts(mem, a.end, here), Nexts(mem, b.end, here));
  }

  method NthBy(mem: seq<byte>, a: Region, b: Region, index: nat, here: nat, ghost f: nat -> int, ghost g: nat -> int) returns (r: Found)
    requires AddressSpace(mem) && IsNext(f, mem, a.end, here) && Ends(f, a.start, a.end)
    requires IsNext(g, mem, b.end, here) && Ends(g, b.start, b.end)
    ensures r == Place(Path(f, a.start, a.end) + Path(g, b.start, b.end), index)
  {
    var found, p, left := NthIn(mem, a, index, here, f);
    if found {
      return At(p);
    }
    found, p, left := NthIn(mem, b, left, here, g);
    if found {
      return At(p);
    }
    return Nowhere;
  }

  // ----- Names -----

  function ByteAt(mem: seq<byte>, at: nat): byte
    requires AddressSpace(mem)
  {
    mem[U32(at)]
  }

  /** name_from_module: up to fifteen bytes of the string at an address. */
  function NameFrom(mem: seq<byte>, at: nat, n: nat): (name: seq<byte>)
    requires n <= 15 && AddressSpace(mem)
    decreases 15 - n, mem
  {
    if n == 15 || ByteAt(mem, at) == 0 then [] else [ByteAt(mem, at)] + NameFrom(mem, at + 1, n + 1)
  }

  /** The name of the module whose header is at p. */
  function NameAt(mem: seq<byte>, p: nat): seq<byte>
    requires AddressSpace(mem)
  {
    if p + 12 <= |mem| then NameFrom(mem, p + Load32(mem, p + 8), 0) else []
  }

  function Names(mem: seq<byte>, w: seq<nat>): (n: seq<seq<byte>>)
    requires AddressSpace(mem)
    ensures |n| == |w|
  {
    seq(|w|, i requires 0 <= i < |w| => NameAt(mem, w[i]))
  }

  predicate IsFirst(names: seq<seq<byte>>, name: seq<byte>, i: nat)
  {
    i < |names| && names[i] == name && name !in names[..i]
  }

  lemma PrefixGrows(names: seq<seq<byte>>, i: nat)
    requires i < |names|
    ensures names[..i + 1] == names[..i] + [names[i]]
  {
  }

  /** name_from_module, byte by byte. */
  method ReadName(mem: seq<byte>, p: nat) returns (name: seq<byte>)
    requires AddressSpace(mem) && p + 12 <= |mem|
    ensures name == NameAt(mem, p)
  {
    var offset := LoadWord(mem, p + 8);
    name := [];
    var at: nat := p + offset;
    ghost var want := NameFrom(mem, at, 0);
    while |name| < 15 && ByteAt(mem, at) != 0
      invariant |name| <= 15 && want == name + NameFrom(mem, at, |name|)
      decreases 15 - |name|
    {
      NameStep(mem, at, |name|, name);
      name := name + [ByteAt(mem, at)];
      at := at + 1;
    }
  }

  lemma NameStep(mem: seq<byte>, at: nat, n: nat, name: seq<byte>)
    requires AddressSpace(mem) && n < 15 && ByteAt(mem, at) != 0
    ensures name + NameFrom(mem, at, n) == (name + [ByteAt(mem, at)]) + NameFrom(mem, at + 1, n + 1)
  {
  }

  lemma PathLow(f: nat -> int, mem: seq<byte>, r: Region, here: nat)
    requires AddressSpace(mem) && IsNext(f, mem, r.end, here)
    ensures forall i :: 0 <= i < |Path(f, r.start, r.end)| ==> Path(f, r.start, r.end)[i] < r.end && Path(f, r.start, r.end)[i] + 56 <= |mem|
  {
    PathFound(f, r.start, r.end);
    forall i | 0 <= i < |Path(f, r.start, r.end)|
      ensures Path(f, r.start, r.end)[i] + 56 < r.end
    {
      var p := Path(f, r.start, r.end)[i];
      assert f(p) == Next(mem, r.end, p, here);
    }
  }

  /** ubiqos_flash_lookup, whenever the walks end: the first module of that name, the system's
      before the application's, or nowhere exactly when there is none. */
  method Lookup(mem: seq<byte>, a: Region, b: Region, name: seq<byte>, here: nat) returns (found: Found)
    requires AddressSpace(mem) && Regular(mem, a, here) && Regular(mem, b, here)
    ensures var w := Walk(mem, a, here) + Walk(mem, b, here);
      if found.Nowhere? then name !in Names(mem, w) else exists i :: IsFirst(Names(mem, w), name, i) && found == Place(w, i)
  {
    found := LookupBy(mem, a, b, name, here, Nexts(mem, a.end, here), Nexts(mem, b.end, here), Walk(mem, a, here) + Walk(mem, b, here));
  }

  method LookupBy(mem: seq<byte>, a: Region, b: Region, name: seq<byte>, here: nat, ghost f: nat -> int, ghost g: nat -> int, ghost w: seq<nat>)
    returns (found: Found)
    requires AddressSpace(mem) && IsNext(f, mem, a.end, here) && Ends(f, a.start, a.end)
    requires IsNext(g, mem, b.end, here) && Ends(g, b.start, b.end) && w == Path(f, a.start, a.end) + Path(g, b.start, b.end)
    ensures if found.Nowhere? then name !in Names(mem, w) else exists i :: IsFirst(Names(mem, w), name, i) && found == Place(w, i)
  {
    ghost var names := Names(mem, w);
    PathLow(f, mem, a, here);
    PathLow(g, mem, b, here);
    var i := 0;
    while true
      invariant i <= |names| && name !in names[..i]
      decreases |names| - i
    {
      found := NthBy(mem, a, b, i, here, f, g);
      if found.Nowhere? {
        assert names[..i] == names;
        return;
      }
      var n := ReadName(mem, found.address);
      assert n == names[i];
      if n == name {
        assert IsFirst(names, name, i);
        return;
      }
      PrefixGrows(names, i);
      i := i + 1;
    }
  }

  // ----- The walk over an image -----

  /** A region that holds an image: its modules, and after them no room for a header, or no
      sync word. */
  ghost predicate Holds(mem: seq<byte>, r: Region, mods: seq<seq<byte>>, here: nat)
  {
    var e := r.start + |Laid(mods)|;
    && e < r.end && AddressSpace(mem) && mem[r.start..e] == Laid(mods)
    && (e + 56 >= r.end || Load32(mem, e) != 0x0509000B)
    && forall i :: 0 <= i < |mods| ==> Ready(mods[i], here)
  }

  /** Where module i of an image lies. */
  lemma {:induction false} PlaceIn(mem: seq<byte>, start: nat, mods: seq<seq<byte>>, i: nat, p: nat, next: nat)
    requires start + |Laid(mods)| <= |mem| && mem[start..start + |Laid(mods)|] == Laid(mods) && i < |mods|
    requires p == start + Offset(mods, i) && next == start + Offset(mods, i + 1)
    ensures Lies(mem, p, mods[i]) && p + |mods[i]| <= start + |Laid(mods)| && next == p + Up4(|mods[i]|)
  {
    ModuleIn(mem, start, mods, i);
    NextOffset(mods, i);
  }

  lemma NextOffset(mods: seq<seq<byte>>, i: nat)
    requires i < |mods|
    ensures Offset(mods, i + 1) == Offset(mods, i) + Up4(|mods[i]|)
  {
    LaidSplit(mods, i);
    PadSize(mods[i]);
  }

  /** A module that lies in memory and says its own size leads to where it ends. */
  lemma ModuleLeads(mem: seq<byte>, end: Low, p: nat, m: seq<byte>, here: nat)
    requires p + |m| < end <= |mem| && Lies(mem, p, m) && Ready(m, here)
    ensures Module(mem, end, p, here) && Load32(mem, p + 4) == |m|
  {
    VerifiedMoves(mem, p, m, here);
  }

  /** From each module of an image the walk goes on to the next. */
  lemma StepIn(mem: seq<byte>, r: Region, here: nat, mods: seq<seq<byte>>, i: nat, p: nat, next: nat)
    requires Holds(mem, r, mods, here) && i < |mods| && p == r.start + Offset(mods, i) && next == r.start + Offset(mods, i + 1)
    ensures Module(mem, r.end, p, here) && next == p + Up4(Load32(mem, p + 4))
  {
    PlaceIn(mem, r.start, mods, i, p, next);
    ModuleLeads(mem, r.end, p, mods[i], here);
  }

  function Offsets(start: nat, mods: seq<seq<byte>>): (o: seq<nat>)
    ensures |o| == |mods|
  {
    seq(|mods|, i requires 0 <= i < |mods| => start + Offset(mods, i))
  }

  predicate Lies(mem: seq<byte>, o: nat, m: seq<byte>)
  {
    o + |m| <= |mem| && mem[o..o + |m|] == m
  }

  lemma {:induction false} PathIs(f: nat -> int, at: seq<nat>, i: nat)
    requires i < |at| && f(at[|at| - 1]) < 0 && forall j :: 0 <= j < |at| - 1 ==> f(at[j]) == at[j + 1]
    ensures Path(f, at[i], |at| - 1 - i) == at[i..|at| - 1] && Ends(f, at[i], |at| - 1 - i)
    decreases |at| - i
  {
    if i < |at| - 1 {
      PathIs(f, at, i + 1);
    }
  }

  lemma StepIs(f: nat -> int, mem: seq<byte>, r: Region, here: nat, mods: seq<seq<byte>>, i: nat, p: nat, next: nat)
    requires Holds(mem, r, mods, here) && IsNext(f, mem, r.end, here) && i < |mods|
    requires p == r.start + Offset(mods, i) && next == r.start + Offset(mods, i + 1)
    ensures f(p) == next
  {
    StepIn(mem, r, here, mods, i, p, next);
    AtModule(f, mem, r.end, p, here);
  }

  lemma {:induction false} EndIs(f: nat -> int, mem: seq<byte>, r: Region, here: nat, mods: seq<seq<byte>>, e: nat)
    requires Holds(mem, r, mods, here) && IsNext(f, mem, r.end, here) && e == r.start + |Laid(mods)|
    ensures f(e) < 0
  {
    assert Next(mem, r.end, e, here) < 0;
  }

  lemma {:induction false} ImagePath(f: nat -> int, mem: seq<byte>, r: Region, here: nat, mods: seq<seq<byte>>, at: seq<nat>)
    requires Holds(mem, r, mods, here) && IsNext(f, mem, r.end, here) && at == Offsets(r.start, mods) + [r.start + |Laid(mods)|]
    ensures at[0] == r.start && Ends(f, at[0], |mods|) && Path(f, at[0], |mods|) == at[..|mods|]
  {
    forall j | 0 <= j < |mods|
      ensures f(at[j]) == at[j + 1]
    {
      LastOffset(mods, j + 1);
      StepIs(f, mem, r, here, mods, j, at[j], at[j + 1]);
    }
    EndIs(f, mem, r, here, mods, at[|mods|]);
    LastOffset(mods, 0);
    PathAll(f, at, |mods|);
  }

  lemma {:induction false} PathAll(f: nat -> int, at: seq<nat>, n: nat)
    requires |at| == n + 1 && f(at[n]) < 0 && forall j :: 0 <= j < n ==> f(at[j]) == at[j + 1]
    ensures Path(f, at[0], n) == at[..n] && Ends(f, at[0], n)
  {
    PathIs(f, at, 0);
    assert at[0..n] == at[..n];
  }

  lemma {:induction false} LastOffset(mods: seq<seq<byte>>, i: nat)
    requires i <= |mods|
    ensures (i == |mods| ==> Offset(mods, i) == |Laid(mods)|) && (i == 0 ==> Offset(mods, i) == 0)
  {
    assert mods[..|mods|] == mods && mods[..0] == [];
  }

  /** The walk over an image ends, and visits exactly its modules, in order, and each is the
      module that was laid there. */
  lemma ImageWalk(mem: seq<byte>, r: Region, here: nat, mods: seq<seq<byte>>)
    requires Holds(mem, r, mods, here)
    ensures Regular(mem, r, here) && Walk(mem, r, here) == Offsets(r.start, mods)
    ensures forall i :: 0 <= i < |mods| ==> Lies(mem, r.start + Offset(mods, i), mods[i])
  {
    var at := Offsets(r.start, mods) + [r.start + |Laid(mods)|];
    ImagePath(Nexts(mem, r.end, here), mem, r, here, mods, at);
    assert at[..|mods|] == Offsets(r.start, mods);
    EndsWithin(Nexts(mem, r.end, here), r.start, |mods|, r.end);
    forall i | 0 <= i < |mods|
      ensures Lies(mem, r.start + Offset(mods, i), mods[i])
    {
      ModuleIn(mem, r.start, mods, i);
    }
  }

  /** The name ends, or fifteen bytes of it lie, inside the module. */
  predicate NameEnds(m: seq<byte>, at: nat, n: nat)
    requires n <= 15
    decreases 15 - n, m
  {
    n == 15 || (at < |m| && (m[at] == 0 || NameEnds(m, at + 1, n + 1)))
  }

  function NameOf(m: seq<byte>, at: nat, n: nat): (name: seq<byte>)
    requires n <= 15 && NameEnds(m, at, n)
    decreases 15 - n, m
  {
    if n == 15 || m[at] == 0 then [] else [m[at]] + NameOf(m, at + 1, n + 1)
  }

  lemma {:induction false} NameMoves(mem: seq<byte>, o: nat, m: seq<byte>, at: nat, n: nat)
    requires AddressSpace(mem) && Lies(mem, o, m) && n <= 15 && NameEnds(m, at, n)
    ensures NameFrom(mem, o + at, n) == NameOf(m, at, n)
    decreases 15 - n
  {
    if n < 15 {
      assert U32(o + at) == o + at && mem[o + at] == mem[o..o + |m|][at];
      if m[at] != 0 {
        NameMoves(mem, o, m, at + 1, n + 1);
      }
    }
  }

  /** A module laid in an image is known by its own name. */
  lemma ImageNames(mem: seq<byte>, r: Region, here: nat, mods: seq<seq<byte>>, i: nat)
    requires Holds(mem, r, mods, here) && i < |mods| && NameEnds(mods[i], Load32(mods[i], 8), 0)
    ensures Names(mem, Offsets(r.start, mods))[i] == NameOf(mods[i], Load32(mods[i], 8), 0)
  {
    var p := r.start + Offset(mods, i);
    ModuleIn(mem, r.start, mods, i);
    OwnName(mem, p, mods[i]);
    NamesAt(mem, Offsets(r.start, mods), i, p);
  }

  lemma NamesAt(mem: seq<byte>, w: seq<nat>, i: nat, p: nat)
    requires AddressSpace(mem) && i < |w| && p == w[i]
    ensures Names(mem, w)[i] == NameAt(mem, p)
  {
  }

  lemma {:induction false} OwnName(mem: seq<byte>, p: nat, m: seq<byte>)
    requires AddressSpace(mem) && Lies(mem, p, m) && 12 <= |m| && NameEnds(m, Load32(m, 8), 0)
    ensures NameAt(mem, p) == NameOf(m, Load32(m, 8), 0)
  {
    var at, n := Load32(m, 8), 0;
    SameWord(mem, p, m, 8);
    NameMoves(mem, p, m, at, n);
    NameWhere(mem, p, p + at, n, NameOf(m, at, n));
  }

  lemma {:induction false} NameWhere(mem: seq<byte>, p: nat, at: nat, n: nat, name: seq<byte>)
    requires AddressSpace(mem) && p + 12 <= |mem| && at == p + Load32(mem, p + 8) && n == 0 && NameFrom(mem, at, n) == name
    ensures NameAt(mem, p) == name
  {
  }

  lemma {:induction false} ModuleIn(mem: seq<byte>, start: nat, mods: seq<seq<byte>>, i: nat)
    requires start + |Laid(mods)| <= |mem| && mem[start..start + |Laid(mods)|] == Laid(mods) && i < |mods|
    ensures Offset(mods, i) + |mods[i]| <= |Laid(mods)| && Lies(mem, start + Offset(mods, i), mods[i])
  {
    LaidSplit(mods, i);
    PaddedIn(mem, start, Laid(mods), Offset(mods, i), mods[i]);
  }

  lemma PaddedIn(mem: seq<byte>, start: nat, l: seq<byte>, o: nat, m: seq<byte>)
    requires start + |l| <= |mem| && mem[start..start + |l|] == l && o + |Padded(m, 4)| <= |l| && l[o..o + |Padded(m, 4)|] == Padded(m, 4)
    ensures o + |m| <= |l| && Lies(mem, start + o, m)
  {
    SliceIn(mem, start, l, o, Padded(m, 4), |m|);
  }

  lemma SliceIn(mem: seq<byte>, start: nat, l: seq<byte>, o: nat, p: seq<byte>, n: nat)
    requires start + |l| <= |mem| && mem[start..start + |l|] == l && o + |p| <= |l| && l[o..o + |p|] == p && n <= |p|
    ensures mem[start + o..start + o + n] == p[..n]
  {
    forall k | 0 <= k < n
      ensures mem[start + o..start + o + n][k] == p[..n][k]
    {
      assert mem[start + (o + k)] == mem[start..start + |l|][o + k] && p[k] == l[o..o + |p|][k];
    }
  }

  lemma PadSize(m: seq<byte>)
    ensures |Padded(m, 4)| == (|m| + 3) / 4 * 4
  {
  }
}
