/** The tool that writes the flash image: modules padded, relocated for where they will lie,
    given room in the data area, their headers sealed again, and laid end to end. */
module FlashWriter {
  import opened Bits
  import opened Words
  import opened Relocate
  import opened FlashImage

  // ----- The header rewritten -----

  lemma LoadOther(m: seq<byte>, at: nat, v: word, i: nat)
    requires at + 4 <= |m| && i + 4 <= |m| && (i + 4 <= at || at + 4 <= i)
    ensures Load32(Put32(m, at, v), i) == Load32(m, i)
  {
  }

  lemma {:induction false} SumBelow(m: seq<byte>, at: nat, v: word, n: nat)
    requires at + 4 <= |m| && 4 * n <= at
    ensures Sum(Put32(m, at, v), 0, n) == Sum(m, 0, n)
  {
    if n > 0 {
      SumBelow(m, at, v, n - 1);
      LoadOther(m, at, v, 4 * (n - 1));
    }
  }

  /** The header's checksum put right. */
  function Sealed(m: seq<byte>): (s: seq<byte>)
    requires |m| >= 56
    ensures |s| == |m|
  {
    Put32(m, 52, NotWord(U32(Sum(m, 0, 13))))
  }

  /** A header with its size and its third word replaced, sealed again. */
  function Rewritten(m: seq<byte>, size: word, word3: word): (r: seq<byte>)
    requires |m| >= 56
    ensures |r| == |m|
  {
    Sealed(Put32(Put32(m, 4, size), 12, word3))
  }

  /** Of this interface, and for this machine or plain data. */
  predicate RightKind(word3: word, here: nat)
  {
    word3 / 0x1_0000 % 0x100 == 10 && (word3 / 0x100 % 0x100 != 3 ==> word3 / 0x10 % 0x10 == here)
  }

  /** What rewrite_header writes is what verify_ubiqos_header accepts, whatever size it says. */
  lemma RewrittenVerifies(m: seq<byte>, size: word, word3: word, here: nat)
    requires 56 <= |m| && Load32(m, 0) == 0x0509000B && RightKind(word3, here)
    ensures Verified(Rewritten(m, size, word3), 0, here)
    ensures Load32(Rewritten(m, size, word3), 4) == size && Load32(Rewritten(m, size, word3), 12) == word3
  {
    var a := Put32(m, 4, size);
    var b := Put32(a, 12, word3);
    var sum := NotWord(U32(Sum(b, 0, 13)));
    LoadOther(m, 4, size, 0);
    LoadPut(m, 4, size);
    LoadOther(a, 12, word3, 0);
    LoadOther(a, 12, word3, 4);
    LoadPut(a, 12, word3);
    LoadOther(b, 52, sum, 0);
    LoadOther(b, 52, sum, 4);
    LoadOther(b, 52, sum, 12);
    LoadPut(b, 52, sum);
    SumBelow(b, 52, sum, 13);
  }

  lemma RewrittenIsReady(m: seq<byte>, word3: word, here: nat)
    requires 56 <= |m| < 0x1_0000_0000 && Load32(m, 0) == 0x0509000B && RightKind(word3, here)
    ensures Ready(Rewritten(m, |m|, word3), here) && Load32(Rewritten(m, |m|, word3), 12) == word3
  {
    RewrittenVerifies(m, |m|, word3, here);
  }

  /** Nothing after the header is touched. */
  lemma RewrittenBody(m: seq<byte>, size: word, word3: word)
    requires |m| >= 56
    ensures Rewritten(m, size, word3)[56..] == m[56..]
  {
  }

  // ----- The data area -----

  datatype Taken = Full | Room(at: nat)

  /** Areas handed out one after another. */
  class DataArea {
    var next: nat
    const end: nat
    ghost const base: nat
    ghost var given: seq<(nat, nat)>

    /** What was handed out lies in the area, and no two overlap. */
    ghost predicate Valid()
      reads this
    {
      && base <= next && (given != [] ==> next <= end)
      && (forall i :: 0 <= i < |given| ==> base <= given[i].0 && given[i].0 + given[i].1 <= next)
      && (forall i, j :: 0 <= i < j < |given| ==> given[i].0 + given[i].1 <= given[j].0)
    }

    constructor (base: nat, size: nat)
      ensures Valid() && next == base && end == base + size && given == []
    {
      this.base, next, end, given := base, base, base + size, [];
    }

    /** DataArea.take: room in sixteens, or none when the area is full. */
    method Take(n: nat) returns (t: Taken)
      requires Valid()
      modifies this
      ensures Valid()
      ensures t.Full? <==> old(next) + (n + 15) / 16 * 16 > end
      ensures t.Full? ==> next == old(next) && given == old(given)
      ensures t.Room? ==> t.at == old(next) && next == t.at + (n + 15) / 16 * 16 <= end && given == old(given) + [(t.at, n)]
    {
      var size := (n + 15) / 16 * 16;
      if next + size > end {
        return Full;
      }
      t := Room(next);
      given := given + [(next, n)];
      next := next + size;
    }
  }

  // ----- One module -----

  datatype How = AsItIs | InPlace | InParts(data: word)

  function Word3(data: seq<byte>): word
    requires |data| >= 56
  {
    Load32(data, 12)
  }

  /** The attribute bits of a header: private, placeable, split. */
  predicate Private(word3: word)
  {
    word3 / 0x400_0000 % 2 == 1
  }

  predicate Placeable(word3: word)
  {
    word3 / 0x2000_0000 % 2 == 1
  }

  predicate IsSplit(word3: word)
  {
    word3 / 0x4000_0000 % 2 == 1
  }

  function TableOf(data: seq<byte>): seq<Entry>
    requires |data| >= 56 && Load32(data, 40) + 8 * Load32(data, 44) <= |data|
  {
    Entries(data, Load32(data, 40), Load32(data, 44))
  }

  function Trailer(data: seq<byte>): nat
    requires |data| >= 56
  {
    Load32(data, 40) + 8 * Load32(data, 44)
  }

  /** A module as the build writes it: its table lies inside it, with every site between
      header and table, and a split module has its trailer after the table. */
  predicate WellMade(data: seq<byte>, here: nat)
  {
    && 56 <= |data| < 0x1_0000_0000 - 16 && Load32(data, 0) == 0x0509000B && RightKind(Load32(data, 12), here)
    && SitesOk(data, Load32(data, 40), Load32(data, 44))
    && (IsSplit(Word3(data)) && Private(Word3(data)) ==>
        Trailer(data) + 16 <= |data| && Load32(data, Trailer(data) + 4) <= Load32(data, 8) + Load32(data, 48))
  }

  /** How many bytes of data a split module needs. */
  function TailSize(data: seq<byte>): int
    requires |data| >= 56 && Trailer(data) + 8 <= |data|
  {
    Load32(data, 8) - Load32(data, Trailer(data) + 4) + Load32(data, 48)
  }

  lemma SitesFit(data: seq<byte>)
    requires 56 <= |data| && SitesOk(data, Load32(data, 40), Load32(data, 44))
    ensures Fits(TableOf(data), |Padded(data, 16)|)
  {
  }

  lemma PrefixWord(m: seq<byte>, d: seq<byte>, i: nat)
    requires |d| <= |m| && m[..|d|] == d && i + 4 <= |d|
    ensures Load32(m, i) == Load32(d, i)
  {
    assert m[i] == d[i] && m[i + 1] == d[i + 1] && m[i + 2] == d[i + 2] && m[i + 3] == d[i + 3];
  }

  /** Padding moves neither the header nor the table. */
  lemma PaddedSame(data: seq<byte>, p: seq<byte>)
    requires 56 <= |data| <= |p| && p[..|data|] == data && Load32(data, 40) + 8 * Load32(data, 44) <= |data|
    ensures Load32(p, 40) == Load32(data, 40) && Load32(p, 44) == Load32(data, 44) && TableOf(p) == TableOf(data)
  {
    PrefixWord(p, data, 40);
    PrefixWord(p, data, 44);
    forall i | 0 <= i < Load32(data, 44)
      ensures EntryAt(p, Load32(data, 40) + 8 * i) == EntryAt(data, Load32(data, 40) + 8 * i)
    {
      PrefixWord(p, data, Load32(data, 40) + 8 * i);
      PrefixWord(p, data, Load32(data, 40) + 8 * i + 4);
    }
  }

  /** Taking the private bit away leaves the interface, the machine and the type. */
  lemma KindKept(word3: word, here: nat)
    requires Private(word3)
    ensures word3 >= 0x400_0000 && !Private(word3 - 0x400_0000)
    ensures RightKind(word3 - 0x400_0000, here) == RightKind(word3, here)
  {
    var q := word3 / 0x100_0000;
    assert word3 / 0x400_0000 == q / 4 && (word3 - 0x400_0000) / 0x400_0000 == word3 / 0x400_0000 - 1;
    Shifted24(word3, word3 - 0x400_0000);
  }

  /** What makes a data module a descriptor is not touched with it. */
  lemma DescriptorKept(word3: word)
    requires Private(word3)
    ensures word3 >= 0x400_0000 && (word3 - 0x400_0000) / 0x100 % 0x100 == word3 / 0x100 % 0x100
    ensures (word3 - 0x400_0000) / 0x1000_0000 % 2 == word3 / 0x1000_0000 % 2
  {
    var q := word3 / 0x400_0000;
    assert word3 >= 0x400_0000 && (word3 - 0x400_0000) / 0x400_0000 == q - 1;
    assert word3 / 0x1000_0000 == q / 4 && (word3 - 0x400_0000) / 0x1000_0000 == (q - 1) / 4;
    Shifted24(word3, word3 - 0x400_0000);
  }

  lemma Shifted24(w: nat, v: nat)
    requires w == v + 4 * 0x100_0000
    ensures w / 0x1_0000 % 0x100 == v / 0x1_0000 % 0x100 && w / 0x100 % 0x100 == v / 0x100 % 0x100 && w / 0x10 % 0x10 == v / 0x10 % 0x10
  {
    Shifted16(w, v);
    Shifted8(w, v);
    Shifted4(w, v);
  }

  lemma Shifted16(w: nat, v: nat)
    requires w == v + 4 * 0x100_0000
    ensures w / 0x1_0000 % 0x100 == v / 0x1_0000 % 0x100
  {
    assert w / 0x1_0000 == v / 0x1_0000 + 0x400;
  }

  lemma Shifted8(w: nat, v: nat)
    requires w == v + 4 * 0x100_0000
    ensures w / 0x100 % 0x100 == v / 0x100 % 0x100
  {
    assert w / 0x100 == v / 0x100 + 0x4_0000;
  }

  lemma Shifted4(w: nat, v: nat)
    requires w == v + 4 * 0x100_0000
    ensures w / 0x10 % 0x10 == v / 0x10 % 0x10
  {
    assert w / 0x10 == v / 0x10 + 0x40_0000;
  }

  /** The bytes of a module placed for an address in one of the three ways, before its header
      is rewritten. */
  function Body(data: seq<byte>, base: nat, how: How): (m: seq<byte>)
    requires 56 <= |data| < 0x1_0000_0000 - 16 && SitesOk(data, Load32(data, 40), Load32(data, 44))
    requires how.InParts? ==> Trailer(data) + 16 <= |data|
    ensures |m| == |Padded(data, 16)|
  {
    var p := Padded(data, 16);
    SitesFit(data);
    match how
    case AsItIs => p
    case InPlace => Relocated(p, TableOf(data), base, Whole)
    case InParts(at) => Put32(Relocated(p, TableOf(data), base, Tail(Load32(data, Trailer(data) + 4), at)), Trailer(data) + 8, at)
  }

  /** The private bit is taken from a module that was placed. */
  function NewWord3(data: seq<byte>, how: How): word
    requires |data| >= 56 && (!how.AsItIs? ==> Private(Word3(data)))
  {
    if how.AsItIs? then Word3(data) else Word3(data) - 0x400_0000
  }

  /** The whole image of a module. */
  function Placed(data: seq<byte>, base: nat, how: How): (m: seq<byte>)
    requires 56 <= |data| < 0x1_0000_0000 - 16 && SitesOk(data, Load32(data, 40), Load32(data, 44))
    requires how.InParts? ==> Trailer(data) + 16 <= |data|
    requires !how.AsItIs? ==> Private(Word3(data))
  {
    Rewritten(Body(data, base, how), |Padded(data, 16)|, NewWord3(data, how))
  }

  lemma BodyHeader(data: seq<byte>, base: nat, how: How)
    requires 56 <= |data| < 0x1_0000_0000 - 16 && SitesOk(data, Load32(data, 40), Load32(data, 44))
    requires how.InParts? ==> Trailer(data) + 16 <= |data|
    ensures Body(data, base, how)[..56] == data[..56]
  {
    var p := Padded(data, 16);
    SitesFit(data);
    if how.InPlace? {
      OutsideKept(p, TableOf(data), base, Whole, 56, |p|);
    } else if how.InParts? {
      OutsideKept(p, TableOf(data), base, Tail(Load32(data, Trailer(data) + 4), how.data), 56, |p|);
    }
  }

  /** However a module is placed, its new header verifies, says its padded size, and is
      private only if it was left as it was and was private before. */
  lemma PlacedIsReady(data: seq<byte>, base: nat, how: How, here: nat)
    requires WellMade(data, here) && (how.InParts? ==> Trailer(data) + 16 <= |data|) && (!how.AsItIs? ==> Private(Word3(data)))
    ensures Ready(Placed(data, base, how), here) && |Placed(data, base, how)| % 16 == 0
    ensures Word3(Placed(data, base, how)) == NewWord3(data, how)
    ensures Private(Word3(Placed(data, base, how))) == (how.AsItIs? && Private(Word3(data)))
    ensures Placed(data, base, how)[56..] == Body(data, base, how)[56..]
  {
    var m := Body(data, base, how);
    BodyHeader(data, base, how);
    SameHead(m, data);
    if !how.AsItIs? {
      KindKept(Word3(data), here);
    }
    var word3 := NewWord3(data, how);
    RewrittenIsReady(m, word3, here);
    RewrittenBody(m, |m|, word3);
  }

  lemma SameHead(m: seq<byte>, d: seq<byte>)
    requires 56 <= |m| && 56 <= |d| && m[..56] == d[..56]
    ensures Load32(m, 0) == Load32(d, 0)
  {
    PrefixWord(m, d[..56], 0);
    PrefixWord(d, d[..56], 0);
  }

  /** The data area as a module finds it: none, or what is left of it. */
  datatype Space = NoArea | From(next: nat, end: nat)

  function Sixteens(n: int): int
  {
    (n + 15) / 16 * 16
  }

  /** A module with one tail of writable data, which there is room for. */
  predicate Splits(data: seq<byte>, space: Space)
    requires 56 <= |data|
  {
    IsSplit(Word3(data)) && Private(Word3(data)) && space.From? && Trailer(data) + 8 <= |data| && Load32(data, Trailer(data)) == 0x54494c53
    && space.next + Sixteens(TailSize(data)) <= space.end
  }

  /** Which way a module is placed: one that can run in place does, one that can be split is
      exactly when the area has room, at the first address that is left, and every other stays
      as it is. */
  predicate Chosen(data: seq<byte>, how: How, space: Space)
    requires 56 <= |data|
  {
    if Placeable(Word3(data)) && Private(Word3(data)) then how.InPlace?
    else if Splits(data, space) then how.InParts? && how.data == space.next
    else how.AsItIs?
  }

  /** What is left of the area after a module. */
  function After(space: Space, data: seq<byte>, how: How): Space
  {
    if how.InParts? && space.From? && 56 <= |data| && Trailer(data) + 8 <= |data| && TailSize(data) >= 0
    then From(space.next + Sixteens(TailSize(data)), space.end) else space
  }

  function SpaceOf(area: DataArea?): Space
    reads if area == null then {} else {area}
  {
    if area == null then NoArea else From(area.next, area.end)
  }

  // ----- What a placed module is -----

  /** Where the target of an entry comes to lie: in the module at its address, or in the tail of
      writable data at its own. */
  function TargetAt(data: seq<byte>, e: Entry, at: nat, how: How): word
    requires |data| >= 56 && (how.InParts? ==> Trailer(data) + 16 <= |data|)
  {
    if how.InParts? && e.target >= Load32(data, Trailer(data) + 4) then U32(how.data + e.target - Load32(data, Trailer(data) + 4))
    else U32(at + e.target)
  }

  /** Every field of the table holds the address of its target; the trailer of a module in two
      parts says where its data is; and every other bit after the header is the module's. */
  ghost predicate AtHome(data: seq<byte>, image: seq<byte>, at: nat, how: How)
    requires WellFormed(data) && (how.InParts? ==> Trailer(data) + 16 <= |data|)
  {
    && |data| <= |image|
    && (!how.AsItIs? ==> forall i :: 0 <= i < |TableOf(data)| && Last(TableOf(data), i) ==> Settles(data, image, TableOf(data)[i], at, how))
    && (how.InParts? ==> Load32(image, Trailer(data) + 8) == how.data)
    && forall n :: 8 * 56 <= n < 8 * |data| && !Touched(data, how, n) ==> ImageBit(image, n) == ImageBit(data, n)
  }

  predicate WellFormed(data: seq<byte>)
  {
    56 <= |data| < 0x1_0000_0000 - 16 && SitesOk(data, Load32(data, 40), Load32(data, 44))
  }

  ghost predicate Settles(data: seq<byte>, image: seq<byte>, e: Entry, at: nat, how: How)
    requires |data| >= 56 && (how.InParts? ==> Trailer(data) + 16 <= |data|)
  {
    e.site + 4 <= |image| && HasAddress(e.kind, Load32(image, e.site), TargetAt(data, e, at, how))
  }

  /** All that together, for a module as the build writes it. */
  ghost predicate Housed(data: seq<byte>, image: seq<byte>, at: nat, how: How)
  {
    WellFormed(data) && (how.InParts? ==> Trailer(data) + 16 <= |data|) && AtHome(data, image, at, how)
  }

  /** The bits that placing a module may change: those of its fields, and of the word in the
      trailer. */
  ghost predicate Touched(data: seq<byte>, how: How, n: nat)
    requires WellFormed(data)
  {
    (!how.AsItIs? && Covered(TableOf(data), n)) || (how.InParts? && 8 * (Trailer(data) + 8) <= n < 8 * (Trailer(data) + 12))
  }

  lemma SameAfter(b: seq<byte>, image: seq<byte>, i: nat)
    requires |b| == |image| && 56 <= |b| && image[56..] == b[56..] && 56 <= i && i + 4 <= |b|
    ensures Load32(image, i) == Load32(b, i)
  {
    assert image[56..][i - 56] == b[56..][i - 56] && image[56..][i - 55] == b[56..][i - 55];
    assert image[56..][i - 54] == b[56..][i - 54] && image[56..][i - 53] == b[56..][i - 53];
  }

  lemma BitAfter(b: seq<byte>, image: seq<byte>, n: nat)
    requires |b| == |image| && 56 <= |b| && image[56..] == b[56..] && 8 * 56 <= n < 8 * |b|
    ensures ImageBit(image, n) == ImageBit(b, n)
  {
    assert image[56..][n / 8 - 56] == b[56..][n / 8 - 56];
  }

  /** The part of the body that relocation makes. */
  function SplitOf(data: seq<byte>, how: How): Split
    requires |data| >= 56 && (how.InParts? ==> Trailer(data) + 16 <= |data|)
  {
    if how.InParts? then Tail(Load32(data, Trailer(data) + 4), how.data) else Whole
  }

  lemma BodyIs(data: seq<byte>, at: nat, how: How, b: seq<byte>, r: seq<byte>)
    requires WellFormed(data) && (how.InParts? ==> Trailer(data) + 16 <= |data|) && !how.AsItIs?
    requires b == Body(data, at, how) && Fits(TableOf(data), |Padded(data, 16)|) && r == Relocated(Padded(data, 16), TableOf(data), at, SplitOf(data, how))
    ensures b == if how.InParts? then Put32(r, Trailer(data) + 8, how.data) else r
  {
  }

  lemma EntryHolds(data: seq<byte>, at: nat, how: How, i: nat, b: seq<byte>)
    requires WellFormed(data) && (how.InParts? ==> Trailer(data) + 16 <= |data|) && !how.AsItIs? && b == Body(data, at, how)
    requires i < |TableOf(data)| && Last(TableOf(data), i)
    ensures Settles(data, b, TableOf(data)[i], at, how) && 56 <= TableOf(data)[i].site
  {
    var p, es, split, e := Padded(data, 16), TableOf(data), SplitOf(data, how), TableOf(data)[i];
    SitesFit(data);
    var r := Relocated(p, es, at, split);
    BodyIs(data, at, how, b, r);
    RelocatedHolds(p, es, at, split, i);
    TargetIs(data, e, at, how);
    if how.InParts? {
      LoadOther(r, Trailer(data) + 8, how.data, e.site);
    }
  }

  lemma TargetIs(data: seq<byte>, e: Entry, at: nat, how: How)
    requires |data| >= 56 && (how.InParts? ==> Trailer(data) + 16 <= |data|)
    ensures Address(e, at, SplitOf(data, how)) == TargetAt(data, e, at, how)
  {
  }

  lemma TrailerHolds(data: seq<byte>, at: nat, how: How, b: seq<byte>)
    requires WellFormed(data) && how.InParts? && Trailer(data) + 16 <= |data| && b == Body(data, at, how)
    ensures Load32(b, Trailer(data) + 8) == how.data
  {
    SitesFit(data);
    var r := Relocated(Padded(data, 16), TableOf(data), at, SplitOf(data, how));
    BodyIs(data, at, how, b, r);
    LoadPut(r, Trailer(data) + 8, how.data);
  }

  lemma BodyBit(data: seq<byte>, at: nat, how: How, n: nat, b: seq<byte>)
    requires WellFormed(data) && (how.InParts? ==> Trailer(data) + 16 <= |data|) && b == Body(data, at, how)
    requires n < 8 * |data| && !Touched(data, how, n)
    ensures ImageBit(b, n) == ImageBit(data, n)
  {
    var p := Padded(data, 16);
    assert p[..|data|][n / 8] == data[n / 8];
    SitesFit(data);
    if !how.AsItIs? {
      var r := Relocated(p, TableOf(data), at, SplitOf(data, how));
      BodyIs(data, at, how, b, r);
      Untouched(p, TableOf(data), at, SplitOf(data, how), n);
      if how.InParts? {
        BitPut(r, Trailer(data) + 8, how.data, n);
      }
    }
  }

  /** A placed module is at home where it was placed for. */
  lemma PlacedAtHome(data: seq<byte>, at: nat, how: How)
    requires WellFormed(data) && (how.InParts? ==> Trailer(data) + 16 <= |data|) && (!how.AsItIs? ==> Private(Word3(data)))
    ensures AtHome(data, Placed(data, at, how), at, how)
  {
    var p, b, image := Padded(data, 16), Body(data, at, how), Placed(data, at, how);
    SitesFit(data);
    RewrittenBody(b, |p|, NewWord3(data, how));
    if !how.AsItIs? {
      forall i | 0 <= i < |TableOf(data)| && Last(TableOf(data), i)
        ensures Settles(data, image, TableOf(data)[i], at, how)
      {
        EntryHolds(data, at, how, i, b);
        SameAfter(b, image, TableOf(data)[i].site);
      }
    }
    if how.InParts? {
      TrailerHolds(data, at, how, b);
      SameAfter(b, image, Trailer(data) + 8);
    }
    forall n | 8 * 56 <= n < 8 * |data| && !Touched(data, how, n)
      ensures ImageBit(image, n) == ImageBit(data, n)
    {
      BodyBit(data, at, how, n, b);
      BitAfter(b, image, n);
    }
  }

  // ----- One module in the tool -----

  /** rewrite_header, on the bytes of the module. */
  method RewriteHeader(m: seq<byte>, size: word, word3: word) returns (r: seq<byte>)
    requires |m| >= 56
    ensures r == Rewritten(m, size, word3)
  {
    var image := Put32(Put32(m, 4, size), 12, word3);
    var sum: nat := 0;
    for i := 0 to 13
      invariant sum == Sum(image, 0, i)
    {
      var w := LoadWord(image, 4 * i);
      sum := sum + w;
    }
    r := Put32(image, 52, NotWord(U32(sum)));
  }

  /** relocate, on a fresh copy of the padded module. */
  method RelocateCopy(data: seq<byte>, base: nat, split: Split) returns (m: seq<byte>)
    requires 56 <= |data| && SitesOk(data, Load32(data, 40), Load32(data, 44))
    ensures Fits(TableOf(data), |Padded(data, 16)|) && m == Relocated(Padded(data, 16), TableOf(data), base, split)
  {
    var p := Padded(data, 16);
    PaddedSame(data, p);
    SitesFit(data);
    var image := new byte[|p|](i requires 0 <= i < |p| => p[i]);
    assert image[..] == p;
    RelocateInPlace(image, Load32(data, 40), Load32(data, 44), base, split);
    m := image[..];
  }

  /** place, up to the header: which way, and the bytes. */
  method PlaceBody(data: seq<byte>, base: nat, area: DataArea?, here: nat) returns (m: seq<byte>, how: How)
    requires WellMade(data, here) && (area != null ==> area.Valid() && area.end < 0x1_0000_0000)
    modifies if area == null then {} else {area}
    ensures area != null ==> area.Valid()
    ensures Chosen(data, how, old(SpaceOf(area))) && SpaceOf(area) == After(old(SpaceOf(area)), data, how)
    ensures how.InParts? ==> Trailer(data) + 16 <= |data|
    ensures m == Body(data, base, how)
  {
    var word3 := LoadWord(data, 12);
    m, how := Padded(data, 16), AsItIs;
    if Placeable(word3) && Private(word3) {
      m := RelocateCopy(data, base, Whole);
      how := InPlace;
    } else if IsSplit(word3) && Private(word3) && area != null {
      m, how := PlaceSplit(data, base, area, here);
    }
  }

  /** A module with one tail of writable data, when the area has room for the tail. */
  method PlaceSplit(data: seq<byte>, base: nat, area: DataArea, here: nat) returns (m: seq<byte>, how: How)
    requires WellMade(data, here) && area.Valid() && area.end < 0x1_0000_0000 && IsSplit(Word3(data)) && Private(Word3(data))
    modifies area
    ensures area.Valid() && !how.InPlace? && m == Body(data, base, how)
    ensures how.InParts? <==> Splits(data, From(old(area.next), area.end))
    ensures how.InParts? ==> how.data == old(area.next) && area.given == old(area.given) + [(how.data as nat, TailSize(data) as nat)]
    ensures area.next == old(area.next) + if how.InParts? then Sixteens(TailSize(data)) else 0
  {
    m, how := Padded(data, 16), AsItIs;
    var trailer := Trailer(data);
    var magic := LoadWord(data, trailer);
    var dataOffset := LoadWord(data, trailer + 4);
    if magic == 0x54494c53 {
      var taken := area.Take(TailSize(data));
      if taken.Room? {
        m := SplitBody(data, base, dataOffset, taken.at);
        how := InParts(taken.at);
      }
    }
  }

  method SplitBody(data: seq<byte>, base: nat, dataOffset: word, at: word) returns (m: seq<byte>)
    requires 56 <= |data| < 0x1_0000_0000 - 16 && SitesOk(data, Load32(data, 40), Load32(data, 44)) && Trailer(data) + 16 <= |data|
    requires dataOffset == Load32(data, Trailer(data) + 4)
    ensures m == Body(data, base, InParts(at))
  {
    m := RelocateCopy(data, base, Tail(dataOffset, at));
    m := Put32(m, Trailer(data) + 8, at);
  }

  /** place: one module laid out for base, and how. */
  method Place(data: seq<byte>, base: nat, area: DataArea?, here: nat) returns (m: seq<byte>, how: How)
    requires WellMade(data, here) && (area != null ==> area.Valid() && area.end < 0x1_0000_0000)
    modifies if area == null then {} else {area}
    ensures area != null ==> area.Valid()
    ensures Written(data, m, true, Done(base, how, old(SpaceOf(area))), here) && SpaceOf(area) == After(old(SpaceOf(area)), data, how)
    ensures Housed(data, m, base, how)
  {
    m, how := PlaceBody(data, base, area, here);
    assert !how.AsItIs? ==> Private(Word3(data));
    PlacedIsReady(data, base, how, here);
    PlacedAtHome(data, base, how);
    m := RewriteHeader(m, |m|, NewWord3(data, how));
  }

  // ----- The whole image -----

  /** Where a module came to lie, how it was placed, and the area it found. */
  datatype Done = Done(at: nat, how: How, space: Space)

  type Rule = (seq<byte>, seq<byte>, Done) -> bool

  /** What main writes for one module: placed when a base is given, as it came otherwise. */
  ghost predicate Written(data: seq<byte>, image: seq<byte>, placing: bool, d: Done, here: nat)
  {
    Ready(image, here)
    && if !placing then image == data && d.how.AsItIs?
       else WellMade(data, here) && Chosen(data, d.how, d.space) && (d.how.InParts? ==> Trailer(data) + 16 <= |data|)
            && image == Placed(data, d.at, d.how)
  }

  /** The relation between a module, its image, and how it was done. */
  ghost function Rules(placing: bool, here: nat): Rule
  {
    (data: seq<byte>, image: seq<byte>, d: Done) => Written(data, image, placing, d, here)
  }

  /** Every image stands to its module as the rule says. */
  ghost predicate All(rule: Rule, mods: seq<seq<byte>>, images: seq<seq<byte>>, dones: seq<Done>)
  {
    |images| == |dones| <= |mods| && forall i :: 0 <= i < |images| ==> rule(mods[i], images[i], dones[i])
  }

  lemma OneMore(rule: Rule, mods: seq<seq<byte>>, images: seq<seq<byte>>, dones: seq<Done>, m: seq<byte>, d: Done)
    requires All(rule, mods, images, dones) && |images| < |mods| && rule(mods[|images|], m, d)
    ensures All(rule, mods, images + [m], dones + [d])
  {
  }

  /** The addresses where the modules of an image lie. */
  ghost predicate Addresses(images: seq<seq<byte>>, base: nat, dones: seq<Done>)
  {
    |dones| == |images| && forall i :: 0 <= i < |images| ==> dones[i].at == base + Offset(images, i)
  }

  lemma OneMoreAddress(images: seq<seq<byte>>, m: seq<byte>, base: nat, dones: seq<Done>, d: Done)
    requires Addresses(images, base, dones) && d.at == base + |Laid(images)|
    ensures Addresses(images + [m], base, dones + [d])
  {
    forall i | 0 <= i <= |images|
      ensures (dones + [d])[i].at == base + Offset(images + [m], i)
    {
      assert (images + [m])[..i] == images[..i];
      if i == |images| {
        assert images[..i] == images;
      }
    }
  }

  /** Each module finds the area as the ones before it left it. */
  ghost predicate HandedOn(mods: seq<seq<byte>>, dones: seq<Done>, first: Space, last: Space)
    requires |dones| <= |mods|
  {
    && (forall i :: 0 <= i < |dones| ==> dones[i].space == if i == 0 then first else After(dones[i - 1].space, mods[i - 1], dones[i - 1].how))
    && last == if dones == [] then first else After(dones[|dones| - 1].space, mods[|dones| - 1], dones[|dones| - 1].how)
  }

  lemma OneMoreHanded(mods: seq<seq<byte>>, dones: seq<Done>, first: Space, last: Space, d: Done)
    requires |dones| < |mods| && HandedOn(mods, dones, first, last) && d.space == last
    ensures HandedOn(mods, dones + [d], first, After(last, mods[|dones|], d.how))
  {
  }

  /** What holds of the modules laid out so far. */
  ghost predicate SoFar(rule: Rule, mods: seq<seq<byte>>, images: seq<seq<byte>>, dones: seq<Done>, base: nat, first: Space, last: Space)
  {
    All(rule, mods, images, dones) && Addresses(images, base, dones) && HandedOn(mods, dones, first, last)
  }

  lemma MoreSoFar(rule: Rule, mods: seq<seq<byte>>, images: seq<seq<byte>>, dones: seq<Done>, base: nat, first: Space, last: Space,
                  m: seq<byte>, d: Done)
    requires SoFar(rule, mods, images, dones, base, first, last) && |images| == |dones| < |mods|
    requires rule(mods[|images|], m, d) && d.at == base + |Laid(images)| && d.space == last
    ensures SoFar(rule, mods, images + [m], dones + [d], base, first, After(last, mods[|dones|], d.how))
  {
    OneMore(rule, mods, images, dones, m, d);
    OneMoreAddress(images, m, base, dones, d);
    OneMoreHanded(mods, dones, first, last, d);
  }

  /** main: every module laid out for the address where it comes to lie, and a word of zeros
      after the last. */
  method Build(mods: seq<seq<byte>>, placing: bool, base: nat, area: DataArea?, here: nat)
    returns (blob: seq<byte>, ghost images: seq<seq<byte>>, ghost dones: seq<Done>)
    requires forall i :: 0 <= i < |mods| ==> if placing then WellMade(mods[i], here) else Ready(mods[i], here)
    requires area != null ==> area.Valid() && area.end < 0x1_0000_0000
    modifies if area == null then {} else {area}
    ensures |images| == |mods| && blob == Laid(images) + [0, 0, 0, 0] && Addresses(images, base, dones)
    ensures All(Rules(placing, here), mods, images, dones) && HandedOn(mods, dones, old(SpaceOf(area)), SpaceOf(area))
    ensures forall i {:trigger images[i]} :: 0 <= i < |mods| ==> if placing then Housed(mods[i], images[i], dones[i].at, dones[i].how) else images[i] == mods[i]
  {
    blob, images, dones := BuildBy(mods, placing, base, area, here, Rules(placing, here));
    AllHoused(placing, here, mods, images, dones);
  }

  lemma AllHoused(placing: bool, here: nat, mods: seq<seq<byte>>, images: seq<seq<byte>>, dones: seq<Done>)
    requires All(Rules(placing, here), mods, images, dones)
    ensures forall i {:trigger images[i]} :: 0 <= i < |images| ==>
      if placing then Housed(mods[i], images[i], dones[i].at, dones[i].how) else images[i] == mods[i]
  {
    forall i {:trigger images[i]} | 0 <= i < |images|
      ensures if placing then Housed(mods[i], images[i], dones[i].at, dones[i].how) else images[i] == mods[i]
    {
      assert Rules(placing, here)(mods[i], images[i], dones[i]);
      WrittenHoused(mods[i], images[i], placing, dones[i], here);
    }
  }

  lemma WrittenHoused(data: seq<byte>, image: seq<byte>, placing: bool, d: Done, here: nat)
    requires Written(data, image, placing, d, here)
    ensures if placing then Housed(data, image, d.at, d.how) else image == data
  {
    if placing {
      PlacedAtHome(data, d.at, d.how);
    }
  }

  /** The rule holds of whatever is written. */
  ghost predicate Covers(rule: Rule, placing: bool, here: nat)
  {
    forall data: seq<byte>, m: seq<byte>, d: Done {:trigger Written(data, m, placing, d, here)} ::
      Written(data, m, placing, d, here) ==> rule(data, m, d)
  }

  method BuildBy(mods: seq<seq<byte>>, placing: bool, base: nat, area: DataArea?, here: nat, ghost rule: Rule)
    returns (blob: seq<byte>, ghost images: seq<seq<byte>>, ghost dones: seq<Done>)
    requires forall i :: 0 <= i < |mods| ==> if placing then WellMade(mods[i], here) else Ready(mods[i], here)
    requires area != null ==> area.Valid() && area.end < 0x1_0000_0000
    requires Covers(rule, placing, here)
    modifies if area == null then {} else {area}
    ensures |images| == |mods| && blob == Laid(images) + [0, 0, 0, 0] && Addresses(images, base, dones)
    ensures All(rule, mods, images, dones) && HandedOn(mods, dones, old(SpaceOf(area)), SpaceOf(area))
  {
    blob, images, dones := [], [], [];
    ghost var first := SpaceOf(area);
    for i := 0 to |mods|
      invariant |images| == |dones| == i && blob == Laid(images) && (area != null ==> area.Valid())
      invariant SoFar(rule, mods, images, dones, base, first, SpaceOf(area))
    {
      var at: nat := base + |blob|;
      ghost var space := SpaceOf(area);
      var data, how := LayOne(mods[i], placing, at, area, here, rule);
      MoreSoFar(rule, mods, images, dones, base, first, space, data, Done(at, how, space));
      blob := Append(blob, data, images);
      images, dones := images + [data], dones + [Done(at, how, space)];
    }
    blob := blob + [0, 0, 0, 0];
  }

  method LayOne(data: seq<byte>, placing: bool, at: nat, area: DataArea?, here: nat, ghost rule: Rule) returns (m: seq<byte>, how: How)
    requires if placing then WellMade(data, here) else Ready(data, here)
    requires area != null ==> area.Valid() && area.end < 0x1_0000_0000
    requires Covers(rule, placing, here)
    modifies if area == null then {} else {area}
    ensures area != null ==> area.Valid()
    ensures rule(data, m, Done(at, how, old(SpaceOf(area)))) && SpaceOf(area) == After(old(SpaceOf(area)), data, how)
  {
    m, how := data, AsItIs;
    ghost var space := SpaceOf(area);
    if placing {
      m, how := Place(data, at, area, here);
    }
    assert Written(data, m, placing, Done(at, how, space), here);
  }

  /** A module appended, and zeros to the next multiple of four. */
  method Append(blob: seq<byte>, m: seq<byte>, ghost images: seq<seq<byte>>) returns (r: seq<byte>)
    requires blob == Laid(images)
    ensures r == Laid(images + [m])
  {
    r := blob + m;
    ghost var was := r;
    ModSum(|blob|, |m|);
    while |r| % 4 != 0
      invariant |was| <= |r| <= |was| + Gap4(|m|) && |was| % 4 == |m| % 4 && r == was + Zeros(|r| - |was|)
      decreases |was| + Gap4(|m|) - |r|
    {
      PadMore(|was|, |r|, |m|);
      ZerosGrow(|r| - |was|);
      r := r + [0];
    }
    PadMore(|was|, |r|, |m|);
    assert (images + [m])[..|images|] == images;
    AppendIs(blob, m, r);
  }

  lemma AppendIs(blob: seq<byte>, m: seq<byte>, r: seq<byte>)
    requires r == (blob + m) + Zeros(Gap4(|m|))
    ensures r == blob + Padded(m, 4)
  {
  }

  lemma ModSum(a: nat, b: nat)
    requires a % 4 == 0
    ensures (a + b) % 4 == b % 4
  {
    assert a + b == 4 * (a / 4 + b / 4) + b % 4;
  }

  lemma PadMore(was: nat, now: nat, n: nat)
    requires was % 4 == n % 4 && was <= now <= was + Gap4(n)
    ensures now % 4 == 0 <==> now == was + Gap4(n)
  {
  }

  lemma ZerosGrow(n: nat)
    ensures Zeros(n) + [0] == Zeros(n + 1)
  {
  }

  /** Memory with bytes written at an address. */
  function Flashed(mem: seq<byte>, start: nat, b: seq<byte>): (n: seq<byte>)
    requires start + |b| <= |mem|
    ensures |n| == |mem|
  {
    mem[..start] + b + mem[start + |b|..]
  }

  /** An image written to a region that has room for it is one that the kernel walks to its end,
      whatever was in memory before. */
  lemma WrittenIsWalked(mem: seq<byte>, r: Region, images: seq<seq<byte>>, here: nat)
    requires AddressSpace(mem) && r.start + |Laid(images)| + 4 <= r.end && forall i :: 0 <= i < |images| ==> Ready(images[i], here)
    ensures Holds(Flashed(mem, r.start, Laid(images) + [0, 0, 0, 0]), r, images, here)
  {
    var n, e := Flashed(mem, r.start, Laid(images) + [0, 0, 0, 0]), r.start + |Laid(images)|;
    assert n[r.start..e] == Laid(images);
    assert n[e] == 0 && n[e + 1] == 0 && n[e + 2] == 0 && n[e + 3] == 0;
  }

  // ----- Sizes that wrap -----

  /** A header that verifies, of a data module of that size. */
  function Wild(size: word): (h: seq<byte>)
    ensures |h| == 56
  {
    Rewritten(Put32(Zeros(56), 0, 0x0509000B), size, 0x000A_0300)
  }

  /** Empty memory with such a header at an address, and a region that starts there. */
  lemma WildAt(p: word, size: word, here: nat) returns (mem: seq<byte>, r: Region)
    requires 8 <= p < 0xffff_ff00 && p + size >= 0x1_0000_0000
    ensures AddressSpace(mem) && r == Region(p, p + 64) && Wraps(mem, r.end, p, here) && Load32(mem, p + 4) == size && Load32(mem, p - 8) == 0
    ensures Modules(mem, r.end, p, here) == []
  {
    var h := Wild(size);
    LoadPut(Zeros(56), 0, 0x0509000B);
    RewrittenVerifies(Put32(Zeros(56), 0, 0x0509000B), size, 0x000A_0300, here);
    mem, r := Flashed(Zeros(0x1_0000_0000), p, h), Region(p, p + 64);
    assert mem[p..p + 56] == h;
    VerifiedMoves(mem, p, h, here);
    assert mem[p - 8] == 0 && mem[p - 7] == 0 && mem[p - 6] == 0 && mem[p - 5] == 0;
  }

  lemma {:induction false} SelfLoop(f: nat -> int, p: nat, n: nat)
    requires f(p) == p
    ensures !Ends(f, p, n)
  {
    if n > 0 {
      SelfLoop(f, p, n - 1);
    }
  }

  /** A region with no module in it, whose walk never ends: the size brings it back to where it
      is. */
  lemma NeverEnds(p: word, here: nat) returns (mem: seq<byte>, r: Region)
    requires 8 <= p < 0xffff_ff00
    ensures AddressSpace(mem) && r.start == p && Modules(mem, r.end, p, here) == [] && !Regular(mem, r, here)
    ensures forall n: nat {:trigger Ends(Nexts(mem, r.end, here), p, n)} :: !Ends(Nexts(mem, r.end, here), p, n)
  {
    mem, r := WildAt(p, 0xffff_ffff, here);
    NextWild(mem, r.end, p, 0xffff_ffff, here);
    BackNone(p);
    forall n: nat {:trigger Ends(Nexts(mem, r.end, here), p, n)}
      ensures !Ends(Nexts(mem, r.end, here), p, n)
    {
      SelfLoop(Nexts(mem, r.end, here), p, n);
    }
  }

  lemma BackNone(p: word)
    ensures Stepped(p, 0xffff_ffff) == p
  {
    assert U32(0xffff_ffff + 3) == 2;
  }

  lemma BackEight(p: word)
    requires p >= 8
    ensures Stepped(p, 0xffff_fff8) == p - 8
  {
    assert U32(0xffff_fff8 + 3) == 0xffff_fffb && 0xffff_fffb / 4 * 4 == 0xffff_fff8;
    assert p + 0xffff_fff8 == (p - 8) + 0x1_0000_0000;
  }

  lemma NextWild(mem: seq<byte>, end: Low, p: nat, size: word, here: nat)
    requires AddressSpace(mem) && Wraps(mem, end, p, here) && Load32(mem, p + 4) == size
    ensures Next(mem, end, p, here) == Stepped(p, size)
  {
    NextIs(mem, end, p, here);
  }

  /** A region with no module in it, whose walk ends having counted one: the size leads back to
      a place where there is nothing. */
  lemma Phantom(p: word, here: nat) returns (mem: seq<byte>, r: Region)
    requires 8 <= p < 0xffff_ff00
    ensures AddressSpace(mem) && r.start == p && Modules(mem, r.end, p, here) == []
    ensures Regular(mem, r, here) && Walk(mem, r, here) == [p]
  {
    mem, r := WildAt(p, 0xffff_fff8, here);
    NextWild(mem, r.end, p, 0xffff_fff8, here);
    BackEight(p);
    OneVisit(Nexts(mem, r.end, here), p, p - 8);
    MoreSteps(Nexts(mem, r.end, here), p, 1, r.end);
  }

  lemma OneVisit(f: nat -> int, p: nat, q: nat)
    requires f(p) == q && f(q) < 0
    ensures Ends(f, p, 1) && Path(f, p, 1) == [p]
  {
    var n: nat := 1;
    assert Path(f, p, n) == [p] + Path(f, q, n - 1);
    assert Ends(f, q, n - 1);
  }

  lemma AllReady(placing: bool, here: nat, mods: seq<seq<byte>>, images: seq<seq<byte>>, dones: seq<Done>)
    requires All(Rules(placing, here), mods, images, dones)
    ensures forall i :: 0 <= i < |images| ==> Ready(images[i], here)
  {
    forall i | 0 <= i < |images|
      ensures Ready(images[i], here)
    {
      assert Rules(placing, here)(mods[i], images[i], dones[i]);
    }
  }

  lemma WrittenDescriptor(data: seq<byte>, image: seq<byte>, placing: bool, d: Done, here: nat)
    requires Written(data, image, placing, d, here)
    ensures IsDescriptor(image, 0) == IsDescriptor(data, 0)
  {
    if placing {
      PlacedIsReady(data, d.at, d.how, here);
      if !d.how.AsItIs? {
        DescriptorKept(Word3(data));
      }
    }
  }

  /** Where the descriptors among the modules came to lie. */
  function DescriptorPlaces(mods: seq<seq<byte>>, dones: seq<Done>): seq<nat>
    requires |mods| == |dones|
  {
    if mods == [] then []
    else var n := |mods| - 1;
      DescriptorPlaces(mods[..n], dones[..n]) + if IsDescriptor(mods[n], 0) then [dones[n].at] else []
  }

  lemma {:induction false} PlacesAre(mem: seq<byte>, mods: seq<seq<byte>>, dones: seq<Done>, w: seq<nat>)
    requires |mods| == |dones| == |w|
    requires forall i {:trigger w[i]} :: 0 <= i < |w| ==> w[i] == dones[i].at && IsDescriptor(mem, w[i]) == IsDescriptor(mods[i], 0)
    ensures Descriptors(mem, w) == DescriptorPlaces(mods, dones)
    decreases |w|
  {
    if w != [] {
      var n := |w| - 1;
      PlacesAre(mem, mods[..n], dones[..n], w[..n]);
      assert w[n] == dones[n].at;
    }
  }

  lemma LiesDescriptor(mem: seq<byte>, o: nat, m: seq<byte>)
    requires Lies(mem, o, m) && 16 <= |m|
    ensures IsDescriptor(mem, o) == IsDescriptor(m, 0)
  {
    SameWord(mem, o, m, 12);
  }

  /** The descriptors that the kernel registers are those that were built. */
  lemma FoundDescriptors(mem: seq<byte>, start: nat, placing: bool, here: nat, mods: seq<seq<byte>>, images: seq<seq<byte>>, dones: seq<Done>)
    requires |mods| == |images| == |dones| && All(Rules(placing, here), mods, images, dones) && Addresses(images, start, dones)
    requires forall i :: 0 <= i < |images| ==> Lies(mem, start + Offset(images, i), images[i])
    ensures Descriptors(mem, Offsets(start, images)) == DescriptorPlaces(mods, dones)
  {
    var w := Offsets(start, images);
    forall i {:trigger w[i]} | 0 <= i < |w|
      ensures w[i] == dones[i].at && IsDescriptor(mem, w[i]) == IsDescriptor(mods[i], 0)
    {
      assert Rules(placing, here)(mods[i], images[i], dones[i]);
      WrittenDescriptor(mods[i], images[i], placing, dones[i], here);
      LiesDescriptor(mem, w[i], images[i]);
    }
    PlacesAre(mem, mods, dones, w);
  }

  /** What is written where it fits is walked, and what is registered. */
  lemma WrittenWalk(mem: seq<byte>, r: Region, placing: bool, here: nat, mods: seq<seq<byte>>, images: seq<seq<byte>>, dones: seq<Done>,
                    flashed: seq<byte>)
    requires AddressSpace(mem) && r.start + |Laid(images)| + 4 <= r.end && flashed == Flashed(mem, r.start, Laid(images) + [0, 0, 0, 0])
    requires |mods| == |images| == |dones| && All(Rules(placing, here), mods, images, dones) && Addresses(images, r.start, dones)
    ensures AddressSpace(flashed) && Regular(flashed, r, here) && |Walk(flashed, r, here)| == |mods|
    ensures Descriptors(flashed, Walk(flashed, r, here)) == DescriptorPlaces(mods, dones)
  {
    AllReady(placing, here, mods, images, dones);
    WrittenIsWalked(mem, r, images, here);
    ImageWalk(flashed, r, here, images);
    FoundDescriptors(flashed, r.start, placing, here, mods, images, dones);
  }

  /** The round trip: an image that fits its region is found there again, module by module, and
      its descriptors are what is registered. */
  method BuildAndScan(mods: seq<seq<byte>>, placing: bool, r: Region, area: DataArea?, mem: seq<byte>, here: nat)
    returns (size: nat, n: nat, registered: seq<nat>, ghost images: seq<seq<byte>>, ghost dones: seq<Done>)
    requires forall i :: 0 <= i < |mods| ==> if placing then WellMade(mods[i], here) else Ready(mods[i], here)
    requires area != null ==> area.Valid() && area.end < 0x1_0000_0000
    requires AddressSpace(mem)
    modifies if area == null then {} else {area}
    ensures |mods| == |images| == |dones| && size == |Laid(images)| + 4
    ensures All(Rules(placing, here), mods, images, dones) && Addresses(images, r.start, dones)
    ensures n == if r.start + size <= r.end then |mods| else 0
    ensures registered == if r.start + size <= r.end then DescriptorPlaces(mods, dones) else []
  {
    var blob;
    blob, images, dones := Build(mods, placing, r.start, area, here);
    size, n, registered := |blob|, 0, [];
    if r.start + size <= r.end {
      var flashed := Flashed(mem, r.start, blob);
      WrittenWalk(mem, r, placing, here, mods, images, dones, flashed);
      n, registered := ScanRegion(flashed, r, here);
    }
  }
}
