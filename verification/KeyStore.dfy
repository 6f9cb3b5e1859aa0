/** The key store: two flash sectors written alternately, a RAM image that agrees with
    the live one, and what a power cut at any step leaves to be opened again. */
module KeyStore {
  import opened Bits
  import opened Aead

  // ----- What is assumed of the cipher -----

  /** An authenticated cipher; Instance gives the one of this system. */
  datatype Cipher = Cipher(seal: (seq<byte>, seq<byte>, seq<byte>) -> Sealed, open: (seq<byte>, seq<byte>, Sealed) -> Opened)

  ghost predicate RoundTrips(c: Cipher)
  {
    && (forall k: seq<byte>, n: seq<byte>, p: seq<byte> {:trigger c.seal(k, n, p)} ::
      |k| == 32 && |n| == 12 ==> c.open(k, n, c.seal(k, n, p)) == Plain(p) && |c.seal(k, n, p).cipher| == |p|)
    && (forall k: seq<byte>, n: seq<byte>, s: Sealed {:trigger c.open(k, n, s)} ::
      c.open(k, n, s).Plain? ==> |c.open(k, n, s).text| == |s.cipher|)
  }

  function Instance(): Cipher
  {
    Cipher((k, n, p) => if |k| == 32 && |n| == 12 then Seal(k, n, p) else Sealed([], []),
           (k, n, s) => if |k| == 32 && |n| == 12 then Unseal(k, n, s) else Refused)
  }

  lemma InstanceRoundTrips()
    ensures RoundTrips(Instance())
  {
    forall k: seq<byte>, n: seq<byte>, p: seq<byte> | |k| == 32 && |n| == 12
      ensures Instance().open(k, n, Instance().seal(k, n, p)) == Plain(p) && |Instance().seal(k, n, p).cipher| == |p|
    {
      UnsealSeal(k, n, p);
    }
  }

  // ----- The records -----

  datatype Slot = Slot(name: seq<byte>, len: nat, reserved: nat, value: seq<byte>)

  predicate SlotShape(s: Slot)
  {
    |s.name| == 40 && s.len < 0x1_0000 && s.reserved < 0x1_0000 && |s.value| == 96
  }

  predicate Shape(p: seq<Slot>)
  {
    |p| == 28 && forall i :: 0 <= i < |p| ==> SlotShape(p[i])
  }

  /** The records as they lie in memory. */
  function SlotBytes(s: Slot): (b: seq<byte>)
    requires SlotShape(s)
    ensures |b| == 140
  {
    s.name + [s.len % 256, s.len / 256, s.reserved % 256, s.reserved / 256] + s.value
  }

  function Image(p: seq<Slot>): (b: seq<byte>)
    requires forall i :: 0 <= i < |p| ==> SlotShape(p[i])
    ensures |b| == 140 * |p|
  {
    if p == [] then [] else SlotBytes(p[0]) + Image(p[1..])
  }

  /** Memory read back as records. */
  function SlotAt(b: seq<byte>): (s: Slot)
    requires |b| == 140
    ensures SlotShape(s)
  {
    Slot(b[..40], b[40] as nat + 256 * b[41] as nat, b[42] as nat + 256 * b[43] as nat, b[44..])
  }

  function Records(b: seq<byte>): (p: seq<Slot>)
    requires |b| % 140 == 0
    ensures 140 * |p| == |b| && forall i :: 0 <= i < |p| ==> SlotShape(p[i])
  {
    if b == [] then [] else [SlotAt(b[..140])] + Records(b[140..])
  }

  lemma {:induction false} RecordsOfImage(p: seq<Slot>)
    requires forall i :: 0 <= i < |p| ==> SlotShape(p[i])
    ensures |Image(p)| % 140 == 0 && Records(Image(p)) == p
  {
    if p != [] {
      var b := Image(p);
      assert b[..140] == SlotBytes(p[0]) && b[140..] == Image(p[1..]);
      SlotOfBytes(p[0]);
      RecordsOfImage(p[1..]);
    }
  }

  lemma {:induction false} ImageOfRecords(b: seq<byte>)
    requires |b| % 140 == 0
    ensures Image(Records(b)) == b
  {
    if b != [] {
      BytesOfSlot(b[..140]);
      ImageOfRecords(b[140..]);
      assert Records(b)[1..] == Records(b[140..]);
      assert b == b[..140] + b[140..];
    }
  }

  lemma BytesOfSlot(b: seq<byte>)
    requires |b| == 140
    ensures SlotBytes(SlotAt(b)) == b
  {
    var s := SlotAt(b);
    assert s.len % 256 == b[40] && s.len / 256 == b[41] && s.reserved % 256 == b[42] && s.reserved / 256 == b[43];
    assert b == b[..40] + [b[40], b[41], b[42], b[43]] + b[44..];
  }

  lemma SlotOfBytes(s: Slot)
    requires SlotShape(s)
    ensures SlotAt(SlotBytes(s)) == s
  {
    var b := SlotBytes(s);
    assert b[..40] == s.name && b[44..] == s.value;
  }

  // ----- A copy in flash -----

  datatype Copy = Copy(magic: word, format: word, seqno: word, rounds: word, salt: seq<byte>, nonce: seq<byte>,
                       body: Sealed, wrapMagic: word, wrapNonce: seq<byte>, wrapped: Sealed)

  /** The fields a sector is read as, with the sizes of the structure. */
  predicate Sized(c: Copy)
  {
    |c.body.cipher| == 3920 && |c.wrapped.cipher| == 32
  }

  type Flash = f: seq<Copy> | |f| == 2 && Sized(f[0]) && Sized(f[1]) witness [Erased(), Erased()]

  /** What an erased sector reads as. */
  function Erased(): (c: Copy)
    ensures Sized(c) && !Good(c)
  {
    var ff: seq<byte> := seq(16, i => 0xff);
    Copy(0xffff_ffff, 0xffff_ffff, 0xffff_ffff, 0xffff_ffff, ff, ff[..12],
         Sealed(seq(3920, i => 0xff), ff), 0xffff_ffff, ff[..12], Sealed(ff + ff, ff))
  }

  /** copy_is_good: the header only. */
  predicate Good(c: Copy)
  {
    c.magic == 0x59454b55 && (c.format == 2 || c.format == 3) && c.rounds >= 1000
  }

  predicate HasWrap(c: Copy)
  {
    c.format == 3 && c.wrapMagic == 0x50415257
  }

  /** Copies of one store: the same passphrase makes the same key. */
  predicate SameStore(a: Copy, b: Copy)
  {
    a.magic == b.magic && a.salt == b.salt && a.rounds == b.rounds
  }

  /** The same key file opens both, or none does. */
  predicate SameWrap(a: Copy, b: Copy)
  {
    HasWrap(a) == HasWrap(b) && (HasWrap(a) ==> a.wrapNonce == b.wrapNonce && a.wrapped == b.wrapped)
  }

  /** The copy that ubiqos_keys_init takes, or -1. */
  function Live(f: Flash): int
  {
    var ga, gb := Good(f[0]), Good(f[1]);
    if ga && gb then (if f[0].seqno >= f[1].seqno then 0 else 1) else if ga then 0 else if gb then 1 else -1
  }

  /** A write to the sector that is not live goes through these states. */
  lemma Alternate(f: Flash, live: nat, img: Copy)
    requires live < 2 && Live(f) == live && Good(img) && Sized(img) && img.seqno == U32(f[live].seqno + 1)
    ensures Live(f[1 - live := Erased()]) == live
    ensures Live(f[1 - live := img]) == 1 - live <==> f[live].seqno < 0xffff_ffff
  {
  }

  /** The records that key k opens in what a start-up would take as live. */
  ghost predicate Recovers(c: Cipher, f: Flash, salt: seq<byte>, rounds: word, k: seq<byte>, p: seq<Slot>)
    requires Shape(p)
  {
    Live(f) >= 0
    && var l := f[Live(f)];
       l.salt == salt && l.rounds == rounds && c.open(k, l.nonce, l.body) == Plain(Image(p))
  }

  /** Destroying erases sector 0 and then sector 1. What a cut between the two leaves opens
      exactly as the copy in sector 1 does, the older one whenever sector 0 was live. */
  lemma {:induction false} DestroyCut(c: Cipher, f: Flash, salt: seq<byte>, rounds: word, k: seq<byte>, p: seq<Slot>)
    requires Shape(p)
    ensures Recovers(c, f[0 := Erased()], salt, rounds, k, p) <==>
      Good(f[1]) && f[1].salt == salt && f[1].rounds == rounds && c.open(k, f[1].nonce, f[1].body) == Plain(Image(p))
    ensures Live(f[0 := Erased()][1 := Erased()]) == -1
  {
  }

  /** The copy that an empty store starts with. */
  function FirstCopy(salt: seq<byte>, nonce: seq<byte>, body: Sealed): (c: Copy)
    requires |body.cipher| == 3920
    ensures Sized(c) && Good(c) && !HasWrap(c)
  {
    Copy(0x59454b55, 3, 1, 25000, salt, nonce, body, 0, seq(12, i => 0), Sealed(seq(32, i => 0), seq(16, i => 0)))
  }

  lemma {:induction false} FirstRecovers(c: Cipher, f: Flash, k: seq<byte>, p: seq<Slot>)
    requires Live(f) == 0 && Shape(p) && c.open(k, f[0].nonce, f[0].body) == Plain(Image(p))
    ensures Recovers(c, f, f[0].salt, f[0].rounds, k, p)
  {
  }

  lemma FirstCut(f: Flash, img: Copy)
    requires Live(f) < 0 && Sized(img) && Good(img)
    ensures Live(f[0 := Erased()]) < 0 && Live(f[0 := img]) == 0
  {
  }

  datatype Env = Env(alloc: bool, park: bool, program: bool, nonce: seq<byte>, salt: seq<byte>)

  /** What a write answers: no memory, the other core not parked, or a copy that did not take. */
  function Outcome(env: Env): int
  {
    if !env.alloc then -7 else if !env.park then -3 else if !env.program then -4 else 0
  }

  datatype Ram = Locked | Open(plain: seq<Slot>)

  // ----- Names and the map they make -----

  predicate ZeroFree(n: seq<byte>)
  {
    forall i :: 0 <= i < |n| ==> n[i] != 0
  }

  /** A name as it is kept: forty bytes, zeros after the text. */
  function CName(n: seq<byte>): (b: seq<byte>)
    requires |n| < 40
    ensures |b| == 40
  {
    n + seq(40 - |n|, i => 0)
  }

  /** A kept name that ends, as every name stored by `set` does. */
  ghost predicate Ended(b: seq<byte>)
  {
    exists n: seq<byte> :: |n| < 40 && ZeroFree(n) && b == CName(n)
  }

  /** name_eq, from byte i on; the text asked for ends with a zero. */
  predicate NameEq(a: seq<byte>, b: seq<byte>, i: nat)
    requires |a| == 40 && i <= 40
    decreases 40 - i
  {
    if i == 40 then false
    else
      var x := if i < |b| then b[i] else 0;
      a[i] == x && (x == 0 || NameEq(a, b, i + 1))
  }

  lemma {:induction false} NameEqIs(a: seq<byte>, m: seq<byte>, b: seq<byte>, i: nat)
    requires |m| < 40 && ZeroFree(m) && a == CName(m) && ZeroFree(b)
    requires i <= |m| && i <= |b| && m[..i] == b[..i]
    ensures NameEq(a, b, i) <==> m == b
    decreases 40 - i
  {
    if i < |m| && i < |b| && m[i] == b[i] {
      NameEqIs(a, m, b, i + 1);
    } else if i == |m| == |b| {
      assert m == b;
    }
  }

  /** On kept names the comparison is equality, and no name of forty bytes or more is kept. */
  lemma {:induction false} NameEqEnded(a: seq<byte>, b: seq<byte>)
    requires |a| == 40 && Ended(a) && ZeroFree(b)
    ensures NameEq(a, b, 0) <==> |b| < 40 && a == CName(b)
  {
    var m :| |m| < 40 && ZeroFree(m) && a == CName(m);
    NameEqIs(a, m, b, 0);
    if |b| < 40 && a == CName(b) {
      SameName(m, b);
    }
  }

  lemma SameName(m: seq<byte>, b: seq<byte>)
    requires |m| < 40 && ZeroFree(m) && |b| < 40 && ZeroFree(b) && CName(m) == CName(b)
    ensures m == b
  {
    assert |m| < 40 && CName(m)[|m|] == 0 && CName(b)[|b|] == 0;
    assert CName(m)[..|m|] == m && CName(b)[..|b|] == b;
  }

  /** Used records have ended names, all different, and values of 1 to 96 bytes. */
  ghost predicate WellNamed(p: seq<Slot>)
  {
    && Shape(p)
    && (forall i :: 0 <= i < |p| && p[i].len > 0 ==> Ended(p[i].name) && p[i].len <= 96)
    && (forall i, j :: 0 <= i < j < |p| && p[i].len > 0 && p[j].len > 0 ==> p[i].name != p[j].name)
  }

  /** The records as a map from kept names to values. */
  ghost function MapOf(p: seq<Slot>): map<seq<byte>, seq<byte>>
    requires WellNamed(p)
  {
    map i | 0 <= i < |p| && p[i].len > 0 :: p[i].name := p[i].value[..p[i].len]
  }

  /** Some used record has this name and this value. */
  ghost predicate Holds(p: seq<Slot>, k: seq<byte>, v: seq<byte>)
    requires forall i :: 0 <= i < |p| ==> p[i].len <= |p[i].value|
  {
    exists i :: 0 <= i < |p| && p[i].len > 0 && p[i].name == k && p[i].value[..p[i].len] == v
  }

  lemma MapHolds(p: seq<Slot>, k: seq<byte>, v: seq<byte>)
    requires WellNamed(p)
    ensures (forall i :: 0 <= i < |p| ==> p[i].len <= |p[i].value|) && (Holds(p, k, v) <==> Maps(MapOf(p), k, v))
  {
    forall i | 0 <= i < |p|
      ensures p[i].len <= |p[i].value|
    {
      assert SlotShape(p[i]);
    }
  }

  /** A used record may take the place of one of its own name, or of any when no other has
      that name; an empty one may take any place. */
  lemma WellNamedWith(p: seq<Slot>, i: nat, s: Slot)
    requires WellNamed(p) && i < |p| && SlotShape(s) && s.len <= 96 && (s.len > 0 ==> Ended(s.name))
    requires s.len > 0 ==> forall j :: 0 <= j < |p| && j != i && p[j].len > 0 ==> p[j].name != s.name
    ensures WellNamed(p[i := s])
  {
    var q := p[i := s];
    forall j | 0 <= j < |q|
      ensures SlotShape(q[j]) && (q[j].len > 0 ==> Ended(q[j].name) && q[j].len <= 96)
    {
      assert SlotShape(p[j]);
    }
    assert Shape(q);
  }

  /** Filling the record of that name, or an unused one when there is none, sets the key. */
  lemma MapSet(p: seq<Slot>, i: nat, s: Slot)
    requires WellNamed(p) && i < |p| && SlotShape(s) && 0 < s.len <= 96 && Ended(s.name)
    requires if p[i].len > 0 then p[i].name == s.name else forall j :: 0 <= j < |p| && p[j].len > 0 ==> p[j].name != s.name
    ensures WellNamed(p[i := s]) && MapOf(p[i := s]) == MapOf(p)[s.name := s.value[..s.len]]
  {
    WellNamedWith(p, i, s);
    var q, v := p[i := s], s.value[..s.len];
    forall k, w
      ensures Maps(MapOf(q), k, w) <==> Maps(MapOf(p)[s.name := v], k, w)
    {
      HoldsWith(p, i, s, k, w);
      MapHolds(p, k, w);
      MapHolds(q, k, w);
    }
    SameMap(MapOf(q), MapOf(p)[s.name := v]);
  }

  /** What holds once a record replaced another of its name, or an empty one. */
  lemma HoldsWith(p: seq<Slot>, i: nat, s: Slot, k: seq<byte>, w: seq<byte>)
    requires (forall j :: 0 <= j < |p| ==> p[j].len <= |p[j].value|) && i < |p| && 0 < s.len <= |s.value|
    requires forall j :: 0 <= j < |p| && j != i && p[j].len > 0 ==> p[j].name != s.name
    requires p[i].len > 0 ==> p[i].name == s.name
    ensures Holds(p[i := s], k, w) <==> if k == s.name then w == s.value[..s.len] else Holds(p, k, w)
  {
    var q := p[i := s];
    if k == s.name && w == s.value[..s.len] {
      assert q[i] == s;
    }
    if k != s.name && Holds(p, k, w) {
      var j :| 0 <= j < |p| && p[j].len > 0 && p[j].name == k && p[j].value[..p[j].len] == w;
      assert q[j] == p[j];
    }
  }

  predicate Maps(m: map<seq<byte>, seq<byte>>, k: seq<byte>, w: seq<byte>)
  {
    k in m && m[k] == w
  }

  lemma SameMap(m: map<seq<byte>, seq<byte>>, n: map<seq<byte>, seq<byte>>)
    requires forall k, w :: Maps(m, k, w) <==> Maps(n, k, w)
    ensures m == n
  {
    forall k | k in m
      ensures k in n && n[k] == m[k]
    {
      assert Maps(m, k, m[k]);
    }
    forall k | k in n
      ensures k in m
    {
      assert Maps(n, k, n[k]);
    }
  }

  /** Emptying a record forgets its key and no other. */
  lemma MapRemove(p: seq<Slot>, i: nat, s: Slot)
    requires WellNamed(p) && i < |p| && p[i].len > 0 && SlotShape(s) && s.len == 0
    ensures WellNamed(p[i := s]) && MapOf(p[i := s]) == MapOf(p) - {p[i].name}
  {
    WellNamedWith(p, i, s);
    MapsWithout(p, i, s, MapOf(p), MapOf(p[i := s]));
    SameMap(MapOf(p[i := s]), MapOf(p) - {p[i].name});
  }

  lemma MapsWithout(p: seq<Slot>, i: nat, s: Slot, m: map<seq<byte>, seq<byte>>, n: map<seq<byte>, seq<byte>>)
    requires WellNamed(p) && i < |p| && p[i].len > 0 && s.len == 0 && WellNamed(p[i := s]) && m == MapOf(p) && n == MapOf(p[i := s])
    ensures forall k, w :: Maps(n, k, w) <==> Maps(m - {p[i].name}, k, w)
  {
    forall k, w
      ensures Maps(n, k, w) <==> Maps(m - {p[i].name}, k, w)
    {
      MapHolds(p, k, w);
      MapHolds(p[i := s], k, w);
      HoldsWithout(p, i, s, k, w);
      MapsMinus(m, p[i].name, k, w);
    }
  }

  lemma MapsMinus(m: map<seq<byte>, seq<byte>>, key: seq<byte>, k: seq<byte>, w: seq<byte>)
    ensures Maps(m - {key}, k, w) <==> k != key && Maps(m, k, w)
  {
  }

  lemma HoldsWithout(p: seq<Slot>, i: nat, s: Slot, k: seq<byte>, w: seq<byte>)
    requires (forall j :: 0 <= j < |p| ==> p[j].len <= |p[j].value|) && i < |p| && s.len == 0
    requires forall j :: 0 <= j < |p| && j != i && p[j].len > 0 ==> p[j].name != p[i].name
    ensures Holds(p[i := s], k, w) <==> k != p[i].name && Holds(p, k, w)
  {
    var q := p[i := s];
    if k != p[i].name && Holds(p, k, w) {
      var j :| 0 <= j < |p| && p[j].len > 0 && p[j].name == k && p[j].value[..p[j].len] == w;
      assert q[j] == p[j];
    }
  }

  function EmptySlot(): (s: Slot)
    ensures SlotShape(s) && s.len == 0
  {
    Slot(seq(40, i => 0), 0, 0, seq(96, i => 0))
  }

  function NoRecords(): (p: seq<Slot>)
    ensures Shape(p) && WellNamed(p)
  {
    seq(28, i => EmptySlot())
  }

  /** What pending_wrap does to the copy that is written: puts a wrapping in (1), takes it
      out (2), or leaves it as it was (0). */
  function Wrapped(c: Copy, pending: nat, wrapNonce: seq<byte>, wrapped: Sealed): (d: Copy)
    requires Sized(c) && (pending == 1 ==> |wrapped.cipher| == 32)
    ensures Sized(d)
  {
    var none := c.(wrapMagic := 0, wrapNonce := seq(12, i => 0), wrapped := Sealed(seq(32, i => 0), seq(16, i => 0)), format := 3);
    if pending == 1 then none.(wrapMagic := 0x50415257, wrapNonce := wrapNonce, wrapped := wrapped)
    else if pending == 2 || !HasWrap(c) then none
    else c.(format := 3)
  }

  /** A name and a value that `set` takes. */
  predicate Settable(name: seq<byte>, value: seq<byte>)
  {
    name != [] && |name| < 40 && value != [] && |value| <= 96
  }

  /** A record of that name is used. */
  predicate Kept(p: seq<Slot>, name: seq<byte>)
    requires Shape(p)
  {
    name != [] && exists j :: 0 <= j < |p| && p[j].len > 0 && NameEq(p[j].name, name, 0)
  }

  /** Every record is used, and none has that name. */
  predicate NoRoom(p: seq<Slot>, name: seq<byte>)
    requires Shape(p)
  {
    forall j :: 0 <= j < |p| ==> p[j].len > 0 && !NameEq(p[j].name, name, 0)
  }

  /** In terms of the map of a store that `set` and `remove` made. */
  lemma KeptIs(p: seq<Slot>, name: seq<byte>)
    requires WellNamed(p) && ZeroFree(name)
    ensures Kept(p, name) <==> name != [] && |name| < 40 && CName(name) in MapOf(p)
    ensures NoRoom(p, name) && |name| < 40 ==> CName(name) !in MapOf(p)
  {
    NamesDiffer(p, name);
  }

  // ----- The store -----

  class Store {
    const cipher: Cipher
    const derive: (seq<byte>, word, seq<byte>) -> seq<byte>
    const fileKey: seq<byte> -> seq<byte>
    var flash: Flash
    var live: int
    var ram: Ram
    var key: seq<byte>
    /** Every state the flash has been in, oldest first. */
    var past: seq<Flash>

    /** While open, what the live copy unseals to under the key held is what RAM holds. */
    ghost predicate Agrees()
      reads this
      requires live < 2 && ram.Open?
    {
      && Shape(ram.plain) && |key| == 32 && live >= 0
      && cipher.open(key, flash[live].nonce, flash[live].body) == Plain(Image(ram.plain))
    }

    ghost predicate Valid()
      reads this
    {
      && RoundTrips(cipher)
      && (forall s, r, p :: |derive(s, r, p)| == 32)
      && (forall t :: |fileKey(t)| == 32)
      && -1 <= live < 2
      && (ram.Open? ==> Agrees())
    }

    /** The live copy is the one a start-up would take. */
    predicate Current()
      reads this
    {
      live == Live(flash)
    }

    /** Start-up: ubiqos_keys_init on whatever the flash holds. */
    constructor (cipher: Cipher, derive: (seq<byte>, word, seq<byte>) -> seq<byte>, fileKey: seq<byte> -> seq<byte>, flash: Flash)
      requires RoundTrips(cipher) && (forall s, r, p :: |derive(s, r, p)| == 32) && forall t :: |fileKey(t)| == 32
      ensures Valid() && Current() && this.flash == flash && ram.Locked? && past == [flash]
      ensures this.cipher == cipher && this.derive == derive && this.fileKey == fileKey
    {
      this.cipher, this.derive, this.fileKey, this.flash := cipher, derive, fileKey, flash;
      var ga, gb := Good(flash[0]), Good(flash[1]);
      live := if ga && gb then (if flash[0].seqno >= flash[1].seqno then 0 else 1) else if ga then 0 else if gb then 1 else -1;
      ram, key := Locked, [];
      past := [flash];
    }

    lemma LiveOpens(p: seq<Slot>)
      requires Valid() && Current() && ram == Open(p)
      ensures 0 <= live && Opens(cipher, key, flash[live], flash[live].salt, flash[live].rounds, p)
    {
    }

    lemma LiveRecovers(p: seq<Slot>)
      requires Valid() && Current() && ram == Open(p)
      ensures Shape(p) && 0 <= live && Recovers(cipher, flash, flash[live].salt, flash[live].rounds, key, p)
    {
      LiveOpens(p);
    }

    /** ubiqos_keys_lock */
    method Lock()
      requires Valid()
      modifies this`ram, this`key
      ensures Valid() && ram.Locked?
    {
      ram, key := Locked, seq(32, i => 0);
    }

    /** do_write: erase, then program if there is something to program and it takes. */
    method DoWrite(which: nat, img: Copy, program: bool)
      requires which < 2 && Sized(img)
      modifies this`flash, this`past
      ensures flash == old(flash)[which := if program then img else Erased()]
      ensures past == old(past) + [old(flash)[which := Erased()]] + if program then [flash] else []
    {
      flash := flash[which := Erased()];
      past := past + [flash];
      if program {
        flash := flash[which := img];
        past := past + [flash];
      }
    }

    /** seal_and_write: the records in RAM, sealed under the key held, into the copy that is
        not live. In every state on the way a start-up takes the copy that was live, whole,
        or the new one. */
    method SealAndWrite(pending: nat, wrapNonce: seq<byte>, wrapped: Sealed, env: Env) returns (rc: int)
      requires RoundTrips(cipher) && Current() && live >= 0 && |key| == 32 && |env.nonce| == 12
      requires ram.Open? && Shape(ram.plain) && (pending == 1 ==> |wrapped.cipher| == 32)
      modifies this`flash, this`live, this`past
      ensures 0 <= live < 2 && rc == Outcome(env)
      ensures rc != 0 ==> live == old(live) && flash[live] == old(flash[live]) && Current()
      ensures rc == 0 ==> live == 1 - old(live) && flash[old(live)] == old(flash[live])
      ensures rc == 0 ==> cipher.open(key, flash[live].nonce, flash[live].body) == Plain(Image(ram.plain))
      ensures rc == 0 ==> flash[live] == Wrapped(old(flash[live]), pending, wrapNonce, wrapped).(
        seqno := U32(old(flash[live].seqno) + 1), nonce := env.nonce, body := flash[live].body)
      ensures rc == 0 ==> (Current() <==> old(flash[live].seqno) < 0xffff_ffff)
      ensures old(past) <= past
      ensures old(flash[live].seqno) < 0xffff_ffff ==> forall i :: |old(past)| <= i < |past| ==>
        (Live(past[i]) >= 0 && past[i][Live(past[i])] == old(flash[live])) || (rc == 0 && past[i] == flash)
    {
      if !env.alloc {
        return -7;
      }
      var img := Wrapped(flash[live], pending, wrapNonce, wrapped);
      img := img.(seqno := U32(flash[live].seqno + 1), nonce := env.nonce, body := cipher.seal(key, env.nonce, Image(ram.plain)));
      var which := if live == 0 then 1 else 0;
      if !env.park {
        return -3;
      }
      Alternate(flash, live, img);
      ghost var was := flash;
      DoWrite(which, img, env.program);
      assert flash[live] == was[live];
      if Good(flash[which]) && flash[which].seqno == img.seqno {
        live := which;
        return 0;
      }
      return -4;
    }

    /** The states a write went through, for a store whose RAM agreed with flash before and
        agrees after: each opens to the old records or to the new ones. */
    ghost predicate CutSafe(from: nat, salt: seq<byte>, rounds: word, before: seq<Slot>)
      reads this
      requires Shape(before) && ram.Open? && Shape(ram.plain)
    {
      forall i :: from <= i < |past| ==>
        Recovers(cipher, past[i], salt, rounds, key, before) || Recovers(cipher, past[i], salt, rounds, key, ram.plain)
    }

    /** The live copy is one of the same store, and at most one write younger. */
    predicate Moved(was: Copy)
      reads this
    {
      0 <= live < 2 && SameStore(was, flash[live]) && (was.seqno < 0xffff_ffff ==> was.seqno <= flash[live].seqno <= was.seqno + 1)
    }

    /** A change of records tried, and undone in RAM when it could not be written. */
    method Change(slot: nat, s: Slot, env: Env) returns (rc: int)
      requires Valid() && Current() && ram.Open? && slot < 28 && SlotShape(s) && |env.nonce| == 12
      modifies this`flash, this`live, this`past, this`ram
      ensures Valid() && ram.Open? && Shape(old(ram.plain)) && old(past) <= past && rc == Outcome(env)
      ensures ram.plain == if rc == 0 then old(ram.plain)[slot := s] else old(ram.plain)
      ensures Moved(old(flash[live])) && SameWrap(old(flash[live]), flash[live])
      ensures rc == 0 ==> live == 1 - old(live) && flash[old(live)] == old(flash[live])
      ensures Current() <==> rc != 0 || old(flash[live].seqno) < 0xffff_ffff
      ensures old(flash[live].seqno) < 0xffff_ffff ==>
        CutSafe(|old(past)|, old(flash[live].salt), old(flash[live].rounds), old(ram.plain))
    {
      var keep := ram.plain[slot];
      ghost var before := ram.plain;
      ram := Open(ram.plain[slot := s]);
      rc := SealAndWrite(0, [], Sealed([], []), env);
      if rc != 0 {
        ram := Open(ram.plain[slot := keep]);
        assert ram.plain == before;
      }
    }

    /** The record of that name, or -1: the loop of find. */
    method Find(name: seq<byte>) returns (i: int)
      requires ram.Open? && Shape(ram.plain)
      ensures -1 <= i < 28
      ensures i >= 0 ==> ram.plain[i].len > 0 && NameEq(ram.plain[i].name, name, 0)
      ensures i < 0 ==> forall j :: 0 <= j < 28 && ram.plain[j].len > 0 ==> !NameEq(ram.plain[j].name, name, 0)
    {
      for k := 0 to 28
        invariant forall j :: 0 <= j < k && ram.plain[j].len > 0 ==> !NameEq(ram.plain[j].name, name, 0)
      {
        if ram.plain[k].len > 0 && NameEq(ram.plain[k].name, name, 0) {
          return k;
        }
      }
      return -1;
    }

    /** ubiqos_keys_value: the bytes kept under a name, of which the first `len` count. */
    method Value(name: seq<byte>) returns (found: bool, value: seq<byte>, len: nat)
      requires Valid() && ZeroFree(name)
      ensures found == (ram.Open? && Shape(ram.plain) && Kept(ram.plain, name))
      ensures found && WellNamed(ram.plain) ==> |name| < 40 && CName(name) in MapOf(ram.plain) && len <= |value|
      ensures found && WellNamed(ram.plain) ==> value[..len] == MapOf(ram.plain)[CName(name)]
    {
      found, value, len := false, [], 0;
      if ram.Locked? || name == [] {
        return;
      }
      var i := Find(name);
      if i >= 0 {
        found, value, len := true, ram.plain[i].value, ram.plain[i].len;
        if WellNamed(ram.plain) {
          NamesDiffer(ram.plain, name);
        }
      }
    }

    /** The record `set` fills: the one of that name, else the first unused, else -1. */
    method FindForSet(name: seq<byte>) returns (i: int)
      requires ram.Open? && Shape(ram.plain) && |name| < 40
      ensures -1 <= i < 28
      ensures i >= 0 && ram.plain[i].len > 0 ==> NameEq(ram.plain[i].name, name, 0)
      ensures i < 0 || ram.plain[i].len == 0 ==> forall j :: 0 <= j < 28 && ram.plain[j].len > 0 ==> !NameEq(ram.plain[j].name, name, 0)
      ensures i < 0 ==> forall j :: 0 <= j < 28 ==> ram.plain[j].len > 0
    {
      var spare := -1;
      for k := 0 to 28
        invariant forall j :: 0 <= j < k && ram.plain[j].len > 0 ==> !NameEq(ram.plain[j].name, name, 0)
        invariant -1 <= spare < k && (spare >= 0 ==> ram.plain[spare].len == 0)
        invariant spare < 0 ==> forall j :: 0 <= j < k ==> ram.plain[j].len > 0
      {
        if ram.plain[k].len > 0 && NameEq(ram.plain[k].name, name, 0) {
          return k;
        }
        if ram.plain[k].len == 0 && spare < 0 {
          spare := k;
        }
      }
      return spare;
    }

    /** ubiqos_keys_set. On records that `set` and `remove` made, success is the map with
        that one key changed; any failure leaves the records as they were. */
    method Set(name: seq<byte>, value: seq<byte>, env: Env) returns (rc: int)
      requires Valid() && Current() && ZeroFree(name) && |env.nonce| == 12
      modifies this`flash, this`live, this`past, this`ram
      ensures Valid() && old(past) <= past
      ensures old(ram.Locked?) ==> rc == -5 && ram.Locked? && past == old(past)
      ensures old(ram.Open?) ==> ram.Open? && Shape(old(ram.plain))
      ensures rc != 0 ==> ram == old(ram) && Current()
      ensures old(ram.Open?) ==> rc == if !Settable(name, value) then -1 else if NoRoom(old(ram.plain), name) then -2 else Outcome(env)
      ensures old(ram.Open?) && WellNamed(old(ram.plain)) && rc == 0 ==>
        WellNamed(ram.plain) && MapOf(ram.plain) == MapOf(old(ram.plain))[CName(name) := value]
      ensures old(ram.Open?) ==> Moved(old(flash[live])) && SameWrap(old(flash[live]), flash[live])
      ensures rc == 0 ==> live == 1 - old(live) && flash[old(live)] == old(flash[live])
      ensures old(ram.Open?) && old(flash[live].seqno) < 0xffff_ffff ==>
        (Current() && CutSafe(|old(past)|, old(flash[live].salt), old(flash[live].rounds), old(ram.plain)))
    {
      if ram.Locked? {
        return -5;
      }
      if !Settable(name, value) {
        return -1;
      }
      var i := FindForSet(name);
      if WellNamed(ram.plain) {
        NamesDiffer(ram.plain, name);
      }
      if i < 0 {
        return -2;
      }
      var s := Slot(CName(name), |value|, 0, value + seq(96 - |value|, k => 0));
      Keeps(ram.plain, i, name, value, s);
      rc := Change(i, s, env);
    }

    /** ubiqos_keys_remove. It succeeds exactly if the key is kept and the write takes. */
    method Remove(name: seq<byte>, env: Env) returns (rc: int)
      requires Valid() && Current() && ZeroFree(name) && |env.nonce| == 12
      modifies this`flash, this`live, this`past, this`ram
      ensures Valid() && old(past) <= past
      ensures old(ram.Locked?) ==> rc == -5 && ram.Locked? && past == old(past)
      ensures old(ram.Open?) ==> ram.Open? && Shape(old(ram.plain))
      ensures rc != 0 ==> ram == old(ram) && Current()
      ensures old(ram.Open?) && WellNamed(old(ram.plain)) ==> WellNamed(ram.plain)
      ensures old(ram.Open?) ==> rc == if Kept(old(ram.plain), name) then Outcome(env) else -1
      ensures old(ram.Open?) && WellNamed(old(ram.plain)) && rc == 0 ==> |name| < 40 && MapOf(ram.plain) == MapOf(old(ram.plain)) - {CName(name)}
      ensures old(ram.Open?) ==> Moved(old(flash[live])) && SameWrap(old(flash[live]), flash[live])
      ensures old(ram.Open?) && old(flash[live].seqno) < 0xffff_ffff ==>
        (Current() && CutSafe(|old(past)|, old(flash[live].salt), old(flash[live].rounds), old(ram.plain)))
    {
      if ram.Locked? {
        return -5;
      }
      if name == [] {
        return -1;
      }
      ghost var before := ram.plain;
      var i := Find(name);
      if i < 0 {
        return -1;
      }
      Forgets(before, i, name);
      rc := Change(i, EmptySlot(), env);
    }

    /** ubiqos_keys_unattended_on: the key held, sealed again under the key file's. */
    method UnattendedOn(token: seq<byte>, wrapNonce: seq<byte>, env: Env) returns (rc: int)
      requires Valid() && Current() && |env.nonce| == 12 && |wrapNonce| == 12
      modifies this`flash, this`live, this`past
      ensures Valid() && old(past) <= past
      ensures rc == if ram.Locked? then -5 else Outcome(env)
      ensures old(ram.Locked?) ==> past == old(past)
      ensures rc == 0 ==>
        (0 <= live < 2 && HasWrap(flash[live]) && cipher.open(fileKey(token), flash[live].wrapNonce, flash[live].wrapped) == Plain(key))
      ensures ram.Open? ==> Moved(old(flash[live])) && (rc != 0 ==> flash[live] == old(flash[live]))
      ensures ram.Open? && old(flash[live].seqno) < 0xffff_ffff ==>
        (Current() && Shape(ram.plain) && CutSafe(|old(past)|, old(flash[live].salt), old(flash[live].rounds), ram.plain))
    {
      if ram.Locked? {
        return -5;
      }
      rc := SealAndWrite(1, wrapNonce, cipher.seal(fileKey(token), wrapNonce, key), env);
    }

    /** ubiqos_keys_unattended_off */
    method UnattendedOff(env: Env) returns (rc: int)
      requires Valid() && Current() && |env.nonce| == 12
      modifies this`flash, this`live, this`past
      ensures Valid() && old(past) <= past
      ensures rc == if ram.Locked? then -5 else Outcome(env)
      ensures old(ram.Locked?) ==> past == old(past)
      ensures rc == 0 ==> 0 <= live < 2 && !HasWrap(flash[live])
      ensures ram.Open? ==> Moved(old(flash[live])) && (rc != 0 ==> flash[live] == old(flash[live]))
      ensures ram.Open? && old(flash[live].seqno) < 0xffff_ffff ==>
        (Current() && Shape(ram.plain) && CutSafe(|old(past)|, old(flash[live].salt), old(flash[live].rounds), ram.plain))
    {
      if ram.Locked? {
        return -5;
      }
      rc := SealAndWrite(2, [], Sealed([], []), env);
    }

    // ----- Whole runs -----

    /** One command, in an open store that has writes left to it. */
    method Do(cmd: Command, env: Env)
      requires Valid() && Current() && ram.Open? && |env.nonce| == 12 && CommandOk(cmd) && flash[live].seqno < 0xffff_ffff
      modifies this`flash, this`live, this`past, this`ram
      ensures Valid() && Current() && ram.Open? && old(past) <= past && Shape(old(ram.plain)) && Moved(old(flash[live]))
      ensures CutSafe(|old(past)|, old(flash[live].salt), old(flash[live].rounds), old(ram.plain))
      ensures Shape(ram.plain) && Follows(cmd, env, old(ram.plain), ram.plain)
      ensures WrapFollows(cipher, fileKey, key, cmd, env, old(flash[live]), flash[live])
    {
      match cmd
      case SetKey(name, value) => var rc := Set(name, value, env);
      case RemoveKey(name) => RemoveOne(name, env);
      case KeyFile(token, nonce) => var rc := UnattendedOn(token, nonce, env);
      case NoKeyFile => var rc := UnattendedOff(env);
    }

    method RemoveOne(name: seq<byte>, env: Env)
      requires Valid() && Current() && ram.Open? && |env.nonce| == 12 && ZeroFree(name) && flash[live].seqno < 0xffff_ffff
      modifies this`flash, this`live, this`past, this`ram
      ensures Valid() && Current() && ram.Open? && old(past) <= past && Shape(old(ram.plain)) && Moved(old(flash[live]))
      ensures CutSafe(|old(past)|, old(flash[live].salt), old(flash[live].rounds), old(ram.plain))
      ensures Shape(ram.plain) && Follows(RemoveKey(name), env, old(ram.plain), ram.plain) && SameWrap(old(flash[live]), flash[live])
    {
      if WellNamed(ram.plain) {
        KeptIs(ram.plain, name);
      }
      var rc := Remove(name, env);
    }

    /** A run of commands: whichever state of the flash a power cut leaves, it opens to the
        records before or after the very command that the cut came in. Every command whose
        write takes has its effect, on the records or on the key file's wrapping, and every
        other none. */
    method Run(cmds: seq<Command>, envs: seq<Env>) returns (ghost records: seq<seq<Slot>>, ghost when: seq<nat>, ghost lives: seq<Copy>)
      requires Valid() && Current() && ram.Open? && |cmds| == |envs| && flash[live].seqno + |cmds| <= 0xffff_ffff
      requires forall i :: 0 <= i < |cmds| ==> CommandOk(cmds[i]) && |envs[i].nonce| == 12
      modifies this`flash, this`live, this`past, this`ram
      ensures Valid() && Current() && ram.Open? && old(past) <= past && Moves(cmds, envs, records)
      ensures records[0] == old(ram.plain) && records[|cmds|] == ram.plain
      ensures SafeRun(cipher, past, |old(past)|, old(flash[live].salt), old(flash[live].rounds), key, records, when)
      ensures Wraps(cipher, fileKey, key, cmds, envs, lives) && lives[0] == old(flash[live]) && lives[|cmds|] == flash[live]
    {
      records, when, lives := [ram.plain], [], [flash[live]];
      ghost var salt, rounds, from := flash[live].salt, flash[live].rounds, |past|;
      for i := 0 to |cmds|
        invariant Running(cmds[..i], envs[..i], records, when, from, salt, rounds) && records[0] == old(ram.plain)
        invariant old(past) <= past && flash[live].seqno + (|cmds| - i) <= 0xffff_ffff
        invariant Wraps(cipher, fileKey, key, cmds[..i], envs[..i], lives) && lives[0] == old(flash[live]) && lives[i] == flash[live]
      {
        ghost var l := flash[live];
        records, when := RunOne(cmds[..i], envs[..i], cmds[i], envs[i], records, when, from, salt, rounds);
        WrapsMore(cipher, fileKey, key, cmds[..i], envs[..i], lives, cmds[i], envs[i], flash[live]);
        lives := lives + [flash[live]];
        OneFurther(cmds, i);
        OneFurther(envs, i);
      }
      AllOf(cmds);
      AllOf(envs);
    }

    /** What holds after the commands that were carried out so far. */
    ghost predicate Running(cmds: seq<Command>, envs: seq<Env>, records: seq<seq<Slot>>, when: seq<nat>, from: nat, salt: seq<byte>, rounds: word)
      reads this
    {
      && Valid() && Current() && ram.Open? && live >= 0 && flash[live].salt == salt && flash[live].rounds == rounds
      && Moves(cmds, envs, records) && records[|cmds|] == ram.plain && SafeRun(cipher, past, from, salt, rounds, key, records, when)
    }

    method RunOne(cmds: seq<Command>, envs: seq<Env>, cmd: Command, env: Env, ghost records: seq<seq<Slot>>, ghost when: seq<nat>,
                  ghost from: nat, ghost salt: seq<byte>, ghost rounds: word) returns (ghost after: seq<seq<Slot>>, ghost since: seq<nat>)
      requires Running(cmds, envs, records, when, from, salt, rounds) && CommandOk(cmd) && |env.nonce| == 12 && flash[live].seqno < 0xffff_ffff
      modifies this`flash, this`live, this`past, this`ram
      ensures Running(cmds + [cmd], envs + [env], after, since, from, salt, rounds) && after[0] == records[0]
      ensures old(past) <= past && flash[live].seqno <= old(flash[live].seqno) + 1
      ensures WrapFollows(cipher, fileKey, key, cmd, env, old(flash[live]), flash[live])
    {
      ghost var was := past;
      Do(cmd, env);
      MovesMore(cmds, envs, records, cmd, env, ram.plain);
      SafeMore(cipher, was, past, from, salt, rounds, key, records, when, ram.plain);
      after, since := records + [ram.plain], when + seq(|past| - |was|, j => |records| - 1);
    }

    /** ubiqos_keys_destroy: both copies erased, one after the other. */
    method Destroy(park: bool) returns (rc: int)
      requires Valid()
      modifies this
      ensures Valid() && ram.Locked?
      ensures rc == (if park then 0 else -3)
      ensures park ==> live == -1 && Current()
      ensures park ==> past == old(past) + [old(flash)[0 := Erased()], old(flash)[0 := Erased()][1 := Erased()]]
      ensures !park ==> flash == old(flash) && live == old(live) && past == old(past)
    {
      Lock();
      if !park {
        return -3;
      }
      DoWrite(0, Erased(), false);
      DoWrite(1, Erased(), false);
      live := -1;
      return 0;
    }

    /** ubiqos_keys_unlock: opens the store with a passphrase, or makes one. */
    method Unlock(pass: seq<byte>, env: Env) returns (rc: int)
      requires Valid() && Current() && |env.nonce| == 12 && |env.salt| == 16
      modifies this
      ensures Valid() && Current() && old(past) <= past
      ensures pass == [] ==> rc == -1 && ram == old(ram) && flash == old(flash)
      ensures pass != [] && old(ram.Open?) ==> rc == 0 && ram == old(ram) && flash == old(flash)
      ensures pass != [] && old(ram.Locked?) && old(live) >= 0 ==> flash == old(flash) && past == old(past)
      ensures pass != [] && old(ram.Locked?) && old(live) >= 0 && !env.alloc ==> rc == -7 && ram.Locked?
      ensures pass != [] && old(ram.Locked?) && old(live) >= 0 && env.alloc ==>
        (var l := old(flash[live]);
         match cipher.open(derive(l.salt, l.rounds, pass), l.nonce, l.body)
         case Refused => rc == -6 && ram.Locked?
         case Plain(text) => rc == 0 && ram == Open(Records(text)) && key == derive(l.salt, l.rounds, pass))
      ensures pass != [] && old(ram.Locked?) && old(live) < 0 ==>
        (rc == 1 <==> env.alloc && env.park && env.program) && (if rc == 1 then ram == Open(NoRecords()) && live == 0 else ram.Locked?)
      ensures rc == 1 ==> pass != [] && old(ram.Locked?) && old(live) < 0
      ensures pass != [] && old(ram.Locked?) && old(live) < 0 ==> rc != 0
      ensures rc == 1 ==> flash[0].seqno == 1 && flash[0].salt == env.salt && flash[0].rounds == 25000 && key == derive(env.salt, 25000, pass)
      ensures pass != [] && old(ram.Locked?) && old(live) < 0 ==> forall i :: |old(past)| <= i < |past| ==>
        Live(past[i]) < 0 || (rc == 1 && Recovers(cipher, past[i], flash[0].salt, flash[0].rounds, key, NoRecords()))
    {
      if pass == [] {
        return -1;
      }
      if ram.Open? {
        return 0;
      }
      if !env.alloc {
        return -7;
      }
      if live < 0 {
        rc := Create(pass, env);
        return;
      }
      var l := flash[live];
      var k := derive(l.salt, l.rounds, pass);
      match cipher.open(k, l.nonce, l.body)
      case Refused => return -6;
      case Plain(text) =>
        ImageOfRecords(text);
        key, ram := k, Open(Records(text));
        return 0;
    }

    /** The first unlock of an empty store writes an empty one to sector 0. */
    method Create(pass: seq<byte>, env: Env) returns (rc: int)
      requires Valid() && Current() && live < 0 && ram.Locked? && |env.nonce| == 12 && |env.salt| == 16
      modifies this
      ensures Valid() && Current() && old(past) <= past
      ensures (rc == 1 <==> env.park && env.program) && rc != 0
      ensures if rc == 1 then ram == Open(NoRecords()) && live == 0 else ram.Locked?
      ensures rc == 1 ==> flash[0].seqno == 1 && flash[0].salt == env.salt && flash[0].rounds == 25000 && key == derive(env.salt, 25000, pass)
      ensures forall i :: |old(past)| <= i < |past| ==>
        Live(past[i]) < 0 || (rc == 1 && Recovers(cipher, past[i], flash[0].salt, flash[0].rounds, key, NoRecords()))
    {
      rc := CreateWith(pass, NoRecords(), env);
    }

    method CreateWith(pass: seq<byte>, p: seq<Slot>, env: Env) returns (rc: int)
      requires Valid() && Current() && live < 0 && ram.Locked? && |env.nonce| == 12 && |env.salt| == 16 && Shape(p)
      modifies this
      ensures Valid() && Current() && old(past) <= past
      ensures (rc == 1 <==> env.park && env.program) && rc != 0
      ensures if rc == 1 then ram == Open(p) && live == 0 else ram.Locked?
      ensures rc == 1 ==> flash[0].seqno == 1 && flash[0].salt == env.salt && flash[0].rounds == 25000 && key == derive(env.salt, 25000, pass)
      ensures forall i :: |old(past)| <= i < |past| ==>
        Live(past[i]) < 0 || (rc == 1 && Recovers(cipher, past[i], flash[0].salt, flash[0].rounds, key, p))
    {
      key := derive(env.salt, 25000, pass);
      var img := FirstCopy(env.salt, env.nonce, cipher.seal(key, env.nonce, Image(p)));
      assert cipher.open(key, img.nonce, img.body) == Plain(Image(p));
      rc := WriteFirst(img, env);
      if rc != 0 {
        key := seq(32, i => 0);
        return;
      }
      ram := Open(p);
      FirstRecovers(cipher, flash, key, p);
      return 1;
    }

    /** The first copy written to sector 0, when there is none. */
    method WriteFirst(img: Copy, env: Env) returns (rc: int)
      requires Current() && live < 0 && Sized(img) && Good(img) && img.seqno == 1
      modifies this`flash, this`live, this`past
      ensures Current() && old(past) <= past && (rc == 0 <==> env.park && env.program) && (rc == 0 || rc == -3 || rc == -4)
      ensures if rc == 0 then live == 0 && flash[0] == img else live == old(live)
      ensures forall i :: |old(past)| <= i < |past| ==> Live(past[i]) < 0 || (rc == 0 && past[i] == flash)
    {
      FirstCut(flash, img);
      rc := 0;
      if !env.park {
        rc := -3;
      } else {
        DoWrite(0, img, env.program);
        if Good(flash[0]) && flash[0].seqno == 1 {
          live := 0;
        } else {
          rc := -4;
        }
      }
    }

    /** ubiqos_keys_unlock_file */
    method UnlockFile(token: seq<byte>, env: Env) returns (rc: int)
      requires Valid() && Current()
      modifies this`ram, this`key
      ensures Valid()
      ensures old(ram.Open?) ==> rc == 0 && ram == old(ram)
      ensures old(ram.Locked?) && (live < 0 || !HasWrap(flash[live])) ==> rc == -7 && ram.Locked?
      ensures old(ram.Locked?) && live >= 0 && HasWrap(flash[live]) ==>
        match cipher.open(fileKey(token), flash[live].wrapNonce, flash[live].wrapped)
        case Refused => rc == -6 && ram.Locked?
        case Plain(k) =>
          if !env.alloc then rc == -1 && ram.Locked?
          else match cipher.open(k, flash[live].nonce, flash[live].body)
            case Refused => rc == -6 && ram.Locked?
            case Plain(text) => rc == 0 && ram == Open(Records(text)) && key == k
    {
      if ram.Open? {
        return 0;
      }
      if live < 0 || !HasWrap(flash[live]) {
        return -7;
      }
      var l := flash[live];
      match cipher.open(fileKey(token), l.wrapNonce, l.wrapped)
      case Refused => return -6;
      case Plain(k) =>
        if !env.alloc {
          return -1;
        }
        match cipher.open(k, l.nonce, l.body)
        case Refused => return -6;
        case Plain(text) =>
          ImageOfRecords(text);
          key, ram := k, Open(Records(text));
          return 0;
    }
  }

  datatype Command =
    | SetKey(name: seq<byte>, value: seq<byte>)
    | RemoveKey(name: seq<byte>)
    | KeyFile(token: seq<byte>, nonce: seq<byte>)
    | NoKeyFile

  predicate CommandOk(cmd: Command)
  {
    match cmd
    case SetKey(name, _) => ZeroFree(name)
    case RemoveKey(name) => ZeroFree(name)
    case KeyFile(_, nonce) => |nonce| == 12
    case NoKeyFile => true
  }

  /** A command that has an effect: the write takes, and there is something to set or remove. */
  ghost predicate Effective(cmd: Command, env: Env, p: seq<Slot>)
    requires Shape(p)
  {
    Outcome(env) == 0
    && match cmd
       case SetKey(name, value) => Settable(name, value) && !NoRoom(p, name)
       case RemoveKey(name) => Kept(p, name)
       case _ => false
  }

  /** The records after a command: as a map, those before it with the one key changed, exactly
      where the command has an effect, and otherwise the very same. */
  ghost predicate Follows(cmd: Command, env: Env, p: seq<Slot>, q: seq<Slot>)
    requires Shape(p)
  {
    if Effective(cmd, env, p) then WellNamed(p) ==> WellNamed(q) && Commanded(cmd, MapOf(p), MapOf(q)) else q == p
  }

  ghost predicate Commanded(cmd: Command, m: map<seq<byte>, seq<byte>>, n: map<seq<byte>, seq<byte>>)
  {
    match cmd
    case SetKey(name, value) => |name| < 40 && n == m[CName(name) := value]
    case RemoveKey(name) => |name| < 40 && CName(name) in m && n == m - {CName(name)}
    case _ => false
  }

  ghost predicate Moves(cmds: seq<Command>, envs: seq<Env>, records: seq<seq<Slot>>)
  {
    && |records| == |cmds| + 1 && |envs| == |cmds| && (forall i :: 0 <= i < |records| ==> Shape(records[i]))
    && forall i :: 0 <= i < |cmds| ==> Follows(cmds[i], envs[i], records[i], records[i + 1])
  }

  lemma MovesMore(cmds: seq<Command>, envs: seq<Env>, records: seq<seq<Slot>>, cmd: Command, env: Env, p: seq<Slot>)
    requires Moves(cmds, envs, records) && Shape(p) && Follows(cmd, env, records[|cmds|], p)
    ensures Moves(cmds + [cmd], envs + [env], records + [p])
  {
    var all, given, after := cmds + [cmd], envs + [env], records + [p];
    forall i | 0 <= i < |all|
      ensures Follows(all[i], given[i], after[i], after[i + 1])
    {
      if i < |cmds| {
        assert all[i] == cmds[i] && given[i] == envs[i] && after[i] == records[i] && after[i + 1] == records[i + 1];
      } else {
        assert all[i] == cmd && given[i] == env && after[i] == records[i] && after[i + 1] == p;
      }
    }
  }

  /** The key file's wrapping after a command: one that its key opens to the key held, or none,
      where the command is about it and the write takes, and otherwise the same. */
  ghost predicate WrapFollows(c: Cipher, fileKey: seq<byte> -> seq<byte>, key: seq<byte>, cmd: Command, env: Env, l: Copy, m: Copy)
  {
    if Outcome(env) == 0 && cmd.KeyFile? then HasWrap(m) && c.open(fileKey(cmd.token), m.wrapNonce, m.wrapped) == Plain(key)
    else if Outcome(env) == 0 && cmd.NoKeyFile? then !HasWrap(m)
    else SameWrap(l, m)
  }

  ghost predicate Wraps(c: Cipher, fileKey: seq<byte> -> seq<byte>, key: seq<byte>, cmds: seq<Command>, envs: seq<Env>, lives: seq<Copy>)
  {
    && |lives| == |cmds| + 1 && |envs| == |cmds|
    && forall i :: 0 <= i < |cmds| ==> WrapFollows(c, fileKey, key, cmds[i], envs[i], lives[i], lives[i + 1])
  }

  lemma WrapsMore(c: Cipher, fileKey: seq<byte> -> seq<byte>, key: seq<byte>, cmds: seq<Command>, envs: seq<Env>, lives: seq<Copy>,
                  cmd: Command, env: Env, m: Copy)
    requires Wraps(c, fileKey, key, cmds, envs, lives) && WrapFollows(c, fileKey, key, cmd, env, lives[|cmds|], m)
    ensures Wraps(c, fileKey, key, cmds + [cmd], envs + [env], lives + [m])
  {
    var all, given, after := cmds + [cmd], envs + [env], lives + [m];
    forall i | 0 <= i < |all|
      ensures WrapFollows(c, fileKey, key, all[i], given[i], after[i], after[i + 1])
    {
      if i < |cmds| {
        assert all[i] == cmds[i] && given[i] == envs[i] && after[i] == lives[i] && after[i + 1] == lives[i + 1];
      } else {
        assert all[i] == cmd && given[i] == env && after[i] == lives[i] && after[i + 1] == m;
      }
    }
  }

  /** Each state from `from` on came up in command `when`, and opens to the records before or
      after that command; the commands follow each other. */
  ghost predicate SafeRun(c: Cipher, past: seq<Flash>, from: nat, salt: seq<byte>, rounds: word, k: seq<byte>, records: seq<seq<Slot>>, when: seq<nat>)
  {
    && |past| == from + |when| && (forall i :: 0 <= i < |records| ==> Shape(records[i]))
    && (forall i, j :: 0 <= i < j < |when| ==> when[i] <= when[j])
    && (forall i :: 0 <= i < |when| ==> when[i] + 1 < |records| && OneOf(c, past[from + i], salt, rounds, k, records[when[i]], records[when[i] + 1]))
  }

  ghost predicate OneOf(c: Cipher, f: Flash, salt: seq<byte>, rounds: word, k: seq<byte>, p: seq<Slot>, q: seq<Slot>)
  {
    Shape(p) && Shape(q) && (Recovers(c, f, salt, rounds, k, p) || Recovers(c, f, salt, rounds, k, q))
  }

  lemma SafeMore(c: Cipher, was: seq<Flash>, past: seq<Flash>, from: nat, salt: seq<byte>, rounds: word, k: seq<byte>,
                 records: seq<seq<Slot>>, when: seq<nat>, p: seq<Slot>)
    requires records != [] && SafeRun(c, was, from, salt, rounds, k, records, when) && was <= past && Shape(p)
    requires forall i :: |was| <= i < |past| ==> OneOf(c, past[i], salt, rounds, k, records[|records| - 1], p)
    ensures SafeRun(c, past, from, salt, rounds, k, records + [p], when + seq(|past| - |was|, j => |records| - 1))
  {
    var after := when + seq(|past| - |was|, j => |records| - 1);
    var all := records + [p];
    forall i | 0 <= i < |after|
      ensures after[i] + 1 < |all| && OneOf(c, past[from + i], salt, rounds, k, all[after[i]], all[after[i] + 1])
    {
      if i < |when| {
        assert past[from + i] == was[from + i];
      }
    }
  }

  lemma OneFurther<T>(s: seq<T>, i: nat)
    requires i < |s|
    ensures s[..i + 1] == s[..i] + [s[i]]
  {
  }

  lemma AllOf<T>(s: seq<T>)
    ensures s[..|s|] == s
  {
  }

  /** Filling the record of a name, or one that is not used where there is none. */
  lemma Keeps(p: seq<Slot>, i: nat, name: seq<byte>, value: seq<byte>, s: Slot)
    requires Shape(p) && i < |p| && ZeroFree(name) && 0 < |name| < 40 && 0 < |value| <= 96
    requires p[i].len > 0 ==> NameEq(p[i].name, name, 0)
    requires p[i].len == 0 ==> forall j :: 0 <= j < |p| && p[j].len > 0 ==> !NameEq(p[j].name, name, 0)
    requires s == Slot(CName(name), |value|, 0, value + seq(96 - |value|, k => 0))
    ensures WellNamed(p) ==> WellNamed(p[i := s]) && MapOf(p[i := s]) == MapOf(p)[CName(name) := value]
  {
    if WellNamed(p) {
      NamesDiffer(p, name);
      assert s.value[..s.len] == value;
      MapSet(p, i, s);
    }
  }

  /** Emptying the record of a name. */
  lemma Forgets(p: seq<Slot>, i: nat, name: seq<byte>)
    requires Shape(p) && i < |p| && p[i].len > 0 && NameEq(p[i].name, name, 0) && ZeroFree(name)
    ensures WellNamed(p) ==> |name| < 40 && WellNamed(p[i := EmptySlot()]) && MapOf(p[i := EmptySlot()]) == MapOf(p) - {CName(name)}
  {
    if WellNamed(p) {
      NamesDiffer(p, name);
      MapRemove(p, i, EmptySlot());
    }
  }

  lemma {:induction false} NamesDiffer(p: seq<Slot>, name: seq<byte>)
    requires WellNamed(p) && ZeroFree(name)
    ensures |name| < 40 ==> Ended(CName(name))
    ensures forall i :: 0 <= i < |p| && p[i].len > 0 ==> (NameEq(p[i].name, name, 0) <==> |name| < 40 && p[i].name == CName(name))
  {
    forall i | 0 <= i < |p| && p[i].len > 0
      ensures NameEq(p[i].name, name, 0) <==> |name| < 40 && p[i].name == CName(name)
    {
      NameEqEnded(p[i].name, name);
    }
  }

  /** A start-up after a cut, on any state that Recovers: the passphrase that gave the key
      opens exactly those records. */
  method Reopen(cipher: Cipher, derive: (seq<byte>, word, seq<byte>) -> seq<byte>, fileKey: seq<byte> -> seq<byte>,
                f: Flash, pass: seq<byte>, env: Env, ghost salt: seq<byte>, ghost rounds: word, ghost p: seq<Slot>)
    returns (store: Store, rc: int)
    requires RoundTrips(cipher) && (forall s, r, w :: |derive(s, r, w)| == 32) && forall t :: |fileKey(t)| == 32
    requires pass != [] && env.alloc && |env.nonce| == 12 && |env.salt| == 16
    requires Shape(p) && Recovers(cipher, f, salt, rounds, derive(salt, rounds, pass), p)
    ensures rc == 0 && store.ram == Open(p) && [f] <= store.past
  {
    store := new Store(cipher, derive, fileKey, f);
    rc := store.Unlock(pass, env);
    RecordsOfImage(p);
  }

  /** A power cut at any step of a run, and a start-up with the same passphrase: the records
      are those before or those after the command the cut came in. */
  method ReopenAfterCut(cipher: Cipher, derive: (seq<byte>, word, seq<byte>) -> seq<byte>, fileKey: seq<byte> -> seq<byte>,
                        f: Flash, pass: seq<byte>, env: Env, ghost past: seq<Flash>, ghost from: nat, ghost salt: seq<byte>, ghost rounds: word,
                        ghost records: seq<seq<Slot>>, ghost when: seq<nat>, ghost i: nat)
    returns (store: Store, rc: int)
    requires RoundTrips(cipher) && (forall s, r, w :: |derive(s, r, w)| == 32) && forall t :: |fileKey(t)| == 32
    requires pass != [] && env.alloc && |env.nonce| == 12 && |env.salt| == 16
    requires SafeRun(cipher, past, from, salt, rounds, derive(salt, rounds, pass), records, when) && i < |when| && f == past[from + i]
    ensures rc == 0 && (store.ram == Open(records[when[i]]) || store.ram == Open(records[when[i] + 1])) && [f] <= store.past
  {
    ghost var p := if Recovers(cipher, f, salt, rounds, derive(salt, rounds, pass), records[when[i]]) then records[when[i]] else records[when[i] + 1];
    store, rc := Reopen(cipher, derive, fileKey, f, pass, env, salt, rounds, p);
  }

  /** A store left to a key file: at the next start the file alone opens the same records, and
      once it is taken back it opens nothing. */
  method KeyFileOpens(store: Store, token: seq<byte>, nonce: seq<byte>, on: Env, off: Env, start: Env)
    returns (with: int, later: Store, without: int, last: Store)
    requires store.Valid() && store.Current() && store.ram.Open? && store.flash[store.live].seqno < 0xffff_fffe
    requires Outcome(on) == 0 && Outcome(off) == 0 && |on.nonce| == 12 && |off.nonce| == 12 && |nonce| == 12 && start.alloc
    modifies store`flash, store`live, store`past
    ensures with == 0 && later.ram == store.ram && later.key == store.key
    ensures without == -7 && last.ram.Locked?
  {
    with, later := OpenedByFile(store, token, nonce, on, start);
    without, last := ClosedToFile(store, token, off, start);
  }

  method OpenedByFile(store: Store, token: seq<byte>, nonce: seq<byte>, on: Env, start: Env) returns (with: int, later: Store)
    requires store.Valid() && store.Current() && store.ram.Open? && store.flash[store.live].seqno < 0xffff_fffe
    requires Outcome(on) == 0 && |on.nonce| == 12 && |nonce| == 12 && start.alloc
    modifies store`flash, store`live, store`past
    ensures store.Valid() && store.Current() && store.ram.Open? && store.flash[store.live].seqno < 0xffff_ffff
    ensures fresh(later) && with == 0 && later.ram == store.ram && later.key == store.key
  {
    var rc := store.UnattendedOn(token, nonce, on);
    later := new Store(store.cipher, store.derive, store.fileKey, store.flash);
    ghost var p := store.ram.plain;
    store.LiveOpens(p);
    with := later.UnlockFile(token, start);
    RecordsOfImage(p);
  }

  method ClosedToFile(store: Store, token: seq<byte>, off: Env, start: Env) returns (without: int, last: Store)
    requires store.Valid() && store.Current() && store.ram.Open? && store.flash[store.live].seqno < 0xffff_ffff
    requires Outcome(off) == 0 && |off.nonce| == 12
    modifies store`flash, store`live, store`past
    ensures without == -7 && last.ram.Locked?
  {
    var rc := store.UnattendedOff(off);
    last := new Store(store.cipher, store.derive, store.fileKey, store.flash);
    without := last.UnlockFile(token, start);
  }

  /** The records that the first unlock finds, or makes. */
  function Found(c: Cipher, derive: (seq<byte>, word, seq<byte>) -> seq<byte>, f: Flash, pass: seq<byte>): Opened
  {
    if Live(f) < 0 then Plain(Image(NoRecords()))
    else c.open(derive(f[Live(f)].salt, f[Live(f)].rounds, pass), f[Live(f)].nonce, f[Live(f)].body)
  }

  /** A start-up and the passphrase, which opens the store or makes one. */
  method StartAndUnlock(cipher: Cipher, derive: (seq<byte>, word, seq<byte>) -> seq<byte>, fileKey: seq<byte> -> seq<byte>, f: Flash,
                        pass: seq<byte>, env: Env) returns (usable: bool, store: Store)
    requires RoundTrips(cipher) && (forall s, r, w :: |derive(s, r, w)| == 32) && forall t :: |fileKey(t)| == 32
    requires pass != [] && |env.nonce| == 12 && |env.salt| == 16
    ensures fresh(store) && store.Valid() && store.Current() && [f] <= store.past && store.cipher == cipher
    ensures usable == (env.alloc && Found(cipher, derive, f, pass).Plain? && (Live(f) >= 0 || (env.park && env.program)))
    ensures usable ==> store.ram.Open? && store.live >= 0 && Shape(store.ram.plain) && Image(store.ram.plain) == Found(cipher, derive, f, pass).text
    ensures usable ==> store.key == derive(store.flash[store.live].salt, store.flash[store.live].rounds, pass)
    ensures usable ==> store.flash[store.live].seqno == if Live(f) < 0 then 1 else f[Live(f)].seqno
  {
    store := new Store(cipher, derive, fileKey, f);
    var rc := store.Unlock(pass, env);
    usable := rc == 0 || rc == 1;
    if rc == 0 {
      ImageOfRecords(Found(cipher, derive, f, pass).text);
    }
  }

  /** A whole session: a start-up, the passphrase, which opens the store or makes one, a run of
      commands, a power cut at any of its steps, a start-up on what the flash then held, and
      the same passphrase. */
  method SessionCut(cipher: Cipher, derive: (seq<byte>, word, seq<byte>) -> seq<byte>, fileKey: seq<byte> -> seq<byte>, f: Flash,
                    pass: seq<byte>, env: Env, cmds: seq<Command>, envs: seq<Env>, again: Env, cut: nat)
    returns (usable: bool, store: Store, from: nat, rc: int, later: Store, ghost records: seq<seq<Slot>>, ghost when: seq<nat>)
    requires RoundTrips(cipher) && (forall s, r, w :: |derive(s, r, w)| == 32) && forall t :: |fileKey(t)| == 32
    requires pass != [] && again.alloc && |env.nonce| == 12 && |env.salt| == 16 && |again.nonce| == 12 && |again.salt| == 16
    requires |cmds| == |envs| && forall i :: 0 <= i < |cmds| ==> CommandOk(cmds[i]) && |envs[i].nonce| == 12
    requires |cmds| < 0xffff_ffff && (Live(f) >= 0 ==> f[Live(f)].seqno + |cmds| <= 0xffff_ffff)
    ensures usable == (env.alloc && Found(cipher, derive, f, pass).Plain? && (Live(f) >= 0 || (env.park && env.program)))
    ensures usable ==> Moves(cmds, envs, records) && Image(records[0]) == Found(cipher, derive, f, pass).text && store.ram == Open(records[|cmds|])
    ensures usable ==> [f] <= store.past && 0 < from && from + |when| == |store.past|
    ensures usable && from + cut < |store.past| ==> when[cut] + 1 < |records| && rc == 0 && [store.past[from + cut]] <= later.past
    ensures usable && from + cut < |store.past| ==> (later.ram == Open(records[when[cut]]) || later.ram == Open(records[when[cut] + 1]))
  {
    usable, store := StartAndUnlock(cipher, derive, fileKey, f, pass, env);
    later, from, rc, records, when := store, |store.past|, 0, [], [];
    if !usable {
      return;
    }
    ghost var salt, rounds := store.flash[store.live].salt, store.flash[store.live].rounds;
    ghost var lives;
    records, when, lives := store.Run(cmds, envs);
    if from + cut < |store.past| {
      later, rc := ReopenAfterCut(cipher, derive, fileKey, store.past[from + cut], pass, again, store.past, from, salt, rounds, records, when, cut);
    }
  }

  predicate Works(env: Env)
  {
    env.alloc && env.park && env.program && |env.nonce| == 12 && |env.salt| == 16
  }

  /** Records that were replaced come back: a store is made, a key is set and set again, and
      destroying the store is cut short. The passphrase, which opened `was` to the new value,
      then opens what the cut left of it to the value that had been replaced. */
  method OldRecordsReturn(cipher: Cipher, derive: (seq<byte>, word, seq<byte>) -> seq<byte>, fileKey: seq<byte> -> seq<byte>,
                          pass: seq<byte>, name: seq<byte>, v: seq<byte>, w: seq<byte>, e0: Env, e1: Env, e2: Env, e3: Env)
    returns (before: seq<Slot>, again: Store, ghost was: Flash)
    requires RoundTrips(cipher) && (forall s, r, p :: |derive(s, r, p)| == 32) && forall t :: |fileKey(t)| == 32
    requires pass != [] && Works(e0) && Works(e1) && Works(e2) && Works(e3)
    requires ZeroFree(name) && 1 <= |name| < 40 && 1 <= |v| <= 96 && 1 <= |w| <= 96
    ensures WellNamed(before) && MapOf(before) == map[CName(name) := w]
    ensures Recovers(cipher, was, e0.salt, 25000, derive(e0.salt, 25000, pass), before) && [was[0 := Erased()]] <= again.past
    ensures again.ram.Open? && WellNamed(again.ram.plain) && MapOf(again.ram.plain) == map[CName(name) := v]
  {
    var store := new Store(cipher, derive, fileKey, [Erased(), Erased()]);
    var rc := store.Unlock(pass, e0);
    ghost var fits, has := Fitting(CName(name)), Having(CName(name));
    Meanings(CName(name), fits, has);
    ghost var p := SetTwice(store, name, v, w, e1, e2, fits, has);
    before, was := store.ram.plain, store.flash;
    HavingIs(CName(name), p, v);
    HavingIs(CName(name), before, w);
    again := DestroyCutShort(store, derive, fileKey, pass, e3, e0.salt, p);
  }

  /** The first of the two erases, and then no power: the copy in sector 1 is what opens. */
  method DestroyCutShort(store: Store, derive: (seq<byte>, word, seq<byte>) -> seq<byte>, fileKey: seq<byte> -> seq<byte>,
                         pass: seq<byte>, env: Env, ghost salt: seq<byte>, ghost p: seq<Slot>) returns (again: Store)
    requires store.Valid() && Works(env) && pass != []
    requires (forall s, r, w :: |derive(s, r, w)| == 32) && forall t :: |fileKey(t)| == 32
    requires store.key == derive(salt, 25000, pass) && Opens(store.cipher, store.key, store.flash[1], salt, 25000, p)
    modifies store
    ensures again.ram == Open(p) && [old(store.flash)[0 := Erased()]] <= again.past
  {
    ghost var was, key := store.flash, store.key;
    var rc := store.Destroy(true);
    var f := store.past[|store.past| - 2];
    assert f == was[0 := Erased()];
    DestroyCut(store.cipher, was, salt, 25000, key, p);
    again, rc := Reopen(store.cipher, derive, fileKey, f, pass, env, salt, 25000, p);
  }

  ghost function Fitting(key: seq<byte>): seq<Slot> -> bool
  {
    (q: seq<Slot>) => Small(q, key)
  }

  ghost function Having(key: seq<byte>): (seq<Slot>, seq<byte>) -> bool
  {
    (q: seq<Slot>, x: seq<byte>) => Has(q, key, x)
  }

  lemma FittingIs(key: seq<byte>, q: seq<Slot>)
    ensures Fitting(key)(q) == Small(q, key)
  {
  }

  lemma HavingIs(key: seq<byte>, q: seq<Slot>, x: seq<byte>)
    ensures Having(key)(q, x) == Has(q, key, x)
  {
  }

  lemma FittingAll(key: seq<byte>)
    ensures MeansSmall(Fitting(key), key)
  {
    forall q: seq<Slot> {:trigger Small(q, key)}
      ensures Fitting(key)(q) == Small(q, key)
    {
      FittingIs(key, q);
    }
  }

  lemma HavingAll(key: seq<byte>)
    ensures MeansHas(Having(key), key)
  {
    forall q: seq<Slot>, x: seq<byte> {:trigger Has(q, key, x)}
      ensures Having(key)(q, x) == Has(q, key, x)
    {
      HavingIs(key, q, x);
    }
  }

  lemma Meanings(key: seq<byte>, fits: seq<Slot> -> bool, has: (seq<Slot>, seq<byte>) -> bool)
    requires fits == Fitting(key) && has == Having(key)
    ensures MeansSmall(fits, key) && MeansHas(has, key) && fits(NoRecords())
  {
    FittingAll(key);
    HavingAll(key);
    NoneSmall(key);
    FittingIs(key, NoRecords());
  }

  /** A store of that one key at most. */
  ghost predicate Small(p: seq<Slot>, key: seq<byte>)
  {
    WellNamed(p) && MapOf(p).Keys <= {key} && (key in MapOf(p) || exists j :: 0 <= j < 28 && p[j].len == 0)
  }

  lemma HasRoom(p: seq<Slot>, name: seq<byte>)
    requires 1 <= |name| < 40 && ZeroFree(name) && Small(p, CName(name))
    ensures !NoRoom(p, name)
  {
    KeptIs(p, name);
  }

  lemma NoneSmall(key: seq<byte>)
    ensures Small(NoRecords(), key)
  {
    assert NoRecords()[0].len == 0;
  }

  lemma OneKey(m: map<seq<byte>, seq<byte>>, key: seq<byte>, v: seq<byte>)
    requires m.Keys <= {key}
    ensures m[key := v] == map[key := v] && m[key := v].Keys == {key}
  {
  }

  lemma NowThatKey(p: seq<Slot>, q: seq<Slot>, key: seq<byte>, v: seq<byte>)
    requires Small(p, key) && WellNamed(q) && MapOf(q) == MapOf(p)[key := v]
    ensures Small(q, key) && Has(q, key, v)
  {
    OneKey(MapOf(p), key, v);
  }

  /** What a copy opens to. */
  ghost predicate Opens(c: Cipher, k: seq<byte>, l: Copy, salt: seq<byte>, rounds: word, p: seq<Slot>)
  {
    Shape(p) && Good(l) && l.salt == salt && l.rounds == rounds && c.open(k, l.nonce, l.body) == Plain(Image(p))
  }

  /** A store of that one key, with that value. */
  ghost predicate Has(p: seq<Slot>, key: seq<byte>, v: seq<byte>)
  {
    WellNamed(p) && MapOf(p) == map[key := v]
  }

  /** `fits` and `has` stand for the two predicates on records, looked up only where needed. */
  ghost predicate MeansSmall(fits: seq<Slot> -> bool, key: seq<byte>)
  {
    forall q: seq<Slot> {:trigger Small(q, key)} :: fits(q) == Small(q, key)
  }

  ghost predicate MeansHas(has: (seq<Slot>, seq<byte>) -> bool, key: seq<byte>)
  {
    forall q: seq<Slot>, x: seq<byte> {:trigger Has(q, key, x)} :: has(q, x) == Has(q, key, x)
  }

  /** A key set twice in a store just made: the first value stays, sealed, in sector 1. */
  method SetTwice(store: Store, name: seq<byte>, v: seq<byte>, w: seq<byte>, e1: Env, e2: Env,
                  ghost fits: seq<Slot> -> bool, ghost has: (seq<Slot>, seq<byte>) -> bool) returns (ghost p: seq<Slot>)
    requires store.Valid() && store.Current() && store.ram.Open? && store.live == 0 && store.flash[0].seqno == 1
    requires Works(e1) && Works(e2) && ZeroFree(name) && 1 <= |name| < 40 && 1 <= |v| <= 96 && 1 <= |w| <= 96
    requires fits(store.ram.plain) && MeansSmall(fits, CName(name)) && MeansHas(has, CName(name))
    modifies store`flash, store`live, store`past, store`ram
    ensures store.Valid() && store.live == 0 && store.ram.Open? && has(store.ram.plain, w) && has(p, v)
    ensures Opens(store.cipher, store.key, store.flash[1], old(store.flash[0].salt), old(store.flash[0].rounds), p)
    ensures Shape(store.ram.plain) && Recovers(store.cipher, store.flash, old(store.flash[0].salt), old(store.flash[0].rounds), store.key, store.ram.plain)
  {
    p := SetOne(store, name, v, e1, fits, has);
    assert store.live == 1;
    store.LiveOpens(p);
    ghost var q := SetOne(store, name, w, e2, fits, has);
    store.LiveRecovers(q);
  }

  /** A set that works, in a store of at most that one key. */
  method SetOne(store: Store, name: seq<byte>, v: seq<byte>, env: Env,
                ghost fits: seq<Slot> -> bool, ghost has: (seq<Slot>, seq<byte>) -> bool) returns (ghost p: seq<Slot>)
    requires ZeroFree(name) && 1 <= |name| < 40 && 1 <= |v| <= 96 && Works(env)
    requires store.Valid() && store.Current() && store.ram.Open? && store.flash[store.live].seqno < 100
    requires fits(store.ram.plain) && MeansSmall(fits, CName(name)) && MeansHas(has, CName(name))
    modifies store`flash, store`live, store`past, store`ram
    ensures store.Valid() && store.Current() && store.ram == Open(p) && fits(p) && has(p, v)
    ensures store.live == 1 - old(store.live) && store.flash[old(store.live)] == old(store.flash[store.live])
    ensures store.flash[store.live].seqno <= old(store.flash[store.live].seqno) + 1
    ensures SameStore(old(store.flash[store.live]), store.flash[store.live]) && Good(store.flash[store.live])
  {
    ghost var before := store.ram.plain;
    assert Small(before, CName(name));
    HasRoom(before, name);
    var rc := store.Set(name, v, env);
    assert rc == 0;
    p := store.ram.plain;
    NowThatKey(before, p, CName(name), v);
    LiveGood(store.flash);
  }

  lemma LiveGood(f: Flash)
    requires Live(f) >= 0
    ensures Good(f[Live(f)])
  {
  }
}
