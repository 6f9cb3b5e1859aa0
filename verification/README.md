# A verified model of UbiqOS

UbiqOS is a small real-time operating system in C with Python build tools. This project
restates its self-contained, stateful or arithmetic parts in Dafny, in the form the source
has (a class where the source keeps static state, an array where it works in place, a loop
where it loops), and proves what those parts are for.

Run `dafny verify dfyconfig.toml`. Every lemma and every method contract is checked.

## What is modelled, module by module

- `Bits`, `Words`: unsigned words as numbers, with AND, OR, XOR and rotation on their bits.
  A C `uint32_t` is `Bits.word`; what a 32-bit operation drops is dropped by `U32`.
- `Poly1305`, `ChaCha20`, `Aead` (`kernel/crypto.c`): the authenticator in five 26-bit limbs,
  the cipher, and the construction of RFC 8439 with empty additional data. The specification
  is the polynomial modulo 2^130 - 5 of section 2.5.
- `BlockHash`, `Sha256`, `Hmac` (`kernel/crypto.c`): streaming SHA-256 against FIPS 180-4
  sections 5.1.1 and 6.2, HMAC, and PBKDF2. The streaming part is proved for any block
  function `f` that is the compression function of the standard, and then for that one.
- `ShaConstants`, `HexWords`, `HexBits`, `ChaChaExample`, `ShaExample`: the constants of SHA-256 as
  bits of roots of primes, and the standards' own examples in all their steps, on words of eight
  hexadecimal digits: the block of RFC 8439 section 2.3.2 and the SHA-256 digest of "abc".
- `Descriptors`, `IoManager` (`kernel/io.c`): `Descriptors` is the abstract machine, tables of
  descriptors and bytes in rings, without any counter; `IoManager.Manager` is the I/O
  manager with its reference counts and ring indices, and refines it call by call. `Pipes`
  follows the bytes through several calls of it.
- `KeyStore` (`kernel/keystore.c`): two flash sectors written alternately. `past` is the list
  of all states the flash has been in, one for each erase and each program, so a statement
  about all of `past` is a statement about a power cut at any step.
- `Chargen`, `Render` (`kernel/chargen.c`): the scrollback as one list of lines, and the four
  renderers against a rule for one pixel.
- `Unicode`: characters as UTF-8, for the names that the build writes and the bytes that the
  console reads.
- `Relocate`, `ModuleFile`, `FlashImage`, `FlashWriter` (`make_module.py`,
  `make_flash_image.py`, `kernel/flashmod.c`, `kernel/main.c`): relocation, the file of a
  module, the image of modules in flash, the tool that writes it and the kernel code that
  walks it. For the kernel, memory is the whole address space.
- `SockRecv` (`kernel/lwipsock.c`): what a socket has received and nobody has read yet.
- `Screen`, `Escapes`, `Console` (`kernel/console.c`): `Screen` and `Escapes` say what a byte
  means to the text, the cursor, the colours and the sequence being read; `Console.Terminal`
  is the console with its variables and arrays, and does that byte by byte. `Typing`,
  `Erasing`, `Clearing`, `Sequences` and `Commands` prove what whole texts and sequences do, and `Display`
  performs the console's calls on the character generator of `Chargen`.
- `Calendar` (`kernel/clock.c`), `Address`, `Timezones` and `Config` (`kernel/config.c`), `MakeAbs`
  (`kernel/fsserver.c`), `DnsName` (`kernel/lwipmdns.c`).

## What the code does not promise

Some statements one would expect are not true of the code, or not on all inputs. The model
follows the code, and the exact condition is proved.

- After 2^32 - 1 writes the key store's sequence number wraps, and a start-up takes the old
  copy: `KeyStore.Alternate` says that the new copy is taken exactly when the number did not
  wrap.
- Destroying the key store is two erases, and a power cut between them leaves a store that
  opens exactly as the copy in sector 1 does (`KeyStore.DestroyCut`): with records that were
  replaced, where sector 0 was live (`KeyStore.OldRecordsReturn` makes such a store).
- A header that verifies and whose size takes its address past 32 bits is taken for a module,
  and the walk over the flash goes back. The walk visits exactly the modules if and only if
  there is no such header at their end (`FlashImage.WalkIs`); with one it may never end
  (`FlashWriter.NeverEnds`) or end having counted a module that is not there
  (`FlashWriter.Phantom`). It ends exactly when it comes to no place twice
  (`FlashImage.RegularWhen`).
- A cursor movement down or right whose sum wraps at 2^32 moves the cursor back:
  `Sequences.MovesOn` says exactly when.
- An empty first parameter of a control sequence does not keep its place: with it the second
  is taken for the first (`Sequences.EmptyFirst`), and the parameters are in their places
  exactly when the first is not empty (`Sequences.InPlace`).
- The comments of the console say that a private marker such as `?` is read on, and that
  unknown sequences are dropped. The code reads on at the bytes below `0`, the digits and `;`
  only (`Sequences.OpenOrNot`): at any other byte that is no final one the sequence ends, and
  the rest of it is drawn (`Sequences.CutShort`), as the "25h" of ESC [ ? 25 h is
  (`Sequences.PrivateDrawn`).
- The build counts a module's name in characters and the kernel in bytes: a module is known by
  its whole name exactly when that is at most fifteen bytes of UTF-8, as it always is in ASCII
  (`ModuleFile.NameKnown`); eight letters of two bytes each are cut (`ModuleFile.NameCut`).
- The tab loop of the console never ends on two to eight columns and always does on one and
  from nine on (`Screen.TabEnds`). Every grid of the source has at least 80 columns, and
  `Screen` is about grids of nine or more.
- `civil_from_days` computes `z - 146096` on 32 bits for negative `z`, so its range ends
  146096 days before that of `z + 719468`: `Calendar.RangeIs`.
- `read_name` returns an offset inside the message exactly when it was given one, and otherwise
  the one it was given: `DnsName.ReadName`.
- Relocating home restores what the tool read, and not the fields of instructions, which it
  does not read: `Relocate.MovedBack`. Those are restored exactly if they held the addresses
  where the module was linked (`Relocate.FieldsBack`), as a linker leaves them;
  `Relocate.PairsBack` has one table and two modules, of which one is restored.

## Model

| member | source | states |
|---|---|---|
| Poly1305.Authenticate | kernel/crypto.c:272-374 | For every key and message the limb code gives the tag of RFC 8439 section 2.5: (message polynomial in the clamped r, modulo 2^130 - 5, plus s) modulo 2^128 |
| Poly1305.Poly.constructor | kernel/crypto.c:272-287 | The masked limbs of the key are the clamped r, the pad words are s, and the accumulator is zero |
| Poly1305.Poly.Blocks | kernel/crypto.c:289-325 | Whole blocks move the accumulator as the polynomial does, and between blocks h1 stays below 2^26 + 64 and the other limbs below 2^26 |
| Poly1305.Poly.LastBlock | kernel/crypto.c:327-337 | The short last block counts with its one byte after it and no high bit |
| Poly1305.Poly.Finish | kernel/crypto.c:327-374 | The sixteen bytes differ from accumulator plus s by a multiple of 2^128 |
| Poly1305.MultiplyLimbs | kernel/crypto.c:308-320 | One limb multiplication with its folded columns and carries multiplies by r modulo 2^130 - 5 and restores the limb bounds, no 64-bit sum overflowing |
| Poly1305.ColumnBounds | kernel/crypto.c:308-312 | Each of the five columns of products stays below the bound that 64 bits need |
| Poly1305.ProductsValue | kernel/crypto.c:308-312 | The five columns are worth the product of the two numbers modulo 2^130 - 5 |
| Poly1305.CarryColumns | kernel/crypto.c:314-320 | The carry chain keeps the value modulo 2^130 - 5 and leaves limbs that fit |
| Poly1305.FinalCarry | kernel/crypto.c:338-343 | After the last carries every limb is below 2^26, so no bit is lost when they are packed |
| Poly1305.SubtractIfNotBelow | kernel/crypto.c:345-355 | The branch-free selection leaves the number modulo 2^130 - 5 in its canonical form |
| Poly1305.Pack | kernel/crypto.c:357-364 | The words OR-ed out of the limbs are the number modulo 2^128 |
| Poly1305.AddPad | kernel/crypto.c:357-373 | Four word additions with carries add s and drop exactly a multiple of 2^128 |
| Poly1305.ClampLimbs | kernel/crypto.c:272-287 | Masking the limbs one by one is clamping the sixteen-byte number |
| Poly1305.BlocksArePoly | kernel/crypto.c:289-325 | Whole blocks followed by the rest give the polynomial of the whole message |
| Poly1305.TagIs | kernel/crypto.c:361-374 | Sixteen bytes congruent to the sum modulo 2^128 are the tag and no other |
| ChaCha20.ChachaBlock | kernel/crypto.c:218-248 | One block is the block function of RFC 8439 section 2.3, whose double round is the one of `DoubleIs` and whose block is the standard's in `BlockExample` |
| ChaCha20.DoubleIs | kernel/crypto.c:231-240 | For every state the eight quarter rounds mix each of the four columns and then each of the four diagonals of what that leaves, said of the places of the words and without the table of the rounds |
| ChaCha20.OneResult | kernel/crypto.c:231-240 | And a state has only one such result |
| ChaChaExample.QuarterExample | kernel/crypto.c:213-216 | The quarter round of RFC 8439 section 2.1.1 |
| ChaChaExample.BlockExample | kernel/crypto.c:218-248 | The block of section 2.3.2, from its key, counter and nonce, in all eighty quarter rounds |
| ChaCha20.QR | kernel/crypto.c:213-216 | The in-place quarter round on four distinct words is the quarter round of section 2.1, and the other twelve words stay |
| ChaCha20.ChachaXor | kernel/crypto.c:250-261 | The loop over blocks writes the encryption of the whole input, the last block cut to its length |
| ChaCha20.CryptInvolution | kernel/crypto.c:250-261 | Applying the key stream twice gives the input back |
| ChaCha20.CryptAt | kernel/crypto.c:250-261 | Byte i of any text is changed by byte i % 64 of the block that is i / 64 after the first, block numbers wrapping at 2^32 |
| Aead.ComputeTag | kernel/crypto.c:380-407 | The tag is taken over exactly the ciphertext, its zero padding, and the two 64-bit lengths of RFC 8439 section 2.8 |
| Aead.LengthBlock | kernel/crypto.c:400-403 | The last block is the two lengths, the first of them zero |
| Aead.SealBytes | kernel/crypto.c:409-414 | Sealing writes the ciphertext and returns the tag of the construction |
| Aead.UnsealBytes | kernel/crypto.c:416-427 | Opening succeeds exactly when the tag is right, then gives the plaintext, and otherwise touches nothing |
| Aead.Difference | kernel/crypto.c:421-424 | The accumulated differences are zero exactly when the tags are equal |
| Aead.UnsealSeal | kernel/crypto.c:409-427 | What was sealed opens to the original plaintext, for every key, nonce and length |
| Aead.SealUnseal | kernel/crypto.c:409-427 | Whatever opens is what sealing its plaintext gives |
| Aead.CipherAt | kernel/crypto.c:380-414 | Each byte of the ciphertext comes of the blocks from number one on |
| Aead.BlockZeroApart | kernel/crypto.c:380-414 | Block zero, which makes the one-time key, is used for no byte of the text exactly as long as the text has at most 2^32 - 1 blocks |
| Sha256.Sha256InPieces | kernel/crypto.c:94-154 | For every split of a message into updates the digest is that of the concatenation |
| Sha256.Stream.Update | kernel/crypto.c:110-121 | An update appends its bytes to the message that stands hashed and buffered; fewer than 64 stay buffered |
| Sha256.Stream.PadTo56 | kernel/crypto.c:123-129 | The padding loop ends, after the zeros of FIPS 180-4 section 5.1.1 and no more |
| Sha256.Stream.Final | kernel/crypto.c:123-147 | Padding and length make the digest of the whole message |
| Sha256.Schedule | kernel/crypto.c:66-77 | The loop fills the message schedule of section 6.2 |
| Sha256.BlockOf | kernel/crypto.c:66-92 | Schedule, sixty-four rounds and the final sums are the compression function |
| ShaConstants.RoundWord | kernel/crypto.c:54-64 | The constant of each round is the first 32 bits of the fractional part of the cube root of the prime with that number |
| ShaConstants.OneCubeRoot | kernel/crypto.c:54-64 | Only one word is that |
| ShaConstants.PrimesAre | kernel/crypto.c:54-64 | These primes are the first 64, none left out |
| ShaConstants.FirstWords | kernel/crypto.c:101-104 | The words a hash starts from are the same bits of the square roots of the first eight |
| ShaExample.DigestExample | kernel/crypto.c:66-147 | The digest of "abc" is the one of the standard, in all 64 rounds |
| BlockHash.HashAppend | kernel/crypto.c:110-121 | Hashing whole blocks and then the rest is hashing all of it |
| BlockHash.StandsMore | kernel/crypto.c:110-121 | Taking a piece keeps what stands hashed and buffered a split of the message |
| Hmac.HmacSha256 | kernel/crypto.c:159-185 | The two-part message is authenticated as its concatenation, by SHA-256 itself, keys longer than a block being hashed first |
| Hmac.Pbkdf2Sha256 | kernel/crypto.c:195-216 | The derived block is the exclusive or of all iterations, one at least |
| Descriptors.OkKept | kernel/io.c:494-586 | After every call each descriptor holds at most one thing, and that thing exists |
| Descriptors.TotalSet | kernel/io.c:637-641 | Replacing one descriptor moves each count of holders by what it gave up and what it took |
| Descriptors.TotalZero | kernel/io.c:978-990 | A count of zero means that no descriptor of any process holds the object |
| Descriptors.EndKept | kernel/io.c:1046-1055 | No call of any process ends an end of file while the reader is held |
| Descriptors.EndIsFinal | kernel/io.c:1046-1055 | Over every run of calls, end of file at a held reader stays |
| IoManager.Manager.constructor | kernel/io.c:369-402 | Before the first call nothing is held and nothing counted |
| IoManager.Manager.Open | kernel/io.c:494-521 | Opening a device takes the first free descriptor, or fails and changes nothing |
| IoManager.Manager.OpenAs | kernel/io.c:523-538 | A device is put on a number that holds no file and no pipe |
| IoManager.Manager.OpenPath | kernel/io.c:562-586 | A file slot is reused only when no descriptor names it |
| IoManager.Manager.CloseFd | kernel/io.c:942-969 | Closing gives up one holding and keeps every counter equal to the number of holders |
| IoManager.Manager.CloseAllFds | kernel/io.c:1110-1123 | A whole row is given up and every counter follows |
| IoManager.Manager.DupFd | kernel/io.c:1070-1108 | dup and dup2 copy a descriptor, dup2 giving up what was there first |
| IoManager.Manager.InheritRow | kernel/io.c:653-677 | A child's empty row becomes its parent's, each entry counted |
| IoManager.Manager.MakePipe | kernel/io.c:978-1009 | A ring that nobody names gets one reader and one writer on the first two free numbers, or nothing changes; which is which is said by `Pipes.PipeCarries` |
| IoManager.Manager.MakePair | kernel/io.c:1011-1044 | Two rings nobody names are crossed between two descriptors |
| Pipes.PipeCarries | kernel/io.c:978-1009 | A pipe is made exactly when a ring and two numbers are free; what is then written to the second number is read from the first, in order, and writing to the first or reading from the second is -1 |
| Pipes.PairCarries | kernel/io.c:1011-1044 | Each of the two descriptors reads what was written to the other |
| Pipes.Pipeline | kernel/io.c:653-1123 | A pipe, a child that inherits it, the write end put on another number with dup2, the other ends closed: what the child writes is what the parent reads, and the end of file comes exactly when the child is gone and all is read |
| IoManager.Manager.ReadPipe | kernel/io.c:913-933 | Bytes come out in the order they went in, and bytes read followed by bytes waiting are all the bytes written |
| IoManager.Manager.WritePipe | kernel/io.c:679-704 | A write is refused when nobody reads, and otherwise appends as much as fits |
| IoManager.Manager.AtEof | kernel/io.c:1046-1055 | The answer is the abstract end of file of that descriptor |
| IoManager.Manager.Retain | kernel/io.c:653-677 | Every counter gains exactly what one more such descriptor holds |
| IoManager.Manager.Drop | kernel/io.c:1057-1068 | Every counter loses exactly what the descriptor held, and none goes below zero |
| IoManager.Fill | kernel/io.c:679-695 | The ring takes the first bytes that fit, whatever its head and tail |
| IoManager.Drain | kernel/io.c:913-926 | The ring gives its oldest bytes and keeps the rest in order |
| KeyStore.Alternate | kernel/keystore.c:120-127 | Erasing the other sector keeps the live copy live, and programming it makes the new copy live exactly when the sequence number did not wrap |
| KeyStore.DestroyCut | kernel/keystore.c:436-445 | What a power cut in the middle of a destroy leaves opens exactly as the copy in sector 1 does |
| KeyStore.OldRecordsReturn | kernel/keystore.c:436-445 | A store is made, a key set and set again, and destroying cut short: the passphrase that opens the flash before it to the new value opens what the first erase left of it to the value that had been replaced |
| KeyStore.InstanceRoundTrips | kernel/keystore.c:365-366 | The cipher of this system meets what the key store asks of one |
| KeyStore.RecordsOfImage | kernel/keystore.c:493-494 | Records read back from their bytes are those records |
| KeyStore.ImageOfRecords | kernel/keystore.c:493-494 | Any bytes of the right size are the bytes of the records read from them |
| KeyStore.NameEqIs | kernel/keystore.c:162-169 | The comparison of a kept name with a text is equality of the texts |
| KeyStore.MapSet | kernel/keystore.c:384-413 | Filling one record sets one key of the map and no other |
| KeyStore.MapRemove | kernel/keystore.c:415-428 | Emptying a record forgets its key and no other |
| KeyStore.Store.constructor | kernel/keystore.c:120-127 | A start-up takes the good copy with the greater sequence number |
| KeyStore.Store.DoWrite | kernel/keystore.c:324-330 | A write is an erase and a program of one sector, each a state that a power cut can leave |
| KeyStore.Store.SealAndWrite | kernel/keystore.c:335-382 | Success leaves a live copy that opens to the records in RAM under the same salt and rounds; any failure leaves the old copy live and whole |
| KeyStore.Store.Change | kernel/keystore.c:399-412 | Records in RAM agree with the live copy after success and after every failure; every state on the way opens to the old records or the new ones |
| KeyStore.Store.Set | kernel/keystore.c:384-413 | Success is the map with that key set; errors change nothing; the key file keeps working; a power cut at any step leaves the old records or the new ones |
| KeyStore.Store.Remove | kernel/keystore.c:415-428 | Of a name that is kept, removal succeeds exactly when memory, the parking of the other core and the flash do; success forgets that key and no other, errors change nothing, and a name that is not kept is refused; a power cut as for setting |
| KeyStore.Store.UnattendedOn | kernel/keystore.c:544-559 | It succeeds exactly when memory, parking and flash do, and then the wrapping in the live copy opens with the token to the key held; the records survive a power cut at any step |
| KeyStore.Store.UnattendedOff | kernel/keystore.c:561-570 | It succeeds exactly when memory, parking and flash do, and then the live copy has no wrapping any more; the records survive a power cut at any step |
| KeyStore.Store.Unlock | kernel/keystore.c:447-505 | A passphrase opens exactly the records the live copy seals under its key; a store that is not there is made, under the key of that passphrase and with number one, and no state on the way holds half of one |
| KeyStore.Store.UnlockFile | kernel/keystore.c:572-597 | The key file opens the wrapped key and with it the records, or the store stays locked |
| KeyStore.KeyFileOpens | kernel/keystore.c:544-597 | A store left to a key file is opened by that file alone at the next start, with the same records, and no more once the file is taken back |
| KeyStore.Store.Value | kernel/keystore.c:251-257 | The bytes kept under a name are those the map has for it, or none exactly when it is not kept |
| KeyStore.KeptIs | kernel/keystore.c:172-178 | A name is found in the records exactly when the map has it |
| KeyStore.Store.Destroy | kernel/keystore.c:436-445 | Both copies are erased, in that order |
| KeyStore.Store.Run | kernel/keystore.c:384-428 | Over a whole run of commands, every state of the flash opens to the records before or after the very command it came up in, and every command has its effect on the map, or on the key file's wrapping, exactly when it is acceptable and its write succeeds |
| KeyStore.ReopenAfterCut | kernel/keystore.c:120-127 | A power cut at any step of a run, a start-up and the same passphrase give the records before or after that command |
| KeyStore.SessionCut | kernel/keystore.c:384-505 | Start-up, passphrase (opening a store or making one), a run of commands, a power cut at any step, a start-up on the flash as that step left it, and the same passphrase: the records are those before or after the command the cut came in |
| KeyStore.Reopen | kernel/keystore.c:120-127 | A start-up on any state that still seals some records, with the same passphrase, opens exactly those |
| Chargen.ScrollLines | kernel/chargen.c:258-277 | A scroll appends one blank line to the text of both rings and drops only the oldest line, and that only when the history is full |
| Chargen.ViewStays | kernel/chargen.c:279-289 | A view with history above it shows the same rows after a scroll, across the border of the two rings too |
| Chargen.HistoryOfRun | kernel/chargen.c:258-277 | After every run of scrolls and writes the two rings hold the newest lines of all that was ever typed, as many as there is room for |
| Chargen.ViewOfRun | kernel/chargen.c:279-289 | A view of history shows the same rows through a whole run for as long as they can be kept |
| Chargen.RowBackIs | kernel/chargen.c:158-168 | The row b back is the b-th newest of the history for every b there is |
| Chargen.WriteLines | kernel/chargen.c:185-193 | Writing a row of the screen changes that line of the text only |
| Chargen.WindowInRing | kernel/chargen.c:147-153 | A view that the ring can show is read from it in place |
| Chargen.WindowPastRing | kernel/chargen.c:172-182 | A view further back has no row of the live screen in it |
| Chargen.Generator.constructor | kernel/chargen.c:301-350 | The text starts as one blank screen with no history |
| Chargen.Generator.Put | kernel/chargen.c:185-193 | One cell of the live screen is written, whatever the view shows, and an older view stays |
| Chargen.Generator.Fill | kernel/chargen.c:196-207 | The columns of one ring row that exist are blanked, and nothing for a reversed or outlying range |
| Chargen.Generator.ViewRebuild | kernel/chargen.c:172-182 | The assembled rows are the ones the view names |
| Chargen.Generator.ViewMove | kernel/chargen.c:231-239 | The view stops at the live screen and at the oldest line |
| Chargen.Generator.ViewHome | kernel/chargen.c:243-247 | The view shows the oldest lines there are |
| Chargen.Generator.ViewEnd | kernel/chargen.c:241 | The view shows the live screen |
| Chargen.Generator.History | kernel/chargen.c:224-227 | The number is how many lines there are above the screen |
| Chargen.Generator.Scroll | kernel/chargen.c:258-291 | The whole scroll on the arrays does what the two lemmas say of the text and the view |
| Chargen.Generator.ViewIs | kernel/chargen.c:147-153 | What the renderers read is the part of the text that the view names |
| Render.Expand4Is | kernel/chargen.c:123-128 | Each entry of the table is the mask of its number's four bits, the leftmost lowest |
| Render.Blend4 | kernel/chargen.c:121-128 | Two colour words and a mask make four pixels, each by its bit of the font |
| Render.Blend2 | kernel/chargen.c:113-120 | The same for two pixels of sixteen bits |
| Render.Expand2Is | kernel/chargen.c:115-120 | And of the other table the mask of two bits |
| Render.Cell8 | kernel/chargen.c:531-535 | The two words stored for a cell are its eight pixels by the pixel rule |
| Render.Cell16 | kernel/chargen.c:487-492 | The four words stored for a cell are its eight pixels |
| Render.Blank8 | kernel/chargen.c:520-529 | The shortcut for a blank cell agrees with drawing its glyph |
| Render.PixelsOfWords | kernel/chargen.c:60-63 | The bytes of the words in memory order are the pixels from left to right |
| Render.PixelsOfHalves | kernel/chargen.c:113-114 | The half words in memory order are the pixels from left to right |
| Render.Glyph | kernel/chargen.c:132-136 | Every character has a glyph in the font, blank for everything up to the space |
| Render.Renderer.Line | kernel/chargen.c:496-537 | A scanline is the pixel rule for every pixel, despite the colour cache and the shortcut |
| Render.Renderer.Line16 | kernel/chargen.c:462-494 | The same in sixteen-bit pixels |
| Render.Renderer.Band | kernel/chargen.c:373-413 | Each of the sixteen lines of a band is the line the line renderer draws |
| Render.Renderer.Band16 | kernel/chargen.c:418-457 | The same in sixteen-bit pixels |
| Render.FlatOne | kernel/chargen.c:395-412 | Words of different lines or columns of a band never share a place |
| Relocate.FixedBits | make_flash_image.py:66-74 | A relocated word has the address bits where its field is and its old bits elsewhere, for each of the four kinds |
| Relocate.RelocateAgain | make_flash_image.py:50-74 | Relocating for a second address after a first is relocating the original for the second, even with overlapping fields |
| Relocate.SameRelocated | make_flash_image.py:50-74 | Images that differ only in the fields of a table are equal once relocated |
| Relocate.PairMakesAddress | make_flash_image.py:68-74 | The upper half and the sign-extended lower half of either form add up to the address modulo 2^32 |
| Relocate.TableKept | make_flash_image.py:50-56 | Relocating keeps the header and the table, so it can be done again |
| Relocate.RelocateInPlace | make_flash_image.py:50-74 | Patching the image while reading the table from it is the relocation of the original image |
| Relocate.RelocatedHolds | make_flash_image.py:50-74 | A relocated image holds, in the field of every entry that no later one overlaps, the address where its target lies |
| Relocate.Collect | make_module.py:348-380 | The table has an entry for exactly the records that mean an address inside the module, and an address outside stops the tool |
| Relocate.MovedBack | make_module.py:348-379 | Whatever kinds of entries a table has, relocating at the load base less the header gives back every bit that no instruction's field covers, wherever the module had been in between |
| Relocate.WordBack | make_module.py:348-379 | Every ABS32 word that was read is restored where no instruction's field shares its bits |
| Relocate.AllBack | make_module.py:348-379 | A module with no instruction pairs is restored whole |
| Relocate.FieldsBack | make_module.py:348-379 | Where entries lie apart, a module is restored whole exactly when the immediates of its instructions held the addresses of their records where it was linked |
| Relocate.HeldIs | make_flash_image.py:66-74 | A word is left as it is exactly when its immediate already is that part of the address |
| Relocate.PairsBack | make_module.py:348-379 | The same pair of records: a module whose pair a linker filled is restored, and one with empty fields is not |
| ModuleFile.CreateModule | make_module.py:402-580 | The tool stops exactly at an unusable name, an alignment or an option it refuses, or a record that it refuses; otherwise it writes a module that the kernel accepts exactly on the machine it is for (on every one if it is data), that the image tool can lay out, known by the first fifteen bytes of its name, with an entry for every record that means an address in it |
| ModuleFile.AttributesSay | make_module.py:475-538 | What is read in the third word is what the tool found: the machine, the type, plain or descriptor, private, placeable, split |
| ModuleFile.AskedFor | make_module.py:502-509 | And what the build asked for: one instance or any number, fast memory, a start at boot |
| ModuleFile.FoundRead | make_module.py:552-567 | Entry point, memory, thread-local sizes and revision are read from the header where the tool put them |
| ModuleFile.NameKnown | make_module.py:402-425 | The kernel knows a module by its whole name exactly when that is at most fifteen bytes of UTF-8, as it always is in ASCII |
| ModuleFile.NameCut | make_module.py:402-425 | A name that the tool accepts and the kernel cuts |
| ModuleFile.FileIsReady | make_module.py:546-578 | The header that is written verifies and says its own size |
| ModuleFile.FileIsWellMade | make_module.py:436-578 | Table and trailer lie in the file and are read back, and every site lies between header and table |
| Relocate.TableRead | make_module.py:574-578 | A table is read back as it was written |
| FlashImage.VerifyHeader | kernel/main.c:421-467 | A header is accepted exactly when it is a module of this interface and machine whose words sum to the complement of its last |
| FlashImage.FlashStep | kernel/flashmod.c:34-46 | One step finds what its three checks find, in 32-bit numbers, and goes to the padded size after it |
| FlashImage.NextIs | kernel/flashmod.c:34-46 | A step goes on exactly from a module, to where it ends, or from a size that wraps, and then no further on |
| FlashImage.RegularWhen | kernel/flashmod.c:98-151 | The kernel's loop ends exactly when it comes to no place twice, and then within as many steps as the region has addresses |
| FlashImage.WalkIs | kernel/flashmod.c:34-46 | In any memory the loop visits exactly the modules of a region and stops after the last if and only if no header at their end has a size that wraps; where one has, it takes that for one module more |
| FlashWriter.NeverEnds | kernel/flashmod.c:34-46 | A region with no module whose walk never ends |
| FlashWriter.Phantom | kernel/flashmod.c:34-46 | A region with no module whose walk ends having counted one |
| FlashImage.ScanRegion | kernel/flashmod.c:98-151 | Whenever its loop ends, on any memory, the scan counts the places of the walk and registers exactly the descriptors among them, in order |
| FlashImage.Nth | kernel/flashmod.c:67-81 | Whenever the walks end, the n-th place over both regions, the system's first, or none past the last |
| FlashImage.Lookup | kernel/flashmod.c:84-93 | Whenever the walks end, the first module of a name, or none exactly when no module has it |
| FlashImage.ImageWalk | kernel/flashmod.c:34-46 | Over an image the walk ends and visits exactly its modules, in order, each whole where it was laid |
| FlashImage.ImageNames | kernel/flashmod.c:16-20 | A module laid in an image is known by its own name |
| FlashImage.StepIn | kernel/flashmod.c:34-46 | From each module of an image the step leads to the next |
| FlashImage.LaidSplit | make_flash_image.py:146-159 | Each module of a laid image lies whole at its own offset |
| FlashWriter.DataArea.Take | make_flash_image.py:88-98 | Areas handed out lie inside the board's area and never overlap; it refuses exactly when the rounded size does not fit |
| FlashWriter.RewrittenIsReady | make_flash_image.py:77-85 | A rewritten header is one that the kernel accepts, and says its own size |
| FlashWriter.PlacedIsReady | make_flash_image.py:101-127 | However a module is placed it verifies, is a multiple of sixteen long, and is private only if it was left as it came |
| FlashWriter.Place | make_flash_image.py:101-127 | A module that can run in place is relocated for where it lies; a split one exactly when the area has room, for the first address left there; every other is only padded; and what was placed has the addresses of its place (`FlashWriter.PlacedAtHome`) |
| FlashWriter.PlacedAtHome | make_flash_image.py:101-127 | In a placed module every entry of the table that no later one overlaps holds the address of its target: base and target, but for a split module's targets from the tail on the place in the data area, which its trailer names |
| FlashWriter.KindKept | make_flash_image.py:113-114 | Taking the private bit away changes no other field the kernel checks |
| FlashWriter.Build | make_flash_image.py:146-165 | Each module is laid out for the address where it comes to lie and finds the data area as the ones before it left it, a word of zeros follows the last, and every entry of a placed module's table holds the address where its target now lies |
| FlashWriter.WrittenIsWalked | make_flash_image.py:146-165 | An image written into a region is one the kernel walks to its end |
| FlashWriter.BuildAndScan | make_flash_image.py:130-165 | The round trip: as many modules are found in a region as were written to it, each laid out as the tool says for its place, and the places registered are those of exactly the descriptors among them |
| FlashWriter.DescriptorKept | make_flash_image.py:113-114 | Placing a module leaves it a descriptor, or not one, as it was |
| SockRecv.Socket.OnRecv | kernel/lwipsock.c:119-152 | Delivered bytes are appended to what waits; with a ring, and lwIP inside its window, the chain is never used |
| SockRecv.Socket.Recv | kernel/lwipsock.c:532-565 | Bytes handed out are the next of those delivered, in order; -1 only when the peer is gone and nothing is left, and then always |
| SockRecv.Socket.RingPut | kernel/lwipsock.c:285-292 | Two copies around the end of the ring append |
| SockRecv.Socket.RingTake | kernel/lwipsock.c:295-304 | Two copies around the end of the ring take the oldest |
| SockRecv.PutAppends | kernel/lwipsock.c:285-292 | Bytes stored after the last one, wrapping once, extend the ring's contents and disturb none of them |
| SockRecv.UdpSocket.OnDgram | kernel/lwipsock.c:347-369 | A datagram is queued whole with its sender, or dropped and counted when it does not fit |
| SockRecv.UdpSocket.RecvFrom | kernel/lwipsock.c:417-429 | The oldest datagram comes out, cut to the room there is, and the next call starts at the next one |
| SockRecv.RecordsAppend | kernel/lwipsock.c:347-369 | A record put after the others is the last of the queue |
| Display.Displayed | kernel/console.c:569-615 | Bytes in, rows out: after any bytes the generator, told by the console what to do, holds the newest lines of the text those bytes mean, as many as there is room for |
| Display.Perform | kernel/chargen.c:185-207 | Calls of the console performed on both rings make the generator hold the newest lines of the text that the calls describe |
| Typing.FullLines | kernel/console.c:138-143 | k lines exactly as wide as the screen and a newline take k lines, each on a line of its own, and change nothing else |
| Typing.FullText | kernel/console.c:138-143 | Every text of k times the width, and a newline, advances exactly k lines |
| Typing.TypeRow | kernel/console.c:296-307 | Characters that fit are written from the cursor on and nothing else is; the last column holds the wrap back |
| Screen.TabEnds | kernel/console.c:280-293 | The tab loop ends exactly on grids of one column or of nine and more |
| Typing.TabIs | kernel/console.c:280-293 | A tab is the fewest blanks, one at least, that end at a multiple of eight, over the end of a line too |
| Erasing.TypeThenErase | kernel/console.c:145-149 | As many backspaces as characters were typed take the cursor back to where it was, over the ends of lines, and leave every cell as it was or blank |
| Erasing.PrintAhead | kernel/console.c:296-307 | A character, wrapping or not, puts the cursor one backspace further ahead |
| Erasing.BackAhead | kernel/console.c:265-278 | A backspace gives back exactly one step, over the end of a line that was full |
| Escapes.FedAll | kernel/console.c:569-615 | Over every run of bytes the cursor stays in the grid, a wrap is held back on the last column only, parameters, colours and half-read characters keep their bounds, and no line is lost |
| Clearing.EraseDisplayIs | kernel/console.c:475-489 | After ESC [ n J every cell of that part of the screen is blank, every other cell of all lines is what it was, and rows cleared whole are no full lines any more |
| Clearing.EraseLineIs | kernel/console.c:491-499 | The same for the line of the cursor |
| Clearing.LastWins | kernel/console.c:371-405 | The hue, the brightness, the background and the reversal are each what the last number that sets it says |
| Clearing.NoneSets | kernel/console.c:371-405 | And where no number sets one, it stays |
| Clearing.SamePen | kernel/console.c:371-405 | These four are all there is of the pen |
| Sequences.RunTraced | kernel/console.c:569-615 | After every run of bytes the text is what the calls on the generator make |
| Sequences.FeedCharacter | kernel/console.c:534-565 | Every code point's UTF-8 draws exactly one character, a question mark where the font has none |
| Sequences.FeedNumber | kernel/console.c:596-599 | A parameter is its decimal value modulo 2^32 |
| Sequences.FeedSequence | kernel/console.c:585-614 | ESC [, any fields between semicolons and a final byte carry out that sequence with what the fields give it, the ninth and later ones in place of the eighth |
| Sequences.OpenOrNot | kernel/console.c:595-612 | A byte within a sequence keeps it open exactly when it is below '0', a digit or ';', carries it out from '@' to '~', and otherwise ends it without effect |
| Sequences.CutShort | kernel/console.c:595-612 | A sequence that comes to any other byte is dropped up to there, and what follows is text |
| Sequences.PrivateDrawn | kernel/console.c:595-612 | ESC [ ? 25 h draws "25h" |
| Sequences.InPlace | kernel/console.c:596-604 | Parameters land in their places exactly when the first field is not empty (or where the values cannot tell) |
| Sequences.EmptyFirst | kernel/console.c:596-604 | Whatever the numbers and the final byte, an empty first field is as if it were not there |
| Sequences.ReportReturns | kernel/console.c:407-436 | A reported position sent back as a cursor position is the cursor's, on every console of that size |
| Sequences.ReportFits | kernel/console.c:414-428 | The report fits its sixteen bytes and each number its six |
| Sequences.MovesOn | kernel/console.c:447-455 | Down and right stop at the edge exactly when the sum fits 32 bits, and go back otherwise |
| Commands.MoveUp | kernel/console.c:442-445 | From the bytes ESC [ n A, for any digits and for none: the row is n less, or the first, and nothing else is touched but a wrap held back |
| Commands.MoveDown | kernel/console.c:447-450 | The same down to the last row with B, exactly when row and distance sum to less than 2^32 |
| Commands.MoveRight | kernel/console.c:452-455 | And to the right with C, exactly when column and distance do |
| Commands.MoveLeft | kernel/console.c:457-460 | ESC [ n D: the column is n less, or the first |
| Commands.MoveToColumn | kernel/console.c:462-465 | ESC [ n G: column n, or the last |
| Commands.MoveToRow | kernel/console.c:467-473 | ESC [ n H and ESC [ n f: the beginning of row n, or of the last |
| Commands.MoveToPlace | kernel/console.c:467-473 | ESC [ n ; m H and ESC [ n ; m f: row n and column m, each at most the last |
| Commands.MovesByNumber | kernel/console.c:442-465 | With the decimal digits of every positive word A, D and G change exactly that coordinate |
| Commands.ErasesDisplay | kernel/console.c:475-489 | From the bytes ESC [ n J: exactly that part of the display is blank in the present colours, every other cell of all lines and the cursor are what they were, and rows cleared whole are no full lines |
| Commands.ErasesLine | kernel/console.c:491-499 | ESC [ n K: the same of the cursor's line |
| Commands.Answers | kernel/console.c:505-512 | ESC [ 6 n appends the cursor's place to the answers, every other number nothing, and the screen stays |
| Commands.Paints | kernel/console.c:501-503 | ESC [, numbers and m: the pen after those numbers, none at all meaning zero, and the screen stays |
| Commands.Inked | kernel/console.c:89-94 | What is drawn with a pen shows its foreground on its background, the other way round when reversed, and once more under the cursor |
| Sequences.SaveRestore | kernel/console.c:514-522 | A saved cursor is restored, whatever was printed, moved, erased or scrolled in between, if no control sequence in between saved it again or was left unfinished |
| Sequences.TextSavesNothing | kernel/console.c:534-565 | Text without an escape saves nothing, so any such text may come in between |
| Console.Terminal.Newline | kernel/console.c:235-249 | The next line, the flags of full lines moving up with their rows when the screen scrolls |
| Console.Terminal.Tab | kernel/console.c:280-293 | The loop ends, having drawn the blanks of a tab |
| Console.Terminal.Backspace | kernel/console.c:265-278 | A backspace goes up only over a line that ended because it was full |
| Console.Terminal.DrawChar | kernel/console.c:251-313 | Each character does to the text and the cursor what the abstract screen says |
| Console.Terminal.SetGraphics | kernel/console.c:371-405 | The numbers of a colour sequence take effect one after the other, none at all meaning zero |
| Console.Terminal.MoveCursor | kernel/console.c:442-473 | The moves, with 32-bit sums, which are what `Commands` says of each letter |
| Console.Terminal.EraseInDisplay | kernel/console.c:475-489 | The rows below, above or all of them are cleared, and the part of the cursor's row |
| Console.Terminal.ReportPosition | kernel/console.c:412-436 | The answer has both numbers in decimal, counted from one |
| Console.Terminal.CarryOut | kernel/console.c:438-532 | Every control sequence changes the whole console as the abstract one |
| Console.Terminal.FeedText | kernel/console.c:544-565 | Bytes are gathered into a character, and a cut-off one shows as one question mark |
| Console.Terminal.Feed | kernel/console.c:569-615 | Every byte in every state changes the whole console as the abstract one |
| Calendar.CivilFromDays | kernel/clock.c:44-56 | The result is a valid date with that day number, and the only one |
| Calendar.RangeIs | kernel/clock.c:44-56 | No signed 32-bit number overflows exactly on the day numbers of the precondition |
| Calendar.YearOfEra | kernel/clock.c:49 | The closed formula finds the year that holds the day |
| Calendar.NextNumber | kernel/clock.c:40-43 | The day after has the next number, by the calendar's own rules |
| Calendar.Epoch | kernel/clock.c:40-43 | The days are counted from the first of January 1970 |
| Calendar.OneDate | kernel/clock.c:40-43 | Two dates with the same number are the same date |
| Calendar.Successive | kernel/clock.c:44-56 | Successive numbers are successive dates |
| Address.ParseUsbAddress | kernel/config.c:181-197 | Only usable addresses are accepted, and the value is that of the four numbers |
| Address.AddressText | kernel/config.c:199-209 | The text is the four numbers and fits sixteen characters |
| Address.ParseOfText | kernel/config.c:181-209 | Every usable address is read back from its text |
| Config.KeyIs | kernel/config.c:113-118 | Keys are compared without regard to case, whole |
| Config.ValidHostname | kernel/config.c:131-139 | A name is accepted exactly when it is a DNS label of at most 31 characters |
| Config.TakeLine | kernel/config.c:224-274 | A line sets the key it names to its value without comment and blanks, if that is a value the key can have |
| Config.Kept32And63 | kernel/config.c:224-274 | Of a network's name 32 characters are kept, of its password 63, any other value whole, and no other key is touched |
| Timezones.TimezoneIs | kernel/config.c:148-168 | A value is a time zone exactly when it is a sign or none, one to three digits up to 14, and after a colon at most three up to 59; and it means so many minutes, west of UTC with a minus |
| Config.TakeText | kernel/config.c:377-389 | A text is taken line by line |
| Config.TakeKept | kernel/config.c:377-389 | Reading a kept text gives the map that was kept |
| Config.MapAfter | kernel/config.c:436-460 | Keeping a value changes that key and no other |
| Config.KeptSize | kernel/config.c:436-461 | All the settings there can be fit the sector |
| Config.ReadLineOf | kernel/config.c:450-459 | A line that is written says, when read, its key and its value |
| Config.Settings.Store | kernel/config.c:406-477 | Settings in flash are a map: one key is set or forgotten, the others stay, "full" is never the answer, errors change nothing |
| Config.Settings.Start | kernel/config.c:346-389 | The next start reads exactly the map that was kept |
| MakeAbs.MakeAbs | kernel/fsserver.c:61-101 | No input indexes outside a buffer; the result is absolute; when nothing is cut it is the input's components folded over the client's directory, or over the root for an absolute input |
| MakeAbs.MakeTwice | kernel/fsserver.c:61-101 | A path that was made with nothing cut is made again unchanged, for every client and directory |
| MakeAbs.RenderFits | kernel/fsserver.c:61-101 | A path that was made fits the buffer again |
| MakeAbs.ResolveAgain | kernel/fsserver.c:75-93 | Folding the components of a result gives that result |
| MakeAbs.FoldProper | kernel/fsserver.c:75-93 | No component of a result is empty, "." or ".." |
| MakeAbs.FoldDir | kernel/fsserver.c:75-93 | A directory read back from its own text is that directory |
| MakeAbs.Up | kernel/fsserver.c:87-90 | ".." removes the last name from the buffer and stops at the root |
| MakeAbs.Appended | kernel/fsserver.c:75-93 | For every path: with "/." after it it is the same directory, with "/.." the one that is in, with a name the one of that name in it, and with that and "/.." itself again |
| MakeAbs.Single | kernel/fsserver.c:75-93 | The same of a component alone, over the client's directory |
| DnsName.ReadName | kernel/lwipmdns.c:70-100 | Reading ends on every message, stays inside message and buffer, returns an offset inside the message exactly when it was given one and otherwise the one it was given, and where the message spells a name through at most eight pointers gives it in lower case and goes on after it |
| DnsName.Build | kernel/lwipmdns.c:216-238 | The question holds the labels of the name, or nothing when one is empty or too long |
| DnsName.Spelled | kernel/lwipmdns.c:222-231 | What is written is spelled where it lies |
| DnsName.SpelledBefore | kernel/lwipmdns.c:70-100 | Labels before a spelled name make a longer spelled name |
| DnsName.ReadAbbreviated | kernel/lwipmdns.c:70-100 | Labels and a pointer to the rest of the name anywhere in the first 16384 bytes are read as the whole name, and the reading goes on after the pointer |
| DnsName.QuestionRead | kernel/lwipmdns.c:216-238 | One question and no records, and after its name the type that was asked for and class IN with the unicast bit |
| DnsName.SplitJoin | kernel/lwipmdns.c:222-231 | A text of labels is split into those labels |
| DnsName.AskAndRead | kernel/lwipmdns.c:70-238 | A name asked about and read back from the question is the name in lower case, and the reading goes on at the type and the class |

## Left out

- Hardware: UART, GPIO, SPI, DMA, PSRAM timing, USB, the SHA accelerator, core-1 parking and
  interrupt masking. A critical section is one atomic step.
- lwIP, DNS and DHCP clients, ping and SNTP: a buffer of lwIP is a sequence of bytes, and its
  callbacks are calls from outside.
- The scheduler, the trap path, the allocator and the file systems are not part of this
  model; an allocation is a flag that says whether it succeeds.
- Faults inside one erase or one program of the flash, timing, secrecy and the strength of
  the cryptography.
- The readelf and nm output in `make_module.py`: `Relocate.Collect` starts from records that
  are already parsed, and the table's sorting and removal of duplicates is left out because
  what is proved holds for every order.
- Font data and colour tables: the renderers are proved for every font of the right shape whose
  first glyph is blank, and for every palette.
- Card mounting, USB-disk hand-over, startup scripts, log messages and `kernel/moddir.c`.
- IoManager.Manager.Open: whether a driver opens is a parameter; drivers themselves are outside.
- KeyStore.Store.Set: the crash statement is made for sequence numbers that do not wrap.
- KeyStore.Store.Destroy: a cut between its two erases can leave an openable copy, as stated above.
- Render.Renderer.Line: that the cells hold glyphs of the font is a precondition, met by every
  cell written through `Render.Glyph`.
- SockRecv.Socket.OnRecv: the sixteen-bit length of a chain is assumed not to overflow, which
  lwIP's window guarantees.
- Console.Terminal.DrawChar: drawing is modelled as the calls on the character generator; the
  build that draws pixels itself, the change of the font and the cursor's pixels are outside.
- ModuleFile.CreateModule: the entry point, the size of memory and the sizes of thread-local
  data come from the symbol table and are parameters, as are the writable tail and the
  alignment that readelf shows.
- FlashImage.ScanRegion: the directory that the descriptors are registered in is outside.
- MakeAbs.MakeAbs: when something is cut by the buffer only the index bounds and the leading
  slash are proved.
