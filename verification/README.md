# A model of SkipSQL and of the ciphers and hashes it bundles

The project models three parts of the repository and proves what they are for.

**Block ciphers** (bundled LibTomCrypt). IDEA, Serpent, DES and triple DES, Noekeon, Multi2, RC2 and
Skipjack: the key schedules and block functions as the in-place register code they are, each proved
against a functional description of the cipher, and for each the theorem that decryption undoes
encryption for every key and every block, on bytes. `PrimeField.dfy` proves Fermat's theorem for
IDEA's inverses; `BitSlice.dfy` carries a bit-sliced program to each bit position, for Serpent and
Noekeon; `Bits.dfy` and `Words.dfy` hold the laws of words and of byte order. `CipherRounds.dfy` and
`DesTables.dfy` spell the rounds out a second time in machine operators and say where the constants
and tables come from, and `IdeaExample.dfy` follows a test vector of the source.

**Incremental hashes.** BLAKE2b and MD2: the mutable state, fed in any pieces, against a one-shot
definition that follows RFC 7693 and RFC 1319; `Blake2bExample.dfy` follows the example of RFC 7693.

**SkipSQL.** `SqlExpression.dfy`, `SqlPredicate.dfy` and `SqlQuery.dfy` model how SQL text and its
bindings are built; `SqlLexer.dfy` and `SqlParser.dfy` say what SQL reads in such a text, and prove
when it is what was meant; `SqlMeaning.dfy` gives expressions their truth values; `SqlBindings.dfy`
matches placeholders with values; `PrimaryKeyQuery.dfy` gives the rows that key queries select;
`RowStatements.dfy` builds inserts, upserts and updates, which `StatementParser.dfy`,
`StatementReadBack.dfy`, `UpdateReadBack.dfy` and `InsertReadBack.dfy` read back, and of which
`UpdateReadBack.dfy` and `InsertTouches.dfy` say what they do to a table; `SelectParser.dfy`,
`SelectTokens.dfy` and `SelectReadBack.dfy` read SELECT statements back, and `TableQueries.dfy` builds
them as `fetchAll` does; `Migration.dfy` models
`migrate` over transactions in which every statement may fail and the program may restart.
`Wrappers.dfy` holds what the modules share.

Ten laws that the code does not keep are stated with the condition under which it does, for all
inputs, and with an input that fails it:

- quoting a name: a mark that is part of a longer character (one with a combining accent) is not
  doubled, and a NUL ends the text inside the quotation (`SqlExpression.UnquoteOfQuoted`,
  `SqlExpression.AccentedMark`, `SqlExpression.NameWithNul`);
- binding a text: it ends at its first NUL (`SqlMeaning.StoredIs`, `SqlMeaning.TextIsCut`);
- `BETWEEN` writes its lower bound twice (`SqlMeaning.RangeMeaningIsKept`, `SqlParser.LostUpperBound`);
- the forms of the key query for several columns differ for keys with nulls, and one of them is no
  expression without instances (`PrimaryKeyQuery.FormsAgree`, `PrimaryKeyQuery.NullKeysDiffer`,
  `PrimaryKeyQuery.NoKeysWithoutIn`); with one key column a query for several instances misses those
  with a null key (`PrimaryKeyQuery.QueryIsUnion`);
- an update whose table lists a key column behind another column has a comma too many
  (`UpdateReadBack.UpdateIsRead`, `UpdateReadBack.KeyColumnLast`);
- an upsert leaves nulls out, and so does not replace what is in the row
  (`InsertTouches.UpsertIsInstance`, `InsertTouches.NullIsKept`);
- an insert of an instance whose columns are all left out has an empty column list
  (`InsertReadBack.InsertIsRead`, `InsertReadBack.NothingToInsert`);
- an offset without a limit makes the query no statement, and `fetchAll` drops it instead
  (`SelectReadBack.SelectIsRead`, `SelectReadBack.OffsetAlone`, `TableQueries.FetchIsRead`);
- a failed write of `user_version` goes unnoticed and the next run repeats migrations
  (`Migration.LastWriteDecides`, `Migration.LostWriteRepeats`, `Migration.NumberNotWritten`);
- a failed read of it counts as version 0, and migrations run again
  (`Migration.UnreadVersionBreaks`, `Migration.AppliedTwice`).

Word macros (`LOAD32H`, `ROLc` and the like) and the structs for keys and states come from headers
outside the modelled files and have their usual meaning. The methods `Blake2b.HashChunks`,
`Blake2b.FeedAll`, `Blake2b.DoneTwice` and `Md2.HashChunks` are callers of the modelled functions, written to state what a
whole sequence of calls achieves; `Des.RunFunctions` is the body that the four ECB functions share.

## Model

| member | source | states |
|---|---|---|
| Idea.Mul | Sources/SQLExt/libtomcrypt/ciphers/idea.c:40-48 | multiplication in the group of nonzero residues modulo 65537, 0 standing for 65536, with both the wrapped difference and the zero product |
| Idea.NonzeroProduct | Sources/SQLExt/libtomcrypt/ciphers/idea.c:42-45 | low half minus high half, wrapped to 32 bits and folded back, is the product modulo 65537 |
| Idea.ZeroProduct | Sources/SQLExt/libtomcrypt/ciphers/idea.c:46-47 | one minus the operands is the product when an operand stands for 65536 |
| PrimeField.Fermat | Sources/SQLExt/libtomcrypt/ciphers/idea.c:52-62 | the theorem behind the inverse: x to the power p - 1 is 1 for a prime p |
| PrimeField.Prime65537 | Sources/SQLExt/libtomcrypt/ciphers/idea.c:40-48 | 65537 has no divisors, so the residues are a field |
| Idea.MulInv | Sources/SQLExt/libtomcrypt/ciphers/idea.c:52-62 | returns the group inverse of every 16-bit word, its loop keeping y = x^(2^(i+1) - 1) |
| Idea.GroupTimesInverse | Sources/SQLExt/libtomcrypt/ciphers/idea.c:52-62 | a word times its inverse is 1 |
| Idea.KeyGroupRotates | Sources/SQLExt/libtomcrypt/ciphers/idea.c:79-82 | each group of eight schedule words is the one before it rotated left by 25 as a 128-bit number |
| Idea.DecKeyRow | Sources/SQLExt/libtomcrypt/ciphers/idea.c:84-96 | where each decryption key comes from, with the middle two swapped in the inner rows and not in the outer ones |
| Idea.ProcessInverse | Sources/SQLExt/libtomcrypt/ciphers/idea.c:101-139 | the block function under the decryption table undoes it under the encryption table, for every table and block |
| Idea.DecryptAfterEncrypt | Sources/SQLExt/libtomcrypt/ciphers/idea.c:152-168 | for every 16-byte key and 8-byte block, bytes to bytes |
| Idea.SymmetricKey.Setup | Sources/SQLExt/libtomcrypt/ciphers/idea.c:141-150 | round and key size errors in the order of the code; on success both tables hold the schedules of the key |
| Idea.SymmetricKey.SetupEncKey | Sources/SQLExt/libtomcrypt/ciphers/idea.c:75-82 | fills ek with the encryption schedule |
| Idea.SymmetricKey.SetupDecRow | Sources/SQLExt/libtomcrypt/ciphers/idea.c:85-96 | writes one row of dk and nothing else of the rows before it |
| Idea.SymmetricKey.SetupDecKey | Sources/SQLExt/libtomcrypt/ciphers/idea.c:84-96 | fills dk with the decryption schedule of ek |
| Idea.ProcessBlock | Sources/SQLExt/libtomcrypt/ciphers/idea.c:101-139 | reads the block before it writes, so the buffers may be the same; writes eight bytes and no more |
| Idea.RunRounds | Sources/SQLExt/libtomcrypt/ciphers/idea.c:104-131 | the in-place register code computes the rounds that `Idea.RoundSpelled` spells out |
| Idea.SymmetricKey.EcbEncrypt | Sources/SQLExt/libtomcrypt/ciphers/idea.c:152-159 | output bytes are the encryption of the input bytes |
| Idea.SymmetricKey.EcbDecrypt | Sources/SQLExt/libtomcrypt/ciphers/idea.c:161-168 | output bytes are the decryption of the input bytes |
| Idea.RoundSpelled | Sources/SQLExt/libtomcrypt/ciphers/idea.c:111-126 | which key words a round uses for its two layers, in their order |
| Idea.KeyLayerIs | Sources/SQLExt/libtomcrypt/ciphers/idea.c:112-115 | the key layer in group products and sums |
| Idea.MixIs | Sources/SQLExt/libtomcrypt/ciphers/idea.c:116-125 | the mixing layer in group products, sums and exclusive or, its first key word with the first and third word, its second with all |
| Idea.ProcessSpelled | Sources/SQLExt/libtomcrypt/ciphers/idea.c:128-131 | eight rounds, and the last four key words on the words with the middle two exchanged |
| Words.ValueOf16H | Sources/SQLExt/libtomcrypt/ciphers/idea.c:49-50 | both bytes of a word, the high one first, in loading and in storing |
| IdeaExample.Vector | Sources/SQLExt/libtomcrypt/ciphers/idea.c:193-198 | the first vector of the self-test: the schedule of its key and all eight rounds, to the eight bytes of the ciphertext |
| Serpent.InvLtOfLt | Sources/SQLExt/libtomcrypt/ciphers/serpent.c:30-50 | the inverse linear transformation undoes the linear transformation |
| SerpentBoxes.BoxLooksUp | Sources/SQLExt/libtomcrypt/ciphers/serpent.c:78-422 | each of the eight bit-sliced boxes computes, at every bit position, its 16-entry table of the standard |
| SerpentBoxes.InvBoxOfBox | Sources/SQLExt/libtomcrypt/ciphers/serpent.c:78-422 | each inverse box undoes its box on four 32-bit words |
| BitSlice.LaneRespects | Sources/SQLExt/libtomcrypt/ciphers/serpent.c:78-422 | bitwise programs run the same program at each bit position |
| Serpent.DecryptOfEncrypt | Sources/SQLExt/libtomcrypt/ciphers/serpent.c:485-566 | decryption undoes encryption for any 33 round keys and any block |
| Serpent.EncBlock | Sources/SQLExt/libtomcrypt/ciphers/serpent.c:485-525 | the macro code with its renamed registers computes the cipher |
| Serpent.DecBlock | Sources/SQLExt/libtomcrypt/ciphers/serpent.c:527-566 | the inverse macro code with its own renaming computes the inverse cipher |
| Serpent.EncRoundsS0toS3 | Sources/SQLExt/libtomcrypt/ciphers/serpent.c:496-499 | the first half of the loop body, register names included |
| Serpent.EncRoundsS4toS7 | Sources/SQLExt/libtomcrypt/ciphers/serpent.c:500-503 | the second half of the loop body, up to the last round |
| Serpent.DecRoundsI7toI4 | Sources/SQLExt/libtomcrypt/ciphers/serpent.c:548-553 | the first half of the inverse loop body |
| Serpent.DecRoundsI3toI0 | Sources/SQLExt/libtomcrypt/ciphers/serpent.c:554-557 | the second half of the inverse loop body |
| SerpentSchedule.KeyWordIsPadded | Sources/SQLExt/libtomcrypt/ciphers/serpent.c:453-458 | the words of a key of whole words are those of the key followed by one 1 bit and zeros |
| SerpentSchedule.RingKey | Sources/SQLExt/libtomcrypt/ciphers/serpent.c:453-458 | loads the eight-word ring |
| SerpentSchedule.FirstPrekeys | Sources/SQLExt/libtomcrypt/ciphers/serpent.c:460-463 | the ring, overwritten in place, holds the recurrence on the words 8, 5, 3 and 1 back |
| SerpentSchedule.Prekeys | Sources/SQLExt/libtomcrypt/ciphers/serpent.c:460-466 | the table holds the recurrence |
| SerpentSchedule.Stage | Sources/SQLExt/libtomcrypt/ciphers/serpent.c:432-443 | one load, box and store through the moving base changes one group of four words and nothing else |
| SerpentSchedule.SetupKey | Sources/SQLExt/libtomcrypt/ciphers/serpent.c:446-483 | for every positive multiple of eight rounds, group g becomes box (3 - g) mod 8 of its prekeys, once each, and nothing behind the table changes |
| SerpentSchedule.SymmetricKey.Setup | Sources/SQLExt/libtomcrypt/ciphers/serpent.c:568-583 | round and key size errors; on success the table holds the round keys |
| SerpentSchedule.DecryptAfterEncrypt | Sources/SQLExt/libtomcrypt/ciphers/serpent.c:585-601 | for every key and block, bytes to bytes |
| SerpentSchedule.SymmetricKey.EcbEncrypt | Sources/SQLExt/libtomcrypt/ciphers/serpent.c:585-592 | output bytes are the encryption of the input bytes |
| SerpentSchedule.SymmetricKey.EcbDecrypt | Sources/SQLExt/libtomcrypt/ciphers/serpent.c:594-601 | output bytes are the decryption of the input bytes |
| CipherRounds.SerpentTransformation | Sources/SQLExt/libtomcrypt/ciphers/serpent.c:30-38 | the linear transformation in rotations, shifts and exclusive or, as the proposal gives it |
| CipherRounds.SerpentRound | Sources/SQLExt/libtomcrypt/ciphers/serpent.c:485-525 | round n takes key words 4n to 4n + 3, box n mod 8 and the linear transformation |
| CipherRounds.SerpentLastRound | Sources/SQLExt/libtomcrypt/ciphers/serpent.c:485-525 | the last round takes box 7 and four more key words instead |
| CipherRounds.GoldenRatio | Sources/SQLExt/libtomcrypt/ciphers/serpent.c:460-466 | the constant of the schedule is the fraction of the golden ratio to 32 bits |
| CipherRounds.SerpentPrekey | Sources/SQLExt/libtomcrypt/ciphers/serpent.c:460-466 | the recurrence of the prekeys with its rotation, constant and index |
| CipherRounds.SerpentRoundKey | Sources/SQLExt/libtomcrypt/ciphers/serpent.c:468-480 | the boxes of the round keys go down from S3 and around |
| Des.FinalOfInitial | Sources/SQLExt/libtomcrypt/ciphers/des.c:1403-1425 | the final swap network undoes the initial one with the halves exchanged |
| Des.InitialOfFinal | Sources/SQLExt/libtomcrypt/ciphers/des.c:1403-1502 | and the other way round |
| Des.FeistelInverse | Sources/SQLExt/libtomcrypt/ciphers/des.c:1442-1464 | sixteen rounds with the round-key pairs reversed undo sixteen rounds |
| Des.DesFunctionInverse | Sources/SQLExt/libtomcrypt/ciphers/des.c:1392-1503 | the block function under a reversed table undoes it, whatever the substitution tables |
| Des.ScheduleReversed | Sources/SQLExt/libtomcrypt/ciphers/des.c:1296-1381 | the DE1 schedule is the EN0 schedule with its pairs reversed, after cooking |
| Des.DesInverse | Sources/SQLExt/libtomcrypt/ciphers/des.c:1521-1538 | DES decryption undoes encryption and encryption undoes decryption, for every key |
| Des.Des3Inverse | Sources/SQLExt/libtomcrypt/ciphers/des.c:1548-1580 | two-key and three-key EDE decryption undoes encryption, for every key |
| Des.DecryptAfterEncrypt | Sources/SQLExt/libtomcrypt/ciphers/des.c:1589-1669 | for every single, double and triple-length key and every block, bytes to bytes |
| Des.Des3WithEqualKeys | Sources/SQLExt/libtomcrypt/ciphers/des.c:1548-1580 | with equal parts triple DES is single DES |
| Des.DesKey | Sources/SQLExt/libtomcrypt/ciphers/des.c:1296-1345 | bit selection, rotation and gathering yield the schedule, in either direction |
| Des.Cookey | Sources/SQLExt/libtomcrypt/ciphers/des.c:1356-1381 | the two words of each round are rearranged |
| Des.DesFunc | Sources/SQLExt/libtomcrypt/ciphers/des.c:1392-1503 | the in-place networks and rounds compute the block function |
| Des.DesKeys.Setup | Sources/SQLExt/libtomcrypt/ciphers/des.c:1521-1538 | errors, and both tables on success |
| Des.Des3Keys.Setup | Sources/SQLExt/libtomcrypt/ciphers/des.c:1548-1580 | errors, and the six tables on success, the third key repeating the first of a double-length key |
| Des.DesKeys.EcbEncrypt | Sources/SQLExt/libtomcrypt/ciphers/des.c:1589-1601 | output bytes are the encryption of the input bytes |
| Des.DesKeys.EcbDecrypt | Sources/SQLExt/libtomcrypt/ciphers/des.c:1610-1622 | output bytes are the decryption of the input bytes |
| Des.Des3Keys.EcbEncrypt | Sources/SQLExt/libtomcrypt/ciphers/des.c:1631-1646 | encrypt, decrypt, encrypt |
| Des.Des3Keys.EcbDecrypt | Sources/SQLExt/libtomcrypt/ciphers/des.c:1655-1669 | decrypt, encrypt, decrypt |
| DesTables.InitialIsIP | Sources/SQLExt/libtomcrypt/ciphers/des.c:1403-1425 | the swap network is the permutation IP of FIPS 46-3 with both halves rotated by one place, bit by bit |
| DesTables.RoundSpelled | Sources/SQLExt/libtomcrypt/ciphers/des.c:1442-1464 | which six bits of the half and of two key words each of the eight boxes gets |
| DesTables.FirstChoice | Sources/SQLExt/libtomcrypt/ciphers/des.c:60-66 | the table PC-1 by columns of the key |
| DesTables.Turns | Sources/SQLExt/libtomcrypt/ciphers/des.c:67-73 | the registers turn by one place in rounds 1, 2, 9 and 16 and by two in the others |
| DesTables.SecondChoice | Sources/SQLExt/libtomcrypt/ciphers/des.c:74-80 | the table PC-2 as FIPS 46-3 prints it |
| DesTables.TurnedBits | Sources/SQLExt/libtomcrypt/ciphers/des.c:1317-1332 | each half of the bits turns to the left within itself |
| DesTables.RawBits | Sources/SQLExt/libtomcrypt/ciphers/des.c:1334-1340 | the chosen bits fill the 24 places of a word from the highest down |
| DesTables.CookedSextets | Sources/SQLExt/libtomcrypt/ciphers/des.c:1356-1381 | the odd sextets of the two words of a round go into the bytes of one, the even ones into those of the other |
| DesTables.Des3Spelled | Sources/SQLExt/libtomcrypt/ciphers/des.c:1548-1580 | encrypt with the first key, decrypt with the second, encrypt with the third or again with the first |
| Noekeon.ThetaInverse | Sources/SQLExt/libtomcrypt/ciphers/noekeon.c:33-43 | THETA under the kTHETA-transformed key undoes THETA under the key |
| Noekeon.SpreadIsLinear | Sources/SQLExt/libtomcrypt/ciphers/noekeon.c:33-43 | the mask of either half of THETA is linear in exclusive or |
| Noekeon.GammaInvolution | Sources/SQLExt/libtomcrypt/ciphers/noekeon.c:45-51 | GAMMA undoes itself |
| Noekeon.NonlinearInvolution | Sources/SQLExt/libtomcrypt/ciphers/noekeon.c:53-57 | PI1, GAMMA, PI2 undo themselves because PI2 inverts PI1 |
| Noekeon.DecryptOfEncrypt | Sources/SQLExt/libtomcrypt/ciphers/noekeon.c:105-193 | decryption with the transformed key undoes encryption, for every key and block of words |
| Noekeon.DecryptAfterEncrypt | Sources/SQLExt/libtomcrypt/ciphers/noekeon.c:105-193 | bytes to bytes |
| Noekeon.SymmetricKey.Setup | Sources/SQLExt/libtomcrypt/ciphers/noekeon.c:67-95 | errors; K is the key and dK its transform, computed in place |
| Noekeon.SymmetricKey.EcbEncrypt | Sources/SQLExt/libtomcrypt/ciphers/noekeon.c:107-140 | the register code computes the encryption |
| Noekeon.SymmetricKey.EcbDecrypt | Sources/SQLExt/libtomcrypt/ciphers/noekeon.c:161-193 | the register code computes the decryption |
| CipherRounds.NoekeonConstants | Sources/SQLExt/libtomcrypt/ciphers/noekeon.c:25-31 | each round constant is the one before it times x modulo x^8 + x^4 + x^3 + x + 1 |
| CipherRounds.NoekeonRound | Sources/SQLExt/libtomcrypt/ciphers/noekeon.c:33-57 | a round in rotations and exclusive or, with GAMMA |
| CipherRounds.NoekeonGamma | Sources/SQLExt/libtomcrypt/ciphers/noekeon.c:45-51 | GAMMA on four bits is the table 7A2C48F0591E3DB6 |
| Multi2.RoundTwice | Sources/SQLExt/libtomcrypt/ciphers/multi2.c:12-44 | each of the four stages undoes itself |
| Multi2.DecryptOfEncrypt | Sources/SQLExt/libtomcrypt/ciphers/multi2.c:74-99 | decryption undoes encryption for every number of rounds, key table and block |
| Multi2.EncryptOfDecrypt | Sources/SQLExt/libtomcrypt/ciphers/multi2.c:74-99 | and encryption undoes decryption |
| Multi2.RunEncrypt | Sources/SQLExt/libtomcrypt/ciphers/multi2.c:74-84 | the loop with its exits in the middle runs exactly N rounds, at key offset 4*(((n-1)/4) mod 2) |
| Multi2.RunDecrypt | Sources/SQLExt/libtomcrypt/ciphers/multi2.c:86-99 | the fall-through switch runs the same rounds backwards at the same offsets, and terminates |
| Multi2.EntryIntoGroup | Sources/SQLExt/libtomcrypt/ciphers/multi2.c:90 | the switch enters a group of four at the stage of round n |
| Multi2.SetupWorkingKey | Sources/SQLExt/libtomcrypt/ciphers/multi2.c:46-72 | the working key is what nine rounds of encryption of the data key under the system key rewrite |
| Multi2.SymmetricKey.Setup | Sources/SQLExt/libtomcrypt/ciphers/multi2.c:114-136 | key size error; 0 rounds means 128 |
| Multi2.DecryptAfterEncrypt | Sources/SQLExt/libtomcrypt/ciphers/multi2.c:145-178 | for every key, number of rounds and block, bytes to bytes |
| Multi2.SymmetricKey.EcbEncrypt | Sources/SQLExt/libtomcrypt/ciphers/multi2.c:145-157 | output bytes are the encryption of the input bytes |
| Multi2.SymmetricKey.EcbDecrypt | Sources/SQLExt/libtomcrypt/ciphers/multi2.c:166-178 | output bytes are the decryption of the input bytes |
| CipherRounds.Multi2Rounds | Sources/SQLExt/libtomcrypt/ciphers/multi2.c:12-44 | four rounds in sums, rotations and exclusive or, with the half of the key that their number calls for |
| CipherRounds.Multi2Key | Sources/SQLExt/libtomcrypt/ciphers/multi2.c:46-72 | word n of the working key is what round n + 2 under the system key leaves in the half it changes |
| Rc2.MixStep | Sources/SQLExt/libtomcrypt/ciphers/rc2.c:166-176 | a mixing step on 32-bit registers with arbitrary bits above bit 15 is, in the low halves, the 16-bit step of section 3 of RFC 2268 |
| Rc2.UnmixStep | Sources/SQLExt/libtomcrypt/ciphers/rc2.c:252-262 | a reverse mixing step on a clean register is the 16-bit one and leaves a clean register |
| Rc2.IndexOfLow | Sources/SQLExt/libtomcrypt/ciphers/rc2.c:178-183 | table indices depend on the low halves only |
| Rc2.BytesOfLow | Sources/SQLExt/libtomcrypt/ciphers/rc2.c:186-193 | so do the output bytes |
| Rc2.RunMixing | Sources/SQLExt/libtomcrypt/ciphers/rc2.c:166-176 | a mixing round refines the 16-bit round |
| Rc2.RunMashing | Sources/SQLExt/libtomcrypt/ciphers/rc2.c:178-183 | a mashing round refines the 16-bit round |
| Rc2.RunUnmixing | Sources/SQLExt/libtomcrypt/ciphers/rc2.c:252-262 | a reverse mixing round refines the 16-bit round |
| Rc2.RunUnmashing | Sources/SQLExt/libtomcrypt/ciphers/rc2.c:245-250 | a reverse mashing round refines the 16-bit round |
| Rc2.UnmixingOfMixing | Sources/SQLExt/libtomcrypt/ciphers/rc2.c:252-262 | reverse mixing undoes mixing |
| Rc2.UnmashingOfMashing | Sources/SQLExt/libtomcrypt/ciphers/rc2.c:245-250 | reverse mashing undoes mashing although its indices change on the way |
| Rc2.DecryptAfterEncrypt | Sources/SQLExt/libtomcrypt/ciphers/rc2.c:142-275 | for every 64-word table and block, bytes to bytes |
| Rc2.SymmetricKey.EcbEncrypt | Sources/SQLExt/libtomcrypt/ciphers/rc2.c:146-196 | the register code computes 16-bit RC2 with the low halves of the table, whatever is above them |
| Rc2.SymmetricKey.EcbDecrypt | Sources/SQLExt/libtomcrypt/ciphers/rc2.c:224-275 | the register code computes its inverse |
| Rc2.ExpandKey | Sources/SQLExt/libtomcrypt/ciphers/rc2.c:84-93 | the in-place buffer is the expanded key of section 2 of RFC 2268 |
| Rc2.ReduceKey | Sources/SQLExt/libtomcrypt/ciphers/rc2.c:95-101 | overwriting it from the top down gives the reduced key |
| Rc2.OnlyEffectiveBitsMatter | Sources/SQLExt/libtomcrypt/ciphers/rc2.c:95-107 | the table depends on nothing but the effective bits of the expanded key |
| Rc2.SymmetricKey.SetupEx | Sources/SQLExt/libtomcrypt/ciphers/rc2.c:63-113 | errors; 0 bits means 1024; every table entry is a 16-bit word |
| Rc2.SymmetricKey.Setup | Sources/SQLExt/libtomcrypt/ciphers/rc2.c:126-129 | all bits of the key are effective |
| CipherRounds.Rc2MixingRound | Sources/SQLExt/libtomcrypt/ciphers/rc2.c:166-176 | which words and key words each step of a mixing round combines, and its rotation, section 3.1 of RFC 2268 |
| CipherRounds.Rc2MashingRound | Sources/SQLExt/libtomcrypt/ciphers/rc2.c:178-183 | which key word each word of a mashing round takes, section 3.2 of RFC 2268 |
| CipherRounds.Rc2Order | Sources/SQLExt/libtomcrypt/ciphers/rc2.c:165-184 | five mixing rounds, a mashing round, six, a mashing round, five |
| CipherRounds.Rc2EffectiveBytes | Sources/SQLExt/libtomcrypt/ciphers/rc2.c:96-97 | how many bytes hold the effective bits, and which bits of the topmost they are |
| CipherRounds.Rc2Reduction | Sources/SQLExt/libtomcrypt/ciphers/rc2.c:95-101 | every byte of the reduced key from the bytes above it |
| CipherRounds.Rc2Words | Sources/SQLExt/libtomcrypt/ciphers/rc2.c:103-107 | words of the key and of blocks have their low bytes first |
| Skipjack.GFunc | Sources/SQLExt/libtomcrypt/ciphers/skipjack.c:104-114 | four Feistel steps, the key pointer advanced by four modulo 10 |
| Skipjack.InvGFunc | Sources/SQLExt/libtomcrypt/ciphers/skipjack.c:116-126 | the same key bytes last first, the pointer moved back by four |
| Skipjack.InvGOfG | Sources/SQLExt/libtomcrypt/ciphers/skipjack.c:104-126 | ig_func inverts g_func for any table |
| Skipjack.InvStepOfStep | Sources/SQLExt/libtomcrypt/ciphers/skipjack.c:82-102 | rules A1 and B1 undo rules A and B |
| Skipjack.ApplyA | Sources/SQLExt/libtomcrypt/ciphers/skipjack.c:82-86 | rule A; the key pointer is 4*(x-1) mod 10 before step x and 4*x mod 10 after it |
| Skipjack.ApplyB | Sources/SQLExt/libtomcrypt/ciphers/skipjack.c:88-92 | rule B, with the same key pointers |
| Skipjack.ApplyA1 | Sources/SQLExt/libtomcrypt/ciphers/skipjack.c:94-97 | rule A1; the pointer goes from 4*x mod 10 back to 4*(x-1) mod 10 |
| Skipjack.ApplyB1 | Sources/SQLExt/libtomcrypt/ciphers/skipjack.c:99-102 | rule B1, with the same key pointers |
| Skipjack.RunEncrypt | Sources/SQLExt/libtomcrypt/ciphers/skipjack.c:154-172 | the four loops run steps 1 to 32, each step entered with the key pointer where rules A and B require it |
| Skipjack.RunDecrypt | Sources/SQLExt/libtomcrypt/ciphers/skipjack.c:217-240 | the four loops retrace steps 32 to 1, the pointer starting from 8 |
| Skipjack.DecryptAfterEncrypt | Sources/SQLExt/libtomcrypt/ciphers/skipjack.c:136-249 | for every table, key and block, bytes to bytes |
| Skipjack.SymmetricKey.Setup | Sources/SQLExt/libtomcrypt/ciphers/skipjack.c:59-80 | errors, and the key on success |
| Skipjack.SymmetricKey.EcbEncrypt | Sources/SQLExt/libtomcrypt/ciphers/skipjack.c:138-181 | output bytes are the encryption of the input bytes |
| Skipjack.SymmetricKey.EcbDecrypt | Sources/SQLExt/libtomcrypt/ciphers/skipjack.c:202-249 | output bytes are the decryption of the input bytes |
| CipherRounds.SkipjackG | Sources/SQLExt/libtomcrypt/ciphers/skipjack.c:104-114 | the four steps of G on the bytes of a word |
| CipherRounds.SkipjackStep | Sources/SQLExt/libtomcrypt/ciphers/skipjack.c:154-172 | rule A in steps 1 to 8 and 17 to 24, rule B in the others, each word spelled out |
| Blake2b.HashChunks | Sources/SQLExt/libtomcrypt/hashes/blake2b.c:210-435 | for every message, cut in any way, keyed or not, the digest is that of section 3.3 of RFC 7693 |
| Blake2b.HashState.Init | Sources/SQLExt/libtomcrypt/hashes/blake2b.c:210-247 | argument errors; otherwise the state of an empty message, the padded key fed as its first block |
| Blake2b.HashState.InitParam | Sources/SQLExt/libtomcrypt/hashes/blake2b.c:169-194 | the chaining value is the initialization vector with length parameters of section 2.5 of RFC 7693 mixed in |
| Blake2b.HashState.Process | Sources/SQLExt/libtomcrypt/hashes/blake2b.c:367-397 | the buffer holds exactly the uncompressed tail, at most 128 bytes and none only if nothing was fed; the chaining value covers the blocks before it |
| Blake2b.HashState.Overflow | Sources/SQLExt/libtomcrypt/hashes/blake2b.c:379-391 | a full buffer is compressed only when more data follows |
| Blake2b.HashState.AbsorbWhole | Sources/SQLExt/libtomcrypt/hashes/blake2b.c:385-390 | the inner loop leaves between 1 and 128 bytes |
| Blake2b.HashState.IncrementCounter | Sources/SQLExt/libtomcrypt/hashes/blake2b.c:163-167 | the two-word counter is the 128-bit count |
| Blake2b.CounterStep | Sources/SQLExt/libtomcrypt/hashes/blake2b.c:163-167 | the carry is right for every count |
| Blake2b.HashState.Compress | Sources/SQLExt/libtomcrypt/hashes/blake2b.c:302-348 | the compression function F of section 3.2 of RFC 7693 |
| Blake2b.SigmaRepeats | Sources/SQLExt/libtomcrypt/hashes/blake2b.c:134-148 | the twelve rows of the table are the ten schedules of the RFC taken modulo 10 |
| Blake2b.SigmaIs | Sources/SQLExt/libtomcrypt/hashes/blake2b.c:134-148 | each row of the table is the permutation of the RFC, read as a hexadecimal number |
| Blake2b.HashState.Done | Sources/SQLExt/libtomcrypt/hashes/blake2b.c:405-435 | an error if the last-block flag is set; otherwise final block flags, padding, output, and a cleared state: that of an empty message, with a digest of no bytes |
| Blake2b.DoneTwice | Sources/SQLExt/libtomcrypt/hashes/blake2b.c:405-435 | the guard does not stop a second call: the first has cleared the flag, and the second succeeds and writes nothing |
| Blake2b.DigestByte | Sources/SQLExt/libtomcrypt/hashes/blake2b.c:423-430 | a digest is the bytes of the final words, as many as were asked for |
| Words.BytesOf64L | Sources/SQLExt/libtomcrypt/hashes/blake2b.c:425 | each byte of a stored 64-bit word |
| Words.LoadStore64L | Sources/SQLExt/libtomcrypt/hashes/blake2b.c:312 | loading undoes storing and storing undoes loading |
| Words.ValueOf64L | Sources/SQLExt/libtomcrypt/hashes/blake2b.c:312 | a loaded word is the sum of its bytes, the lowest first |
| Blake2b.KeyFirst | Sources/SQLExt/libtomcrypt/hashes/blake2b.c:235-245 | a key is the start of the first block, the rest of which is zero |
| Blake2b.Chaining | Sources/SQLExt/libtomcrypt/hashes/blake2b.c:367-421 | the blocks before the last are compressed with the number of bytes up to their end, the last with that of all bytes and the final flag |
| Blake2bExample.DigestOfAbc | Sources/SQLExt/libtomcrypt/hashes/blake2b.c:458-466 | the digest of "abc" of RFC 7693, appendix A, all twelve rounds step by step |
| Md2.HashChunks | Sources/SQLExt/libtomcrypt/hashes/md2.c:93-176 | for every message and every way of cutting it: pad, checksum of the whole padded message, compression of message and checksum, sections 3.1 to 3.4 of RFC 1319 |
| Md2.HashState.UpdateChecksum | Sources/SQLExt/libtomcrypt/hashes/md2.c:52-64 | the checksum rule of the code comment, in place |
| Md2.HashState.Compress | Sources/SQLExt/libtomcrypt/hashes/md2.c:66-86 | the 18 rounds over 48 bytes, in place |
| Md2.HashState.Process | Sources/SQLExt/libtomcrypt/hashes/md2.c:112-135 | checksum and compression both cover the blocks completed so far, and the buffer the bytes behind them |
| Md2.HashState.Feed | Sources/SQLExt/libtomcrypt/hashes/md2.c:120-133 | one turn of the loop |
| Md2.HashState.Done | Sources/SQLExt/libtomcrypt/hashes/md2.c:143-176 | padding, the last block, and the checksum as one more block |
| Md2.HashState.TakePadding | Sources/SQLExt/libtomcrypt/hashes/md2.c:155-163 | the padded message is covered |
| Md2.HashState.TakeChecksum | Sources/SQLExt/libtomcrypt/hashes/md2.c:165-167 | interleaving has computed the checksum of the whole padded message |
| Md2.ChecksumPrefix | Sources/SQLExt/libtomcrypt/hashes/md2.c:112-135 | what later bytes are does not matter to a checksum already computed |
| CipherRounds.Md2Padding | Sources/SQLExt/libtomcrypt/hashes/md2.c:155-159 | the bytes that are added count themselves, and taking them off gives the message |
| CipherRounds.Md2PaddingIsInjective | Sources/SQLExt/libtomcrypt/hashes/md2.c:155-159 | different messages are padded differently |
| CipherRounds.Md2Checksum | Sources/SQLExt/libtomcrypt/hashes/md2.c:52-64 | each checksum byte from the one before it, the table and the block |
| CipherRounds.Md2Round | Sources/SQLExt/libtomcrypt/hashes/md2.c:66-86 | each of the 48 bytes from the one before it, and what t becomes |
| CipherRounds.Md2Digest | Sources/SQLExt/libtomcrypt/hashes/md2.c:155-171 | the digest is the first third of the state after the padded message and its checksum |
| SqlExpression.Quote | Sources/SkipSQLCore/SQLContext.swift:437-448 | the loop over the characters of a string, which doubles those that are the mark |
| SqlExpression.DoubledOfUnquote | Sources/SkipSQLCore/SQLContext.swift:437-448 | what SQL reads as a string is that string with its marks doubled, and nothing else is |
| SqlExpression.UnquoteOfQuoted | Sources/SkipSQLCore/SQLContext.swift:437-448 | a quoted name is read back, whatever follows it, if and only if it has no NUL and no character of it contains the mark and more |
| SqlExpression.QuotedIsInjective | Sources/SkipSQLCore/SQLContext.swift:437-448 | different names without a mark inside a longer character have different quotations |
| SqlExpression.AccentedMark | Sources/SkipSQLCore/SQLContext.swift:437-448 | a concrete name with a combining accent behind a mark: the mark is not doubled and ends the name |
| SqlExpression.NameWithNul | Sources/SkipSQLCore/SQLContext.swift:145-155 | a concrete name with a NUL, at which the text ends for SQLite with the quotation open |
| SqlExpression.SqlOfAppend | Sources/SkipSQLCore/SQLContext.swift:422-424 | the text of joined parts |
| SqlExpression.BindingsOfAppend | Sources/SkipSQLCore/SQLContext.swift:426-428 | the bindings of joined parts |
| SqlExpression.SQLExpression.constructor | Sources/SkipSQLCore/SQLContext.swift:415-420 | text first, then empty parts that carry the bindings |
| SqlExpression.SQLExpression.Append | Sources/SkipSQLCore/SQLContext.swift:430-432 | appends one part |
| SqlBindings.PlaceholdersMatchBindings | Sources/SkipSQLCore/SQLContext.swift:412-433 | in any expression made of closed texts and placeholders the k-th parameter is a question mark where the part with the k-th binding starts, there are no others, and the statement does not end before the text |
| SqlBindings.QuotedIsClosed | Sources/SkipSQLCore/SQLContext.swift:437-448 | a quoted legible name has no parameter outside quotes, leaves no quotation open and does not end the statement |
| SqlBindings.StrayPlaceholder | Sources/SkipSQLCore/SQLContext.swift:437-448 | a concrete column name with such a character, whose text has a placeholder and no value for it |
| SqlBindings.PredicateBindings | Sources/SkipSQLCore/SQLCodable.swift:809-947 | the same for every predicate, with legible names and aliases that have no parameter, close every quotation and comment they open, and do not end the statement |
| SqlBindings.NamedParameter | Sources/SkipSQLCore/SQLCodable.swift:677-739 | a concrete alias with a named parameter, which takes the value of the placeholder behind it |
| SqlPredicate.ApplyRep | Sources/SkipSQLCore/SQLCodable.swift:677-739 | what columns, aliased columns, values and tuples append |
| SqlPredicate.Apply | Sources/SkipSQLCore/SQLCodable.swift:796-947 | what each predicate appends, recursively |
| SqlPredicate.ApplyChain | Sources/SkipSQLCore/SQLCodable.swift:815-820 | the loop over the members of AND and OR |
| SqlPredicate.ApplyCompound | Sources/SkipSQLCore/SQLCodable.swift:810-837 | parentheses exactly around more than one member |
| SqlPredicate.ApplyRange | Sources/SkipSQLCore/SQLCodable.swift:914-932 | BETWEEN as written: the lower bound twice |
| SqlLexer.LexOfPredicate | Sources/SkipSQLCore/SQLCodable.swift:809-947 | the text of a predicate with its bindings reads back as its tokens, nothing running together, if and only if every name is legible (no NUL, no mark inside a longer character) and every alias is an identifier and no reserved word of SQLite; otherwise not even its names, words and values are read, with aliases as words |
| SqlParser.ParseOfPredicate | Sources/SkipSQLCore/SQLCodable.swift:809-947 | parsed with the precedence of SQL, the text of a predicate in which no AND, OR or tuple is empty is that predicate, up to one-member AND, OR and tuples, if and only if its names and aliases can be read; with readable names and an empty AND, OR or tuple it does not parse |
| SqlParser.NotOfPredicate | Sources/SkipSQLCore/SQLCodable.swift:810-850 | the same in front of whatever may follow a predicate |
| SqlParser.TreeIsKept | Sources/SkipSQLCore/SQLCodable.swift:914-932 | the tree read back from a predicate is the tree with both bounds of every BETWEEN in it if and only if the two bounds are the same operand |
| SqlMeaning.RangeMeaningIsKept | Sources/SkipSQLCore/SQLCodable.swift:914-932 | a range on a column between two constants, read back, has the truth value of the range that was meant in every row, if and only if the bounds, as they are bound, are equal to the engine or both null |
| SqlMeaning.StoredIs | Sources/SkipSQLCore/SQLStatement.swift:56-77 | a bound value is what the engine gets if and only if it is no text with a NUL |
| SqlMeaning.TextIsCut | Sources/SkipSQLCore/SQLStatement.swift:63-64 | a concrete text that is cut |
| SqlParser.LostUpperBound | Sources/SkipSQLCore/SQLCodable.swift:914-922 | a concrete range whose upper bound is lost |
| SqlLexer.OperatorReads | Sources/SkipSQLCore/SQLCodable.swift:852-898 | each of the eight operators reads back as itself |
| PrimaryKeyQuery.EvalOfEquals | Sources/SkipSQLCore/SQLCodable.swift:860-866 | equals holds of the rows with that value, and with a null of the rows without one |
| PrimaryKeyQuery.EvalOfNotEquals | Sources/SkipSQLCore/SQLCodable.swift:868-874 | notEquals with a null holds of the rows that have a value, with any other value of those that have a different one |
| PrimaryKeyQuery.FindByPrimaryKeys | Sources/SkipSQLCore/SQLCodable.swift:176-210 | the error without key columns, and the four forms of the query |
| PrimaryKeyQuery.KeyQuerySelects | Sources/SkipSQLCore/SQLCodable.swift:176-210 | exactly the rows whose columns match some key, under three truth values, as read from the text: forms with IN never match a null, the others match it with a null |
| PrimaryKeyQuery.KeyQueryParses | Sources/SkipSQLCore/SQLCodable.swift:176-210 | the text of a key query is an expression unless it is the form without IN for no instances |
| PrimaryKeyQuery.FormsAgree | Sources/SkipSQLCore/SQLCodable.swift:194-208 | the two forms for several columns parse and select the same rows of every table if and only if there are instances and no key has a null |
| PrimaryKeyQuery.QueryIsUnion | Sources/SkipSQLCore/SQLCodable.swift:176-210 | a query for several instances finds what queries for each of them find, in every table, if and only if there are several key columns, or one instance, or no null in a key; and is an expression besides, if and only if it is not the form without IN for no instances |
| PrimaryKeyQuery.KeysWithoutNulls | Sources/SkipSQLCore/SQLCodable.swift:176-210 | for keys without nulls every form selects the rows whose key columns are equal to some key |
| PrimaryKeyQuery.NullKeysDiffer | Sources/SkipSQLCore/SQLCodable.swift:194-208 | a key with nulls for which they do not |
| PrimaryKeyQuery.NoKeysWithoutIn | Sources/SkipSQLCore/SQLCodable.swift:200-208 | with no instances the OR form writes nothing, which does not parse |
| SqlQuery.ApplyClauses | Sources/SkipSQLCore/SQLCodable.swift:427-450 | WHERE, ORDER BY, LIMIT and OFFSET in this order, each only if present; what they are read as is stated in `SelectReadBack.SelectIsRead` |
| SqlQuery.NumberOfDigits | Sources/SkipSQLCore/SQLCodable.swift:443-449 | limit and offset are written as the numbers they are |
| SqlQuery.AssembleQuery | Sources/SkipSQLCore/SQLCodable.swift:393-425 | columns, tables, joins and conditions, read back by `SelectReadBack.SelectIsRead` |
| SqlQuery.ApplyJoinCondition | Sources/SkipSQLCore/SQLCodable.swift:779-793 | a foreign key is compared with what it references, whichever table it is in |
| SqlQuery.SelectBindings | Sources/SkipSQLCore/SQLCodable.swift:393-450 | in every assembled SELECT the k-th placeholder gets the k-th binding |
| SelectParser.SelectKeeps | Sources/SkipSQLCore/SQLCodable.swift:393-450 | a SELECT read from tokens has their names, words and values in their order, whatever the tokens |
| SelectTokens.SelectOfTokens | Sources/SkipSQLCore/SQLCodable.swift:393-450 | the tokens parse to the statement that is meant if and only if it has a column, an offset comes with a limit, and no AND, OR or tuple is empty, and to none otherwise |
| SelectReadBack.SelectIsRead | Sources/SkipSQLCore/SQLCodable.swift:393-450 | an assembled SELECT is read as the columns of all tables under their aliases, the joins with their kinds and conditions, all the clauses as one AND, the order terms with their directions, the limit and the offset, if and only if the names are legible, the aliases identifiers, some table has a column, and an offset comes with a limit; with names that can be read it is no statement otherwise |
| SelectReadBack.OffsetAlone | Sources/SkipSQLCore/SQLCodable.swift:446-449 | a concrete offset without a limit, with which the text is no statement |
| TableQueries.FetchAll | Sources/SkipSQLCore/SQLCodable.swift:100-111 | the steps of fetchAll, which passes the offset on only with a limit |
| TableQueries.FetchIsRead | Sources/SkipSQLCore/SQLCodable.swift:100-111 | what fetchAll asks for is read with the columns, condition, order and limit that were given, but with the offset only if there is a limit |
| TableQueries.Eval | Sources/SkipSQLCore/SQLCodable.swift:521-527 | a query against one table is assembled from that table alone |
| RowStatements.InsertUpdateSQL | Sources/SkipSQLCore/SQLCodable.swift:215-290 | the parts of an insert, an upsert or an update, and the refusals: an update without a key, an upsert the library is too old for |
| RowStatements.AppendAssignments | Sources/SkipSQLCore/SQLCodable.swift:251-267 | the loop that writes a separator before it knows whether a column is a key |
| RowStatements.AppendExcluded | Sources/SkipSQLCore/SQLCodable.swift:279-284 | the loop that sets each inserted column to its excluded value |
| RowStatements.FilterCells | Sources/SkipSQLCore/SQLCodable.swift:225-238 | what an insert leaves out: nulls, and zeros in keys that are to be assigned |
| StatementParser.TokensKeep | Sources/SkipSQLCore/SQLCodable.swift:215-290 | a statement read from tokens has their names, words and values in their order, whatever the tokens |
| UpdateReadBack.UpdateIsRead | Sources/SkipSQLCore/SQLCodable.swift:215-290 | the expression of an update is read as setting the columns that are no keys where the key query holds, if and only if there is such a column, no key column comes behind one, and every name is legible; with legible names it is no statement otherwise |
| UpdateReadBack.UpdateTouches | Sources/SkipSQLCore/SQLCodable.swift:292-295 | the update read back changes exactly the rows that have the key of the instance: there every column that is no key gets the value of the instance, a text up to its first NUL, and every other column stays |
| UpdateReadBack.KeyColumnLast | Sources/SkipSQLCore/SQLCodable.swift:251-267 | a concrete table whose updates are no statements |
| InsertReadBack.InsertIsRead | Sources/SkipSQLCore/SQLCodable.swift:215-290 | the expression of an insert is read as giving each column that is not left out its value, that of an upsert also as replacing them where the key columns conflict, if and only if a column is left and every name is legible |
| InsertTouches.InsertTouches | Sources/SkipSQLCore/SQLCodable.swift:317-320 | the insert or upsert read back adds the row of the instance, with defaults for what is left out, if no row has its key; otherwise an insert fails, and an upsert gives the rows with that key the values of the instance that are not left out, and changes no other |
| InsertTouches.UpsertIsInstance | Sources/SkipSQLCore/SQLCodable.swift:225-238 | a row that an upsert finds is the instance afterwards, whatever was in it, if and only if the instance has no null and no text with a NUL |
| InsertTouches.NullIsKept | Sources/SkipSQLCore/SQLCodable.swift:232-234 | a concrete upsert of a null that leaves the old value |
| InsertTouches.ZeroIsWritten | Sources/SkipSQLCore/SQLCodable.swift:228 | a concrete insert with zeros in a key that is not assigned and in a column that is no key: both are written |
| InsertReadBack.NothingToInsert | Sources/SkipSQLCore/SQLCodable.swift:225-238 | a concrete instance that cannot be inserted |
| Migration.SQLContext.Migrate | Sources/SkipSQLCore/SQLSchema.swift:364-372 | the loop over the migrations from the version found |
| Migration.SQLContext.PerformMigration | Sources/SkipSQLCore/SQLContext.swift:169-202 | BEGIN, the body, COMMIT; on any error ROLLBACK and the error again |
| Migration.SQLContext.GetUserVersion | Sources/SkipSQLCore/SQLContext.swift:374 | an error counts as version 0 |
| Migration.SQLContext.SetUserVersion | Sources/SkipSQLCore/SQLContext.swift:375 | an error is not noticed |
| Migration.StepsCommit | Sources/SkipSQLCore/SQLSchema.swift:364-372 | whatever fails, a run commits the migrations before the first that fails, each whole and once, and the last version number that was written |
| Migration.RunKeepsConsistent | Sources/SkipSQLCore/SQLSchema.swift:364-372 | where version numbers are written, contents and version stay in step, and a failed migration leaves no effect |
| Migration.HistoryKeepsConsistent | Sources/SkipSQLCore/SQLSchema.swift:364-372 | over every sequence of runs on growing lists and of restarts, the file holds exactly the migrations that its version counts, and the version never goes back |
| Migration.FinishedRunIsIdempotent | Sources/SkipSQLCore/SQLSchema.swift:364-372 | a run after a finished one changes nothing |
| Migration.FailureIsUndone | Sources/SkipSQLCore/SQLContext.swift:192-202 | a run ends inside a transaction if and only if it ends at a migration that could neither be committed nor rolled back |
| Migration.RetryFinishes | Sources/SkipSQLCore/SQLContext.swift:192-202 | a second run in which everything works completes the migrations if and only if the first left no transaction open |
| Migration.ThrownIsUndone | Sources/SkipSQLCore/SQLContext.swift:192-202 | a concrete migration that throws half-way and is rolled back |
| Migration.NewerFileIsLeftAlone | Sources/SkipSQLCore/SQLSchema.swift:366-367 | a file with a higher version than there are migrations stops the program and is left as it is |
| Migration.LastWriteDecides | Sources/SkipSQLCore/SQLContext.swift:375 | the version counts the committed migrations if and only if there were none or the last of them wrote its number |
| Migration.LostWriteRepeats | Sources/SkipSQLCore/SQLContext.swift:375 | after a number that was not written, the next run applies again every migration since the number that was, and the file is not consistent |
| Migration.NumberNotWritten | Sources/SkipSQLCore/SQLContext.swift:375 | a concrete migration that runs twice |
| Migration.UnreadVersionRepeats | Sources/SkipSQLCore/SQLContext.swift:374 | contents and version after a run that could not read the version: the migrations before the first failure, applied to what is there |
| Migration.UnreadVersionBreaks | Sources/SkipSQLCore/SQLContext.swift:374 | such a run leaves a consistent file consistent if and only if it commits no migration, or the file had none and the last one committed wrote its number; if that one did, the version becomes the number of migrations committed, which may be lower than before |
| Migration.AppliedTwice | Sources/SkipSQLCore/SQLContext.swift:374 | a concrete file that gets a migration twice |
| Migration.OpenTransactionBlocks | Sources/SkipSQLCore/SQLContext.swift:169-202 | after a failed ROLLBACK no later run on the connection has an effect, and it reports success if and only if the open transaction has the last version |

## Left out

- The foreign function layers, opening and closing of databases, statements, cursors, hooks: thin wrappers over SQLite. SQLite's transactions are a snapshot that is kept or restored.
- The other bundled ciphers and hashes: their inversion undoes round after round, or rests on large tables (Anubis, Khazad).
- Contents of the tables SP1 to SP8 of DES, `sbox` of Skipjack, `permute` of RC2 and `PI_SUBST` of MD2: parameters, since the results hold for any contents. The lookup branch of `desfunc` with `des_ip` and `des_fp` is not part of this model.
- NULL checks, self-tests, `*_done`, `*_keysize`, clearing of stack and key memory: no functional content.
- Ciphers on words wider than their type: C's `unsigned` is taken to have 32 bits.
- Md2.HashState.UpdateChecksum: follows the code, whose comment notes that RFC 1319 words the checksum rule differently.
- SerpentSchedule.SetupKey: for key lengths that are no multiple of four the bytes behind the last whole word are not loaded; the model keeps this, and no caller passes such a length.
- Multi2.SymmetricKey.Setup: accepts a negative number of rounds as the code does; encryption and decryption are modelled for at least one round, because with fewer the loops of the source do not end.
- Rc2.SymmetricKey.SetupEx: the number of effective bits is not negative; a negative one indexes outside the buffer in the source.
- Rc2.SymmetricKey.EcbEncrypt: proved for any 32-bit table entries, more than the 16-bit ones that the schedule writes.
- Skipjack.SymmetricKey.Setup: the key is kept as a sequence rather than as a ten-byte buffer.
- Local C arrays of the key schedules of DES, Multi2 and Serpent are sequences that the loops update; the tables of the keys are arrays.
- SqlExpression.Quote: a string is given as its characters; how Swift splits a text into them is not modelled. Characters are compared scalar by scalar; no other scalar is canonically equivalent to the marks in use, the double and the single quote.
- SqlPredicate.Apply: closures of the source are trees here; `custom` (raw SQL), comparisons with operators other than the eight named ones, and predicates used as operands of comparisons are not modelled.
- SqlParser.ParseOfPredicate: the grammar covers what predicates use, without `NOT IN`, arithmetic and chains of comparisons; `LIKE` and `WITH`, which SQLite would take for identifiers in some places, count as reserved. SQLite's limits on the number of parameters, the depth of expressions and the length of texts are not modelled, nor is that it takes a double-quoted name for a string where there is no such column.
- PrimaryKeyQuery.KeyQueryParses: within the same limits of SQLite.
- SqlLexer.LexOfPredicate: an alias counts as read if it is one or two identifiers, words or names between double quotes; SQLite takes names in brackets, backticks and single quotes too, which the model does not count.
- SqlParser.TreeIsKept: compares trees; which of them differ in meaning is stated for ranges between constants in `SqlMeaning.RangeMeaningIsKept`, for engines that order the values other than null without a greatest one.
- SqlBindings.PredicateBindings: in one direction; with a mark inside a longer character a name may still have its placeholders right, and whether it has depends on all the text behind it. An alias does not start with a digit, which might number a question mark in front of it.
- SqlQuery.AssembleQuery: of a column only its name, key flags and referenced name are kept; the raw table name with a placeholder of `ColumnInfo` is not modelled.
- PrimaryKeyQuery.KeyQuerySelects: how SQLite compares two values that are not null (affinity, collation) is a parameter.
- SqlMeaning.RangeMeaningIsKept: the engine compares values alike in all columns; collation and affinity of single columns are not modelled.
- PrimaryKeyQuery.FormsAgree: columns are told apart by their exact names, where SQLite ignores the case of ASCII letters; for key columns with different names and engines in which every value other than null is equal to itself.
- SelectReadBack.SelectIsRead: ambiguous or unknown column names, grouping and subqueries are not modelled; words that are not reserved are known in upper case only.
- InsertTouches.InsertTouches: constraints other than the primary key and triggers are not modelled; what the table gives to columns that are left out, assigned keys included, is a parameter.
- InsertTouches.UpsertIsInstance: for instances whose keys are not left out; with an assigned key there is no row to find.
- UpdateReadBack.UpdateTouches: for columns with different names; constraints and triggers of the table are not modelled.
- Migration.RunKeepsConsistent: migrations change the contents and do not write the version themselves; that a version write may fail is treated in `Migration.LastWriteDecides`, that a read may fail in `Migration.UnreadVersionBreaks`.
- Migration.UnreadVersionBreaks: for migrations that leave a trace in the contents each, since others may be repeated unnoticed; `Migration.UnreadVersionRepeats` holds for any.
- Date parsing, table and index definitions: strings put together from parts, as in the modelled statements.
