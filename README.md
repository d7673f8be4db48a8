# AOF replay codec — a Dafny model

This project models `aof-file-parser.js`, the codec for AOF game-replay
files. `save` takes a replay record, checks it, and writes it as a
revision-12 byte stream. `load` reads a stream of any revision from 8 on and
rebuilds the record. The model keeps the source's own form:

- `save` writes into byte arrays through a moving cursor and grows the
  buffer with `Buffer.concat`.
- `load` walks the bytes with a cursor, pushes players and stores each
  fragment at the index of its id.

Each method is proved equal to a pure specification function
(`Encoder.SaveOf`, `Decoder.Decode`), and the properties are proved about
those functions.

Modules:

- `Bytes` holds bytes, the big-endian 16- and 32-bit encodings with their
  round trips, `At` (a byte string found at an offset), and array writes and
  concatenation.
- `Replay` holds the record. A JavaScript sparse array of fragments is a
  sequence of slots: its length is the array's `length`, a `None` slot is a
  hole that `forEach` skips, and `Store` is `array[id] = fragment`.
- `Validation` holds the checks at the front of `save`.
- `Layout` holds the bytes of each part of a file, for every revision `load`
  accepts.
- `Encoder` holds `save`.
- `Decoder` holds `load`.
- `RoundTrip` proves that `load` gives back what `save` wrote.

The completeness flag keeps the source's rule: it is 1 when each collection
has exactly one slot fewer populated than its length. For collections
without id 0, that means the ids are exactly 1 to the last one
(`Encoder.CompleteFlagIds`).

## Model

| member | source | states |
|---|---|---|
| Validation.LastMissing | aof-file-parser.js:7-13 | The field reported is missing, and no field checked after it is missing; none is reported exactly when all six are present. |
| Validation.CheckFields | aof-file-parser.js:7-13 | The six overwriting `if`s leave the error text empty exactly when every field is present; otherwise it is the text of the last missing field in check order. |
| Validation.MessageNames | aof-file-parser.js:8-13 | No error text is empty, and each names one field only, so the text tells which check failed. |
| Validation.Roster | aof-file-parser.js:22 | An absent roster becomes empty; a present one is kept. |
| Validation.Warnings | aof-file-parser.js:19-21 | The only warning is "No players", given exactly when the roster is present and empty. |
| Validation.Validate | aof-file-parser.js:7-34 | The record passes exactly when all six fields are present and both collections are non-empty. A missing field wins over an empty keyframe collection, which wins over an empty chunk collection. |
| Encoder.SaveOutcome | aof-file-parser.js:7-34 | `save` rejects with the last missing field, then "No keyframes", then "No chunks", and succeeds otherwise. On success the warnings are as above and the bytes begin with 12. |
| Encoder.Tally | aof-file-parser.js:42-50 | The `forEach` loop counts the populated slots and sums their payload lengths. |
| Encoder.CompleteFlagIds | aof-file-parser.js:52-53 | With slot 0 a hole in both collections, the flag is 1 exactly when every later slot of both is populated; it is always 0 or 1. |
| Encoder.EncodedShape | aof-file-parser.js:58-132 | The stream starts with 12, and its length is 18 + key length + the sum of 20 + name length per player + 4 + payload bytes + 6 per fragment. |
| Encoder.WriteGameInfo | aof-file-parser.js:60-73 | The first ten bytes are the revision, the region, then the high and low 32-bit halves of the game id; the rest of the buffer is unchanged. |
| Encoder.WriteVersion | aof-file-parser.js:74-77 | Bytes 10 to 13 are the three version bytes and the key length; everything else is unchanged. |
| Encoder.WriteHeader | aof-file-parser.js:56-84 | The 18 + key-length buffer holds exactly the revision-12 header followed by the roster count. |
| Encoder.PlayerBuffer | aof-file-parser.js:87-100 | The fresh 20 + name-length buffer holds exactly the player's record. |
| Encoder.AppendPlayers | aof-file-parser.js:86-103 | After the loop, the buffer is the old buffer followed by every player record in roster order. |
| Encoder.WriteFragment | aof-file-parser.js:113-118 | The 2-byte id, the signed 4-byte length and the payload are written at the cursor, which ends right after them; the bytes before and after are unchanged. |
| Encoder.WriteSlot | aof-file-parser.js:110-119 | A hole writes nothing; a fragment is written as above. |
| Encoder.WriteSlots | aof-file-parser.js:110-119 | The `forEach` writes the populated slots in index order from the cursor, and nothing else changes. |
| Encoder.WriteSection | aof-file-parser.js:108-132 | A section is the 2-byte populated count followed by the slots; the bytes after it are unchanged. |
| Encoder.WriteReplay | aof-file-parser.js:56-132 | The final buffer is exactly the header, the roster count, the roster and the two sections, so the cursor ends at the buffer's end. |
| Encoder.Save | aof-file-parser.js:5-132 | The method's result is `SaveOf`: the rejection, or the bytes and warnings. |
| Bytes.U16RoundTrip | aof-file-parser.js:109 | A 16-bit value written big-endian reads back as itself. |
| Bytes.U32RoundTrip | aof-file-parser.js:72-73 | A 32-bit value written big-endian reads back as itself. |
| Bytes.I32RoundTrip | aof-file-parser.js:92 | A signed 32-bit value written big-endian reads back as itself. |
| Bytes.U16Reencode | aof-file-parser.js:217 | Any two bytes are what `writeUInt16BE` stores for the value `readUInt16BE` reads from them. |
| Bytes.U32Reencode | aof-file-parser.js:175-176 | Any four bytes are what `writeUInt32BE` stores for the value `readUInt32BE` reads from them. |
| Bytes.I32Reencode | aof-file-parser.js:228 | Any four bytes are what `writeInt32BE` stores for the value `readInt32BE` reads from them. |
| Bytes.Write | aof-file-parser.js:65-81 | A `buff.write…` stores its bytes at the offset and leaves every other byte as it was. |
| Bytes.Concat | aof-file-parser.js:102 | `Buffer.concat` yields a fresh buffer holding the first buffer's bytes, then the second's. |
| Replay.StoreSlots | aof-file-parser.js:232 | After `array[id] = f`, slot `id` holds `f`, a later fragment with the same id replaces an earlier one, other slots are kept, and new slots are holes. |
| Replay.StoreKeepsWellStored | aof-file-parser.js:232 | Storing keeps every fragment at the index of its id and the last slot populated. |
| Replay.OnlyFirstHole | aof-file-parser.js:53 | With slot 0 a hole, one fewer than the length is populated exactly when all other slots are. |
| Decoder.ReadHeader | aof-file-parser.js:158-190 | An empty file is truncated, a revision below 8 is the old format and revision 9 is corrupted, with no further byte read. A header that is read has a readable revision equal to the first byte and ends after 13 (revision 8) or 17 bytes plus the key. |
| Decoder.ReadPlayer | aof-file-parser.js:196-207 | A player record read ends 20 + name-length bytes on; the only failure is truncation. |
| Decoder.ReadPlayers | aof-file-parser.js:194-210 | The loop appends exactly `num` players to those already read, in file order. |
| Decoder.ReadCount | aof-file-parser.js:214-218 | The count is one byte below revision 11 and two bytes from 11 on; it fails exactly when the file is too short. |
| Decoder.ReadFragment | aof-file-parser.js:219-230 | A fragment read ends after its id field, 4 length bytes and the payload. In revision 11 its id is position + 1. It fails by truncation or a negative length. |
| Decoder.ReadFragments | aof-file-parser.js:219-233 | The loop's array is empty exactly when it started empty and read nothing, and the cursor only advances. |
| Decoder.ReadFragmentsWellStored | aof-file-parser.js:219-233 | Every array the loop builds holds each fragment at its id's index, with the last slot populated. |
| Decoder.ReadSection | aof-file-parser.js:212-233 | A section read is empty exactly when its count is 0. |
| Decoder.ReadFront | aof-file-parser.js:158-210 | The header's errors pass through unchanged; otherwise the header read is `ReadHeader`'s. |
| Decoder.DecodeSections | aof-file-parser.js:212-270 | A load that succeeds has both collections non-empty; failures are truncation, a negative length, "No keyframes" or "No chunks". |
| Decoder.DecodeChunks | aof-file-parser.js:241-270 | The chunk section keeps the keyframes read before it and fails with "No chunks" when it is empty. |
| Decoder.Decode | aof-file-parser.js:156-272 | The revision checks come first. A loaded record's revision is the file's first byte and is readable, and both collections are non-empty. |
| Decoder.LoadedShape | aof-file-parser.js:261-270 | Both loaded arrays hold each fragment at its id's index. `endGameChunkId` is the last index of the chunk array and the largest chunk id read. |
| Decoder.EmptySections | aof-file-parser.js:235-239 | `load` fails with "No keyframes" exactly when the keyframe count read is 0. It fails with "No chunks" exactly when keyframes were read and the chunk count read is 0. |
| Decoder.LoadHeader | aof-file-parser.js:156-190 | The cursor method reads the header as `ReadHeader` specifies. |
| Decoder.LoadPlayer | aof-file-parser.js:196-209 | The cursor method reads one player as `ReadPlayer` specifies. |
| Decoder.LoadPlayers | aof-file-parser.js:193-210 | The player loop pushes players as `ReadPlayers` specifies. |
| Decoder.LoadFragment | aof-file-parser.js:219-230 | The cursor method reads one fragment as `ReadFragment` specifies. |
| Decoder.LoadSection | aof-file-parser.js:212-233 | The count and the fragment loop store fragments by id as `ReadSection` specifies. |
| Decoder.Load | aof-file-parser.js:156-272 | The method's result is `Decode`. |
| Layout.HeaderLayout | aof-file-parser.js:64-81 | The header is 13 bytes plus the key in revision 8, and 17 plus the key otherwise. |
| Layout.PlayerLayout | aof-file-parser.js:89-100 | A player record is 20 bytes plus the name. |
| Layout.PlayersLayoutLength | aof-file-parser.js:86-103 | The roster takes the sum of 20 + name length over its players. |
| Layout.SlotsLayoutLength | aof-file-parser.js:106 | The fragments of a section take 6 bytes each plus their payload. |
| Layout.FileFlat | aof-file-parser.js:56-132 | A file is header, roster count, roster, keyframe section and chunk section, one behind the other. |
| RoundTrip.ReadHeaderLayout | aof-file-parser.js:159-190 | For every readable revision, the header layout reads back as the same header. |
| RoundTrip.ReadPlayerLayout | aof-file-parser.js:198-207 | A player record reads back as the same player. |
| RoundTrip.ReadPlayersBack | aof-file-parser.js:194-210 | Player records laid out one behind the other read back as the same players, in order. |
| RoundTrip.ReadCountLayout | aof-file-parser.js:214-218 | A count written in its revision's width reads back as itself. |
| RoundTrip.ReadFragmentLayout | aof-file-parser.js:219-230 | For every revision, a fragment reads back as itself; in revision 11 this needs its id to be position + 1. |
| RoundTrip.ReadSlotsBack | aof-file-parser.js:219-233 | The fragment loop over laid-out slots stores each fragment read, in slot order. |
| RoundTrip.ReadSectionLayout | aof-file-parser.js:212-233 | A well-stored section written by `save` reads back as the same array. |
| RoundTrip.ReadFrontLayout | aof-file-parser.js:158-210 | Header, roster count and roster read back as themselves. |
| RoundTrip.StoreAllEmpty | aof-file-parser.js:232 | Storing the fragments of a run of slots leaves the array empty exactly when it started empty and the run holds no fragment. |
| RoundTrip.StoreAllWellStored | aof-file-parser.js:232 | Storing, in order, the fragments of a well-stored array into an empty one rebuilds that array. |
| RoundTrip.ReadSectionFound | aof-file-parser.js:212-233 | A revision-12 section found in the bytes reads back as the array that storing its fragments by id, in order, builds. |
| RoundTrip.KeyframesRead | aof-file-parser.js:212-239 | An empty keyframe array read fails with "No keyframes"; otherwise `load` goes on to the chunk section. |
| RoundTrip.ChunksDecoded | aof-file-parser.js:241-270 | An empty chunk array read fails with "No chunks"; otherwise `load` returns both arrays, with `endGameChunkId` the last chunk index. |
| RoundTrip.SectionsDecoded | aof-file-parser.js:212-270 | Two sections found one behind the other load as the arrays their fragments build, or fail for lack of keyframes, then of chunks. |
| RoundTrip.BytesDecoded | aof-file-parser.js:156-270 | A revision-12 header, roster and two sections found in the bytes load as themselves, with the two arrays rebuilt by id. |
| RoundTrip.FileDecoded | aof-file-parser.js:156-270 | A revision-12 file of these parts fails for lack of keyframes, then of chunks, when a rebuilt array is empty; otherwise it loads as the header, the roster and the rebuilt arrays. |
| RoundTrip.EncodedLaidOut | aof-file-parser.js:56-132 | What `save` writes is the parts of a revision-12 file, one behind the other. |
| RoundTrip.LoadOfSaved | aof-file-parser.js:5-272 | For every record `save` accepts: a collection of holes alone is written with count 0 and `load` rejects it, keyframes first. Otherwise every field comes back as saved, and each collection comes back as the array that storing its fragments by id builds. |
| RoundTrip.LoadAfterSave | aof-file-parser.js:5-272 | `load` after `save` gives back every field as saved: region, game id, version, key, chunk ids, players in order, both collections. Revision 12 and the computed completeness flag come back too. |

## Left out

- File I/O is not modelled: `fs.writeFile`, `fs.readFileSync`, the `.aof` suffix and the callbacks (lines 134-154 and 272). `Save` returns the bytes it would write, and `Load` takes the file's bytes. The write-error path, which reports the warnings with the error, is therefore absent.
- Base64 decoding of the key and UTF-8 encoding of player names are Node library calls. Key and names are byte strings whose length is written in one byte.
- The version is three bytes. The string split and number coercion in `save` (lines 68, 74-76) are not modelled, nor is the dotted string `load` rebuilds (lines 181-183).
- The game id is split and rebuilt with exact natural-number division below 2^64. The source uses JavaScript doubles (lines 61-62, 177), which lose precision above 2^53.
- `save` itself checks no field's range. Node's `writeUInt8`, `writeUInt16BE`, `writeUInt32BE` and `writeInt32BE` throw on a value outside their width, and the string `buff.write` calls (lines 78, 94) truncate silently. The model excludes such values by precondition (`Encoder.InRange`, required only where the checks pass), so neither the throw nor the truncation is modelled.
- A read past the end of the file, which throws in Node, is the error `Truncated`. A negative fragment length, where `new Buffer(len)` throws, is `NegativeLength`. When a payload runs past the end, `buff.copy` would copy short without an error; the model reports `Truncated` instead.
- Absent mandatory numbers are 0 and an absent key is empty: the source tests truthiness, so both fail alike. Absent keyframe or chunk arrays are empty sequences.
- The error texts are the `Validation.Message` constants that `CheckFields` returns. `SaveError` carries the field the text names (`Validation.MessageNames`). A JavaScript `Error` object is not modelled.
- `save` writes `game.players = []` back into the caller's record when the roster is absent (line 22). The model computes `Roster(g)` and leaves the record unchanged, so the caller never sees that change.
- RoundTrip.LoadAfterSave: gives back the collections unchanged only when they are well-stored (each fragment at the index of its id, last slot populated), which is what an array filled by `array[id] = fragment` looks like. `RoundTrip.LoadOfSaved` covers every other array. One holding only holes is written with count 0, and `load` rejects it with "No keyframes" or "No chunks". Any other comes back as the array that storing its fragments by id builds, which can differ from the one saved.
- Bytes after the chunk section are ignored by `load`, as in the source, and no lemma is stated about them.
