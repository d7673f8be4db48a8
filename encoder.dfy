/**
 * `save`: validation, then the revision-12 byte stream written into a buffer
 * with a moving cursor. The file write that follows in the source is I/O and
 * is not part of this model: `Save` returns the bytes it would write.
 */
module Encoder {
  import opened Bytes
  import opened Replay
  import opened Validation
  import opened Layout

  datatype SaveResult =
    | Saved(bytes: seq<Byte>, warnings: seq<string>)
    | Rejected(error: SaveError)

  predicate SlotsInRange(s: Slots)
  {
    SlotsFit(s) && IsU16(Populated(s))
  }

  /**
   * The ranges the `Buffer.write…` calls of `save` accept; the source checks
   * none of them, so they are what its callers must ensure.
   */
  predicate InRange(g: Game)
  {
    && g.regionId < 256
    && g.gameId < TWO_64
    && |g.key| < 256
    && g.endStartupChunkId < 256
    && g.startGameChunkId < 256
    && |Roster(g)| < 256
    && PlayersInRange(Roster(g))
    && SlotsInRange(g.keyframes)
    && SlotsInRange(g.chunks)
  }

  /** 1 when each collection has exactly one slot fewer populated than its length. */
  function CompleteFlag(g: Game): Byte
  {
    if Populated(g.keyframes) == |g.keyframes| - 1 && Populated(g.chunks) == |g.chunks| - 1 then 1 else 0
  }

  function EncodedHeader(g: Game): (h: Header)
    requires InRange(g) && g.riotVersion.Some?
    ensures HeaderInRange(h)
  {
    Header(REVISION, g.regionId, g.gameId, g.riotVersion.value, g.key,
           CompleteFlag(g), g.endStartupChunkId, g.startGameChunkId)
  }

  /** The revision-12 stream: header, roster, keyframe section, chunk section. */
  function Encode(g: Game): seq<Byte>
    requires InRange(g) && g.riotVersion.Some?
  {
    Cat(Layouts(FileParts(EncodedHeader(g), Roster(g), g.keyframes, g.chunks)))
  }

  /**
   * The completeness flag when neither collection holds id 0 (slot 0 a hole):
   * it is 1 exactly when every id from 1 to the last one is there, in both.
   */
  lemma {:induction false} CompleteFlagIds(g: Game)
    requires g.keyframes != [] && g.keyframes[0].None?
    requires g.chunks != [] && g.chunks[0].None?
    ensures CompleteFlag(g) == 1 <==>
              && (forall j :: 1 <= j < |g.keyframes| ==> g.keyframes[j].Some?)
              && (forall j :: 1 <= j < |g.chunks| ==> g.chunks[j].Some?)
    ensures CompleteFlag(g) in {0, 1}
  {
    OnlyFirstHole(g.keyframes);
    OnlyFirstHole(g.chunks);
  }

  /**
   * The stream starts with the revision byte 12, and its length is the sum of
   * the sizes `save` allocates: 18 + key length for the header and roster
   * count, 20 + name length per player, 4 for the two section counts, and
   * 6 + payload length per fragment.
   */
  lemma {:induction false} EncodedShape(g: Game)
    requires InRange(g) && g.riotVersion.Some?
    ensures |Encode(g)| > 0 && Encode(g)[0] == REVISION
    ensures |Encode(g)| == 18 + |g.key| + RosterSize(Roster(g)) + 4
                           + PayloadSize(g.keyframes) + PayloadSize(g.chunks)
                           + 6 * (Populated(g.keyframes) + Populated(g.chunks))
  {
    var h := EncodedHeader(g);
    FileFlat(h, Roster(g), g.keyframes, g.chunks);
    PlayersLayoutLength(Roster(g));
    SlotsLayoutLength(g.keyframes);
    SlotsLayoutLength(g.chunks);
    assert Encode(g)[0] == HeaderLayout(h)[0];
  }

  /** What `save` produces: an error, or the bytes it writes and its warnings. */
  function SaveOf(g: Game): SaveResult
    requires Validate(g).None? ==> InRange(g)
  {
    match Validate(g)
    case Some(e) => Rejected(e)
    case None => assert !Missing(g, RiotVersion); Saved(Encode(g), Warnings(g))
  }

  /**
   * The outcome of `save`: a missing mandatory field rejects the record with
   * the last missing one named, before the collections are looked at; then
   * an empty keyframe collection, then an empty chunk collection. Otherwise
   * the record is saved, with the "No players" warning exactly when the
   * roster is present and empty, and the bytes begin with revision 12.
   */
  lemma {:induction false} SaveOutcome(g: Game)
    requires Validate(g).None? ==> InRange(g)
    ensures (exists f :: Missing(g, f)) ==> SaveOf(g) == Rejected(MissingField(LastMissing(g).value))
    ensures (forall f :: !Missing(g, f)) && g.keyframes == [] ==> SaveOf(g) == Rejected(NoKeyframes)
    ensures (forall f :: !Missing(g, f)) && g.keyframes != [] && g.chunks == [] ==>
              SaveOf(g) == Rejected(NoChunks)
    ensures SaveOf(g).Saved? <==> (forall f :: !Missing(g, f)) && g.keyframes != [] && g.chunks != []
    ensures SaveOf(g).Saved? ==>
              && SaveOf(g).warnings == (if g.players == Some([]) then ["No players"] else [])
              && |SaveOf(g).bytes| > 0 && SaveOf(g).bytes[0] == REVISION
  {
    if SaveOf(g).Saved? {
      EncodedShape(g);
    }
  }

  /**
   * The `forEach` of `save` over one collection: the payload bytes and the
   * number of populated slots.
   */
  method Tally(s: Slots) returns (dataLength: nat, total: nat)
    ensures dataLength == PayloadSize(s)
    ensures total == Populated(s)
  {
    dataLength, total := 0, 0;
    for i := 0 to |s|
      invariant dataLength == PayloadSize(s[..i])
      invariant total == Populated(s[..i])
    {
      assert s[..i + 1] == s[..i] + [s[i]];
      PayloadSizeAppend(s[..i], [s[i]]);
      PopulatedAppend(s[..i], [s[i]]);
      if s[i].Some? {
        dataLength := dataLength + |s[i].value.data|;
        total := total + 1;
      }
    }
    assert s[..|s|] == s;
  }

  /** One fragment written at cursor `c0`: id, signed length, payload. */
  method WriteFragment(buff: array<Byte>, c0: nat, f: Fragment) returns (c: nat)
    requires FragmentFits(REVISION, f) && c0 + 6 + |f.data| <= buff.Length
    modifies buff
    ensures c == c0 + 6 + |f.data|
    ensures buff[..c] == old(buff[..c0]) + FragmentLayout(REVISION, f, 0)
    ensures buff[c..] == old(buff[c..])
  {
    c := c0;
    Write(buff, c, U16BE(f.id));            c := c + 2;
    Write(buff, c, I32BE(|f.data|));        c := c + 4;
    Write(buff, c, f.data);                 c := c + |f.data|;
  }

  /** One visit of the `forEach`: a populated slot is written, a hole is skipped. */
  method WriteSlot(buff: array<Byte>, c0: nat, o: Option<Fragment>) returns (c: nat)
    requires o.Some? ==> FragmentFits(REVISION, o.value)
    requires c0 + |SlotLayout(o)| <= buff.Length
    modifies buff
    ensures c == c0 + |SlotLayout(o)|
    ensures buff[..c] == old(buff[..c0]) + SlotLayout(o)
    ensures buff[c..] == old(buff[c..])
  {
    c := c0;
    if o.Some? {
      c := WriteFragment(buff, c, o.value);
    }
  }

  /**
   * The keyframe or chunk loop of `save`: the slots are visited in index order
   * from the cursor on. Returns the cursor after the last fragment.
   */
  method WriteSlots(buff: array<Byte>, c0: nat, s: Slots) returns (c: nat)
    requires SlotsFit(s) && c0 + |SlotsLayout(s)| <= buff.Length
    modifies buff
    ensures c == c0 + |SlotsLayout(s)|
    ensures buff[..c] == old(buff[..c0]) + SlotsLayout(s)
    ensures buff[c..] == old(buff[c..])
  {
    c := c0;
    ghost var orig := buff[..];
    for i := 0 to |s|
      invariant c == c0 + |SlotsLayout(s[..i])| && c <= buff.Length
      invariant buff[..c] == orig[..c0] + SlotsLayout(s[..i])
      invariant buff[c..] == orig[c..]
    {
      SlotsLayoutStep(s, i, orig[..c0]);
      ghost var prev, at := buff[..], c;
      c := WriteSlot(buff, c, s[i]);
      SuffixAgrees(prev, orig, at, c);
    }
    assert s[..|s|] == s;
  }

  /** One section of `save`: the populated count, then the slot loop. */
  method WriteSection(buff: array<Byte>, c0: nat, s: Slots, total: nat) returns (c: nat)
    requires SlotsInRange(s) && total == Populated(s)
    requires c0 + |SectionLayout(s)| <= buff.Length
    modifies buff
    ensures c == c0 + |SectionLayout(s)|
    ensures buff[..c] == old(buff[..c0]) + SectionLayout(s)
    ensures buff[c..] == old(buff[c..])
  {
    ghost var orig := buff[..];
    Write(buff, c0, U16BE(total));
    ghost var mid := buff[..];
    c := WriteSlots(buff, c0 + 2, s);
    WrittenInTurn(orig, mid, buff[..], c0, U16BE(total), SlotsLayout(s));
  }

  /** One player record, written into its own buffer as `save` does. */
  method PlayerBuffer(p: Player) returns (tempBuff: array<Byte>)
    requires PlayerInRange(p)
    ensures fresh(tempBuff) && tempBuff[..] == PlayerLayout(p)
  {
    var len := |p.name|;
    tempBuff := new Byte[20 + len];
    var d := 0;
    Write(tempBuff, d, I32BE(p.id));          d := d + 4;
    Write(tempBuff, d, [len]);                d := d + 1;
    Write(tempBuff, d, p.name);               d := d + len;
    assert tempBuff[..d] == I32BE(p.id) + [len] + p.name;
    Write(tempBuff, d, [p.teamNr]);           d := d + 1;
    Write(tempBuff, d, [p.leagueId]);         d := d + 1;
    Write(tempBuff, d, [p.leagueRank]);       d := d + 1;
    assert tempBuff[..d] == I32BE(p.id) + [len] + p.name + [p.teamNr, p.leagueId, p.leagueRank];
    Write(tempBuff, d, I32BE(p.championId));  d := d + 4;
    Write(tempBuff, d, I32BE(p.spell1Id));    d := d + 4;
    Write(tempBuff, d, I32BE(p.spell2Id));    d := d + 4;
    assert tempBuff[..d] == PlayerLayout(p);
    assert tempBuff[..] == tempBuff[..d];
  }

  /** The player loop of `save`: each record is appended with `Buffer.concat`. */
  method AppendPlayers(buff0: array<Byte>, players: seq<Player>) returns (buff: array<Byte>)
    requires PlayersInRange(players)
    ensures fresh(buff) || buff == buff0
    ensures buff[..] == old(buff0[..]) + PlayersLayout(players)
  {
    buff := buff0;
    ghost var init := buff0[..];
    for i := 0 to |players|
      invariant fresh(buff) || buff == buff0
      invariant buff[..] == init + PlayersLayout(players[..i])
    {
      var tempBuff := PlayerBuffer(players[i]);
      PlayersLayoutStep(players, i, init);
      buff := Concat(buff, tempBuff);
    }
    assert players[..|players|] == players;
  }

  /**
   * The first header writes of `save`: revision, region, and the game id split
   * into a high and a low 32-bit half.
   */
  method WriteGameInfo(buff: array<Byte>, h: Header)
    requires HeaderInRange(h) && 10 <= buff.Length
    modifies buff
    ensures buff[..10] == [h.fileVersion, h.regionId] + U32BE(h.gameId / TWO_32) + U32BE(h.gameId % TWO_32)
    ensures buff[10..] == old(buff[10..])
  {
    var c := 0;
    var high := h.gameId / TWO_32;
    var low := h.gameId - high * TWO_32;
    Write(buff, c, [h.fileVersion]);               c := c + 1;
    Write(buff, c, [h.regionId]);                  c := c + 1;
    Write(buff, c, U32BE(high));                   c := c + 4;
    Write(buff, c, U32BE(low));                    c := c + 4;
  }

  /** The three version components and the key length, from offset 10. */
  method WriteVersion(buff: array<Byte>, h: Header)
    requires |h.key| < 256 && 14 <= buff.Length
    modifies buff
    ensures buff[..14] == old(buff[..10])
                          + [h.riotVersion.major, h.riotVersion.minor, h.riotVersion.patch, |h.key|]
    ensures buff[14..] == old(buff[14..])
  {
    var c := 10;
    Write(buff, c, [h.riotVersion.major]);         c := c + 1;
    Write(buff, c, [h.riotVersion.minor]);         c := c + 1;
    Write(buff, c, [h.riotVersion.patch]);         c := c + 1;
    Write(buff, c, [|h.key|]);                     c := c + 1;
  }

  /**
   * The header writes of `save`, from the revision byte to the roster size,
   * filling the buffer of 18 + key length bytes.
   */
  method WriteHeader(buff: array<Byte>, h: Header, count: Byte)
    requires h.fileVersion == REVISION && HeaderInRange(h)
    requires buff.Length == 18 + |h.key|
    modifies buff
    ensures buff[..] == HeaderLayout(h) + [count]
  {
    WriteGameInfo(buff, h);
    WriteVersion(buff, h);
    ghost var front := buff[..14];
    var c := 14;
    Write(buff, c, h.key);                         c := c + |h.key|;
    assert buff[..c] == front + h.key;
    Write(buff, c, [h.complete]);                  c := c + 1;
    Write(buff, c, [h.endStartupChunkId]);         c := c + 1;
    Write(buff, c, [h.startGameChunkId]);          c := c + 1;
    assert buff[..c] == front + h.key + [h.complete, h.endStartupChunkId, h.startGameChunkId];
    Write(buff, c, [count]);                       c := c + 1;
    assert buff[..] == buff[..c];
  }

  /**
   * The writes of `save` once the checks have passed and the collections have
   * been counted: the header into a buffer of 18 + key length bytes, one
   * concatenated buffer per player, then one extension of
   * 4 + payload bytes + 6 per fragment holding both fragment sections.
   */
  method WriteReplay(h: Header, players: seq<Player>, keyframes: Slots, chunks: Slots,
                     dataLength: nat, totalKeyframes: nat, totalChunks: nat)
    returns (buff: array<Byte>)
    requires h.fileVersion == REVISION && HeaderInRange(h)
    requires |players| < 256 && PlayersInRange(players)
    requires SlotsInRange(keyframes) && SlotsInRange(chunks)
    requires dataLength == PayloadSize(keyframes) + PayloadSize(chunks)
    requires totalKeyframes == Populated(keyframes) && totalChunks == Populated(chunks)
    ensures fresh(buff)
    ensures buff[..] == HeaderLayout(h) + [|players|] + PlayersLayout(players)
                        + SectionLayout(keyframes) + SectionLayout(chunks)
  {
    buff := new Byte[18 + |h.key|];
    WriteHeader(buff, h, |players|);

    buff := AppendPlayers(buff, players);
    PlayersLayoutLength(players);
    SlotsLayoutLength(keyframes);
    SlotsLayoutLength(chunks);
    ghost var front := buff[..];
    var c := buff.Length;

    var tail := new Byte[4 + dataLength + (totalKeyframes + totalChunks) * 6];
    buff := Concat(buff, tail);
    assert buff[..c] == front;
    c := WriteSection(buff, c, keyframes, totalKeyframes);
    c := WriteSection(buff, c, chunks, totalChunks);
    assert buff[..c] == front + SectionLayout(keyframes) + SectionLayout(chunks);
    assert c == buff.Length;
    assert buff[..] == buff[..c];
  }

  /**
   * `save` up to the file write: the field checks, the roster normalisation,
   * the collection checks, the counting loops and the completeness flag, then
   * the writes.
   */
  method Save(g: Game) returns (r: SaveResult)
    requires Validate(g).None? ==> InRange(g)
    ensures r == SaveOf(g)
  {
    var error := CheckFields(g);
    if error != "" {
      return Rejected(MissingField(LastMissing(g).value));
    }
    var warnings: seq<string> := [];
    if g.players.Some? && |g.players.value| == 0 {
      warnings := warnings + ["No players"];
    }
    var players := Roster(g);
    if |g.keyframes| == 0 {
      return Rejected(NoKeyframes);
    }
    if |g.chunks| == 0 {
      return Rejected(NoChunks);
    }
    assert Validate(g).None? && !Missing(g, RiotVersion);

    var keyframeBytes, totalKeyframes := Tally(g.keyframes);
    var chunkBytes, totalChunks := Tally(g.chunks);
    var complete: Byte :=
      if totalKeyframes == |g.keyframes| - 1 && totalChunks == |g.chunks| - 1 then 1 else 0;

    var h := Header(REVISION, g.regionId, g.gameId, g.riotVersion.value, g.key,
                    complete, g.endStartupChunkId, g.startGameChunkId);
    assert h == EncodedHeader(g);
    var buff := WriteReplay(h, players, g.keyframes, g.chunks,
                            keyframeBytes + chunkBytes, totalKeyframes, totalChunks);
    FileFlat(h, players, g.keyframes, g.chunks);
    assert buff[..] == Encode(g);
    r := Saved(buff[..], warnings);
  }
}
