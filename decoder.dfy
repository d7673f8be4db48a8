/**
 * `load`: the revision byte decides which layout the rest of the file has.
 * Revisions below 8 and revision 9 are refused; revision 8 has a 32-bit game
 * id; counts and ids are one byte below revision 11; revision 11 skips a
 * placeholder byte per fragment and numbers the fragments 1, 2, ...; from
 * revision 12 on ids are two bytes. Every fragment is stored at its id.
 *
 * The file is the byte sequence `b`. Node's `Buffer` throws when a read runs
 * past the end; here that is the error `Truncated`, checked once for each run
 * of fixed-width reads.
 */
module Decoder {
  import opened Bytes
  import opened Replay
  import opened Layout

  datatype LoadError =
    | OldFormat        // revision below 8
    | CorruptedFormat  // revision 9
    | Truncated        // a read past the end of the file
    | NegativeLength   // a fragment length below zero: `new Buffer(len)` throws
    | NoKeyframes
    | NoChunks

  datatype LoadResult =
    | Loaded(meta: Metadata, data: ReplayData)
    | Failed(error: LoadError)

  /**
   * The header: revision, region, game id, version, key, completeness flag,
   * the two chunk ids. Returns the header and the position after it.
   */
  function ReadHeader(b: seq<Byte>): (r: Result<(Header, nat), LoadError>)
    ensures |b| == 0 ==> r == Err(Truncated)
    ensures |b| > 0 && b[0] < 8 ==> r == Err(OldFormat)
    ensures |b| > 0 && b[0] == 9 ==> r == Err(CorruptedFormat)
    ensures r.Ok? ==> var (h, c) := r.value;
      && |b| > 0 && h.fileVersion == b[0] && Readable(h.fileVersion)
      && c == (if h.fileVersion == 8 then 13 else 17) + |h.key| <= |b|
      && HeaderInRange(h)
    ensures r.Err? ==> r.error in {Truncated, OldFormat, CorruptedFormat}
  {
    if |b| < 1 then Err(Truncated)
    else if b[0] < 8 then Err(OldFormat)
    else if b[0] == 9 then Err(CorruptedFormat)
    else
      var rev := b[0];
      var v: nat := if rev == 8 then 6 else 10;
      if |b| < v + 4 then Err(Truncated)
      else
        var gameId :=
          if rev == 8 then U32At(b, 2)
          else U32At(b, 2) * TWO_32 + U32At(b, 6);
        var k := v + 4 + b[v + 3];
        if |b| < k + 3 then Err(Truncated)
        else
          Ok((Header(rev, b[1], gameId, Version(b[v], b[v + 1], b[v + 2]), Slice(b, v + 4, b[v + 3]),
                     b[k], b[k + 1], b[k + 2]),
              k + 3))
  }

  /** One player record at `c`, and the position after it. */
  function ReadPlayer(b: seq<Byte>, c: nat): (r: Result<(Player, nat), LoadError>)
    ensures r.Ok? ==> PlayerInRange(r.value.0) && r.value.1 == c + 20 + |r.value.0.name| <= |b|
    ensures r.Err? ==> r.error == Truncated
  {
    if |b| < c + 5 then Err(Truncated)
    else
      var n := c + 5 + b[c + 4];
      if |b| < n + 15 then Err(Truncated)
      else
        Ok((Player(I32At(b, c), Slice(b, c + 5, b[c + 4]), b[n], b[n + 1], b[n + 2],
                   I32At(b, n + 3), I32At(b, n + 7), I32At(b, n + 11)),
            n + 15))
  }

  /**
   * The player loop from its `i`-th pass on: `acc` holds the players read so
   * far, and each further record is pushed behind them.
   */
  function ReadPlayers(b: seq<Byte>, c: nat, i: nat, n: nat, acc: seq<Player>)
    : (r: Result<(seq<Player>, nat), LoadError>)
    requires c <= |b|
    decreases n - i
    ensures r.Ok? && PlayersInRange(acc) ==>
      && PlayersInRange(r.value.0)
      && |r.value.0| == |acc| + (if i < n then n - i else 0)
      && r.value.0[..|acc|] == acc
      && c <= r.value.1 <= |b|
    ensures r.Err? ==> r.error == Truncated
  {
    if n <= i then Ok((acc, c))
    else
      match ReadPlayer(b, c)
      case Err(e) => Err(e)
      case Ok((p, c')) => ReadPlayers(b, c', i + 1, n, acc + [p])
  }

  /**
   * One pass of the player loop: when the record at `c` reads as `p` ending
   * at `c'`, the loop ends as the rest of it does with `p` pushed.
   */
  lemma {:induction false} ReadPlayersStep(b: seq<Byte>, c: nat, i: nat, n: nat, acc: seq<Player>,
                        p: Player, c': nat, acc': seq<Player>, r: Result<(seq<Player>, nat), LoadError>)
    requires c <= |b| && i < n && ReadPlayer(b, c) == Ok((p, c'))
    requires acc' == acc + [p]
    requires c' <= |b| && ReadPlayers(b, c', i + 1, n, acc') == r
    ensures ReadPlayers(b, c, i, n, acc) == r
  {
  }

  /** A fragment count at `c`: one byte below revision 11, two bytes from 11 on. */
  function ReadCount(b: seq<Byte>, rev: Byte, c: nat): (r: Result<(nat, nat), LoadError>)
    ensures r.Ok? ==> r.value.1 == c + CountWidth(rev) <= |b|
    ensures r.Ok? <==> c + CountWidth(rev) <= |b|
  {
    if rev < 11 then
      if |b| < c + 1 then Err(Truncated) else Ok((b[c] as nat, c + 1))
    else
      if |b| < c + 2 then Err(Truncated) else Ok((U16At(b, c), c + 2))
  }

  /**
   * The `i`-th fragment of a section at `c`: the id field (below revision 11
   * one byte, in revision 11 a skipped byte and the id `i + 1`, from revision
   * 12 two bytes), a signed 32-bit length, and that many bytes of payload.
   */
  function ReadFragment(b: seq<Byte>, rev: Byte, c: nat, i: nat): (r: Result<(Fragment, nat), LoadError>)
    ensures r.Ok? ==> r.value.1 == c + IdWidth(rev) + 4 + |r.value.0.data| <= |b|
    ensures r.Ok? && rev == 11 ==> r.value.0.id == i + 1
    ensures r.Ok? ==> FragmentFits(rev, r.value.0) || rev == 11
    ensures r.Err? ==> r.error in {Truncated, NegativeLength}
  {
    var w := IdWidth(rev);
    if |b| < c + w + 4 then Err(Truncated)
    else
      var id: nat :=
        if rev < 11 then b[c] as nat
        else if rev == 11 then i + 1
        else U16At(b, c);
      var len := I32At(b, c + w);
      if len < 0 then Err(NegativeLength)
      else
        var d := c + w + 4;
        if |b| < d + len then Err(Truncated)
        else Ok((Fragment(id, Slice(b, d, len)), d + len))
  }

  /**
   * The fragment loop from its `i`-th pass on: each fragment read is stored at
   * its id in `acc`, so a later fragment with the same id replaces an earlier
   * one.
   */
  function ReadFragments(b: seq<Byte>, rev: Byte, c: nat, i: nat, n: nat, acc: Slots)
    : (r: Result<(Slots, nat), LoadError>)
    requires c <= |b|
    decreases n - i
    ensures r.Ok? ==> c <= r.value.1 <= |b| && |acc| <= |r.value.0|
    ensures r.Ok? ==> (r.value.0 == [] <==> acc == [] && n <= i)
    ensures r.Err? ==> r.error in {Truncated, NegativeLength}
  {
    if n <= i then Ok((acc, c))
    else
      match ReadFragment(b, rev, c, i)
      case Err(e) => Err(e)
      case Ok((f, c')) =>
        ReadFragments(b, rev, c', i + 1, n, Store(acc, f))
  }

  /**
   * One pass of the fragment loop: when the `i`-th fragment reads as `f`
   * ending at `c'`, the loop ends as the rest of it does after storing `f`.
   */
  lemma {:induction false} ReadFragmentsStep(b: seq<Byte>, rev: Byte, c: nat, i: nat, n: nat, acc: Slots,
                          f: Fragment, c': nat, acc': Slots, r: Result<(Slots, nat), LoadError>)
    requires c <= |b| && i < n && ReadFragment(b, rev, c, i) == Ok((f, c'))
    requires acc' == Store(acc, f)
    requires c' <= |b| && ReadFragments(b, rev, c', i + 1, n, acc') == r
    ensures ReadFragments(b, rev, c, i, n, acc) == r
  {
  }

  /** A keyframe or chunk section: the count, then that many fragments. */
  function ReadSection(b: seq<Byte>, rev: Byte, c: nat): (r: Result<(Slots, nat), LoadError>)
    ensures r.Ok? ==> c <= r.value.1 <= |b|
    ensures r.Ok? ==> ReadCount(b, rev, c).Ok? && (r.value.0 == [] <==> ReadCount(b, rev, c).value.0 == 0)
    ensures r.Err? ==> r.error in {Truncated, NegativeLength}
  {
    match ReadCount(b, rev, c)
    case Err(e) => Err(e)
    case Ok((n, c')) => ReadFragments(b, rev, c', 0, n, [])
  }

  /**
   * The fragment loop keeps the array well stored: every fragment sits at the
   * index of its id, and the last slot holds one.
   */
  lemma {:induction false} ReadFragmentsWellStored(b: seq<Byte>, rev: Byte, c: nat, i: nat, n: nat, acc: Slots)
    requires c <= |b| && WellStored(acc) && ReadFragments(b, rev, c, i, n, acc).Ok?
    ensures WellStored(ReadFragments(b, rev, c, i, n, acc).value.0)
    decreases n - i
  {
    if i < n {
      var (f, c') := ReadFragment(b, rev, c, i).value;
      StoreKeepsWellStored(acc, f);
      ReadFragmentsWellStored(b, rev, c', i + 1, n, Store(acc, f));
    }
  }

  /** Every section that `load` reads is well stored. */
  lemma {:induction false} ReadSectionWellStored(b: seq<Byte>, rev: Byte, c: nat)
    requires ReadSection(b, rev, c).Ok?
    ensures WellStored(ReadSection(b, rev, c).value.0)
  {
    var (n, c') := ReadCount(b, rev, c).value;
    ReadFragmentsWellStored(b, rev, c', 0, n, []);
  }

  /** The last slot of a non-empty section that `load` reads holds a fragment. */
  lemma {:induction false} ReadSectionLast(b: seq<Byte>, rev: Byte, c: nat)
    requires ReadSection(b, rev, c).Ok? && ReadSection(b, rev, c).value.0 != []
    ensures var s := ReadSection(b, rev, c).value.0; s[|s| - 1].Some?
  {
    ReadSectionWellStored(b, rev, c);
  }

  /** Header and roster: the header, the players and the position after them. */
  function ReadFront(b: seq<Byte>): (r: Result<(Header, seq<Player>, nat), LoadError>)
    ensures ReadHeader(b).Err? ==> r == Err(ReadHeader(b).error)
    ensures r.Ok? ==> ReadHeader(b).Ok? && r.value.0 == ReadHeader(b).value.0 && r.value.2 <= |b|
    ensures r.Err? ==> r.error in {Truncated, OldFormat, CorruptedFormat}
  {
    match ReadHeader(b)
    case Err(e) => Err(e)
    case Ok((h, c)) =>
      if |b| < c + 1 then Err(Truncated)
      else
        match ReadPlayers(b, c + 1, 0, b[c], [])
        case Err(e) => Err(e)
        case Ok((ps, c')) => Ok((h, ps, c'))
  }

  /**
   * The two sections behind the roster at `c`, and the result of `load`.
   * `endGameChunkId` is the id of the fragment in the last slot of the chunk
   * array, which is the largest chunk id read.
   */
  function DecodeSections(b: seq<Byte>, h: Header, ps: seq<Player>, c: nat): (r: LoadResult)
    ensures r.Loaded? ==> r.meta.fileVersion == h.fileVersion
    ensures r.Loaded? ==> r.data.keyframes != [] && r.data.chunks != []
    ensures r.Failed? ==> r.error in {Truncated, NegativeLength, NoKeyframes, NoChunks}
  {
    match ReadSection(b, h.fileVersion, c)
    case Err(e) => Failed(e)
    case Ok((kf, c')) =>
      if kf == [] then Failed(NoKeyframes)
      else DecodeChunks(b, h, ps, kf, c')
  }

  /** The chunk section, read from `c` once the keyframes `kf` are in. */
  function DecodeChunks(b: seq<Byte>, h: Header, ps: seq<Player>, kf: Slots, c: nat): (r: LoadResult)
    ensures r.Loaded? ==> r.meta.fileVersion == h.fileVersion && r.data.keyframes == kf
    ensures r.Loaded? ==> r.data.chunks != []
    ensures r.Failed? ==> r.error in {Truncated, NegativeLength, NoChunks}
  {
    match ReadSection(b, h.fileVersion, c)
    case Err(e) => Failed(e)
    case Ok((ch, _)) =>
      if ch == [] then Failed(NoChunks)
      else
        ReadSectionLast(b, h.fileVersion, c);
        Loaded(Metadata(h.fileVersion, h.regionId, h.gameId, h.riotVersion, h.key, h.complete,
                        h.endStartupChunkId, h.startGameChunkId, ps, ch[|ch| - 1].value.id),
               ReplayData(kf, ch))
  }

  /** `load` on the file's bytes. Bytes after the chunk section are ignored. */
  function Decode(b: seq<Byte>): (r: LoadResult)
    ensures |b| == 0 ==> r == Failed(Truncated)
    ensures |b| > 0 && b[0] < 8 ==> r == Failed(OldFormat)
    ensures |b| > 0 && b[0] == 9 ==> r == Failed(CorruptedFormat)
    ensures r.Loaded? ==> |b| > 0 && r.meta.fileVersion == b[0] && Readable(b[0])
    ensures r.Loaded? ==> r.data.keyframes != [] && r.data.chunks != []
  {
    match ReadFront(b)
    case Err(e) => Failed(e)
    case Ok((h, ps, c)) => DecodeSections(b, h, ps, c)
  }

  /**
   * What `load` returns: both arrays are well stored, and `endGameChunkId`,
   * the id in the last chunk slot, is the last index of the chunk array and
   * the largest chunk id read.
   */
  lemma {:induction false} LoadedShape(b: seq<Byte>)
    requires Decode(b).Loaded?
    ensures WellStored(Decode(b).data.keyframes) && WellStored(Decode(b).data.chunks)
    ensures Decode(b).meta.endGameChunkId == |Decode(b).data.chunks| - 1
    ensures forall j :: 0 <= j < |Decode(b).data.chunks| && Decode(b).data.chunks[j].Some? ==>
              Decode(b).data.chunks[j].value.id <= Decode(b).meta.endGameChunkId
  {
    var (h, ps, c) := ReadFront(b).value;
    SectionsShape(b, h, ps, c);
  }

  lemma {:induction false} SectionsShape(b: seq<Byte>, h: Header, ps: seq<Player>, c: nat)
    requires DecodeSections(b, h, ps, c).Loaded?
    ensures var r := DecodeSections(b, h, ps, c);
            && WellStored(r.data.keyframes) && WellStored(r.data.chunks)
            && r.meta.endGameChunkId == |r.data.chunks| - 1
  {
    var (kf, c') := ReadSection(b, h.fileVersion, c).value;
    ReadSectionWellStored(b, h.fileVersion, c);
    ChunksShape(b, h, ps, kf, c');
  }

  lemma {:induction false} ChunksShape(b: seq<Byte>, h: Header, ps: seq<Player>, kf: Slots, c: nat)
    requires DecodeChunks(b, h, ps, kf, c).Loaded?
    ensures var r := DecodeChunks(b, h, ps, kf, c);
            WellStored(r.data.chunks) && r.meta.endGameChunkId == |r.data.chunks| - 1
  {
    ReadSectionWellStored(b, h.fileVersion, c);
  }

  /**
   * `load` fails for lack of keyframes exactly when the keyframe count it
   * reads is 0, and for lack of chunks exactly when the keyframes are there
   * and the chunk count it reads is 0.
   */
  lemma {:induction false} EmptySections(b: seq<Byte>)
    ensures Decode(b) == Failed(NoKeyframes) <==>
      && ReadFront(b).Ok?
      && var (h, _, c) := ReadFront(b).value;
         ReadCount(b, h.fileVersion, c).Ok? && ReadCount(b, h.fileVersion, c).value.0 == 0
    ensures Decode(b) == Failed(NoChunks) <==>
      && ReadFront(b).Ok?
      && var (h, _, c) := ReadFront(b).value;
         && ReadSection(b, h.fileVersion, c).Ok?
         && ReadSection(b, h.fileVersion, c).value.0 != []
         && var c' := ReadSection(b, h.fileVersion, c).value.1;
            ReadCount(b, h.fileVersion, c').Ok? && ReadCount(b, h.fileVersion, c').value.0 == 0
  {
    if ReadFront(b).Ok? {
      var (h, _, c) := ReadFront(b).value;
      var rev := h.fileVersion;
      if ReadCount(b, rev, c).Ok? && ReadCount(b, rev, c).value.0 == 0 {
        assert ReadSection(b, rev, c) == Ok(([], ReadCount(b, rev, c).value.1));
      }
      if ReadSection(b, rev, c).Ok? && ReadSection(b, rev, c).value.0 != [] {
        var c' := ReadSection(b, rev, c).value.1;
        if ReadCount(b, rev, c').Ok? && ReadCount(b, rev, c').value.0 == 0 {
          assert ReadSection(b, rev, c') == Ok(([], ReadCount(b, rev, c').value.1));
        }
      }
    }
  }

  /** The header reads of `load`, advancing the cursor as the source does. */
  method LoadHeader(b: seq<Byte>) returns (r: Result<(Header, nat), LoadError>)
    ensures r == ReadHeader(b)
  {
    var c: nat := 0;
    if |b| < 1 {
      return Err(Truncated);
    }
    var fileVersion := b[c];                                  c := c + 1;
    if fileVersion < 8 {
      return Err(OldFormat);
    } else if fileVersion == 9 {
      return Err(CorruptedFormat);
    }
    if |b| < (if fileVersion == 8 then 10 else 14) {
      return Err(Truncated);
    }
    var regionId := b[c];                                     c := c + 1;
    var gameId: nat;
    if fileVersion == 8 {
      gameId := U32At(b, c);                                  c := c + 4;
    } else {
      var high := U32At(b, c);                                c := c + 4;
      var low := U32At(b, c);                                 c := c + 4;
      gameId := high * TWO_32 + low;
    }
    var riotVersion := Version(b[c], b[c + 1], b[c + 2]);     c := c + 3;
    var len := b[c];                                          c := c + 1;
    if |b| < c + len + 3 {
      return Err(Truncated);
    }
    var key := Slice(b, c, len);                                 c := c + len;
    var complete := b[c];                                     c := c + 1;
    var endStartupChunkId := b[c];                            c := c + 1;
    var startGameChunkId := b[c];                             c := c + 1;
    r := Ok((Header(fileVersion, regionId, gameId, riotVersion, key, complete,
                    endStartupChunkId, startGameChunkId), c));
  }

  /** One pass of the player loop of `load`, up to the push. */
  method LoadPlayer(b: seq<Byte>, c0: nat) returns (r: Result<(Player, nat), LoadError>)
    ensures r == ReadPlayer(b, c0)
  {
    var c: nat := c0;
    if |b| < c + 5 {
      return Err(Truncated);
    }
    var id := I32At(b, c);                                    c := c + 4;
    var len := b[c];                                          c := c + 1;
    if |b| < c + len + 15 {
      return Err(Truncated);
    }
    var name := Slice(b, c, len);                                c := c + len;
    var teamNr := b[c];                                       c := c + 1;
    var leagueId := b[c];                                     c := c + 1;
    var leagueRank := b[c];                                   c := c + 1;
    var championId := I32At(b, c);                            c := c + 4;
    var spell1Id := I32At(b, c);                              c := c + 4;
    var spell2Id := I32At(b, c);                              c := c + 4;
    r := Ok((Player(id, name, teamNr, leagueId, leagueRank, championId, spell1Id, spell2Id), c));
  }

  /** The player loop of `load`: `num` records, each pushed onto the roster. */
  method LoadPlayers(b: seq<Byte>, c0: nat, num: nat) returns (r: Result<(seq<Player>, nat), LoadError>)
    requires c0 <= |b|
    ensures r == ReadPlayers(b, c0, 0, num, [])
  {
    var c: nat := c0;
    var players: seq<Player> := [];
    for i := 0 to num
      invariant c <= |b|
      invariant ReadPlayers(b, c0, 0, num, []) == ReadPlayers(b, c, i, num, players)
    {
      var record := LoadPlayer(b, c);
      if record.Err? {
        return Err(record.error);
      }
      var p;
      p, c := record.value.0, record.value.1;
      players := players + [p];
    }
    r := Ok((players, c));
  }

  /** One pass of the fragment loop of `load`, up to the array assignment. */
  method LoadFragment(b: seq<Byte>, rev: Byte, c0: nat, i: nat) returns (r: Result<(Fragment, nat), LoadError>)
    ensures r == ReadFragment(b, rev, c0, i)
  {
    var c: nat := c0;
    if |b| < c + IdWidth(rev) + 4 {
      return Err(Truncated);
    }
    var id: nat;
    if rev < 11 {
      id := b[c];                                             c := c + 1;
    } else if rev == 11 {
      id := i + 1;                                            c := c + 1;
    } else {
      id := U16At(b, c);                                      c := c + 2;
    }
    var len := I32At(b, c);                                   c := c + 4;
    if len < 0 {
      return Err(NegativeLength);
    }
    if |b| < c + len {
      return Err(Truncated);
    }
    var data := Slice(b, c, len);                                c := c + len;
    r := Ok((Fragment(id, data), c));
  }

  /**
   * A keyframe or chunk section as `load` reads it: the count, then a loop
   * that reads each fragment and assigns it to the array at its id.
   */
  method LoadSection(b: seq<Byte>, rev: Byte, c0: nat) returns (r: Result<(Slots, nat), LoadError>)
    ensures r == ReadSection(b, rev, c0)
  {
    var c: nat := c0;
    var num: nat;
    if rev < 11 {
      if |b| < c + 1 {
        return Err(Truncated);
      }
      num := b[c];                                            c := c + 1;
    } else {
      if |b| < c + 2 {
        return Err(Truncated);
      }
      num := U16At(b, c);                                     c := c + 2;
    }
    var arr: Slots := [];
    for i := 0 to num
      invariant c <= |b|
      invariant ReadSection(b, rev, c0) == ReadFragments(b, rev, c, i, num, arr)
    {
      var fragment := LoadFragment(b, rev, c, i);
      if fragment.Err? {
        return Err(fragment.error);
      }
      var f;
      f, c := fragment.value.0, fragment.value.1;
      arr := Store(arr, f);
    }
    r := Ok((arr, c));
  }

  /** `load`: header, roster, keyframes, chunks, then `endGameChunkId`. */
  method Load(b: seq<Byte>) returns (r: LoadResult)
    ensures r == Decode(b)
  {
    var header := LoadHeader(b);
    if header.Err? {
      return Failed(header.error);
    }
    var (h, c) := header.value;
    if |b| < c + 1 {
      return Failed(Truncated);
    }
    var num := b[c];                                          c := c + 1;
    var roster := LoadPlayers(b, c, num);
    if roster.Err? {
      return Failed(roster.error);
    }
    var players;
    players, c := roster.value.0, roster.value.1;

    var keyframeSection := LoadSection(b, h.fileVersion, c);
    if keyframeSection.Err? {
      return Failed(keyframeSection.error);
    }
    var keyframes;
    keyframes, c := keyframeSection.value.0, keyframeSection.value.1;
    if |keyframes| == 0 {
      return Failed(NoKeyframes);
    }

    var chunkSection := LoadSection(b, h.fileVersion, c);
    if chunkSection.Err? {
      return Failed(chunkSection.error);
    }
    var chunks := chunkSection.value.0;
    if |chunks| == 0 {
      return Failed(NoChunks);
    }
    ReadSectionWellStored(b, h.fileVersion, c);
    var endGameChunkId := chunks[|chunks| - 1].value.id;
    r := Loaded(Metadata(h.fileVersion, h.regionId, h.gameId, h.riotVersion, h.key, h.complete,
                         h.endStartupChunkId, h.startGameChunkId, players, endGameChunkId),
                ReplayData(keyframes, chunks));
  }
}
