/**
 * The AOF wire layout, revision by revision: what `save` writes (always
 * revision 12) and what `load` expects for every revision it accepts.
 * All multi-byte integers are big-endian.
 */
module Layout {
  import opened Bytes
  import opened Replay

  /** The revision `save` writes. */
  const REVISION: Byte := 12

  /** `load` refuses revisions below 8 and the corrupted revision 9. */
  predicate Readable(rev: int)
  {
    rev >= 8 && rev != 9
  }

  /** Width of the keyframe and chunk counts: one byte below revision 11. */
  function CountWidth(rev: int): nat
  {
    if rev < 11 then 1 else 2
  }

  /**
   * Width of the id field in front of a fragment: one byte up to revision 11
   * (where that byte is a placeholder and the id is not stored), two bytes
   * from revision 12 on.
   */
  function IdWidth(rev: int): nat
  {
    if rev < 12 then 1 else 2
  }

  /** The header fields fit the widths of revision `h.fileVersion`. */
  predicate HeaderInRange(h: Header)
  {
    |h.key| < 256 && h.gameId < (if h.fileVersion == 8 then TWO_32 else TWO_64)
  }

  /**
   * Revision, region, the game id (one 32-bit value in revision 8, otherwise
   * its high and low 32-bit halves), the three version bytes, the key with a
   * one-byte length, the completeness flag and two chunk ids.
   */
  function HeaderLayout(h: Header): (r: seq<Byte>)
    requires HeaderInRange(h)
    ensures |r| == (if h.fileVersion == 8 then 13 else 17) + |h.key|
  {
    [h.fileVersion, h.regionId]
    + (if h.fileVersion == 8 then U32BE(h.gameId) else U32BE(h.gameId / TWO_32) + U32BE(h.gameId % TWO_32))
    + [h.riotVersion.major, h.riotVersion.minor, h.riotVersion.patch, |h.key|]
    + h.key
    + [h.complete, h.endStartupChunkId, h.startGameChunkId]
  }

  predicate PlayerInRange(p: Player)
  {
    && IsI32(p.id)
    && |p.name| < 256
    && 0 <= p.teamNr < 256
    && 0 <= p.leagueId < 256
    && 0 <= p.leagueRank < 256
    && IsI32(p.championId)
    && IsI32(p.spell1Id)
    && IsI32(p.spell2Id)
  }

  predicate PlayersInRange(ps: seq<Player>)
  {
    forall k :: 0 <= k < |ps| ==> PlayerInRange(ps[k])
  }

  /** One player record: 20 bytes plus the name. */
  function PlayerLayout(p: Player): (r: seq<Byte>)
    requires PlayerInRange(p)
    ensures |r| == 20 + |p.name|
  {
    I32BE(p.id) + [|p.name|] + p.name + [p.teamNr, p.leagueId, p.leagueRank]
    + I32BE(p.championId) + I32BE(p.spell1Id) + I32BE(p.spell2Id)
  }

  function PlayersLayout(ps: seq<Player>): seq<Byte>
    requires PlayersInRange(ps)
  {
    if ps == [] then [] else PlayerLayout(ps[0]) + PlayersLayout(ps[1..])
  }

  lemma {:induction false} PlayersInRangeTake(ps: seq<Player>, i: nat)
    requires PlayersInRange(ps) && i <= |ps|
    ensures PlayersInRange(ps[..i])
  {
    forall k | 0 <= k < i ensures PlayerInRange(ps[..i][k]) {
      assert ps[..i][k] == ps[k];
    }
  }

  /** A roster with one more record behind it. */
  lemma {:induction false} PlayersLayoutSnoc(ps: seq<Player>, p: Player)
    requires PlayersInRange(ps) && PlayerInRange(p)
    ensures PlayersInRange(ps + [p])
    ensures PlayersLayout(ps + [p]) == PlayersLayout(ps) + PlayerLayout(p)
  {
    assert [p][1..] == [];
    assert PlayersLayout([p]) == PlayerLayout(p) + PlayersLayout([]);
    PlayersLayoutAppend(ps, [p]);
  }

  /**
   * One step of a left-to-right walk over the roster, behind any bytes
   * `prior` already written.
   */
  lemma {:induction false} PlayersLayoutStep(ps: seq<Player>, i: nat, prior: seq<Byte>)
    requires PlayersInRange(ps) && i < |ps|
    ensures PlayersInRange(ps[..i]) && PlayersInRange(ps[..i + 1])
    ensures prior + PlayersLayout(ps[..i + 1]) == prior + PlayersLayout(ps[..i]) + PlayerLayout(ps[i])
  {
    PlayersInRangeTake(ps, i);
    assert ps[..i + 1] == ps[..i] + [ps[i]];
    PlayersLayoutSnoc(ps[..i], ps[i]);
  }

  /** The space the roster takes: the sum of 20 plus the name length. */
  function RosterSize(ps: seq<Player>): nat
  {
    if ps == [] then 0 else 20 + |ps[0].name| + RosterSize(ps[1..])
  }

  lemma {:induction false} PlayersLayoutLength(ps: seq<Player>)
    requires PlayersInRange(ps)
    ensures |PlayersLayout(ps)| == RosterSize(ps)
  {
    if ps != [] {
      PlayersLayoutLength(ps[1..]);
    }
  }

  lemma {:induction false} PlayersLayoutAppend(a: seq<Player>, b: seq<Player>)
    requires PlayersInRange(a) && PlayersInRange(b)
    ensures PlayersInRange(a + b)
    ensures PlayersLayout(a + b) == PlayersLayout(a) + PlayersLayout(b)
    ensures RosterSize(a + b) == RosterSize(a) + RosterSize(b)
  {
    if a == [] {
      assert a + b == b;
    } else {
      assert (a + b)[1..] == a[1..] + b;
      PlayersLayoutAppend(a[1..], b);
    }
  }

  /** The count in front of a fragment section. */
  function CountLayout(rev: int, n: nat): (r: seq<Byte>)
    requires if rev < 11 then n < 256 else IsU16(n)
    ensures |r| == CountWidth(rev)
  {
    if rev < 11 then [n] else U16BE(n)
  }

  /** The fragment's id fits the id field of revision `rev`. */
  predicate FragmentFits(rev: int, f: Fragment)
  {
    (if rev < 11 then f.id < 256 else rev > 11 ==> IsU16(f.id)) && |f.data| < TWO_31
  }

  /**
   * One fragment in revision `rev`: its id field (in revision 11 a placeholder
   * byte `pad`), the payload length as a signed 32-bit value, the payload.
   */
  function FragmentLayout(rev: int, f: Fragment, pad: Byte): (r: seq<Byte>)
    requires FragmentFits(rev, f)
    ensures |r| == IdWidth(rev) + 4 + |f.data|
  {
    (if rev < 11 then [f.id] else if rev == 11 then [pad] else U16BE(f.id))
    + I32BE(|f.data|) + f.data
  }

  predicate SlotsFit(s: Slots)
  {
    forall j :: 0 <= j < |s| && s[j].Some? ==> FragmentFits(REVISION, s[j].value)
  }

  /** What `save` writes for one slot: nothing for a hole. */
  function SlotLayout(o: Option<Fragment>): (r: seq<Byte>)
    requires o.Some? ==> FragmentFits(REVISION, o.value)
  {
    if o.Some? then FragmentLayout(REVISION, o.value, 0) else []
  }

  /** The populated slots in index order, each as a revision-12 fragment. */
  function SlotsLayout(s: Slots): seq<Byte>
    requires SlotsFit(s)
  {
    if s == [] then [] else SlotLayout(s[0]) + SlotsLayout(s[1..])
  }

  lemma {:induction false} SlotsLayoutTail(s: Slots)
    requires SlotsFit(s) && s != []
    ensures SlotsFit(s[1..])
    ensures SlotsLayout(s) == SlotLayout(s[0]) + SlotsLayout(s[1..])
  {
    forall k | 0 <= k < |s| - 1 && s[1..][k].Some? ensures FragmentFits(REVISION, s[1..][k].value) {
      assert s[1..][k] == s[k + 1];
    }
  }

  lemma {:induction false} SlotsLayoutLength(s: Slots)
    requires SlotsFit(s)
    ensures |SlotsLayout(s)| == 6 * Populated(s) + PayloadSize(s)
  {
    if s != [] {
      SlotsLayoutLength(s[1..]);
    }
  }

  lemma {:induction false} SlotsLayoutAppend(a: Slots, b: Slots)
    requires SlotsFit(a) && SlotsFit(b)
    ensures SlotsFit(a + b)
    ensures SlotsLayout(a + b) == SlotsLayout(a) + SlotsLayout(b)
  {
    if a == [] {
      assert a + b == b;
    } else {
      assert (a + b)[1..] == a[1..] + b;
      SlotsLayoutAppend(a[1..], b);
    }
  }

  lemma {:induction false} SlotsFitTake(s: Slots, i: nat)
    requires SlotsFit(s) && i <= |s|
    ensures SlotsFit(s[..i]) && SlotsFit(s[i..])
  {
    forall k | 0 <= k < i && s[..i][k].Some? ensures FragmentFits(REVISION, s[..i][k].value) {
      assert s[..i][k] == s[k];
    }
    forall k | 0 <= k < |s| - i && s[i..][k].Some? ensures FragmentFits(REVISION, s[i..][k].value) {
      assert s[i..][k] == s[i + k];
    }
  }

  /** Slots with one more slot behind them. */
  lemma {:induction false} SlotsLayoutSnoc(s: Slots, o: Option<Fragment>)
    requires SlotsFit(s) && (o.Some? ==> FragmentFits(REVISION, o.value))
    ensures SlotsFit(s + [o])
    ensures SlotsLayout(s + [o]) == SlotsLayout(s) + SlotLayout(o)
  {
    assert [o][1..] == [];
    assert SlotsLayout([o]) == SlotLayout(o) + SlotsLayout([]);
    SlotsLayoutAppend(s, [o]);
  }

  /**
   * One step of a left-to-right walk over the slots, behind any bytes `prior`
   * already written.
   */
  lemma {:induction false} SlotsLayoutStep(s: Slots, i: nat, prior: seq<Byte>)
    requires SlotsFit(s) && i < |s|
    ensures SlotsFit(s[..i]) && SlotsFit(s[..i + 1])
    ensures prior + SlotsLayout(s[..i + 1]) == prior + SlotsLayout(s[..i]) + SlotLayout(s[i])
    ensures |SlotsLayout(s[..i + 1])| <= |SlotsLayout(s)|
  {
    SlotsFitTake(s, i);
    SlotsFitTake(s, i + 1);
    assert s[..i + 1] == s[..i] + [s[i]];
    SlotsLayoutSnoc(s[..i], s[i]);
    assert s == s[..i + 1] + s[i + 1..];
    SlotsLayoutAppend(s[..i + 1], s[i + 1..]);
  }

  /** A revision-12 section: the populated count, then the fragments. */
  function SectionLayout(s: Slots): (r: seq<Byte>)
    requires SlotsFit(s) && IsU16(Populated(s))
  {
    CountLayout(REVISION, Populated(s)) + SlotsLayout(s)
  }

  /** One part of a revision-12 file. */
  datatype Part =
    | HeaderPart(h: Header)
    | CountPart(n: nat)
    | RosterPart(ps: seq<Player>)
    | SectionPart(s: Slots)

  /** The values of `p` fit the fields that hold them. */
  predicate PartFits(p: Part)
  {
    match p
    case HeaderPart(h) => HeaderInRange(h)
    case CountPart(n) => n < 256
    case RosterPart(ps) => PlayersInRange(ps)
    case SectionPart(s) => SlotsFit(s) && IsU16(Populated(s))
  }

  /** The bytes `save` writes for `p`. */
  function PartLayout(p: Part): seq<Byte>
    requires PartFits(p)
  {
    match p
    case HeaderPart(h) => HeaderLayout(h)
    case CountPart(n) => [n]
    case RosterPart(ps) => PlayersLayout(ps)
    case SectionPart(s) => SectionLayout(s)
  }

  predicate PartsFit(parts: seq<Part>)
  {
    forall i :: 0 <= i < |parts| ==> PartFits(parts[i])
  }

  /** The layout of each part, in order. */
  function Layouts(parts: seq<Part>): (r: seq<seq<Byte>>)
    requires PartsFit(parts)
    ensures |r| == |parts|
    decreases |parts|
  {
    if parts == [] then [] else [PartLayout(parts[0])] + Layouts(parts[1..])
  }

  /** A revision-12 file: header, roster count, roster, keyframe section, chunk section. */
  function FileParts(h: Header, ps: seq<Player>, kf: Slots, ch: Slots): (r: seq<Part>)
    ensures |r| == 5
  {
    [HeaderPart(h), CountPart(|ps|), RosterPart(ps), SectionPart(kf), SectionPart(ch)]
  }

  /** `b` holds, from its first byte on, the revision-12 file of these parts. */
  ghost predicate FileAt(b: seq<Byte>, h: Header, ps: seq<Player>, kf: Slots, ch: Slots)
  {
    PartsFit(FileParts(h, ps, kf, ch)) && Placed(b, 0, Layouts(FileParts(h, ps, kf, ch)))
  }

  /** The layouts of five parts, one per part. */
  lemma {:induction false} LayoutsFive(p: seq<Part>)
    requires |p| == 5 && PartsFit(p)
    ensures Layouts(p) == [PartLayout(p[0]), PartLayout(p[1]), PartLayout(p[2]), PartLayout(p[3]), PartLayout(p[4])]
  {
    assert p[1..][1..] == p[2..] && p[2..][1..] == p[3..] && p[3..][1..] == p[4..];
    assert p[4..][1..] == [];
    assert Layouts(p[4..]) == [PartLayout(p[4])];
    assert Layouts(p[3..]) == [PartLayout(p[3]), PartLayout(p[4])];
    assert Layouts(p[2..]) == [PartLayout(p[2]), PartLayout(p[3]), PartLayout(p[4])];
    assert Layouts(p[1..]) == [PartLayout(p[1]), PartLayout(p[2]), PartLayout(p[3]), PartLayout(p[4])];
  }

  /** The five layouts of a file. */
  lemma {:induction false} FileLayouts(h: Header, ps: seq<Player>, kf: Slots, ch: Slots)
    requires HeaderInRange(h) && |ps| < 256 && PlayersInRange(ps)
    requires SlotsFit(kf) && IsU16(Populated(kf)) && SlotsFit(ch) && IsU16(Populated(ch))
    ensures PartsFit(FileParts(h, ps, kf, ch))
    ensures Layouts(FileParts(h, ps, kf, ch)) ==
            [HeaderLayout(h), [|ps|], PlayersLayout(ps), SectionLayout(kf), SectionLayout(ch)]
  {
    LayoutsFive(FileParts(h, ps, kf, ch));
  }

  /** The file as one byte string. */
  lemma {:induction false} FileFlat(h: Header, ps: seq<Player>, kf: Slots, ch: Slots)
    requires HeaderInRange(h) && |ps| < 256 && PlayersInRange(ps)
    requires SlotsFit(kf) && IsU16(Populated(kf)) && SlotsFit(ch) && IsU16(Populated(ch))
    ensures PartsFit(FileParts(h, ps, kf, ch))
    ensures Cat(Layouts(FileParts(h, ps, kf, ch))) ==
            HeaderLayout(h) + [|ps|] + PlayersLayout(ps) + SectionLayout(kf) + SectionLayout(ch)
  {
    FileLayouts(h, ps, kf, ch);
    CatFive(Layouts(FileParts(h, ps, kf, ch)));
  }
}
