/**
 * `load` inverts the layouts: every revision's header and fragment layout
 * reads back as what was laid out, and a stream written by `save` loads as
 * the record that was saved.
 *
 * The proof has two layers. The first (`…LaidOut`) says where a layout puts
 * each field, as the value a `Buffer` read at that offset returns; it knows
 * nothing of the readers. The second (`Read…Bytes`, `Read…Back`) says what
 * the readers make of bytes placed so; it knows nothing of the layouts.
 */
module RoundTrip {
  import opened Bytes
  import opened Replay
  import opened Validation
  import opened Layout
  import opened Encoder
  import opened Decoder

  /** Where `load` finds the player count: right behind the header. */
  function HeaderSize(h: Header): nat
  {
    (if h.fileVersion == 8 then 13 else 17) + |h.key|
  }

  /** The fields of `h` as `load` reads them from the front of `b`. */
  ghost predicate HeaderBytes(b: seq<Byte>, h: Header)
  {
    var v := if h.fileVersion == 8 then 6 else 10;
    var k := v + 4 + |h.key|;
    && k + 3 <= |b|
    && b[0] == h.fileVersion && b[1] == h.regionId
    && (if h.fileVersion == 8 then U32At(b, 2) == h.gameId
        else U32At(b, 2) == h.gameId / TWO_32 && U32At(b, 6) == h.gameId % TWO_32)
    && b[v] == h.riotVersion.major && b[v + 1] == h.riotVersion.minor
    && b[v + 2] == h.riotVersion.patch && b[v + 3] == |h.key| && At(b, v + 4, h.key)
    && b[k] == h.complete && b[k + 1] == h.endStartupChunkId && b[k + 2] == h.startGameChunkId
  }

  lemma {:induction false} HeaderLaidOut(h: Header, b: seq<Byte>)
    requires HeaderInRange(h) && At(b, 0, HeaderLayout(h))
    ensures HeaderBytes(b, h)
  {
    var rev := h.fileVersion;
    var ids: seq<Byte> :=
      if rev == 8 then U32BE(h.gameId) else U32BE(h.gameId / TWO_32) + U32BE(h.gameId % TWO_32);
    var version: seq<Byte> := [h.riotVersion.major, h.riotVersion.minor, h.riotVersion.patch, |h.key|];
    var tail: seq<Byte> := [h.complete, h.endStartupChunkId, h.startGameChunkId];
    var front := [rev, h.regionId] + ids;
    assert HeaderLayout(h) == front + version + h.key + tail;
    AtSplit(b, 0, front + version + h.key, tail);
    AtSplit(b, 0, front + version, h.key);
    AtSplit(b, 0, front, version);
    AtSplit(b, 0, [rev, h.regionId], ids);
    assert b[0] == [rev, h.regionId][0] && b[1] == [rev, h.regionId][1];
    var v := |front|;
    assert b[v] == version[0] && b[v + 1] == version[1] && b[v + 2] == version[2] && b[v + 3] == version[3];
    var k := v + 4 + |h.key|;
    assert b[k] == tail[0] && b[k + 1] == tail[1] && b[k + 2] == tail[2];
    if rev == 8 {
      U32RoundTrip(b, 2, h.gameId);
    } else {
      AtSplit(b, 2, U32BE(h.gameId / TWO_32), U32BE(h.gameId % TWO_32));
      U32RoundTrip(b, 2, h.gameId / TWO_32);
      U32RoundTrip(b, 6, h.gameId % TWO_32);
    }
  }

  lemma {:induction false} ReadHeaderBytes(h: Header, b: seq<Byte>)
    requires Readable(h.fileVersion) && HeaderInRange(h) && HeaderBytes(b, h)
    ensures ReadHeader(b) == Ok((h, HeaderSize(h)))
  {
    AtAll(b, (if h.fileVersion == 8 then 10 else 14), h.key);
  }

  /** The header of any readable revision reads back as itself. */
  lemma {:induction false} ReadHeaderLayout(h: Header, b: seq<Byte>)
    requires Readable(h.fileVersion) && HeaderInRange(h)
    requires At(b, 0, HeaderLayout(h))
    ensures ReadHeader(b) == Ok((h, |HeaderLayout(h)|))
  {
    HeaderLaidOut(h, b);
    ReadHeaderBytes(h, b);
  }

  /** The fields of `p` as `load` reads them from `c` on. */
  ghost predicate PlayerBytes(b: seq<Byte>, c: nat, p: Player)
  {
    var n := c + 5 + |p.name|;
    && n + 15 <= |b|
    && I32At(b, c) == p.id && b[c + 4] == |p.name| && At(b, c + 5, p.name)
    && b[n] == p.teamNr && b[n + 1] == p.leagueId && b[n + 2] == p.leagueRank
    && I32At(b, n + 3) == p.championId
    && I32At(b, n + 7) == p.spell1Id
    && I32At(b, n + 11) == p.spell2Id
  }

  lemma {:induction false} PlayerLaidOut(p: Player, b: seq<Byte>, c: nat)
    requires PlayerInRange(p) && At(b, c, PlayerLayout(p))
    ensures PlayerBytes(b, c, p)
  {
    var n := c + 5 + |p.name|;
    var head := I32BE(p.id) + [|p.name|];
    var bytes: seq<Byte> := [p.teamNr, p.leagueId, p.leagueRank];
    var ints := I32BE(p.championId) + I32BE(p.spell1Id) + I32BE(p.spell2Id);
    assert PlayerLayout(p) == head + p.name + bytes + ints;
    AtSplit(b, c, head + p.name + bytes, ints);
    AtSplit(b, c, head + p.name, bytes);
    AtSplit(b, c, head, p.name);
    AtSplit(b, c, I32BE(p.id), [|p.name|]);
    assert b[c + 4] == [|p.name|][0];
    assert b[n] == bytes[0] && b[n + 1] == bytes[1] && b[n + 2] == bytes[2];
    AtSplit(b, n + 3, I32BE(p.championId) + I32BE(p.spell1Id), I32BE(p.spell2Id));
    AtSplit(b, n + 3, I32BE(p.championId), I32BE(p.spell1Id));
    I32RoundTrip(b, c, p.id);
    I32RoundTrip(b, n + 3, p.championId);
    I32RoundTrip(b, n + 7, p.spell1Id);
    I32RoundTrip(b, n + 11, p.spell2Id);
  }

  lemma {:induction false} ReadPlayerBytes(p: Player, b: seq<Byte>, c: nat)
    requires PlayerInRange(p) && PlayerBytes(b, c, p)
    ensures ReadPlayer(b, c) == Ok((p, c + 20 + |p.name|))
  {
    AtAll(b, c + 5, p.name);
  }

  /** A player record reads back as the player. */
  lemma {:induction false} ReadPlayerLayout(p: Player, b: seq<Byte>, c: nat)
    requires PlayerInRange(p) && At(b, c, PlayerLayout(p))
    ensures ReadPlayer(b, c) == Ok((p, c + |PlayerLayout(p)|))
  {
    PlayerLaidOut(p, b, c);
    ReadPlayerBytes(p, b, c);
  }

  /** Every record of `ps` is found in turn from `c` on. */
  ghost predicate PlayersBack(b: seq<Byte>, c: nat, ps: seq<Player>)
    decreases |ps|
  {
    ps == [] ||
    (&& PlayerInRange(ps[0]) && PlayerBytes(b, c, ps[0])
     && PlayersBack(b, c + 20 + |ps[0].name|, ps[1..]))
  }

  /** The first record of a roster, and the records after it. */
  lemma {:induction false} PlayersTail(ps: seq<Player>)
    requires PlayersInRange(ps) && ps != []
    ensures PlayerInRange(ps[0]) && PlayersInRange(ps[1..])
    ensures PlayersLayout(ps) == PlayerLayout(ps[0]) + PlayersLayout(ps[1..])
    ensures RosterSize(ps) == 20 + |ps[0].name| + RosterSize(ps[1..])
  {
    forall k | 0 <= k < |ps| - 1 ensures PlayerInRange(ps[1..][k]) {
      assert ps[1..][k] == ps[k + 1];
    }
  }

  lemma {:induction false} PlayersLaidOut(ps: seq<Player>, b: seq<Byte>, c: nat)
    requires PlayersInRange(ps) && At(b, c, PlayersLayout(ps))
    ensures PlayersBack(b, c, ps) && c + RosterSize(ps) <= |b|
    decreases |ps|
  {
    PlayersLayoutLength(ps);
    if ps != [] {
      PlayersTail(ps);
      AtSplit(b, c, PlayerLayout(ps[0]), PlayersLayout(ps[1..]));
      PlayerLaidOut(ps[0], b, c);
      PlayersLaidOut(ps[1..], b, c + 20 + |ps[0].name|);
    }
  }

  /** The player loop from its `i`-th pass reads the records `ps` in order behind `acc`. */
  lemma {:induction false} ReadPlayersBack(ps: seq<Player>, b: seq<Byte>, c: nat, i: nat, n: nat, acc: seq<Player>)
    requires PlayersBack(b, c, ps) && c + RosterSize(ps) <= |b| && i + |ps| == n
    ensures ReadPlayers(b, c, i, n, acc) == Ok((acc + ps, c + RosterSize(ps)))
    decreases |ps|
  {
    if ps == [] {
      assert acc + ps == acc;
    } else {
      var p := ps[0];
      var c' := c + 20 + |p.name|;
      ReadPlayerBytes(p, b, c);
      ReadPlayersBack(ps[1..], b, c', i + 1, n, acc + [p]);
      assert acc + [p] + ps[1..] == acc + ps;
      ReadPlayersStep(b, c, i, n, acc, p, c', acc + [p], Ok((acc + ps, c + RosterSize(ps))));
    }
  }

  /** A fragment count of any revision reads back as itself. */
  lemma {:induction false} ReadCountLayout(rev: Byte, n: nat, b: seq<Byte>, c: nat)
    requires if rev < 11 then n < 256 else IsU16(n)
    requires At(b, c, CountLayout(rev, n))
    ensures ReadCount(b, rev, c) == Ok((n, c + CountWidth(rev)))
  {
    if rev < 11 {
      assert b[c] == [n][0];
    } else {
      U16RoundTrip(b, c, n);
    }
  }

  /**
   * The fields of `f` as `load` reads them from `c` on in revision `rev`; in
   * revision 11 the id byte is not read.
   */
  ghost predicate FragmentBytes(b: seq<Byte>, c: nat, rev: Byte, f: Fragment)
  {
    var w := IdWidth(rev);
    var d := c + w + 4;
    && d + |f.data| <= |b|
    && (rev < 11 ==> b[c] == f.id)
    && (rev > 11 ==> U16At(b, c) == f.id)
    && I32At(b, c + w) == |f.data|
    && At(b, d, f.data)
  }

  lemma {:induction false} FragmentLaidOut(rev: Byte, f: Fragment, pad: Byte, b: seq<Byte>, c: nat)
    requires FragmentFits(rev, f) && At(b, c, FragmentLayout(rev, f, pad))
    ensures FragmentBytes(b, c, rev, f)
  {
    var w := IdWidth(rev);
    var idField: seq<Byte> := if rev < 11 then [f.id] else if rev == 11 then [pad] else U16BE(f.id);
    assert FragmentLayout(rev, f, pad) == idField + I32BE(|f.data|) + f.data;
    AtSplit(b, c, idField + I32BE(|f.data|), f.data);
    AtSplit(b, c, idField, I32BE(|f.data|));
    if rev < 11 {
      assert b[c] == idField[0];
    } else if rev > 11 {
      U16RoundTrip(b, c, f.id);
    }
    I32RoundTrip(b, c + w, |f.data|);
  }

  lemma {:induction false} ReadFragmentBytes(rev: Byte, f: Fragment, b: seq<Byte>, c: nat, i: nat)
    requires (rev == 11 ==> f.id == i + 1) && FragmentBytes(b, c, rev, f)
    ensures ReadFragment(b, rev, c, i) == Ok((f, c + IdWidth(rev) + 4 + |f.data|))
  {
    AtAll(b, c + IdWidth(rev) + 4, f.data);
  }

  /**
   * A fragment of any revision reads back as itself; in revision 11 only when
   * its id is the one that position gets, `i + 1`, whatever the placeholder.
   */
  lemma {:induction false} ReadFragmentLayout(rev: Byte, f: Fragment, pad: Byte, b: seq<Byte>, c: nat, i: nat)
    requires FragmentFits(rev, f) && (rev == 11 ==> f.id == i + 1)
    requires At(b, c, FragmentLayout(rev, f, pad))
    ensures ReadFragment(b, rev, c, i) == Ok((f, c + |FragmentLayout(rev, f, pad)|))
  {
    FragmentLaidOut(rev, f, pad, b, c);
    ReadFragmentBytes(rev, f, b, c, i);
  }

  /** The bytes `save` writes for one slot. */
  function SlotSize(o: Option<Fragment>): nat
  {
    if o.Some? then 6 + |o.value.data| else 0
  }

  function SlotsSize(u: Slots): nat
  {
    if u == [] then 0 else SlotSize(u[0]) + SlotsSize(u[1..])
  }

  lemma {:induction false} SlotsLayoutSize(u: Slots)
    requires SlotsFit(u)
    ensures |SlotsLayout(u)| == SlotsSize(u)
    decreases |u|
  {
    if u != [] {
      SlotsLayoutTail(u);
      SlotsLayoutSize(u[1..]);
    }
  }

  /** Every populated slot of `u` is found in turn from `c` on, as a revision-12 fragment. */
  ghost predicate ReadsBack(b: seq<Byte>, c: nat, u: Slots)
    decreases |u|
  {
    u == [] ||
    (&& (u[0].Some? ==> FragmentBytes(b, c, REVISION, u[0].value))
     && ReadsBack(b, c + SlotSize(u[0]), u[1..]))
  }

  /** The first slot of a laid-out run of slots, and where the rest of the run starts. */
  lemma {:induction false} SlotLaidOut(u: Slots, b: seq<Byte>, c: nat)
    requires SlotsFit(u) && u != [] && At(b, c, SlotsLayout(u))
    ensures SlotsFit(u[1..]) && At(b, c + SlotSize(u[0]), SlotsLayout(u[1..]))
    ensures u[0].Some? ==> FragmentBytes(b, c, REVISION, u[0].value)
    ensures |SlotsLayout(u)| == SlotSize(u[0]) + |SlotsLayout(u[1..])|
  {
    var x := u[0];
    SlotsLayoutTail(u);
    AtSplit(b, c, SlotLayout(x), SlotsLayout(u[1..]));
    if x.Some? {
      FragmentLaidOut(REVISION, x.value, 0, b, c);
    }
  }

  lemma {:induction false} SlotsLaidOut(u: Slots, b: seq<Byte>, c: nat)
    requires SlotsFit(u) && At(b, c, SlotsLayout(u))
    ensures ReadsBack(b, c, u) && |SlotsLayout(u)| == SlotsSize(u)
    decreases |u|
  {
    if u != [] {
      SlotLaidOut(u, b, c);
      SlotsLaidOut(u[1..], b, c + SlotSize(u[0]));
    }
  }

  /** The populated slots of `u` hold the ids `m`, `m + 1`, ... by position. */
  ghost predicate IdsFrom(u: Slots, m: nat)
    decreases |u|
  {
    u == [] || ((u[0].Some? ==> u[0].value.id == m) && IdsFrom(u[1..], m + 1))
  }

  lemma {:induction false} IdsMatchFrom(u: Slots, m: nat)
    requires forall k :: 0 <= k < |u| && u[k].Some? ==> u[k].value.id == m + k
    ensures IdsFrom(u, m)
    decreases |u|
  {
    if u != [] {
      forall k | 0 <= k < |u| - 1 && u[1..][k].Some? ensures u[1..][k].value.id == m + 1 + k {
        assert u[1..][k] == u[k + 1];
      }
      IdsMatchFrom(u[1..], m + 1);
    }
  }

  /** The array `acc` after the assignment `acc[f.id] = f` of each fragment of `u`, in order. */
  function StoreAll(acc: Slots, u: Slots): Slots
    decreases |u|
  {
    if u == [] then acc
    else StoreAll(if u[0].Some? then Store(acc, u[0].value) else acc, u[1..])
  }

  /** The array stays empty exactly when it starts empty and no slot of `u` holds a fragment. */
  lemma {:induction false} StoreAllEmpty(acc: Slots, u: Slots)
    ensures StoreAll(acc, u) == [] <==> acc == [] && Populated(u) == 0
    decreases |u|
  {
    if u != [] {
      var acc' := if u[0].Some? then Store(acc, u[0].value) else acc;
      StoreAllEmpty(acc', u[1..]);
    }
  }

  /**
   * Assigning the fragments of `u`, which sit at the index of their id behind
   * the slots `p`, to the array `p` without its trailing holes gives `p + u`
   * without its trailing holes: each assignment re-creates the holes before it.
   */
  lemma {:induction false} StoreAllTrim(p: Slots, u: Slots)
    requires IdsFrom(u, |p|)
    ensures StoreAll(Trim(p), u) == Trim(p + u)
    decreases |u|
  {
    if u == [] {
      assert p + u == p;
    } else {
      var x := u[0];
      assert p + [x] + u[1..] == p + u;
      if x.None? {
        TrimHole(p);
      } else {
        StoreAfterTrim(p, x.value);
      }
      StoreAllTrim(p + [x], u[1..]);
    }
  }

  /** One pass of the fragment loop over a fragment found at `c`. */
  lemma {:induction false} ReadFoundStep(b: seq<Byte>, c: nat, i: nat, n: nat, acc: Slots, f: Fragment,
                                         r: Result<(Slots, nat), LoadError>)
    requires FragmentBytes(b, c, REVISION, f) && i < n
    requires ReadFragments(b, REVISION, c + 6 + |f.data|, i + 1, n, Store(acc, f)) == r
    ensures ReadFragments(b, REVISION, c, i, n, acc) == r
  {
    ReadFragmentBytes(REVISION, f, b, c, i);
    ReadFragmentsStep(b, REVISION, c, i, n, acc, f, c + 6 + |f.data|, Store(acc, f), r);
  }

  /**
   * The fragment loop of `load` from its `i`-th pass on, over the slots `u`
   * whose fragments are found in turn from `c` on: it assigns each of them to
   * the array in order.
   */
  lemma {:induction false} ReadSlotsBack(u: Slots, b: seq<Byte>, c: nat, i: nat, n: nat, acc: Slots)
    requires ReadsBack(b, c, u) && c + SlotsSize(u) <= |b| && i + Populated(u) == n
    ensures ReadFragments(b, REVISION, c, i, n, acc) == Ok((StoreAll(acc, u), c + SlotsSize(u)))
    decreases |u|
  {
    if u != [] {
      var x := u[0];
      var c' := c + SlotSize(x);
      assert c' + SlotsSize(u[1..]) == c + SlotsSize(u);
      if x.None? {
        assert StoreAll(acc, u) == StoreAll(acc, u[1..]);
        ReadSlotsBack(u[1..], b, c', i, n, acc);
      } else {
        assert StoreAll(acc, u) == StoreAll(Store(acc, x.value), u[1..]);
        ReadSlotsBack(u[1..], b, c', i + 1, n, Store(acc, x.value));
        ReadFoundStep(b, c, i, n, acc, x.value, Ok((StoreAll(acc, u), c + SlotsSize(u))));
      }
    }
  }

  /** A revision-12 section of the slots `s` as `load` finds it from `c` on. */
  ghost predicate SectionBytes(b: seq<Byte>, c: nat, s: Slots)
  {
    && c + 2 + SlotsSize(s) <= |b|
    && U16At(b, c) == Populated(s)
    && ReadsBack(b, c + 2, s)
  }

  lemma {:induction false} SectionLaidOut(s: Slots, b: seq<Byte>, c: nat)
    requires SlotsFit(s) && IsU16(Populated(s)) && At(b, c, SectionLayout(s))
    ensures SectionBytes(b, c, s) && |SectionLayout(s)| == 2 + SlotsSize(s)
  {
    AtSplit(b, c, CountLayout(REVISION, Populated(s)), SlotsLayout(s));
    U16RoundTrip(b, c, Populated(s));
    SlotsLaidOut(s, b, c + 2);
  }

  /**
   * The shape of a well-stored array in the form the fragment loop is walked
   * in: ids by position from 0, and no trailing holes.
   */
  ghost predicate Stored(s: Slots)
  {
    IdsFrom(s, 0) && Trim(s) == s
  }

  lemma {:induction false} WellStoredStored(s: Slots)
    requires WellStored(s)
    ensures Stored(s)
    ensures s != [] ==> s[|s| - 1].value.id == |s| - 1
  {
    IdsMatchFrom(s, 0);
  }

  /**
   * Assigning the fragments of a well-stored array, in order, to an empty
   * array rebuilds it; such an array, when not empty, has a populated slot.
   */
  lemma {:induction false} StoreAllWellStored(s: Slots)
    requires WellStored(s)
    ensures StoreAll([], s) == s
    ensures s != [] ==> Populated(s) > 0
  {
    WellStoredStored(s);
    StoreAllTrim([], s);
    assert [] + s == s;
    if s != [] {
      var p := s[..|s| - 1];
      assert s == p + [s[|s| - 1]];
      PopulatedAppend(p, [s[|s| - 1]]);
    }
  }

  /** A section is its count followed by that many passes of the fragment loop. */
  lemma {:induction false} ReadSectionCount(b: seq<Byte>, c: nat, n: nat, r: Result<(Slots, nat), LoadError>)
    requires c + 2 <= |b| && U16At(b, c) == n && ReadFragments(b, REVISION, c + 2, 0, n, []) == r
    ensures ReadSection(b, REVISION, c) == r
  {
  }

  /**
   * The section of the slots `s`, found from `c` on, reads back as the array
   * that assigning its fragments by id, in order, builds.
   */
  lemma {:induction false} ReadSectionFound(s: Slots, b: seq<Byte>, c: nat)
    requires SectionBytes(b, c, s)
    ensures ReadSection(b, REVISION, c) == Ok((StoreAll([], s), c + 2 + SlotsSize(s)))
  {
    ReadSlotsBack(s, b, c + 2, 0, Populated(s), []);
    ReadSectionCount(b, c, Populated(s), Ok((StoreAll([], s), c + 2 + SlotsSize(s))));
  }

  /** A section written by `save` from any slots reads back as `ReadSectionFound` says. */
  lemma {:induction false} ReadSectionStored(s: Slots, b: seq<Byte>, c: nat)
    requires SlotsFit(s) && IsU16(Populated(s)) && At(b, c, SectionLayout(s))
    ensures ReadSection(b, REVISION, c) == Ok((StoreAll([], s), c + |SectionLayout(s)|))
  {
    SectionLaidOut(s, b, c);
    ReadSectionFound(s, b, c);
  }

  /** A section written by `save` from well-stored slots reads back as those slots. */
  lemma {:induction false} ReadSectionLayout(s: Slots, b: seq<Byte>, c: nat)
    requires SlotsFit(s) && IsU16(Populated(s)) && WellStored(s)
    requires At(b, c, SectionLayout(s))
    ensures ReadSection(b, REVISION, c) == Ok((s, c + |SectionLayout(s)|))
  {
    ReadSectionStored(s, b, c);
    StoreAllWellStored(s);
  }

  /** Header, roster count and roster as `load` reads them. */
  ghost predicate FrontBytes(b: seq<Byte>, h: Header, ps: seq<Player>)
  {
    var c := HeaderSize(h);
    && HeaderBytes(b, h)
    && c + 1 + RosterSize(ps) <= |b| && b[c] == |ps|
    && PlayersBack(b, c + 1, ps)
  }

  lemma {:induction false} ReadFrontBytes(h: Header, ps: seq<Player>, b: seq<Byte>)
    requires Readable(h.fileVersion) && HeaderInRange(h) && FrontBytes(b, h, ps)
    ensures ReadFront(b) == Ok((h, ps, HeaderSize(h) + 1 + RosterSize(ps)))
  {
    ReadHeaderBytes(h, b);
    ReadPlayersBack(ps, b, HeaderSize(h) + 1, 0, |ps|, []);
    assert [] + ps == ps;
  }

  /** Header, roster count and roster laid out one behind the other, read field by field. */
  lemma {:induction false} FrontLaidOut(b: seq<Byte>, h: Header, ps: seq<Player>)
    requires HeaderInRange(h) && PlayersInRange(ps)
    requires At(b, 0, HeaderLayout(h)) && |HeaderLayout(h)| < |b| && b[|HeaderLayout(h)|] == |ps|
    requires At(b, |HeaderLayout(h)| + 1, PlayersLayout(ps))
    ensures FrontBytes(b, h, ps) && |HeaderLayout(h)| == HeaderSize(h)
  {
    HeaderLaidOut(h, b);
    PlayersLaidOut(ps, b, |HeaderLayout(h)| + 1);
  }

  /** Header, roster count and roster laid out one behind the other read back as themselves. */
  lemma {:induction false} ReadFrontLayout(b: seq<Byte>, h: Header, ps: seq<Player>)
    requires Readable(h.fileVersion) && HeaderInRange(h) && PlayersInRange(ps)
    requires At(b, 0, HeaderLayout(h)) && |HeaderLayout(h)| < |b| && b[|HeaderLayout(h)|] == |ps|
    requires At(b, |HeaderLayout(h)| + 1, PlayersLayout(ps))
    ensures ReadFront(b) == Ok((h, ps, |HeaderLayout(h)| + 1 + RosterSize(ps)))
  {
    FrontLaidOut(b, h, ps);
    ReadFrontBytes(h, ps, b);
  }

  /** A file holds its five layouts one behind the other. */
  lemma {:induction false} FilePlaced(b: seq<Byte>, h: Header, ps: seq<Player>, kf: Slots, ch: Slots)
    requires HeaderInRange(h) && |ps| < 256 && PlayersInRange(ps)
    requires SlotsFit(kf) && IsU16(Populated(kf)) && SlotsFit(ch) && IsU16(Populated(ch))
    requires FileAt(b, h, ps, kf, ch)
    ensures Placed(b, 0, [HeaderLayout(h), [|ps|], PlayersLayout(ps), SectionLayout(kf), SectionLayout(ch)])
  {
    FileLayouts(h, ps, kf, ch);
  }

  /** Where the header, the roster count and the roster of a file are found. */
  lemma {:induction false} FrontPartsAt(b: seq<Byte>, h: Header, ps: seq<Player>, kf: Slots, ch: Slots)
    requires HeaderInRange(h) && |ps| < 256 && PlayersInRange(ps)
    requires SlotsFit(kf) && IsU16(Populated(kf)) && SlotsFit(ch) && IsU16(Populated(ch))
    requires FileAt(b, h, ps, kf, ch)
    ensures var H := HeaderLayout(h);
            && At(b, 0, H) && |H| < |b| && b[|H|] == |ps|
            && At(b, |H| + 1, PlayersLayout(ps))
  {
    FilePlaced(b, h, ps, kf, ch);
    PlacedFirstThree(b, [HeaderLayout(h), [|ps|], PlayersLayout(ps), SectionLayout(kf), SectionLayout(ch)],
                     HeaderLayout(h), [|ps|], PlayersLayout(ps), SectionLayout(kf), SectionLayout(ch));
    assert b[|HeaderLayout(h)|] == [|ps|][0];
  }

  /** Where the two sections of a file are found, behind the roster. */
  lemma {:induction false} SectionPartsAt(b: seq<Byte>, h: Header, ps: seq<Player>, kf: Slots, ch: Slots)
    requires HeaderInRange(h) && |ps| < 256 && PlayersInRange(ps)
    requires SlotsFit(kf) && IsU16(Populated(kf)) && SlotsFit(ch) && IsU16(Populated(ch))
    requires FileAt(b, h, ps, kf, ch)
    ensures var c := |HeaderLayout(h)| + 1 + RosterSize(ps);
            && At(b, c, SectionLayout(kf))
            && At(b, c + |SectionLayout(kf)|, SectionLayout(ch))
  {
    FilePlaced(b, h, ps, kf, ch);
    PlayersLayoutLength(ps);
    PlacedLastTwo(b, [HeaderLayout(h), [|ps|], PlayersLayout(ps), SectionLayout(kf), SectionLayout(ch)],
                  HeaderLayout(h), [|ps|], PlayersLayout(ps), SectionLayout(kf), SectionLayout(ch));
  }

  /** The two sections of a file, found behind the roster from `c` on. */
  lemma {:induction false} SectionsOfFile(b: seq<Byte>, h: Header, ps: seq<Player>, kf: Slots, ch: Slots, c: nat)
    requires HeaderInRange(h) && |ps| < 256 && PlayersInRange(ps)
    requires SlotsFit(kf) && IsU16(Populated(kf)) && SlotsFit(ch) && IsU16(Populated(ch))
    requires FileAt(b, h, ps, kf, ch)
    requires c == |HeaderLayout(h)| + 1 + RosterSize(ps)
    ensures SectionBytes(b, c, kf) && SectionBytes(b, c + 2 + SlotsSize(kf), ch)
  {
    SectionPartsAt(b, h, ps, kf, ch);
    SectionLaidOut(kf, b, c);
    SectionLaidOut(ch, b, c + |SectionLayout(kf)|);
  }

  /** `load` goes on to the sections wherever the roster ends. */
  lemma {:induction false} DecodeFront(b: seq<Byte>, h: Header, ps: seq<Player>, c: nat)
    requires ReadFront(b) == Ok((h, ps, c))
    ensures Decode(b) == DecodeSections(b, h, ps, c)
  {
  }

  /** The last slot of a chunk array that `load` builds holds the id of its index. */
  lemma {:induction false} LastChunkId(b: seq<Byte>, c: nat, ch: Slots, c'': nat)
    requires ReadSection(b, REVISION, c) == Ok((ch, c'')) && ch != []
    ensures ch[|ch| - 1].Some? && ch[|ch| - 1].value.id == |ch| - 1
  {
    ReadSectionWellStored(b, REVISION, c);
    WellStoredStored(ch);
  }

  /** What `save` writes is the parts of a revision-12 file, one behind the other. */
  lemma {:induction false} EncodedLaidOut(g: Game)
    requires InRange(g) && g.riotVersion.Some?
    ensures FileAt(Encode(g), EncodedHeader(g), Roster(g), g.keyframes, g.chunks)
  {
    AtSelf(Encode(g));
    CatPlaced(Encode(g), 0, Layouts(FileParts(EncodedHeader(g), Roster(g), g.keyframes, g.chunks)));
  }

  /**
   * A revision-12 file laid out from a header, a roster and two runs of
   * slots holds them where `load` reads them: header and roster from the
   * start, the keyframe section from `c` on, the chunk section behind it.
   */
  lemma {:induction false} FileBytes(b: seq<Byte>, h: Header, ps: seq<Player>, kf: Slots, ch: Slots)
    returns (c: nat)
    requires HeaderInRange(h) && |ps| < 256 && PlayersInRange(ps)
    requires SlotsFit(kf) && IsU16(Populated(kf)) && SlotsFit(ch) && IsU16(Populated(ch))
    requires FileAt(b, h, ps, kf, ch)
    ensures c == HeaderSize(h) + 1 + RosterSize(ps)
    ensures FrontBytes(b, h, ps) && SectionBytes(b, c, kf) && SectionBytes(b, c + 2 + SlotsSize(kf), ch)
  {
    FrontPartsAt(b, h, ps, kf, ch);
    FrontLaidOut(b, h, ps);
    c := HeaderSize(h) + 1 + RosterSize(ps);
    SectionsOfFile(b, h, ps, kf, ch, c);
  }

  /**
   * A revision-12 keyframe section read as `k`: an empty `k` fails for lack
   * of keyframes, otherwise `load` goes on to the chunk section behind it.
   */
  lemma {:induction false} KeyframesRead(b: seq<Byte>, h: Header, ps: seq<Player>, k: Slots, c: nat, c': nat)
    requires h.fileVersion == REVISION && ReadSection(b, REVISION, c) == Ok((k, c'))
    ensures k == [] ==> DecodeSections(b, h, ps, c) == Failed(LoadError.NoKeyframes)
    ensures k != [] ==> DecodeSections(b, h, ps, c) == DecodeChunks(b, h, ps, k, c')
  {
  }

  /**
   * The chunk section of `ch` from `c` on, as `load` reads it into `t`
   * behind the keyframes `k`: an empty `t` fails for lack of chunks,
   * otherwise `load` returns the header, the roster and both arrays.
   */
  lemma {:induction false} ChunksDecoded(b: seq<Byte>, h: Header, ps: seq<Player>, k: Slots, ch: Slots, c: nat)
    returns (t: Slots)
    requires h.fileVersion == REVISION && SectionBytes(b, c, ch)
    ensures t == StoreAll([], ch)
    ensures t == [] ==> DecodeChunks(b, h, ps, k, c) == Failed(LoadError.NoChunks)
    ensures t != [] ==>
      (DecodeChunks(b, h, ps, k, c) ==
       Loaded(Metadata(h.fileVersion, h.regionId, h.gameId, h.riotVersion, h.key, h.complete,
                       h.endStartupChunkId, h.startGameChunkId, ps, |t| - 1),
              ReplayData(k, t)))
  {
    ReadSectionFound(ch, b, c);
    t := StoreAll([], ch);
    if t != [] {
      LastChunkId(b, c, t, c + 2 + SlotsSize(ch));
    }
  }

  /**
   * The sections of `kf` and `ch`, one behind the other from `c` on, as
   * `load` reads them once it has a revision-12 header and roster.
   */
  lemma {:induction false} SectionsDecoded(b: seq<Byte>, h: Header, ps: seq<Player>, kf: Slots, ch: Slots, c: nat)
    returns (k: Slots, t: Slots)
    requires h.fileVersion == REVISION
    requires SectionBytes(b, c, kf) && SectionBytes(b, c + 2 + SlotsSize(kf), ch)
    ensures k == StoreAll([], kf) && t == StoreAll([], ch)
    ensures k == [] ==> DecodeSections(b, h, ps, c) == Failed(LoadError.NoKeyframes)
    ensures k != [] && t == [] ==> DecodeSections(b, h, ps, c) == Failed(LoadError.NoChunks)
    ensures k != [] && t != [] ==>
      (DecodeSections(b, h, ps, c) ==
       Loaded(Metadata(h.fileVersion, h.regionId, h.gameId, h.riotVersion, h.key, h.complete,
                       h.endStartupChunkId, h.startGameChunkId, ps, |t| - 1),
              ReplayData(k, t)))
  {
    ReadSectionFound(kf, b, c);
    k := StoreAll([], kf);
    KeyframesRead(b, h, ps, k, c, c + 2 + SlotsSize(kf));
    t := ChunksDecoded(b, h, ps, k, ch, c + 2 + SlotsSize(kf));
  }

  /**
   * `load` on bytes holding a revision-12 header and roster, then the
   * sections of `kf` and `ch` from `c` on. `k` and `t` are the arrays that
   * assigning their fragments by id, in order, builds: `load` fails for lack
   * of keyframes when `k` is empty, then for lack of chunks when `t` is;
   * otherwise it returns the header, the roster and both arrays.
   */
  lemma {:induction false} BytesDecoded(b: seq<Byte>, h: Header, ps: seq<Player>, kf: Slots, ch: Slots, c: nat)
    returns (k: Slots, t: Slots)
    requires h.fileVersion == REVISION && HeaderInRange(h) && FrontBytes(b, h, ps)
    requires c == HeaderSize(h) + 1 + RosterSize(ps)
    requires SectionBytes(b, c, kf) && SectionBytes(b, c + 2 + SlotsSize(kf), ch)
    ensures k == StoreAll([], kf) && t == StoreAll([], ch)
    ensures k == [] ==> Decode(b) == Failed(LoadError.NoKeyframes)
    ensures k != [] && t == [] ==> Decode(b) == Failed(LoadError.NoChunks)
    ensures k != [] && t != [] ==>
      (Decode(b) ==
       Loaded(Metadata(h.fileVersion, h.regionId, h.gameId, h.riotVersion, h.key, h.complete,
                       h.endStartupChunkId, h.startGameChunkId, ps, |t| - 1),
              ReplayData(k, t)))
  {
    ReadFrontBytes(h, ps, b);
    DecodeFront(b, h, ps, c);
    k, t := SectionsDecoded(b, h, ps, kf, ch, c);
  }

  /**
   * `load` on any revision-12 file laid out as `save` lays it out, where `k`
   * and `t` are the arrays that assigning the fragments of `kf` and of `ch`
   * by id, in order, builds: it fails for lack of keyframes when `k` is
   * empty, then for lack of chunks when `t` is; otherwise it returns the
   * header and roster as written and both arrays.
   */
  lemma {:induction false} FileDecoded(b: seq<Byte>, h: Header, ps: seq<Player>, kf: Slots, ch: Slots)
    returns (k: Slots, t: Slots)
    requires h.fileVersion == REVISION && HeaderInRange(h) && |ps| < 256 && PlayersInRange(ps)
    requires SlotsFit(kf) && IsU16(Populated(kf)) && SlotsFit(ch) && IsU16(Populated(ch))
    requires FileAt(b, h, ps, kf, ch)
    ensures k == StoreAll([], kf) && t == StoreAll([], ch)
    ensures k == [] ==> Decode(b) == Failed(LoadError.NoKeyframes)
    ensures k != [] && t == [] ==> Decode(b) == Failed(LoadError.NoChunks)
    ensures k != [] && t != [] ==>
      (Decode(b) ==
       Loaded(Metadata(h.fileVersion, h.regionId, h.gameId, h.riotVersion, h.key, h.complete,
                       h.endStartupChunkId, h.startGameChunkId, ps, |t| - 1),
              ReplayData(k, t)))
  {
    var c := FileBytes(b, h, ps, kf, ch);
    k, t := BytesDecoded(b, h, ps, kf, ch, c);
  }

  /**
   * `load` after `save`, for every record that passes the checks and whose
   * fields fit their widths. `save` checks only that the collections are not
   * empty arrays, so a collection of holes alone is written with a count of 0
   * and `load` rejects the file: for lack of keyframes first, then for lack
   * of chunks. Otherwise every field comes back as saved, with revision 12
   * and the completeness flag `save` computed, and each collection comes
   * back as the array that assigning its fragments by id, in order, builds;
   * `endGameChunkId` is that chunk array's last index.
   */
  lemma {:induction false} LoadOfSaved(g: Game)
    requires Validate(g).None? && InRange(g)
    ensures SaveOf(g).Saved?
    ensures Populated(g.chunks) > 0 ==> StoreAll([], g.chunks) != []
    ensures Populated(g.keyframes) == 0 ==> Decode(SaveOf(g).bytes) == Failed(LoadError.NoKeyframes)
    ensures Populated(g.keyframes) > 0 && Populated(g.chunks) == 0 ==>
      Decode(SaveOf(g).bytes) == Failed(LoadError.NoChunks)
    ensures Populated(g.keyframes) > 0 && Populated(g.chunks) > 0 ==>
      (Decode(SaveOf(g).bytes) ==
       Loaded(Metadata(REVISION, g.regionId, g.gameId, g.riotVersion.value, g.key, CompleteFlag(g),
                       g.endStartupChunkId, g.startGameChunkId, Roster(g), |StoreAll([], g.chunks)| - 1),
              ReplayData(StoreAll([], g.keyframes), StoreAll([], g.chunks))))
  {
    assert !Missing(g, RiotVersion);
    EncodedLaidOut(g);
    var k, t := FileDecoded(Encode(g), EncodedHeader(g), Roster(g), g.keyframes, g.chunks);
    StoreAllEmpty([], g.keyframes);
    StoreAllEmpty([], g.chunks);
  }

  /**
   * `load` after `save` for collections shaped as `load` itself builds them
   * (each fragment at the index of its id, the last slot populated): every
   * field comes back as saved, the collections unchanged. The revision is
   * 12, the completeness flag is the one `save` computed, and
   * `endGameChunkId` is the last chunk index.
   */
  lemma {:induction false} LoadAfterSave(g: Game)
    requires Validate(g).None? && InRange(g)
    requires WellStored(g.keyframes) && WellStored(g.chunks)
    ensures SaveOf(g).Saved?
    ensures Decode(SaveOf(g).bytes) ==
      Loaded(Metadata(REVISION, g.regionId, g.gameId, g.riotVersion.value, g.key, CompleteFlag(g),
                      g.endStartupChunkId, g.startGameChunkId, Roster(g), |g.chunks| - 1),
             ReplayData(g.keyframes, g.chunks))
  {
    LoadOfSaved(g);
    StoreAllWellStored(g.keyframes);
    StoreAllWellStored(g.chunks);
  }
}
