/**
 * The replay record shared by `save` and `load`: metadata, the player roster,
 * and the two sparse collections of fragments (keyframes and chunks).
 *
 * A JavaScript sparse array of fragments is modelled as a sequence of slots:
 * its length is the array's `length`, a `None` slot is a hole that `forEach`
 * skips, and `Store` is the assignment `array[id] = fragment`.
 */
module Replay {
  import opened Bytes

  datatype Option<T> = None | Some(value: T)

  datatype Result<T, E> = Ok(value: T) | Err(error: E)

  /** The game-engine version "major.minor.patch", one byte per component. */
  datatype Version = Version(major: Byte, minor: Byte, patch: Byte)

  /** A roster entry; `name` is the UTF-8 bytes of the player's name. */
  datatype Player = Player(
    id: int,
    name: seq<Byte>,
    teamNr: int,
    leagueId: int,
    leagueRank: int,
    championId: int,
    spell1Id: int,
    spell2Id: int)

  /** A keyframe or a chunk. */
  datatype Fragment = Fragment(id: nat, data: seq<Byte>)

  type Slots = seq<Option<Fragment>>

  /**
   * The record handed to `save`. A number that is absent is 0 here: the
   * source tests every mandatory field for truthiness, so both fail alike.
   * An absent key is the empty key; an absent roster is `None`.
   */
  datatype Game = Game(
    regionId: nat,
    gameId: nat,
    riotVersion: Option<Version>,
    key: seq<Byte>,
    endStartupChunkId: nat,
    startGameChunkId: nat,
    players: Option<seq<Player>>,
    keyframes: Slots,
    chunks: Slots)

  /** The fixed-layout fields at the front of a file, in file order. */
  datatype Header = Header(
    fileVersion: Byte,
    regionId: Byte,
    gameId: nat,
    riotVersion: Version,
    key: seq<Byte>,
    complete: Byte,
    endStartupChunkId: Byte,
    startGameChunkId: Byte)

  /** The `replayMetadata` object that `load` builds. */
  datatype Metadata = Metadata(
    fileVersion: Byte,
    regionId: Byte,
    gameId: nat,
    riotVersion: Version,
    key: seq<Byte>,
    complete: Byte,
    endStartupChunkId: Byte,
    startGameChunkId: Byte,
    players: seq<Player>,
    endGameChunkId: nat)

  /** The `replayData` object that `load` builds. */
  datatype ReplayData = ReplayData(keyframes: Slots, chunks: Slots)

  /** Number of populated slots: the count a `forEach` over the array reaches. */
  function Populated(s: Slots): (n: nat)
    ensures n <= |s|
  {
    if s == [] then 0 else (if s[0].Some? then 1 else 0) + Populated(s[1..])
  }

  /** Total payload bytes of the populated slots. */
  function PayloadSize(s: Slots): nat
  {
    if s == [] then 0 else (if s[0].Some? then |s[0].value.data| else 0) + PayloadSize(s[1..])
  }

  lemma {:induction false} PopulatedAppend(a: Slots, b: Slots)
    ensures Populated(a + b) == Populated(a) + Populated(b)
  {
    if a == [] {
      assert a + b == b;
    } else {
      assert (a + b)[1..] == a[1..] + b;
      PopulatedAppend(a[1..], b);
    }
  }

  lemma {:induction false} PayloadSizeAppend(a: Slots, b: Slots)
    ensures PayloadSize(a + b) == PayloadSize(a) + PayloadSize(b)
  {
    if a == [] {
      assert a + b == b;
    } else {
      assert (a + b)[1..] == a[1..] + b;
      PayloadSizeAppend(a[1..], b);
    }
  }

  /** Every slot is populated exactly when the populated count is the length. */
  lemma {:induction false} PopulatedFull(s: Slots)
    ensures Populated(s) == |s| <==> forall j :: 0 <= j < |s| ==> s[j].Some?
  {
    if s != [] {
      PopulatedFull(s[1..]);
      if Populated(s) == |s| {
        assert s[0].Some? && Populated(s[1..]) == |s[1..]|;
        forall j | 0 <= j < |s| ensures s[j].Some? {
          if j > 0 { assert s[j] == s[1..][j - 1]; }
        }
      }
    }
  }

  /**
   * With slot 0 a hole, one slot fewer than the length is populated exactly
   * when every other slot is.
   */
  lemma {:induction false} OnlyFirstHole(s: Slots)
    requires s != [] && s[0].None?
    ensures Populated(s) == |s| - 1 <==> forall j :: 1 <= j < |s| ==> s[j].Some?
  {
    PopulatedFull(s[1..]);
    if forall j :: 1 <= j < |s| ==> s[j].Some? {
      forall j | 0 <= j < |s| - 1 ensures s[1..][j].Some? {
        assert s[1..][j] == s[j + 1];
      }
    } else {
      var j :| 1 <= j < |s| && s[j].None?;
      assert s[1..][j - 1].None?;
    }
  }

  function Holes(n: nat): (r: Slots)
    ensures |r| == n
  {
    if n == 0 then [] else [None] + Holes(n - 1)
  }

  lemma {:induction false} HolesAreHoles(n: nat)
    ensures forall j :: 0 <= j < n ==> Holes(n)[j] == None
  {
    if n > 0 {
      HolesAreHoles(n - 1);
      forall j | 0 < j < n ensures Holes(n)[j] == None {
        assert Holes(n)[j] == Holes(n - 1)[j - 1];
      }
    }
  }

  /**
   * `array[f.id] = f` on a JavaScript array: the slot at `f.id` is replaced,
   * and an index past the end lengthens the array with holes.
   */
  function Store(arr: Slots, f: Fragment): (r: Slots)
    ensures |r| == if f.id < |arr| then |arr| else f.id + 1
  {
    if f.id < |arr| then arr[f.id := Some(f)] else arr + Holes(f.id - |arr|) + [Some(f)]
  }

  /**
   * The slot at `f.id` holds `f`; every other slot keeps its fragment or hole,
   * and the new slots are holes.
   */
  lemma {:induction false} StoreSlots(arr: Slots, f: Fragment)
    ensures Store(arr, f)[f.id] == Some(f)
    ensures forall j {:trigger Store(arr, f)[j]} :: 0 <= j < |Store(arr, f)| && j != f.id ==>
              Store(arr, f)[j] == if j < |arr| then arr[j] else None
  {
    if f.id >= |arr| {
      HolesAreHoles(f.id - |arr|);
    }
  }

  /** Every populated slot holds the fragment whose id is that slot's index. */
  ghost predicate IdsMatch(s: Slots)
  {
    forall j :: 0 <= j < |s| && s[j].Some? ==> s[j].value.id == j
  }

  /**
   * The shape of an array filled only by `Store`: ids match indices and, as
   * JavaScript's `length` is one past the highest index assigned, the last
   * slot is populated.
   */
  ghost predicate WellStored(s: Slots)
  {
    IdsMatch(s) && (s != [] ==> s[|s| - 1].Some?)
  }

  lemma {:induction false} StoreKeepsWellStored(arr: Slots, f: Fragment)
    ensures WellStored(arr) ==> WellStored(Store(arr, f))
  {
    if WellStored(arr) {
      var r := Store(arr, f);
      StoreSlots(arr, f);
      assert r[|r| - 1].Some? by {
        if |r| - 1 != f.id {
          assert |r| == |arr| && arr[|arr| - 1].Some?;
        }
      }
    }
  }

  /** The array without its trailing holes. */
  function Trim(s: Slots): (r: Slots)
    ensures |r| <= |s|
    ensures r != [] ==> r[|r| - 1].Some?
  {
    if s == [] then [] else if s[|s| - 1].None? then Trim(s[..|s| - 1]) else s
  }

  /** Trimming keeps a prefix and drops only holes. */
  lemma {:induction false} TrimPrefix(s: Slots)
    ensures Trim(s) == s[..|Trim(s)|]
    ensures forall j :: |Trim(s)| <= j < |s| ==> s[j].None?
    decreases |s|
  {
    if s != [] && s[|s| - 1].None? {
      var q := s[..|s| - 1];
      TrimPrefix(q);
      assert q[..|Trim(q)|] == s[..|Trim(q)|];
    }
  }

  /** A trailing hole does not survive trimming. */
  lemma {:induction false} TrimHole(p: Slots)
    ensures Trim(p + [None]) == Trim(p)
    ensures Populated(p + [None]) == Populated(p)
  {
    assert (p + [None])[..|p|] == p;
    PopulatedAppend(p, [None]);
    assert Populated([None]) == 0;
  }

  /**
   * Storing a fragment whose id is the next index into the trimmed `p` gives
   * back `p` followed by that fragment: the trimmed holes are re-created.
   */
  lemma {:induction false} StoreAfterTrim(p: Slots, f: Fragment)
    requires f.id == |p|
    ensures Store(Trim(p), f) == p + [Some(f)] == Trim(p + [Some(f)])
    ensures Populated(p + [Some(f)]) == Populated(p) + 1
  {
    PopulatedAppend(p, [Some(f)]);
    assert Populated([Some(f)]) == 1;
    var t := Trim(p);
    TrimPrefix(p);
    var r := Store(t, f);
    StoreSlots(t, f);
    assert |r| == |p| + 1;
    forall k | 0 <= k < |p| + 1 ensures r[k] == (p + [Some(f)])[k] {
      if k < |t| {
        assert t[k] == p[k];
      }
    }
  }
}
