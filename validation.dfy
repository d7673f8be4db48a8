/**
 * The checks at the front of `save`: six mandatory metadata fields, the
 * roster normalisation with its single warning, and the non-empty keyframe
 * and chunk collections.
 */
module Validation {
  import opened Bytes
  import opened Replay

  /** The mandatory fields, in the order `save` checks them. */
  datatype Field = RegionId | GameId | RiotVersion | Key | EndStartupChunkId | StartGameChunkId

  /** Position of the field's check among the six. */
  function Rank(f: Field): nat
  {
    match f
    case RegionId => 0
    case GameId => 1
    case RiotVersion => 2
    case Key => 3
    case EndStartupChunkId => 4
    case StartGameChunkId => 5
  }

  /** The error text `save` reports for a missing field. */
  function Message(f: Field): string
  {
    match f
    case RegionId => "regionId missing"
    case GameId => "gameId missing"
    case RiotVersion => "riotVersion missing"
    case Key => "encryption key missing"
    case EndStartupChunkId => "endStartupChunkId missing"
    case StartGameChunkId => "startGameChunkId missing"
  }

  /** The field is absent or falsy (0, an empty string). */
  predicate Missing(g: Game, f: Field)
  {
    match f
    case RegionId => g.regionId == 0
    case GameId => g.gameId == 0
    case RiotVersion => g.riotVersion.None?
    case Key => g.key == []
    case EndStartupChunkId => g.endStartupChunkId == 0
    case StartGameChunkId => g.startGameChunkId == 0
  }

  /**
   * The field `save` reports: each failing check overwrites the error, so it
   * is the missing field that comes last in check order.
   */
  function LastMissing(g: Game): (r: Option<Field>)
    ensures r.None? <==> forall f :: !Missing(g, f)
    ensures r.Some? ==> Missing(g, r.value) && forall f :: Rank(r.value) < Rank(f) ==> !Missing(g, f)
  {
    if Missing(g, StartGameChunkId) then Some(StartGameChunkId)
    else if Missing(g, EndStartupChunkId) then Some(EndStartupChunkId)
    else if Missing(g, Key) then Some(Key)
    else if Missing(g, RiotVersion) then Some(RiotVersion)
    else if Missing(g, GameId) then Some(GameId)
    else if Missing(g, RegionId) then Some(RegionId)
    else None
  }

  /**
   * The six checks as `save` runs them, one overwriting the other: the text
   * is empty when every field is present, and otherwise names the missing
   * field that comes last in check order.
   */
  method CheckFields(g: Game) returns (error: string)
    ensures error == "" <==> LastMissing(g).None?
    ensures LastMissing(g).Some? ==> error == Message(LastMissing(g).value)
  {
    error := "";
    if g.regionId == 0 { error := Message(RegionId); }
    if g.gameId == 0 { error := Message(GameId); }
    if g.riotVersion.None? { error := Message(RiotVersion); }
    if g.key == [] { error := Message(Key); }
    if g.endStartupChunkId == 0 { error := Message(EndStartupChunkId); }
    if g.startGameChunkId == 0 { error := Message(StartGameChunkId); }
  }

  /** Each error text names one field, and no text is empty. */
  lemma MessageNames(f: Field, f': Field)
    ensures Message(f) != ""
    ensures Message(f) == Message(f') ==> f == f'
  {
  }

  /** The roster `save` encodes: an absent roster becomes the empty one. */
  function Roster(g: Game): (ps: seq<Player>)
    ensures g.players.Some? ==> ps == g.players.value
    ensures g.players.None? ==> ps == []
  {
    if g.players.Some? then g.players.value else []
  }

  /** The warnings of a successful `save`. */
  function Warnings(g: Game): (w: seq<string>)
    ensures w == [] || w == ["No players"]
    ensures w == ["No players"] <==> g.players == Some([])
  {
    if g.players.Some? && |g.players.value| == 0 then ["No players"] else []
  }

  datatype SaveError = MissingField(field: Field) | NoKeyframes | NoChunks

  /** The outcome of the checks: the first failing group wins. */
  function Validate(g: Game): (r: Option<SaveError>)
    ensures r.None? <==> (forall f :: !Missing(g, f)) && |g.keyframes| > 0 && |g.chunks| > 0
    ensures r == Some(NoKeyframes) <==> (forall f :: !Missing(g, f)) && |g.keyframes| == 0
    ensures r == Some(NoChunks) <==> (forall f :: !Missing(g, f)) && |g.keyframes| > 0 && |g.chunks| == 0
    ensures r.Some? && r.value.MissingField? ==> Some(r.value.field) == LastMissing(g)
  {
    match LastMissing(g)
    case Some(f) => Some(MissingField(f))
    case None =>
      if |g.keyframes| == 0 then Some(NoKeyframes)
      else if |g.chunks| == 0 then Some(NoChunks)
      else None
  }
}
