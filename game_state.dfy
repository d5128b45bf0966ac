/**
 * The shape of a game-state-integration snapshot, as the game client sends it.
 * Every reference-typed member of the C# classes may be null when the JSON lacks it,
 * so each becomes an Option; every `long` member defaults to 0 when absent.
 */
module GameState {
  import opened Wrappers

  /** A C# `long`: a signed 64-bit integer. */
  type Long = x: int | -0x8000_0000_0000_0000 <= x <= 0x7FFF_FFFF_FFFF_FFFF

  datatype TopLevel = TopLevel(
    provider: Option<Provider>,
    mapInfo: Option<Map>,
    player: Option<Player>,
    previously: Option<Previously>)

  datatype Map = Map(
    mode: Option<string>,
    name: Option<string>,
    phase: Option<string>,
    round: Long,
    teamCt: Option<Team>,
    teamT: Option<Team>,
    numMatchesToWinSeries: Long,
    currentSpectators: Long,
    souvenirsTotal: Long)

  datatype Team = Team(
    score: Long,
    consecutiveRoundLosses: Long,
    timeoutsRemaining: Long,
    matchesWonThisSeries: Long)

  datatype Player = Player(
    steamid: Option<string>,
    clan: Option<string>,
    name: Option<string>,
    observerSlot: Long,
    team: Option<string>,
    activity: Option<string>,
    matchStats: Option<MatchStats>,
    state: Option<State>)
  {
    /** `MatchStats?.Kills ?? 0`: the timer in seconds on KZ servers. */
    function Kills(): Long {
      if matchStats.Some? then matchStats.value.kills else 0
    }

    /** `MatchStats?.Deaths ?? 0`: the teleport count on KZ servers. */
    function Deaths(): Long {
      if matchStats.Some? then matchStats.value.deaths else 0
    }

    /** `MatchStats?.Score ?? 0`: map progress in tenths of a percent on KZ servers. */
    function Score(): Long {
      if matchStats.Some? then matchStats.value.score else 0
    }
  }

  datatype MatchStats = MatchStats(
    kills: Long,
    assists: Long,
    deaths: Long,
    mvps: Long,
    score: Long)

  datatype State = State(
    health: Long,
    armor: Long,
    helmet: bool,
    defusekit: bool,
    flashed: Long,
    smoked: Long,
    burning: Long,
    money: Long,
    roundKills: Long,
    roundKillhs: Long,
    equipValue: Long)

  datatype Provider = Provider(
    name: Option<string>,
    appid: Long,
    version: Long,
    steamid: Option<string>,
    timestamp: Long)

  /** The optional "previously" block; nothing in the presence logic reads it. */
  datatype Previously = Previously(player: Option<PreviouslyPlayer>)

  datatype PreviouslyPlayer = PreviouslyPlayer(matchStats: Option<PreviouslyMatchStats>)

  datatype PreviouslyMatchStats = PreviouslyMatchStats(
    kills: Option<Long>,
    assists: Option<Long>,
    deaths: Option<Long>,
    mvps: Option<Long>,
    score: Option<Long>)
}
