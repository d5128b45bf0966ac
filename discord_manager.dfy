/**
 * The presence manager: turns a game-state snapshot into a Discord rich-presence
 * record, caches map difficulty tiers, and watches whether the game process runs.
 *
 * The three process-wide static fields of the manager are the fields of one
 * `DiscordManager` object. The wall clock, the difficulty service's answer, the
 * process query and the failure of the display client's clear call are inputs.
 */
module RichPresenceApp {
  import opened Wrappers
  import opened GameState
  import opened Text
  import opened PresenceFormat

  // ---------------------------------------------------------------------------
  // The presence record handed to the display client

  datatype Timestamps = Timestamps(start: int)

  datatype Assets = Assets(largeImageKey: string, largeImageText: string)

  datatype RichPresence = RichPresence(
    details: string,
    state: string,
    assets: Assets,
    timestamps: Option<Timestamps>)

  /** The presence used when the snapshot is missing a section: shows a start only if one is set. */
  function DefaultPresence(start: Option<int>): (r: RichPresence)
    ensures r.assets.largeImageKey == "menu"
    ensures r.timestamps.Some? <==> start.Some?
    ensures start.Some? ==> r.timestamps.value.start == start.value
  {
    RichPresence("Main Menu", "In Menu", Assets("menu", "Menu"),
      if start.Some? then Some(Timestamps(start.value)) else None)
  }

  /**
   * The presence for a complete snapshot whose player is not playing: the default
   * presence stamped with `start`, differing from it only in the image text.
   */
  function MenuPresence(start: int): (r: RichPresence)
    ensures r == DefaultPresence(Some(start)).(assets := r.assets)
    ensures r.assets.largeImageKey == "menu" && r.assets.largeImageText != DefaultPresence(Some(start)).assets.largeImageText
  {
    RichPresence("Main Menu", "In Menu", Assets("menu", "Main Menu"), Some(Timestamps(start)))
  }

  /** Provider, map and player are all present: the guard a snapshot must pass. */
  predicate IsComplete(gameData: Option<TopLevel>) {
    && gameData.Some?
    && gameData.value.provider.Some?
    && gameData.value.mapInfo.Some?
    && gameData.value.player.Some?
  }

  predicate IsPlaying(player: Player) {
    player.activity == Some("playing")
  }

  /** A complete snapshot whose player is playing. */
  predicate IsPlayingSnapshot(gameData: Option<TopLevel>) {
    IsComplete(gameData) && IsPlaying(gameData.value.player.value)
  }

  /** A player without match statistics shows a zero timer, no teleports and no progress. */
  lemma NoMatchStatsShowZero(player: Player)
    requires player.matchStats.None?
    ensures TimerText(player.Kills()) == "00:00"
    ensures IntToString(player.Deaths()) == "0"
    ensures ProgressText(player.Score()) == "0.0%"
  {
    TimerTextExamples();
    ProgressTextExamples();
  }

  /** The exceptions that escape the manager. */
  datatype Exception = ArgumentNullException

  // ---------------------------------------------------------------------------
  // Difficulty lookup

  /** A C# `int`: the type `Value<int>()` converts the difficulty field to. */
  type Int32 = x: int | -0x8000_0000 <= x <= 0x7FFF_FFFF

  /**
   * What the difficulty service's GET-and-parse gave: a response whose `difficulty`
   * field may be absent, or a failure (network error, bad status, malformed JSON).
   */
  datatype Lookup = Fetched(difficulty: Option<Int32>) | Failed

  const DifficultyApi: string := "https://kztimerglobal.com/api/v2.0/maps/name/"

  /** The address asked for the difficulty of `mapName`. */
  function DifficultyUrl(mapName: string): string {
    DifficultyApi + mapName
  }

  /** The tier a lookup yields: an absent or non-positive difficulty and a failure give "T?". */
  function FetchedTier(lookup: Lookup): (r: string)
    ensures IsTierLabel(r)
    ensures r != "T?" <==> lookup.Fetched? && lookup.difficulty.GetOr(0) > 0
  {
    match lookup
    case Fetched(difficulty) => TierLabel(difficulty.GetOr(0))
    case Failed => "T?"
  }

  /**
   * The cache after asking for `name`: a miss answered by the service adds `name`;
   * a hit and a failed lookup leave it as it was.
   */
  function CacheAfter(cache: map<string, string>, name: string, lookup: Lookup): (r: map<string, string>)
    ensures forall k :: k in cache ==> k in r && r[k] == cache[k]
    ensures r.Keys <= cache.Keys + {name}
    ensures name in r <==> name in cache || lookup.Fetched?
  {
    if name in cache || lookup.Failed? then cache else cache[name := FetchedTier(lookup)]
  }

  /** The tier returned when asking for `name`: the cached one on a hit, else the lookup's. */
  function TierAfter(cache: map<string, string>, name: string, lookup: Lookup): (r: string)
    ensures name in CacheAfter(cache, name, lookup) ==> r == CacheAfter(cache, name, lookup)[name]
    ensures name !in cache ==> IsTierLabel(r)
  {
    if name in cache then cache[name] else FetchedTier(lookup)
  }

  /** Once a lookup for `name` succeeded, every later call is served from the cache. */
  lemma CachedAfterSuccess(cache: map<string, string>, name: string, first: Lookup, later: Lookup)
    requires first.Fetched?
    ensures var c := CacheAfter(cache, name, first);
      && name in c
      && CacheAfter(c, name, later) == c
      && TierAfter(c, name, later) == TierAfter(cache, name, first)
  {
  }

  /** A failed lookup leaves the map uncached, so the next call asks again and can succeed. */
  lemma RetryAfterFailure(cache: map<string, string>, name: string, later: Lookup)
    requires name !in cache
    ensures CacheAfter(cache, name, Failed) == cache
    ensures TierAfter(CacheAfter(cache, name, Failed), name, later) == FetchedTier(later)
  {
  }

  // ---------------------------------------------------------------------------
  // Process watchdog

  /** The running-to-stopped edge: the only transition the watchdog acts on. */
  predicate StopEdge(wasRunning: bool, runningNow: bool) {
    wasRunning && !runningNow
  }

  /**
   * For consecutive watchdog ticks observing `ticks`, starting with the flag `last`,
   * whether each tick clears the presence.
   */
  function ClearsOnTicks(last: bool, ticks: seq<bool>): (r: seq<bool>)
    ensures |r| == |ticks|
    ensures forall i :: 0 <= i < |ticks| ==>
      r[i] == StopEdge(if i == 0 then last else ticks[i - 1], ticks[i])
    decreases |ticks|
  {
    if ticks == [] then [] else [StopEdge(last, ticks[0])] + ClearsOnTicks(ticks[0], ticks[1..])
  }

  /** Observing one more tick appends that tick's edge to the clears. */
  lemma ClearsOnTicksSnoc(last: bool, ticks: seq<bool>, now: bool)
    ensures ClearsOnTicks(last, ticks + [now])
      == ClearsOnTicks(last, ticks) + [StopEdge(if ticks == [] then last else ticks[|ticks| - 1], now)]
  {
    var t := ticks + [now];
    var r := ClearsOnTicks(last, t);
    var q := ClearsOnTicks(last, ticks);
    assert forall i :: 0 <= i < |ticks| ==> r[i] == q[i] by {
      forall i | 0 <= i < |ticks| ensures r[i] == q[i] {
        assert t[i] == ticks[i];
        assert i > 0 ==> t[i - 1] == ticks[i - 1];
      }
    }
    assert t[|ticks|] == now;
    assert ticks != [] ==> t[|ticks| - 1] == ticks[|ticks| - 1];
    assert r[|ticks|] == StopEdge(if ticks == [] then last else ticks[|ticks| - 1], now);
  }

  /** Some tick among `clears` cleared the presence without the clear call raising. */
  predicate ClearSucceeded(clears: seq<bool>, clearThrows: seq<bool>)
    requires |clears| <= |clearThrows|
  {
    exists k :: 0 <= k < |clears| && clears[k] && !clearThrows[k]
  }

  lemma ClearSucceededSnoc(clears: seq<bool>, clearThrows: seq<bool>, c: bool)
    requires |clears| < |clearThrows|
    ensures ClearSucceeded(clears + [c], clearThrows)
      == (ClearSucceeded(clears, clearThrows) || (c && !clearThrows[|clears|]))
  {
    var t := clears + [c];
    if ClearSucceeded(clears, clearThrows) {
      var k :| 0 <= k < |clears| && clears[k] && !clearThrows[k];
      assert t[k] == clears[k];
    }
    if ClearSucceeded(t, clearThrows) && !(c && !clearThrows[|clears|]) {
      var k :| 0 <= k < |t| && t[k] && !clearThrows[k];
      assert k < |clears| && clears[k] == t[k];
    }
    if c && !clearThrows[|clears|] {
      assert t[|clears|] == c;
    }
  }

  /** Running, running, stopped, stopped: one clear, on the third tick. */
  lemma WatchdogExample()
    ensures ClearsOnTicks(false, [true, true, false, false]) == [false, false, true, false]
  {
  }

  /** Between two clears the process was seen running again. */
  lemma ClearsSeparatedByRun(last: bool, ticks: seq<bool>, i: nat, j: nat)
    requires i < j < |ticks|
    requires ClearsOnTicks(last, ticks)[i] && ClearsOnTicks(last, ticks)[j]
    ensures i + 1 < j && ticks[j - 1]
  {
    var r := ClearsOnTicks(last, ticks);
    assert r[i] == StopEdge(if i == 0 then last else ticks[i - 1], ticks[i]);
    assert r[j] == StopEdge(ticks[j - 1], ticks[j]);
  }

  // ---------------------------------------------------------------------------
  // The manager's state and operations

  class DiscordManager {
    /** When the current session was first seen; None between sessions. */
    var gameStartUtc: Option<int>
    /** Map name to tier label, filled lazily from the difficulty service. */
    var difficultyCache: map<string, string>
    /** Whether the game process was running at the previous watchdog tick. */
    var csgoRunningLast: bool
    /** Every request made to the difficulty service, in order. */
    ghost var requests: seq<string>

    /** Every cached value is a tier label, and was obtained by asking the service. */
    ghost predicate Valid()
      reads this
    {
      && (forall name :: name in difficultyCache ==> IsTierLabel(difficultyCache[name]))
      && (forall name :: name in difficultyCache ==> DifficultyUrl(name) in requests)
    }

    /** The state at process start: no session, an empty cache, the game not seen running. */
    constructor ()
      ensures Valid()
      ensures gameStartUtc == None && difficultyCache == map[] && !csgoRunningLast
      ensures requests == []
    {
      gameStartUtc := None;
      difficultyCache := map[];
      csgoRunningLast := false;
      requests := [];
    }

    /**
     * One watchdog tick. On the running-to-stopped edge it asks the display client to
     * clear the presence (`clearRequested`) and then ends the session; the session is
     * not ended when that clear call raises (`clearThrows`), since the exception skips
     * the rest of the guarded block. The flag always becomes the observation.
     */
    method CheckCsgoProcess(runningNow: bool, clearThrows: bool) returns (clearRequested: bool)
      requires Valid()
      modifies this`gameStartUtc, this`csgoRunningLast
      ensures Valid()
      ensures clearRequested == StopEdge(old(csgoRunningLast), runningNow)
      ensures gameStartUtc == if clearRequested && !clearThrows then None else old(gameStartUtc)
      ensures csgoRunningLast == runningNow
    {
      clearRequested := false;
      if csgoRunningLast && !runningNow {
        clearRequested := true;
        if !clearThrows {
          gameStartUtc := None;
        }
      }
      csgoRunningLast := runningNow;
    }

    /**
     * The periodic timer's ticks, one `CheckCsgoProcess` per observation in `ticks`,
     * the clear call raising on tick `k` when `clearThrows[k]`. Whether each tick
     * clears follows `ClearsOnTicks`; the session ends when a clear succeeds.
     */
    method RunWatchdog(ticks: seq<bool>, clearThrows: seq<bool>) returns (clears: seq<bool>)
      requires Valid() && |clearThrows| == |ticks|
      modifies this`gameStartUtc, this`csgoRunningLast
      ensures Valid()
      ensures clears == ClearsOnTicks(old(csgoRunningLast), ticks)
      ensures csgoRunningLast == if ticks == [] then old(csgoRunningLast) else ticks[|ticks| - 1]
      ensures gameStartUtc == if ClearSucceeded(clears, clearThrows) then None else old(gameStartUtc)
    {
      clears := [];
      var i := 0;
      while i < |ticks|
        invariant 0 <= i <= |ticks|
        invariant Valid()
        invariant clears == ClearsOnTicks(old(csgoRunningLast), ticks[..i])
        invariant csgoRunningLast == if i == 0 then old(csgoRunningLast) else ticks[i - 1]
        invariant gameStartUtc == if ClearSucceeded(clears, clearThrows) then None else old(gameStartUtc)
      {
        var cleared := CheckCsgoProcess(ticks[i], clearThrows[i]);
        ClearsOnTicksSnoc(old(csgoRunningLast), ticks[..i], ticks[i]);
        ClearSucceededSnoc(clears, clearThrows, cleared);
        assert ticks[..i + 1] == ticks[..i] + [ticks[i]];
        clears := clears + [cleared];
        i := i + 1;
      }
      assert ticks[..i] == ticks;
    }

    /**
     * The tier label of `mapName`: from the cache when present, without asking the
     * service; otherwise from one request, caching the answer unless the request failed.
     */
    method GetMapDifficulty(mapName: string, lookup: Lookup) returns (tier: string)
      requires Valid()
      modifies this`difficultyCache, this`requests
      ensures Valid()
      ensures IsTierLabel(tier)
      ensures mapName in old(difficultyCache) ==>
        && tier == old(difficultyCache)[mapName]
        && difficultyCache == old(difficultyCache)
        && requests == old(requests)
      ensures mapName !in old(difficultyCache) ==>
        && tier == FetchedTier(lookup)
        && requests == old(requests) + [DifficultyUrl(mapName)]
      ensures tier == TierAfter(old(difficultyCache), mapName, lookup)
      ensures difficultyCache == CacheAfter(old(difficultyCache), mapName, lookup)
    {
      if mapName in difficultyCache {
        return difficultyCache[mapName];
      }
      requests := requests + [DifficultyUrl(mapName)];
      match lookup
      case Fetched(difficulty) =>
        var diff := difficulty.GetOr(0);
        tier := TierLabel(diff);
        difficultyCache := difficultyCache[mapName := tier];
      case Failed =>
        // The failure is logged and swallowed; nothing is cached.
        tier := "T?";
    }

    /**
     * The presence for one snapshot. An incomplete snapshot gives the default presence
     * and changes nothing. A complete one starts the session if none is running; a
     * playing player then gets the map, tier, mode, timer, teleports and progress, and
     * anyone else the menu presence, both stamped with the session start. A playing
     * player on a map without a name makes the cache lookup throw.
     */
    method BuildPresenceFromData(gameData: Option<TopLevel>, now: int, lookup: Lookup)
      returns (r: Result<RichPresence, Exception>)
      requires Valid()
      modifies this`gameStartUtc, this`difficultyCache, this`requests
      ensures Valid()
      ensures !IsComplete(gameData) ==>
        && r == Success(DefaultPresence(old(gameStartUtc)))
        && gameStartUtc == old(gameStartUtc)
      ensures IsComplete(gameData) ==>
        gameStartUtc == Some(if old(gameStartUtc).Some? then old(gameStartUtc).value else now)
      ensures IsComplete(gameData) && r.Success? ==>
        r.value.timestamps == Some(Timestamps(gameStartUtc.value))
      ensures !IsPlayingSnapshot(gameData) || gameData.value.mapInfo.value.name.None? ==>
        difficultyCache == old(difficultyCache) && requests == old(requests)
      ensures IsComplete(gameData) && !IsPlayingSnapshot(gameData) ==>
        r == Success(MenuPresence(gameStartUtc.value))
      ensures IsPlayingSnapshot(gameData) && gameData.value.mapInfo.value.name.None? ==>
        r == Failure(ArgumentNullException)
      ensures IsPlayingSnapshot(gameData) && gameData.value.mapInfo.value.name.Some? ==>
        var player := gameData.value.player.value;
        var name := gameData.value.mapInfo.value.name.value;
        var tier := TierAfter(old(difficultyCache), name, lookup);
        && difficultyCache == CacheAfter(old(difficultyCache), name, lookup)
        && requests == (if name in old(difficultyCache) then old(requests)
                        else old(requests) + [DifficultyUrl(name)])
        && r == Success(RichPresence(
             "Playing " + name + " " + tier,
             "[" + KzMode(player.clan) + "] " + TimerText(player.Kills())
               + " | TP: " + IntToString(player.Deaths()) + " | " + ProgressText(player.Score()),
             Assets(name, "Playing on " + name),
             Some(Timestamps(gameStartUtc.value))))
    {
      var presence := DefaultPresence(gameStartUtc);
      if !IsComplete(gameData) {
        return Success(presence);
      }
      if gameStartUtc.None? {
        gameStartUtc := Some(now);
      }
      var player := gameData.value.player.value;
      var mapInfo := gameData.value.mapInfo.value;
      if IsPlaying(player) {
        var timerText := TimerText(player.Kills());
        var tp := player.Deaths();
        var progressText := ProgressText(player.Score());
        var kzMode := KzMode(player.clan);
        if mapInfo.name.None? {
          // The cache is a dictionary, whose lookup rejects a null key.
          return Failure(ArgumentNullException);
        }
        var name := mapInfo.name.value;
        var tier := GetMapDifficulty(name, lookup);
        presence := RichPresence(
          "Playing " + name + " " + tier,
          "[" + kzMode + "] " + timerText + " | TP: " + IntToString(tp) + " | " + progressText,
          Assets(name, "Playing on " + name),
          Some(Timestamps(gameStartUtc.value)));
      } else {
        presence := MenuPresence(gameStartUtc.value);
      }
      r := Success(presence);
    }
  }

  // ---------------------------------------------------------------------------
  // A session, end to end

  /**
   * Two snapshots, then the game exits (ticks: running, running, stopped, stopped),
   * then a snapshot of the next launch. Both presences of the first session carry
   * its first start; the watchdog clears once; the next session starts afresh.
   */
  method SessionLifecycle(snapshot: TopLevel, t1: int, t2: int, t3: int)
    returns (p1: Result<RichPresence, Exception>, p2: Result<RichPresence, Exception>,
             clears: seq<bool>, p3: Result<RichPresence, Exception>)
    requires IsComplete(Some(snapshot)) && snapshot.mapInfo.value.name.Some?
    requires t1 < t2 < t3
    ensures p1.Success? && p1.value.timestamps == Some(Timestamps(t1))
    ensures p2.Success? && p2.value.timestamps == Some(Timestamps(t1))
    ensures clears == [false, false, true, false]
    ensures p3.Success? && p3.value.timestamps == Some(Timestamps(t3))
  {
    var manager := new DiscordManager();
    p1 := manager.BuildPresenceFromData(Some(snapshot), t1, Failed);
    p2 := manager.BuildPresenceFromData(Some(snapshot), t2, Failed);
    var c1 := manager.CheckCsgoProcess(true, false);
    var c2 := manager.CheckCsgoProcess(true, false);
    var c3 := manager.CheckCsgoProcess(false, false);
    var c4 := manager.CheckCsgoProcess(false, false);
    clears := [c1, c2, c3, c4];
    p3 := manager.BuildPresenceFromData(Some(snapshot), t3, Failed);
  }
}
