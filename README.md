# GOKZ Discord rich presence: a Dafny model of the presence manager

The program watches a CS:GO client that runs KZ (climbing) maps. It turns each
game-state-integration snapshot into a Discord "rich presence" record and keeps
three pieces of process-wide state:

- **the session start.** It is set on the first snapshot that carries provider,
  map and player sections. The process watchdog clears it when the game exits.
- **the difficulty cache.** It maps a map name to a tier label ("T1", "T2", ... or
  "T?"), filled lazily from the KZTimer Global API.
- **the watchdog flag.** It records whether the game process was running at the
  previous tick, so that only the running-to-stopped edge clears the presence.

On KZ servers the match statistics are repurposed. `kills` is the run timer in
seconds, `deaths` is the teleport count and `score` is map progress in tenths of
a percent. The clan tag carries the KZ mode, e.g. `[KZT Semipro]`.

## Layout

- `wrappers.dfy` (`Wrappers`): `Option` (a nullable reference) and `Result` (a
  returned value or a thrown exception).
- `game_state.dfy` (`GameState`): the snapshot classes of `src/Classes/GameState.cs`
  as datatypes. Every reference-typed member is an `Option`, and `long` is a 64-bit
  subset type. The C# member `Map` is named `mapInfo`, because `map` is a Dafny
  keyword. `Player.Kills()`, `Deaths()` and `Score()` are the `MatchStats?.X ?? 0`
  reads.
- `text.dfy` (`Text`): the .NET primitives the code relies on. These are integer
  rendering, `Char.IsWhiteSpace`, `String.IsNullOrWhiteSpace`, `IndexOf`,
  `Split(' ', RemoveEmptyEntries)` and `ToUpperInvariant`. Each comes with a
  reference reading: digits read back to the number, and split tokens
  concatenate to the text without its spaces.
- `presence_format.dfy` (`PresenceFormat`): the pure parts of the presence text.
  These are the elapsed timer, the progress percentage, the KZ mode and the tier
  label.
- `discord_manager.dfy` (`RichPresenceApp`): the class `DiscordManager`. It has
  the three static fields as fields, plus a ghost log of requests made to the
  difficulty service. Its methods are `CheckCsgoProcess`, `RunWatchdog` (the periodic timer),
  `GetMapDifficulty` and `BuildPresenceFromData`. Beside it are the specification functions `CacheAfter`,
  `TierAfter` and `ClearsOnTicks`, and lemmas about them.

Inputs that stand for the outside world:

- the clock is an integer `now`;
- the HTTP GET plus JSON parse is a `Lookup` (`Fetched(difficulty?)` or `Failed`);
- the process query is a boolean `runningNow`;
- a failure of the display client's clear call is a boolean `clearThrows`.

Where the code's behaviour is easy to misread, the model follows the code:

- **Failed lookups are not cached.** A failed difficulty lookup returns "T?" and
  writes nothing (`src/Classes/DiscordManager.cs:103-107`), so the next call asks
  again. Only an answered lookup is cached, including a zero or absent difficulty
  as "T?".
- **A failing clear skips the reset.** If the display client's clear call throws,
  the session start is not reset. The reset sits after the clear inside the same
  `try` (`src/Classes/DiscordManager.cs:62-68`). The watchdog flag is still updated.
- **The default presence.** For an incomplete snapshot the presence has image text
  "Menu". It carries the session start if one is already set
  (`src/Classes/DiscordManager.cs:113-123`).
- **Only spaces split the clan tag.** The text between the brackets is split on
  the space character U+0020 alone. The first token is then tested with
  `IsNullOrWhiteSpace` (`src/Classes/DiscordManager.cs:159-161`). So a token made
  only of tabs gives the default mode.
- **A map without a name throws.** If a playing player's snapshot has a map with
  no name, the cache lookup throws `ArgumentNullException`
  (`src/Classes/DiscordManager.cs:89`). `BuildPresenceFromData` returns that as
  `Failure`, after the session start has been set.

## Model

| member | source | states |
|---|---|---|
| RichPresenceApp.DiscordManager.constructor | src/Classes/DiscordManager.cs:18-26 | At process start no session is running, the cache is empty and the game has not been seen running. |
| RichPresenceApp.DiscordManager.CheckCsgoProcess | src/Classes/DiscordManager.cs:55-72 | The clear is requested exactly on the running-to-stopped edge. The session start is reset then, unless the clear call throws. The flag always becomes the current observation. The cache is untouched. |
| RichPresenceApp.DiscordManager.RunWatchdog | src/Classes/DiscordManager.cs:49-72 | The periodic timer running `CheckCsgoProcess` once per observation: the clears it requests are exactly `ClearsOnTicks` of the initial flag and the observations. The flag ends as the last observation. The session start is reset exactly when some clear went through without the clear call raising. |
| RichPresenceApp.ClearsOnTicks | src/Classes/DiscordManager.cs:55-72 | Over a run of ticks, tick i clears exactly when the previous observation (the initial flag for tick 0) was running and tick i is not. |
| RichPresenceApp.WatchdogExample | src/Classes/DiscordManager.cs:60-71 | Ticks running, running, stopped, stopped clear once, on the third tick. |
| RichPresenceApp.ClearsSeparatedByRun | src/Classes/DiscordManager.cs:60-71 | Between any two clears there is at least one tick in between, and the tick just before the later clear saw the game running. |
| RichPresenceApp.DiscordManager.GetMapDifficulty | src/Classes/DiscordManager.cs:87-108 | On a hit it returns the cached tier, makes no request and leaves the cache unchanged. On a miss it makes one request. An answer is cached as `TierLabel(difficulty ?? 0)`. A failure returns "T?" and caches nothing. Existing entries are never overwritten. Every cached value is a tier label that came from a request (`Valid`). |
| RichPresenceApp.FetchedTier | src/Classes/DiscordManager.cs:96-106 | The tier of a lookup is a tier label. It differs from "T?" exactly when the service answered with a positive difficulty. |
| RichPresenceApp.CacheAfter | src/Classes/DiscordManager.cs:89-101 | After a call, every old entry is kept with its value. The only key that can be added is the map asked for. It is present afterwards exactly when it was cached before or the service answered. |
| RichPresenceApp.TierAfter | src/Classes/DiscordManager.cs:89-106 | The tier returned is the one the cache holds for the map after the call, whenever it holds one. On a miss it is a tier label. |
| RichPresenceApp.CachedAfterSuccess | src/Classes/DiscordManager.cs:89-101 | After one answered lookup, later calls for the same map are served from the cache. They return the same tier and leave the cache unchanged, so two calls make at most one request. |
| RichPresenceApp.RetryAfterFailure | src/Classes/DiscordManager.cs:103-107 | A failed lookup leaves the map uncached, so the next call returns whatever the next lookup yields. |
| RichPresenceApp.DefaultPresence | src/Classes/DiscordManager.cs:113-123 | The default presence shows the menu image and carries a start exactly when the session start is set, and then that start. |
| RichPresenceApp.MenuPresence | src/Classes/DiscordManager.cs:185-195 | The non-playing presence is the default presence stamped with the start, differing from it only in the image text. |
| RichPresenceApp.NoMatchStatsShowZero | src/Classes/DiscordManager.cs:136-147 | Missing match statistics count as zero: the timer shows "00:00", the teleports "0" and the progress "0.0%". |
| RichPresenceApp.DiscordManager.BuildPresenceFromData | src/Classes/DiscordManager.cs:110-199 | An incomplete snapshot gives the default menu presence, with the start only if already set, and changes no state. A complete one sets the session start to `now` only if unset. The presence then carries exactly that start. A non-playing player gets the "Main Menu" presence. A playing one gets "Playing map tier", the state "[mode] timer \| TP: n \| progress", image key map and text "Playing on map". The tier and cache follow `TierAfter` and `CacheAfter`. A missing map name throws. |
| RichPresenceApp.SessionLifecycle | src/Classes/DiscordManager.cs:55-131 | Both presences of a session carry the session's first start. The exit ticks clear once. The next session's presence carries its own later start. |
| PresenceFormat.TimerText | src/Classes/DiscordManager.cs:136-140 | Below an hour the display has five characters with ':' in the middle. From an hour on it has seven or eight, with ':' before the minutes and before the seconds. It holds only digits and ':', so a negative timer shows no sign. |
| PresenceFormat.TimerTextBelowHour | src/Classes/DiscordManager.cs:136-140 | Below 3600 seconds the timer is two-digit minutes, ':', two-digit seconds. It reads back to the absolute elapsed time modulo one hour. |
| PresenceFormat.TimerTextFromHour | src/Classes/DiscordManager.cs:136-140 | From 3600 seconds on the timer is unpadded hours below 24, ':', two-digit minutes, ':', two-digit seconds. It reads back to the elapsed time modulo one day. |
| PresenceFormat.TimerTextExamples | src/Classes/DiscordManager.cs:136-140 | 125 shows "02:05", 0 shows "00:00", 3725 shows "1:02:05", and a day more than 3725 shows the same. |
| PresenceFormat.ProgressText | src/Classes/DiscordManager.cs:146-147 | The progress text ends in '.', one character and '%'. It starts with '-' for a negative score and with a digit otherwise. |
| PresenceFormat.ProgressTextMeaning | src/Classes/DiscordManager.cs:146-147 | The progress is an optional '-' (exactly for negative scores), the whole part without leading zeros, '.', one digit and '%'. Whole part times ten plus the digit is the absolute score. |
| PresenceFormat.ProgressTextExamples | src/Classes/DiscordManager.cs:146-147 | 47 shows "4.7%", 0 shows "0.0%", 1000 shows "100.0%" and -5 shows "-0.5%". |
| PresenceFormat.KzMode | src/Classes/DiscordManager.cs:150-163 | The mode is never empty, contains no space and has no lower-case ASCII letter. |
| PresenceFormat.BracketContents | src/Classes/DiscordManager.cs:154-158 | There are bracket contents exactly when some '[' comes before some ']'. They are then the text strictly between the first '[' and the first ']' after it. |
| PresenceFormat.ModeOfToken | src/Classes/DiscordManager.cs:159-161 | A missing or whitespace-only token gives "KZT". Any other gives the token itself with every letter in upper case: same length, equal up to case, with no lower-case ASCII letter. |
| PresenceFormat.KzModeWithoutBrackets | src/Classes/DiscordManager.cs:150-163 | With no clan tag, or no '[' followed later by ']', the mode is "KZT". |
| PresenceFormat.KzModeBlankBrackets | src/Classes/DiscordManager.cs:154-161 | When only spaces (or nothing) lie between the first '[' and the first ']' after it, the mode is "KZT". |
| PresenceFormat.KzModeFromBrackets | src/Classes/DiscordManager.cs:154-161 | When the text between the first '[' and the first ']' after it is spaces then a word, the mode is that word upper-cased. If the word is whitespace only, the mode is "KZT". |
| PresenceFormat.KzModeExamples | src/Classes/DiscordManager.cs:149-163 | "[KZT Semipro] Player" gives "KZT", "[skz] runner" gives "SKZ", and "NoBrackets", "[] empty", "]vnl[" and no tag give "KZT". |
| PresenceFormat.TierLabel | src/Classes/DiscordManager.cs:99 | The label is a tier label. It is "T?" exactly when the difficulty is not positive. |
| PresenceFormat.TierRoundTrip | src/Classes/DiscordManager.cs:98-99 | Parsing the label gives back a positive difficulty, and gives nothing otherwise. |
| Text.NatToString | src/Classes/DiscordManager.cs:171 | The rendering is non-empty decimal digits without a leading zero (except "0" itself), one digit exactly below ten. |
| Text.NatToStringRoundTrip | src/Classes/DiscordManager.cs:171 | Reading the digits back gives the number. |
| Text.IntToString | src/Classes/DiscordManager.cs:171 | The rendering is non-empty, starts with '-' exactly for negatives, and is digits after that. |
| Text.IntToStringMeaning | src/Classes/DiscordManager.cs:143-171 | The teleport count renders as '-' exactly for negatives, followed by the digits of its absolute value without leading zeros. |
| Text.Pad2 | src/Classes/DiscordManager.cs:139-140 | The `mm` and `ss` fields are two digits that read back to the number. |
| Text.IndexOf | src/Classes/DiscordManager.cs:154-155 | The result is the first position at or after the start holding the character, or -1 exactly when there is none. |
| Text.Split | src/Classes/DiscordManager.cs:159 | Every token is non-empty and space-free. There are no tokens exactly when the text is all spaces. |
| Text.FirstToken | src/Classes/DiscordManager.cs:159 | The first token is null exactly when the text is all spaces, and otherwise a non-empty word without spaces. |
| Text.IsWhiteSpace | src/Classes/DiscordManager.cs:152-160 | On ASCII, whitespace is exactly space, tab, LF, VT, FF and CR. No whitespace character is a letter, a digit or a bracket. |
| Text.IsNullOrWhiteSpace | src/Classes/DiscordManager.cs:152-160 | Null text, and text of spaces alone (including empty text), is blank. Text holding a bracket never is. |
| Text.SplitKeepsText | src/Classes/DiscordManager.cs:159 | The tokens, concatenated, are the text without its spaces, in order. |
| Text.SplitFirst | src/Classes/DiscordManager.cs:159 | Leading spaces, then a word ended by a space or the end: the first token is that word. |
| Text.ToUpperInvariant | src/Classes/DiscordManager.cs:161 | The result has the same length. Each lower-case ASCII letter becomes its capital, and every other character is kept, so no lower-case ASCII letter remains. |

## Left out

- `Initialize` (`src/Classes/DiscordManager.cs:28-53`): the Discord client, its callbacks and the 3-second timer. This is third-party I/O and scheduling. A watchdog tick is a call of `CheckCsgoProcess`, and a run of the timer is `RunWatchdog` over the observations it makes.
- `IsProcessRunning` (`src/Classes/DiscordManager.cs:74-85`): an OS process query. It is the boolean input `runningNow`, with a failed query already read as `false`.
- The HTTP GET and `JObject.Parse` (`src/Classes/DiscordManager.cs:94-98`): network and JSON calls. Their outcome is the `Lookup` input. An absent `difficulty` is `Fetched(None)`. Any value `Value<int>()` converts is `Fetched(Some(d))`: a fractional number is rounded, integer text (such as "5" or " +5 ") is parsed and `true` is 1. Text with a decimal point or an exponent throws, and is `Failed`. A JSON null, non-numeric text, an object or array, or a value outside the 32-bit range throws, and is `Failed`.
- `Client?.ClearPresence()`: its only effect is on the display client. The model reports the request as `clearRequested` and its failure as the input `clearThrows`.
- Console logging: it is output only.
- `DateTime.UtcNow`: the time is the parameter `now`. The conversion of `Timestamps.Start` to the wire format belongs to the client library.
- Races between the timer thread and the snapshot callback on the shared statics: the model runs calls one at a time.
- `TopLevel.FromJson`, `Serialize.ToJson` and `Converter` in `src/Classes/GameState.cs`: JSON mapping by a library. The `previously` block is kept in the datatypes but nothing reads it.
- RichPresenceApp.DiscordManager.BuildPresenceFromData: the display library's `RichPresence` and `Assets` setters trim each string, store an empty result as null, and throw once the trimmed text is past its length limit (128 UTF-8 bytes for details, state and image text; a version-dependent limit for the image key). So a long or space-padded map name or clan tag can give a trimmed field, or an exception after the session start and the cache have been updated. The model keeps every string as built and never fails this way, because these checks live in the third-party library.
- PresenceFormat.TimerText: `TimeSpan.FromSeconds` throws for timers beyond about 9.2e11 seconds. The model formats every value.
- PresenceFormat.ProgressText: the source divides a `double` and formats it. The model is exact on integers. .NET formats a `double` to 15 significant digits before applying the custom format, so the two agree for |score| below 10^15 only. For example 1234567890123457 shows as "123456789012346.0%" in the source and "123456789012345.7%" in the model.
- PresenceFormat.ProgressText: the decimal separator and the negative sign are the current culture's. The model always uses '.' and '-', as the invariant culture does.
- Text.IntToString: the teleport count `{tp}` is rendered with the current culture's negative sign. The model always uses '-', as the invariant culture does.
- Text.ToUpperInvariant: the model upper-cases ASCII letters only. .NET also maps non-ASCII letters.
- Text.IsWhiteSpace: the model's characters are Unicode scalar values, while C# strings are UTF-16 code units. Surrogate pairs are not distinguished.
