# Toolorant stream hunter and region discovery, modelled in Dafny

This project models the two pieces of decision logic in Toolorant, a companion tool for a
competitive shooter.

- **The stream hunter** (`StreamHunter`). Given the current match, it:
  - finds the local player's team and keeps the players of the other team;
  - asks every streaming platform whether each enemy is live, taking one live response per
    platform;
  - falls back to scraping the enemy's profile page only when no platform reported a stream;
  - removes duplicate links;
  - reports the links per enemy under the key (player name, agent name);
  - caches the result under the match id.
- **The game-API client's region discovery** (`CustomClient`). It reads the game's log file,
  takes the region from the first line that mentions `regions`, and builds the client on that
  region. It uses the `region` argument only when the log yields nothing usable, and raises
  `RegionError` when neither is usable.

Everything the logic calls out to is a parameter:
- the player-name lookup, the agent table and the `Player` name logic;
- each platform's `get_live(get_response(name))`;
- the profile scrape;
- the match fetch;
- the log file's lines and the bytes-to-text decoder.

Files:
- `wrappers.dfy` holds `Option` and `Result`.
- `pystr.dfy` holds Python's `in`, `find` and `split` on `bytes` and `str`, with their
  properties.
- `client.dfy` models `src/flask_application/client/client.py`.
- `stream_hunter.dfy` models `src/pages/stream_hunter/stream_hunter.py`.

Which parts are imperative follows the source:
- The roster scan with `break` in `get_enemies` is a method with a loop (`GetEnemies`).
- The two nested loops of `get_player_streams` are methods with loops (`GetPlayerStreams`,
  `GatherPlatformStreams`, `ExtendWithFirstLive`). The inner loop stops at the first live
  response.
- `hunt_async` is a method of a class whose `seenMatches` field is the `_seen_matches` dict.
- The comprehensions and `get_region` are functions.

Each method is proved equal to a specification function, and lemmas state what those
functions guarantee.

How the region text ends. `line.split(b'regions/')[1]` is the text between the first and the
second `regions/` of the line, and it is then cut at its first `]`. So the region ends at the
first `]` after the first `regions/`, at a second `regions/`, or at the end of the line,
whichever comes first. When no `]` and no second `regions/` follow the first `regions/`, the
region runs to the end of the line, including the terminator that `readlines()` keeps. A `]`
before the first `regions/` plays no part. The model follows this code exactly (`RegionEnds`).
The source marks `get_region` as not finding the region, but it does not say what it should
find, so no corrected version is given.

How a `Failure` is read. A `Failure` result in `stream_hunter.dfy` is an exception that escapes
`hunt_async`. There are two:
- `NoAllyTeam`: the unbound `ally_team` is read when a non-empty roster does not list the
  local player.
- `MalformedFullName`: `username, tag = full_name.split('#')` fails because the full name
  does not hold exactly one `#`.

In both cases the cache is left as it was.

## Model

| member | source | states |
|---|---|---|
| Client.FirstLineWith | src/flask_application/client/client.py:30-31 | the line found contains the pattern and no earlier line does; none is found only when no line contains it |
| Client.GetRegion | src/flask_application/client/client.py:25-35 | an unreadable log gives `''`; the result is `None` exactly when the log was read and no line contains `regions`; a matching line is read by `RegionOfLine` (lines 32-35), where a missing `regions/` (the caught `IndexError`) or a decoding error gives `''` |
| Client.RegionEndsUnique | src/flask_application/client/client.py:32 | after the first `regions/` there is exactly one place where the region ends: the first `]`, a second `regions/`, or the end of the line |
| Client.RegionPiece | src/flask_application/client/client.py:32 | when the line holds `regions/`, splitting on it gives at least two pieces, and cutting piece 1 at `]` gives exactly the bytes from just after the first `regions/` to the region end |
| Client.SecondPiece | src/flask_application/client/client.py:32 | piece 1 of the split on `regions/` runs from just after the first `regions/` to the next `regions/` or the end of the line |
| Client.CloseFirstAt | src/flask_application/client/client.py:32 | cutting piece 1 at its first `]` stops at the region end |
| Client.GetRegionReadsFirstMatchingLine | src/flask_application/client/client.py:30-33 | the result is the decoded region of the first line containing `regions`, or `''` when decoding fails |
| Client.NoCloseTakesRemainder | src/flask_application/client/client.py:32-33 | with no `]` and no second `regions/`, the whole rest of the line after `regions/` is decoded |
| Client.LaterLinesIgnored | src/flask_application/client/client.py:30-35 | lines after the first one containing `regions` never change the result; if that line lacks `regions/`, the caught `IndexError` gives `''` |
| Client.NewCustomClient | src/flask_application/client/client.py:16-23 | a built client always has a non-empty region, which is the file region or the argument; a truthy file region always wins; `RegionError` exactly when both are falsy; the choice itself is `ChooseRegion` (lines 17-23): file region if truthy, else the argument if truthy, else `RegionError` |
| Client.ArgumentUsedOnlyAsFallback | src/flask_application/client/client.py:17-22 | with a truthy file region the argument makes no difference; otherwise a truthy argument is used |
| PyStr.FindFromSpec | src/flask_application/client/client.py:31 | a reported position is an occurrence and the first one at or after the start; nothing is reported only when there is no occurrence |
| PyStr.Split | src/flask_application/client/client.py:32 | a split has at least one piece, and exactly one when the separator does not occur |
| PyStr.SplitSecond | src/flask_application/client/client.py:32 | piece 1 of a split starts just after the first separator |
| PyStr.SplitJoin | src/pages/stream_hunter/stream_hunter.py:128 | joining the pieces with the separator gives back the original |
| PyStr.SplitPiecesFree | src/pages/stream_hunter/stream_hunter.py:128 | no piece of a split contains the separator |
| StreamHunter.OwnEntry | src/pages/stream_hunter/stream_hunter.py:93-96 | the scan stops at the first roster entry whose subject is the local player, and finds none only when no entry is |
| StreamHunter.AllyTeamOf | src/pages/stream_hunter/stream_hunter.py:93-96 | the ally team is the team of the first entry whose subject is the local player; it is unset exactly when no entry is the local player |
| StreamHunter.EnemiesExactly | src/pages/stream_hunter/stream_hunter.py:97 | the filter keeps exactly the entries of other teams, each as often as the roster lists it, and no entry of the ally team; `Enemies` is the comprehension itself |
| StreamHunter.EnemiesKeepOrder | src/pages/stream_hunter/stream_hunter.py:97 | the filter keeps roster order: filtering a concatenation concatenates the filtered parts |
| StreamHunter.EnemyEntriesAreEnemies | src/pages/stream_hunter/stream_hunter.py:92-97 | when `get_enemies` does not raise, the entries it keeps are exactly the roster entries of a team other than the local player's |
| StreamHunter.EnemyPlayersAreEnemies | src/pages/stream_hunter/stream_hunter.py:99-106 | one `Player` per kept entry, in the same order, each built from its enemy entry |
| StreamHunter.GetEnemies | src/pages/stream_hunter/stream_hunter.py:92-106 | the loop with `break` computes the enemy players; it raises exactly when the roster is non-empty and does not list the local player; the spec is `EnemyPlayers` (lines 99-106: one `MakePlayer` per kept entry, name lookup and agent by character id) over `EnemyEntries` (lines 92-97), which reads the unbound `ally_team` only on a non-empty roster, so an empty roster gives `[]` and does not raise, and otherwise applies the comprehension `Enemies` (line 97) |
| StreamHunter.FirstLive | src/pages/stream_hunter/stream_hunter.py:120-124 | a platform contributes nothing only when every response is empty; otherwise it contributes the first non-empty response |
| StreamHunter.LaterResponsesIgnored | src/pages/stream_hunter/stream_hunter.py:120-124 | responses after the first live one never change what a platform contributes |
| StreamHunter.ExtendWithFirstLive | src/pages/stream_hunter/stream_hunter.py:120-124 | the response loop with `break` appends exactly the first live response |
| StreamHunter.PlatformStreams | src/pages/stream_hunter/stream_hunter.py:112-124 | the platform loop finds no stream exactly when every platform reports every name variation as not live |
| StreamHunter.GatherPlatformStreams | src/pages/stream_hunter/stream_hunter.py:112-124 | the platform loop collects each platform's first live response, in platform order |
| StreamHunter.TagRoundTrip | src/pages/stream_hunter/stream_hunter.py:128 | a name and a tag without `#`, joined by `#`, unpack back into that name and tag; `SplitTag` models the unpacking, defined only when `split('#')` gives exactly two pieces, i.e. exactly one `#` (otherwise the `ValueError` that `Collected` turns into `MalformedFullName`) |
| StreamHunter.TagOnlyFromJoin | src/pages/stream_hunter/stream_hunter.py:128 | a full name unpacks only if it is a name and a tag without `#` joined by `#` |
| StreamHunter.FallbackOnlyWhenNothingLive | src/pages/stream_hunter/stream_hunter.py:126-131 | when a platform found a stream, the scrape plays no part; otherwise it adds at most one link, and only a non-empty one; `Collected` (lines 110-131) is the list built before de-duplication |
| StreamHunter.Dedup | src/pages/stream_hunter/stream_hunter.py:134 | `list(set(...))`: no duplicates, the same elements as its input, and no longer |
| StreamHunter.PlayerStreamsSpec | src/pages/stream_hunter/stream_hunter.py:126-134 | the returned links have no duplicates and are the collected links; the lookup raises exactly when nothing is live and the full name does not unpack |
| StreamHunter.GetPlayerStreams | src/pages/stream_hunter/stream_hunter.py:108-134 | the nested loops and the fallback compute the player's links; the scrape is called exactly when no platform found a stream and the full name unpacks; the spec is `PlayerStreams` (lines 108-134): `Dedup` of `Collected`, or the `MalformedFullName` exception |
| StreamHunter.Collect | src/pages/stream_hunter/stream_hunter.py:150-154 | gathering gives one value per task, each that task's value, and fails exactly when some task raises |
| StreamHunter.CollectStaysFailed | src/pages/stream_hunter/stream_hunter.py:150-154 | once a task has raised, later tasks do not change the outcome |
| StreamHunter.GatherAllStreams | src/pages/stream_hunter/stream_hunter.py:150-154 | the loop over the enemies computes every enemy's links in order, or the first exception |
| StreamHunter.ResultMap | src/pages/stream_hunter/stream_hunter.py:156-159 | the keys are exactly the (name, agent name) pairs of the entries, and each value belongs to an entry with that key |
| StreamHunter.ResultMapLastWins | src/pages/stream_hunter/stream_hunter.py:156-159 | an entry whose key no later entry repeats keeps its links in the map |
| StreamHunter.ResultMapOnePerEnemy | src/pages/stream_hunter/stream_hunter.py:156-159 | with pairwise distinct keys, the map has one entry per enemy |
| StreamHunter.ResultMapOfPlayers | src/pages/stream_hunter/stream_hunter.py:150-159 | every enemy's key is in the map, and each value is the links of an enemy with that key |
| StreamHunter.HuntKeysAreEnemies | src/pages/stream_hunter/stream_hunter.py:145-159 | the keys of a successful hunt are exactly the (name, agent name) pairs of the enemies; `HuntOutcome` (lines 145-159) is what `hunt_async` returns or raises once the match is fetched: `get_enemies`, then gathering every enemy's streams, then the result map |
| StreamHunter.HuntValuesAreEnemyStreams | src/pages/stream_hunter/stream_hunter.py:145-159 | under each key is the de-duplicated link list of an enemy with that key |
| StreamHunter.StreamHunter.constructor | src/pages/stream_hunter/stream_hunter.py:86-90 | a new hunter starts with an empty cache |
| StreamHunter.StreamHunter.HuntAsync | src/pages/stream_hunter/stream_hunter.py:136-173 | a failed fetch returns the empty map and leaves the cache alone; otherwise the result is the hunt outcome, a success stores it under the match id leaving every other entry unchanged, and an exception leaves the cache unchanged |

## Left out

- Concurrency: `asyncio` tasks and `gather` run in list order, one after another, and their results are plain sequences.
- StreamHunter.GatherAllStreams: `gather` raises the exception that happens first in time, but the model takes the first in list order. The only exception the model has here is `MalformedFullName`, so the value is the same.
- The profile scrape `check_twitch_link` (browser automation and HTML selectors) is the oracle `Env.scrape`, which returns an optional link. `get_proxies` is not part of this model.
- Platforms: constructing them from user settings, `initialize()`, `get_response` and `get_live` are collapsed into one oracle `Platform.live` per platform. The platform dict is a sequence in registration order.
- `Player`'s name and name-variation logic, `gr.Agent` (with the `.lower()` of the character id) and `a_get_player_full_name` are oracles in `Env`.
- Exceptions raised inside the oracles (network errors) and `KeyError` for fields missing from the match data are not modelled.
- The `taskkill` call, all logging and the synchronous `hunt()` wrapper are left out. None of them affects the result or the cache.
- The source never reads `_seen_matches`, and neither does the model.
- StreamHunter.Dedup: `list(set(...))` has no defined order. The model lists elements in order of first occurrence, and its contract states only "no duplicates, same elements".
- Finding the log (`LOCALAPPDATA`, opening the file) is reduced to an optional list of lines. `None` stands for every failure there, which the source's `except` turns into `''`.
- Decoding bytes to text is the oracle `Decoder`. A decoding error yields `''`, as the `except` does.
- The `valclient.Client` superclass constructor and the `auth` argument are not part of this model. `CustomClient` records only the region it would pass on.
- The Qt page and application start-up (`streamhunterpageqwidget.py`, `toolorant.py`) are not part of this model.
