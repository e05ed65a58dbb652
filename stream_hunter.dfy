/** `StreamHunter` (src/pages/stream_hunter/stream_hunter.py): given the current match, find the
    enemy players, look each of them up on the streaming platforms, fall back to a profile
    scrape when no platform reports them live, and cache the result under the match id.

    Everything outside this file is an oracle held in `Env`: the player-name lookup, the agent
    table, `Player`'s own name logic, each platform's `get_live(get_response(name))` and the
    profile scrape. Concurrent `gather` calls are modelled as plain sequences in task order. */
module StreamHunter {
  import opened Wrappers
  import opened PyStr

  /** One entry of the match's `Players` roster. */
  datatype RosterEntry = RosterEntry(subject: string, teamId: string, characterId: string)

  /** What `coregame_fetch_match` returns. */
  datatype MatchInfo = MatchInfo(matchId: string, players: seq<RosterEntry>)

  /** A resolved enemy: `Player(full_name, agent)` with the name and name variations that
      `Player` derives from the full name, and the agent's name. */
  datatype Player = Player(fullName: string, name: string, nameVariations: seq<string>, agentName: string)

  /** A streaming platform; `live(name)` is `get_live(get_response(name))`, `[]` when falsy. */
  datatype Platform = Platform(name: string, live: string -> seq<string>)

  /** The hunter's collaborators. */
  datatype Env = Env(
    puuid: string,                               // the local player's subject id
    fullNameOf: string -> string,                // `a_get_player_full_name(subject)`
    agentNameOf: string -> string,               // `gr.Agent(character_id.lower()).name`
    nameOf: string -> string,                    // `Player.name` for a full name
    variationsOf: string -> seq<string>,         // `Player.name_variations` for a full name
    platforms: seq<Platform>,                    // `self.platforms`, in registration order
    scrape: (string, string) -> Option<string>)  // `check_twitch_link(username, tag)`

  /** Exceptions that escape `hunt_async`: `ally_team` read while unbound, and a full name
      that does not unpack into `username, tag`. */
  datatype HuntError = NoAllyTeam | MalformedFullName

  type Key = (string, string)

  type HuntResult = map<Key, seq<string>>

  // ----- Enemy selection (`get_enemies`) -----

  /** The first roster entry at or after `from` whose subject is `puuid`. */
  function OwnEntry(players: seq<RosterEntry>, puuid: string, from: nat): (r: Option<nat>)
    ensures r.Some? ==> from <= r.value < |players| && players[r.value].subject == puuid
    ensures r.Some? ==> forall j :: from <= j < r.value ==> players[j].subject != puuid
    ensures r.None? ==> forall j :: from <= j < |players| ==> players[j].subject != puuid
    decreases |players| - from
  {
    if from >= |players| then None
    else if players[from].subject == puuid then Some(from)
    else OwnEntry(players, puuid, from + 1)
  }

  /** The value the roster scan assigns to `ally_team`, if it assigns one. */
  function AllyTeamOf(players: seq<RosterEntry>, puuid: string): (r: Option<string>)
    ensures r.None? <==> forall j :: 0 <= j < |players| ==> players[j].subject != puuid
    ensures r.Some? ==> exists k :: 0 <= k < |players| && players[k].subject == puuid && r.value == players[k].teamId &&
                                     forall j :: 0 <= j < k ==> players[j].subject != puuid
  {
    match OwnEntry(players, puuid, 0)
    case None => None
    case Some(k) => Some(players[k].teamId)
  }

  /** The comprehension `[p for p in players if p['TeamID'] != ally_team]`. */
  function Enemies(players: seq<RosterEntry>, ally: string): seq<RosterEntry>
  {
    if players == [] then []
    else (if players[0].teamId != ally then [players[0]] else []) + Enemies(players[1..], ally)
  }

  /** The filter keeps every entry of another team, as often as the roster lists it, and no
      entry of the ally team. */
  lemma {:induction false} EnemiesExactly(players: seq<RosterEntry>, ally: string)
    ensures forall e :: e in Enemies(players, ally) <==> e in players && e.teamId != ally
    ensures forall e :: multiset(Enemies(players, ally))[e] == if e.teamId != ally then multiset(players)[e] else 0
  {
    if players != [] {
      assert players == [players[0]] + players[1..];
      EnemiesExactly(players[1..], ally);
    }
  }

  /** Filtering keeps roster order: it distributes over concatenation. */
  lemma {:induction false} EnemiesKeepOrder(a: seq<RosterEntry>, b: seq<RosterEntry>, ally: string)
    ensures Enemies(a + b, ally) == Enemies(a, ally) + Enemies(b, ally)
  {
    if a == [] {
      assert a + b == b;
    } else {
      var head := if a[0].teamId != ally then [a[0]] else [];
      assert (a + b)[0] == a[0];
      assert (a + b)[1..] == a[1..] + b;
      assert Enemies(a + b, ally) == head + Enemies(a[1..] + b, ally);
      EnemiesKeepOrder(a[1..], b, ally);
      assert Enemies(a, ally) == head + Enemies(a[1..], ally);
    }
  }

  /** The roster entries `get_enemies` keeps. An empty roster never reads the unbound
      `ally_team`; a non-empty roster without the local player does, and raises. */
  function EnemyEntries(m: MatchInfo, puuid: string): Result<seq<RosterEntry>, HuntError>
  {
    match AllyTeamOf(m.players, puuid)
    case Some(ally) => Success(Enemies(m.players, ally))
    case None => if m.players == [] then Success([]) else Failure(NoAllyTeam)
  }

  /** `e` is a roster entry of a team other than the local player's. */
  ghost predicate IsEnemy(m: MatchInfo, puuid: string, e: RosterEntry)
  {
    e in m.players && AllyTeamOf(m.players, puuid).Some? && e.teamId != AllyTeamOf(m.players, puuid).value
  }

  /** The entries `get_enemies` keeps are exactly the enemies. */
  lemma EnemyEntriesAreEnemies(m: MatchInfo, puuid: string)
    requires EnemyEntries(m, puuid).Success?
    ensures forall e :: e in EnemyEntries(m, puuid).value <==> IsEnemy(m, puuid, e)
  {
    match AllyTeamOf(m.players, puuid)
    case Some(ally) => EnemiesExactly(m.players, ally);
    case None =>
  }

  /** `Player(full_name, gr.Agent(...))` for one enemy entry. */
  function MakePlayer(env: Env, e: RosterEntry): Player
  {
    var fullName := env.fullNameOf(e.subject);
    Player(fullName, env.nameOf(fullName), env.variationsOf(fullName), env.agentNameOf(e.characterId))
  }

  /** What `get_enemies` returns or raises. */
  function EnemyPlayers(env: Env, m: MatchInfo): Result<seq<Player>, HuntError>
  {
    match EnemyEntries(m, env.puuid)
    case Failure(err) => Failure(err)
    case Success(es) => Success(seq(|es|, i requires 0 <= i < |es| => MakePlayer(env, es[i])))
  }

  /** Every player `get_enemies` returns is built from an enemy roster entry, in roster order. */
  lemma EnemyPlayersAreEnemies(env: Env, m: MatchInfo)
    requires EnemyPlayers(env, m).Success?
    ensures |EnemyPlayers(env, m).value| == |EnemyEntries(m, env.puuid).value|
    ensures forall i :: 0 <= i < |EnemyPlayers(env, m).value| ==>
      IsEnemy(m, env.puuid, EnemyEntries(m, env.puuid).value[i])
      && EnemyPlayers(env, m).value[i] == MakePlayer(env, EnemyEntries(m, env.puuid).value[i])
  {
    var es := EnemyEntries(m, env.puuid).value;
    EnemyEntriesAreEnemies(m, env.puuid);
    assert forall i :: 0 <= i < |es| ==> es[i] in es;
  }

  /** `get_enemies`: the scan with `break` that finds the local player's team, the team filter,
      and one `Player` per enemy in roster order. */
  method GetEnemies(env: Env, m: MatchInfo) returns (r: Result<seq<Player>, HuntError>)
    ensures r == EnemyPlayers(env, m)
    ensures r.Failure? <==> m.players != [] && forall k :: 0 <= k < |m.players| ==> m.players[k].subject != env.puuid
  {
    var players := m.players;
    var ally: Option<string> := None;
    var i := 0;
    while i < |players|
      invariant 0 <= i <= |players|
      invariant forall j :: 0 <= j < i ==> players[j].subject != env.puuid
      invariant OwnEntry(players, env.puuid, 0) == OwnEntry(players, env.puuid, i)
    {
      if players[i].subject == env.puuid {
        ally := Some(players[i].teamId);
        break;
      }
      i := i + 1;
    }
    assert ally == AllyTeamOf(players, env.puuid);
    if ally.None? && players != [] {
      return Failure(NoAllyTeam);
    }
    var enemies := if ally.None? then [] else Enemies(players, ally.value);
    r := Success(seq(|enemies|, k requires 0 <= k < |enemies| => MakePlayer(env, enemies[k])));
  }

  // ----- Per-player stream aggregation (`get_player_streams`) -----

  /** The `get_live` results of one platform, one per name variation, in `gather` order. */
  function Lives(p: Platform, variations: seq<string>): seq<seq<string>>
  {
    seq(|variations|, i requires 0 <= i < |variations| => p.live(variations[i]))
  }

  /** The one response of a platform that contributes: the first live one, if any. */
  function FirstLive(lives: seq<seq<string>>): (r: seq<string>)
    ensures r == [] <==> forall k :: 0 <= k < |lives| ==> lives[k] == []
    ensures r != [] ==> exists k :: 0 <= k < |lives| && r == lives[k] && forall j :: 0 <= j < k ==> lives[j] == []
  {
    if lives == [] then []
    else if lives[0] != [] then lives[0]
    else
      var rest := FirstLive(lives[1..]);
      assert forall k :: 1 <= k < |lives| ==> lives[k] == lives[1..][k - 1];
      rest
  }

  /** Responses after the first live one are never looked at. */
  lemma {:induction false} LaterResponsesIgnored(lives: seq<seq<string>>, k: nat, later: seq<seq<string>>)
    requires k < |lives| && lives[k] != []
    ensures FirstLive(lives[..k + 1] + later) == FirstLive(lives)
  {
    if k > 0 && lives[0] == [] {
      assert (lives[..k + 1] + later)[1..] == lives[1..][..k] + later;
      LaterResponsesIgnored(lives[1..], k - 1, later);
    }
  }

  /** The streams the platform loop collects: each platform's first live response, in
      platform order. */
  function PlatformStreams(platforms: seq<Platform>, variations: seq<string>): (r: seq<string>)
    ensures r == [] <==> forall p, k :: 0 <= p < |platforms| && 0 <= k < |variations| ==> platforms[p].live(variations[k]) == []
  {
    if platforms == [] then []
    else
      var last := platforms[|platforms| - 1];
      var init := PlatformStreams(platforms[..|platforms| - 1], variations);
      var lives := Lives(last, variations);
      assert forall p :: 0 <= p < |platforms| - 1 ==> platforms[p] == platforms[..|platforms| - 1][p];
      assert forall k :: 0 <= k < |variations| ==> lives[k] == last.live(variations[k]);
      init + FirstLive(lives)
  }

  /** `username, tag = full_name.split('#')`: defined only when there is exactly one `#`. */
  function SplitTag(fullName: string): Option<(string, string)>
  {
    var pieces := Split(fullName, "#");
    if |pieces| == 2 then Some((pieces[0], pieces[1])) else None
  }

  /** `SplitTag` undoes joining a name and a tag with `#`, and accepts nothing else. */
  lemma TagRoundTrip(username: string, tag: string)
    requires !Contains(username, "#") && !Contains(tag, "#")
    ensures SplitTag(username + "#" + tag) == Some((username, tag))
  {
    var s := username + "#" + tag;
    var n := |username|;
    FindFromSpec(username, "#", 0);
    FindFromSpec(tag, "#", 0);
    forall q | 0 <= q < n
      ensures !OccursAt(s, "#", q)
    {
      OccursSingle(s, '#', q);
      OccursSingle(username, '#', q);
    }
    forall q | n + 1 <= q
      ensures !OccursAt(s, "#", q)
    {
      OccursSingle(s, '#', q);
      OccursSingle(tag, '#', q - n - 1);
      if q < |s| {
        assert s[q] == tag[q - n - 1];
      }
    }
    OccursSingle(s, '#', n);
    FindFromIs(s, "#", 0, n);
    SplitFromUnfold(s, "#", 0, n);
    FindFromSpec(s, "#", n + 1);
    assert SplitFrom(s, "#", n + 1) == [s[n + 1..]];
    assert s[..n] == username && s[n + 1..] == tag;
  }

  lemma TagOnlyFromJoin(fullName: string, username: string, tag: string)
    requires SplitTag(fullName) == Some((username, tag))
    ensures fullName == username + "#" + tag
    ensures !Contains(username, "#") && !Contains(tag, "#")
  {
    SplitJoin(fullName, "#");
    var pieces := Split(fullName, "#");
    assert pieces[1..] == [tag];
    SplitPiecesFree(fullName, "#", 0);
    SplitPiecesFree(fullName, "#", 1);
  }

  /** The streams `get_player_streams` gathers before de-duplication: the platform streams, or,
      when there are none, the scraped link if it is truthy. */
  function Collected(env: Env, player: Player): Result<seq<string>, HuntError>
  {
    var found := PlatformStreams(env.platforms, player.nameVariations);
    if found != [] then Success(found)
    else match SplitTag(player.fullName)
      case None => Failure(MalformedFullName)
      case Some(tagged) =>
        var link := env.scrape(tagged.0, tagged.1);
        Success(if Truthy(link) then [link.value] else [])
  }

  /** The scrape fallback contributes at most one link, only when it is truthy, and only
      when no platform reported the player live. */
  lemma FallbackOnlyWhenNothingLive(env: Env, player: Player)
    ensures PlatformStreams(env.platforms, player.nameVariations) != [] ==>
      Collected(env, player) == Success(PlatformStreams(env.platforms, player.nameVariations))
    ensures PlatformStreams(env.platforms, player.nameVariations) == [] && Collected(env, player).Success? ==>
      |Collected(env, player).value| <= 1 && forall x :: x in Collected(env, player).value ==> x != ""
  {
  }

  predicate NoDup<T(==)>(s: seq<T>)
  {
    forall i, j :: 0 <= i < j < |s| ==> s[i] != s[j]
  }

  /** `list(set(s))`, listing each element once in order of first occurrence. */
  function Dedup(s: seq<string>): (r: seq<string>)
    ensures NoDup(r)
    ensures forall x :: x in r <==> x in s
    ensures |r| <= |s|
  {
    if s == [] then []
    else
      var init := Dedup(s[..|s| - 1]);
      var last := s[|s| - 1];
      assert s == s[..|s| - 1] + [last];
      if last in init then init else init + [last]
  }

  /** What `get_player_streams` returns or raises. */
  function PlayerStreams(env: Env, player: Player): Result<seq<string>, HuntError>
  {
    match Collected(env, player)
    case Failure(err) => Failure(err)
    case Success(streams) => Success(Dedup(streams))
  }

  /** A player's streams never list the same URL twice, hold exactly the collected streams,
      and the lookup raises only when nothing is live and the full name does not split into
      a name and a tag. */
  lemma PlayerStreamsSpec(env: Env, player: Player)
    ensures PlayerStreams(env, player).Success? ==> NoDup(PlayerStreams(env, player).value)
    ensures PlayerStreams(env, player).Success? ==>
      forall x :: x in PlayerStreams(env, player).value <==> x in Collected(env, player).value
    ensures PlayerStreams(env, player).Failure? <==>
      PlatformStreams(env.platforms, player.nameVariations) == [] && SplitTag(player.fullName).None?
  {
  }

  /** The loop over one platform's responses: the first live one is appended, and the loop
      stops there. */
  method ExtendWithFirstLive(streams: seq<string>, responses: seq<seq<string>>) returns (out: seq<string>)
    ensures out == streams + FirstLive(responses)
    ensures |out| >= |streams|
  {
    out := streams;
    var k := 0;
    while k < |responses|
      invariant 0 <= k <= |responses|
      invariant out == streams
      invariant FirstLive(responses) == FirstLive(responses[k..])
    {
      if responses[k] != [] {
        out := out + responses[k];
        return;
      }
      assert responses[k..][1..] == responses[k + 1..];
      k := k + 1;
    }
  }

  /** The loop over the platforms: each platform's first live response is appended, in
      platform order. */
  method GatherPlatformStreams(platforms: seq<Platform>, variations: seq<string>) returns (streams: seq<string>)
    ensures streams == PlatformStreams(platforms, variations)
  {
    streams := [];
    var p := 0;
    while p < |platforms|
      invariant 0 <= p <= |platforms|
      invariant streams == PlatformStreams(platforms[..p], variations)
    {
      streams := ExtendWithFirstLive(streams, Lives(platforms[p], variations));
      assert platforms[..p + 1][..p] == platforms[..p];
      p := p + 1;
    }
    assert platforms[..p] == platforms;
  }

  /** `get_player_streams`. `scraped` tells whether `check_twitch_link` was called. */
  method GetPlayerStreams(env: Env, player: Player) returns (r: Result<seq<string>, HuntError>, scraped: bool)
    ensures r == PlayerStreams(env, player)
    ensures scraped <==> PlatformStreams(env.platforms, player.nameVariations) == [] && SplitTag(player.fullName).Some?
  {
    var streams := GatherPlatformStreams(env.platforms, player.nameVariations);
    scraped := false;
    if streams == [] {
      var tagged := SplitTag(player.fullName);
      if tagged.None? {
        return Failure(MalformedFullName), false;
      }
      scraped := true;
      var link := env.scrape(tagged.value.0, tagged.value.1);
      if Truthy(link) {
        streams := streams + [link.value];
      }
    }
    r := Success(Dedup(streams));
  }

  // ----- Result map and cache (`hunt_async`) -----

  /** Awaiting a list of tasks in order: every value, or the exception of the first task
      that raised. */
  function Collect<T, E>(rs: seq<Result<T, E>>): (r: Result<seq<T>, E>)
    ensures r.Success? ==> |r.value| == |rs| && forall i :: 0 <= i < |rs| ==> rs[i] == Success(r.value[i])
    ensures r.Failure? <==> exists i :: 0 <= i < |rs| && rs[i].Failure?
  {
    if rs == [] then Success([])
    else
      var init := rs[..|rs| - 1];
      assert forall i :: 0 <= i < |init| ==> init[i] == rs[i];
      match Collect(init)
      case Failure(err) => Failure(err)
      case Success(values) =>
        match rs[|rs| - 1]
        case Failure(err) => Failure(err)
        case Success(v) => Success(values + [v])
  }

  /** Once a task has raised, later tasks do not change the outcome. */
  lemma {:induction false} CollectStaysFailed<T, E>(rs: seq<Result<T, E>>, n: nat)
    requires n <= |rs| && Collect(rs[..n]).Failure?
    ensures Collect(rs) == Collect(rs[..n])
    decreases |rs| - n
  {
    if n < |rs| {
      var longer := rs[..n + 1];
      assert longer[..|longer| - 1] == rs[..n];
      CollectStaysFailed(rs, n + 1);
    } else {
      assert rs[..n] == rs;
    }
  }

  /** Awaiting one more task extends the values, or raises its exception. */
  lemma CollectStep<T, E>(rs: seq<Result<T, E>>, i: nat, values: seq<T>)
    requires i < |rs| && Collect(rs[..i]) == Success(values)
    ensures rs[i].Failure? ==> Collect(rs[..i + 1]) == Failure(rs[i].error)
    ensures rs[i].Success? ==> Collect(rs[..i + 1]) == Success(values + [rs[i].value])
  {
    assert rs[..i + 1][..i] == rs[..i];
  }

  /** `get_player_streams` for each enemy, in enemy order. */
  function Lookups(env: Env, players: seq<Player>): (r: seq<Result<seq<string>, HuntError>>)
    ensures |r| == |players| && forall i :: 0 <= i < |players| ==> r[i] == PlayerStreams(env, players[i])
  {
    seq(|players|, i requires 0 <= i < |players| => PlayerStreams(env, players[i]))
  }

  /** The outcome of gathering every enemy's streams. */
  function AllStreams(env: Env, players: seq<Player>): Result<seq<seq<string>>, HuntError>
  {
    Collect(Lookups(env, players))
  }

  /** Python's `zip`, stopping at the shorter list. */
  function Zip<A, B>(a: seq<A>, b: seq<B>): seq<(A, B)>
  {
    var n := if |a| < |b| then |a| else |b|;
    seq(n, i requires 0 <= i < n => (a[i], b[i]))
  }

  /** The key a player's streams are reported under. */
  function KeyOf(p: Player): Key
  {
    (p.name, p.agentName)
  }

  /** The dict comprehension `{(player.name, player.agent.name): streams for ...}`: a later
      entry with the same key overwrites an earlier one. */
  function ResultMap(entries: seq<(Player, seq<string>)>): (r: HuntResult)
    ensures forall key :: key in r <==> exists i :: 0 <= i < |entries| && KeyOf(entries[i].0) == key
    ensures forall key :: key in r ==> exists i :: 0 <= i < |entries| && KeyOf(entries[i].0) == key && r[key] == entries[i].1
  {
    if entries == [] then map[]
    else
      var init := entries[..|entries| - 1];
      var last := entries[|entries| - 1];
      assert forall i :: 0 <= i < |init| ==> init[i] == entries[i];
      ResultMap(init)[KeyOf(last.0) := last.1]
  }

  /** An entry whose key no later entry repeats keeps its streams in the map. */
  lemma {:induction false} ResultMapLastWins(entries: seq<(Player, seq<string>)>, i: nat)
    requires i < |entries|
    requires forall j :: i < j < |entries| ==> KeyOf(entries[j].0) != KeyOf(entries[i].0)
    ensures KeyOf(entries[i].0) in ResultMap(entries)
    ensures ResultMap(entries)[KeyOf(entries[i].0)] == entries[i].1
  {
    if i < |entries| - 1 {
      var init := entries[..|entries| - 1];
      assert init[i] == entries[i];
      ResultMapLastWins(init, i);
    }
  }

  /** With pairwise distinct keys, every enemy gets an entry of its own. */
  lemma {:induction false} ResultMapOnePerEnemy(entries: seq<(Player, seq<string>)>)
    requires forall i, j :: 0 <= i < j < |entries| ==> KeyOf(entries[i].0) != KeyOf(entries[j].0)
    ensures |ResultMap(entries)| == |entries|
  {
    if entries != [] {
      var init := entries[..|entries| - 1];
      assert forall i :: 0 <= i < |init| ==> init[i] == entries[i];
      ResultMapOnePerEnemy(init);
      LastKeyIsNew(init, entries[|entries| - 1]);
    }
  }

  /** A key that no earlier entry has is not yet in the map. */
  lemma LastKeyIsNew(init: seq<(Player, seq<string>)>, last: (Player, seq<string>))
    requires forall i :: 0 <= i < |init| ==> KeyOf(init[i].0) != KeyOf(last.0)
    ensures KeyOf(last.0) !in ResultMap(init)
  {
  }

  /** What `hunt_async` returns or raises once the match has been fetched. */
  function HuntOutcome(env: Env, m: MatchInfo): Result<HuntResult, HuntError>
  {
    match EnemyPlayers(env, m)
    case Failure(err) => Failure(err)
    case Success(players) =>
      match AllStreams(env, players)
      case Failure(err) => Failure(err)
      case Success(results) => Success(ResultMap(Zip(players, results)))
  }

  /** The map built from the gathered results has one key per player and, under each key, the
      streams of a player with that key. */
  lemma ResultMapOfPlayers(env: Env, players: seq<Player>, results: seq<seq<string>>)
    requires AllStreams(env, players) == Success(results)
    ensures forall i :: 0 <= i < |players| ==> KeyOf(players[i]) in ResultMap(Zip(players, results))
    ensures forall key :: key in ResultMap(Zip(players, results)) ==>
      exists i :: 0 <= i < |players| && KeyOf(players[i]) == key && PlayerStreams(env, players[i]) == Success(ResultMap(Zip(players, results))[key])
  {
    var entries := Zip(players, results);
    assert forall i :: 0 <= i < |players| ==> entries[i].0 == players[i] && entries[i].1 == results[i];
  }

  /** The three stages of a successful hunt. */
  lemma HuntParts(env: Env, m: MatchInfo, res: HuntResult) returns (players: seq<Player>, results: seq<seq<string>>)
    requires HuntOutcome(env, m) == Success(res)
    ensures EnemyPlayers(env, m) == Success(players)
    ensures AllStreams(env, players) == Success(results)
    ensures res == ResultMap(Zip(players, results))
  {
    players := EnemyPlayers(env, m).value;
    results := AllStreams(env, players).value;
  }

  /** A successful hunt reports exactly the enemies' keys. */
  lemma HuntKeysAreEnemies(env: Env, m: MatchInfo, res: HuntResult)
    requires HuntOutcome(env, m) == Success(res)
    ensures forall key :: key in res <==> exists e :: IsEnemy(m, env.puuid, e) && KeyOf(MakePlayer(env, e)) == key
  {
    var players, results := HuntParts(env, m, res);
    EveryEnemyReported(env, m, players, results);
    HuntValuesAreEnemyStreams(env, m, res);
  }

  lemma EveryEnemyReported(env: Env, m: MatchInfo, players: seq<Player>, results: seq<seq<string>>)
    requires EnemyPlayers(env, m) == Success(players)
    requires AllStreams(env, players) == Success(results)
    ensures forall e :: IsEnemy(m, env.puuid, e) ==> KeyOf(MakePlayer(env, e)) in ResultMap(Zip(players, results))
  {
    var es := EnemyEntries(m, env.puuid).value;
    EnemyPlayersAreEnemies(env, m);
    EnemyEntriesAreEnemies(m, env.puuid);
    ResultMapOfPlayers(env, players, results);
    forall e | IsEnemy(m, env.puuid, e)
      ensures KeyOf(MakePlayer(env, e)) in ResultMap(Zip(players, results))
    {
      var i :| 0 <= i < |es| && es[i] == e;
      assert players[i] == MakePlayer(env, e);
    }
  }

  /** Under each key a successful hunt holds the de-duplicated streams of an enemy with that
      key. */
  lemma HuntValuesAreEnemyStreams(env: Env, m: MatchInfo, res: HuntResult)
    requires HuntOutcome(env, m) == Success(res)
    ensures forall key :: key in res ==>
      exists e :: IsEnemy(m, env.puuid, e) && KeyOf(MakePlayer(env, e)) == key && PlayerStreams(env, MakePlayer(env, e)) == Success(res[key])
    ensures forall key :: key in res ==> NoDup(res[key])
  {
    var players, results := HuntParts(env, m, res);
    var es := EnemyEntries(m, env.puuid).value;
    EnemyPlayersAreEnemies(env, m);
    ResultMapOfPlayers(env, players, results);
    forall key | key in res
      ensures exists e :: IsEnemy(m, env.puuid, e) && KeyOf(MakePlayer(env, e)) == key && PlayerStreams(env, MakePlayer(env, e)) == Success(res[key])
      ensures NoDup(res[key])
    {
      var i :| 0 <= i < |players| && KeyOf(players[i]) == key && PlayerStreams(env, players[i]) == Success(res[key]);
      assert IsEnemy(m, env.puuid, es[i]) && players[i] == MakePlayer(env, es[i]);
      PlayerStreamsSpec(env, players[i]);
    }
  }

  /** Awaiting `get_player_streams` for every enemy: all the results in enemy order, or the
      exception of the first lookup that raised. */
  method GatherAllStreams(env: Env, players: seq<Player>) returns (r: Result<seq<seq<string>>, HuntError>)
    ensures r == AllStreams(env, players)
  {
    ghost var lookups := Lookups(env, players);
    var results: seq<seq<string>> := [];
    var i := 0;
    while i < |players|
      invariant 0 <= i <= |players|
      invariant Collect(lookups[..i]) == Success(results)
    {
      var streams, scraped := GetPlayerStreams(env, players[i]);
      CollectStep(lookups, i, results);
      if streams.Failure? {
        CollectStaysFailed(lookups, i + 1);
        return Failure(streams.error);
      }
      results := results + [streams.value];
      i := i + 1;
    }
    assert lookups[..i] == lookups;
    r := Success(results);
  }

  /** The hunter: its collaborators and the `_seen_matches` cache from match id to result. */
  class StreamHunter {
    const env: Env
    var seenMatches: map<string, HuntResult>

    constructor (env: Env)
      ensures this.env == env && seenMatches == map[]
    {
      this.env := env;
      seenMatches := map[];
    }

    /** `hunt_async`. `fetched` is the match `coregame_fetch_match` returned, `None` when it
        raised; a `Failure` is an exception that escapes to the caller. */
    method HuntAsync(fetched: Option<MatchInfo>) returns (r: Result<HuntResult, HuntError>)
      modifies this
      ensures fetched.None? ==> r == Success(map[]) && seenMatches == old(seenMatches)
      ensures fetched.Some? ==> r == HuntOutcome(env, fetched.value)
      ensures fetched.Some? && r.Success? ==> seenMatches == old(seenMatches)[fetched.value.matchId := r.value]
      ensures r.Failure? ==> seenMatches == old(seenMatches)
    {
      if fetched.None? {
        return Success(map[]);
      }
      var m := fetched.value;
      var enemies := GetEnemies(env, m);
      if enemies.Failure? {
        return Failure(enemies.error);
      }
      var players := enemies.value;
      var streams := GatherAllStreams(env, players);
      if streams.Failure? {
        return Failure(streams.error);
      }
      var results := streams.value;
      var result := ResultMap(Zip(players, results));
      seenMatches := seenMatches[m.matchId := result];
      r := Success(result);
    }
  }
}
