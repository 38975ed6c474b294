// The pure game rules shared by the hook-based app: the win condition, the
// Fisher-Yates shuffle and the initial deal of roles to the eight players.
// Every `Math.random()` draw is a parameter, a real in [0, 1).

module GameUtils {
  import opened Wrappers
  import opened GameModel

  predicate IsDraw(r: real) {
    0.0 <= r < 1.0
  }

  /** `Math.floor(r * n)`, which for a draw r in [0, 1) lies in [0, n). */
  function Scale(r: real, n: nat): (j: int)
    requires IsDraw(r) && n > 0
    ensures 0 <= j < n
  {
    assert r * n as real < n as real by {
      assert (1.0 - r) * n as real > 0.0;
    }
    (r * n as real).Floor
  }

  // ---------------------------------------------------------------- win condition

  /** The outcome of the game for a list of players, where `wolf` is the werewolf
      role string: no one alive is a draw, no wolf alive a villager win, wolves at
      least as many as everyone else alive a werewolf win, otherwise the game goes on. */
  function CheckWinCondition(ps: seq<Player>, wolf: string): (r: WinResult)
    ensures r.gameOver <==> r.winner.Some?
  {
    var alive := AlivePlayers(ps);
    if |alive| == 0 then
      WinResult(true, Some(Draw))
    else
      var wolves := WithRole(alive, wolf);
      var others := WithoutRole(alive, wolf);
      if |wolves| == 0 then
        WinResult(true, Some(Villagers))
      else if |wolves| >= |others| then
        WinResult(true, Some(Werewolves))
      else
        WinResult(false, None)
  }

  /** What each outcome means for the players: a draw exactly when nobody is alive, a
      villager win exactly when someone is alive and no living player is a wolf, a werewolf
      win exactly when some wolf lives and the living wolves are at least as many as the
      other living players, and the game goes on exactly when the living wolves are
      present but outnumbered by the other living players. */
  lemma WinConditionMeaning(ps: seq<Player>, wolf: string)
    ensures var r := CheckWinCondition(ps, wolf);
      (r.winner == Some(Draw) <==> forall p :: p in ps ==> !p.isAlive) &&
      (r.winner == Some(Villagers) <==>
        (exists p :: p in ps && p.isAlive) && forall p :: p in ps && p.isAlive ==> p.role != wolf) &&
      (r.winner == Some(Werewolves) <==>
        0 < |WithRole(AlivePlayers(ps), wolf)| && |WithRole(AlivePlayers(ps), wolf)| >= |WithoutRole(AlivePlayers(ps), wolf)|) &&
      (!r.gameOver <==>
        0 < |WithRole(AlivePlayers(ps), wolf)| < |WithoutRole(AlivePlayers(ps), wolf)|)
  {
    var alive := AlivePlayers(ps);
    if |alive| > 0 {
      var wolves := WithRole(alive, wolf);
      assert alive[0] in alive;
      if |wolves| > 0 {
        assert wolves[0] in wolves;
      } else {
        forall p | p in ps && p.isAlive ensures p.role != wolf {
          assert p in alive;
        }
      }
    }
  }

  /** While the game goes on at least one wolf and at least two other players are
      alive, and the wolves are outnumbered among the living. */
  lemma {:induction false} OngoingGame(ps: seq<Player>, wolf: string)
    requires !CheckWinCondition(ps, wolf).gameOver
    ensures |AlivePlayers(ps)| >= 3
    ensures 2 * |WithRole(AlivePlayers(ps), wolf)| < |AlivePlayers(ps)|
  {
    RolePartition(AlivePlayers(ps), wolf);
  }

  /** A game is over as soon as the living wolves are at least half of the living. */
  lemma {:induction false} WolvesWinAtParity(ps: seq<Player>, wolf: string)
    requires |AlivePlayers(ps)| > 0
    requires 2 * |WithRole(AlivePlayers(ps), wolf)| >= |AlivePlayers(ps)|
    ensures CheckWinCondition(ps, wolf).winner == Some(Werewolves)
  {
    RolePartition(AlivePlayers(ps), wolf);
  }

  // ---------------------------------------------------------------- shuffle

  /** The list with the elements at i and j exchanged. */
  function Swap<T>(s: seq<T>, i: nat, j: nat): (r: seq<T>)
    requires i < |s| && j < |s|
    ensures |r| == |s|
  {
    s[i := s[j]][j := s[i]]
  }

  /** A swap is a permutation. */
  lemma SwapPermutes<T>(s: seq<T>, i: nat, j: nat)
    requires i < |s| && j < |s|
    ensures multiset(Swap(s, i, j)) == multiset(s)
  {
  }

  /** A list that agrees with s except that the entries at i and j are exchanged is
      `Swap(s, i, j)`, and only such a list is. */
  lemma SwappedIsSwap<T>(s: seq<T>, t: seq<T>, i: nat, j: nat)
    requires i < |s| && j < |s| && |t| == |s|
    ensures t == Swap(s, i, j) <==>
      t[i] == s[j] && t[j] == s[i] && forall k :: 0 <= k < |s| && k != i && k != j ==> t[k] == s[k]
  {
  }

  /** The Fisher-Yates swaps for positions i, i - 1, ..., 1: position k is exchanged
      with position floor(draws[k] * (k + 1)). The result is a permutation of s. */
  function FisherYatesFrom<T>(s: seq<T>, draws: seq<real>, i: nat): (r: seq<T>)
    requires i < |s| && |draws| >= |s|
    requires forall k :: 0 <= k < |draws| ==> IsDraw(draws[k])
    ensures |r| == |s| && multiset(r) == multiset(s)
    decreases i
  {
    if i == 0 then s
    else
      var j := Scale(draws[i], i + 1);
      SwapPermutes(s, i, j);
      FisherYatesFrom(Swap(s, i, j), draws, i - 1)
  }

  /** One step of the swaps: t, which is s with position i exchanged for the drawn
      position, continues the swaps from position h = i - 1. */
  lemma FisherYatesStep<T>(s: seq<T>, draws: seq<real>, i: nat, t: seq<T>, h: nat)
    requires 0 < i < |s| && |draws| >= |s| && h == i - 1
    requires forall k :: 0 <= k < |draws| ==> IsDraw(draws[k])
    requires t == Swap(s, i, Scale(draws[i], i + 1))
    ensures |t| == |s|
    ensures FisherYatesFrom(s, draws, i) == FisherYatesFrom(t, draws, h)
  {
  }

  /** The Fisher-Yates shuffle of s for the given draws, a permutation of s. */
  function FisherYates<T>(s: seq<T>, draws: seq<real>): (r: seq<T>)
    requires |draws| >= |s|
    requires forall k :: 0 <= k < |draws| ==> IsDraw(draws[k])
    ensures |r| == |s| && multiset(r) == multiset(s)
  {
    if |s| == 0 then [] else FisherYatesFrom(s, draws, |s| - 1)
  }

  /** A non-empty list is shuffled by the swaps from its last position down. */
  lemma FisherYatesStart<T>(s: seq<T>, draws: seq<real>, i: nat)
    requires |draws| >= |s| && i + 1 == |s|
    requires forall k :: 0 <= k < |draws| ==> IsDraw(draws[k])
    ensures FisherYates(s, draws) == FisherYatesFrom(s, draws, i)
  {
  }

  /** `shuffleArray`: copies the input and, for i from the last index down to 1,
      swaps element i with element floor(draws[i] * (i + 1)). The result is the
      Fisher-Yates shuffle for the draws, a permutation of the input; the input, a
      value, is untouched. */
  method ShuffleArray<T>(input: seq<T>, draws: seq<real>) returns (shuffled: seq<T>)
    requires |draws| >= |input|
    requires forall k :: 0 <= k < |draws| ==> IsDraw(draws[k])
    ensures shuffled == FisherYates(input, draws)
    ensures |shuffled| == |input|
    ensures multiset(shuffled) == multiset(input)
  {
    if |input| == 0 {
      return [];
    }
    var a := new T[|input|](k requires 0 <= k < |input| => input[k]);
    ghost var g := input;
    var i := a.Length - 1;
    FisherYatesStart(input, draws, i);
    while i > 0
      invariant 0 <= i < a.Length == |g|
      invariant a[..] == g
      invariant FisherYatesFrom(g, draws, i) == FisherYates(input, draws)
      decreases i
    {
      var j := Scale(draws[i], i + 1);
      ghost var g0, i0 := g, i;
      a[i], a[j] := a[j], a[i];
      g, i := Swap(g, i, j), i - 1;
      SwappedIsSwap(g0, a[..], i0, j);
      FisherYatesStep(g0, draws, i0, g, i);
    }
    shuffled := a[..];
  }

  // ---------------------------------------------------------------- initial deal

  /** The setup screen's choice: random role, or a chosen role for the human. */
  datatype GameConfig = GameConfig(isRandomRole: bool, selectedRole: Option<string>)

  /** The chosen role is honoured when random mode is off and the role is a
      non-empty string (JavaScript truthiness). */
  predicate ChoosesRole(c: GameConfig) {
    !c.isRandomRole && c.selectedRole.Some? && c.selectedRole.value != ""
  }

  /** `indexOf` on a sequence of strings. */
  function IndexOf(s: seq<string>, x: string): (k: int)
    ensures -1 <= k < |s|
    ensures k == -1 <==> x !in s
    ensures k >= 0 ==> s[k] == x && x !in s[..k]
  {
    if |s| == 0 then -1
    else if s[0] == x then 0
    else
      var k := IndexOf(s[1..], x);
      if k == -1 then -1
      else
        assert s[..k + 1] == [s[0]] + s[1..][..k];
        k + 1
  }

  /** The role the human is promised, if any. */
  function Chosen(c: GameConfig): Option<string> {
    if ChoosesRole(c) then Some(c.selectedRole.value) else None
  }

  /** The deal hands out exactly the distribution: random mode, or a chosen role that
      the distribution contains. */
  predicate KeepsDistribution(names: RoleNames, c: GameConfig) {
    Chosen(c).None? || Chosen(c).value in Distribution(names)
  }

  function Owed(chosen: Option<string>): multiset<string> {
    if chosen.Some? then multiset{chosen.value} else multiset{}
  }

  /** The roles left for the deal before shuffling: the distribution, less one copy of
      the chosen role when it has one. */
  function PoolBase(dist: seq<string>, chosen: Option<string>): (b: seq<string>)
    ensures chosen.None? || chosen.value !in dist ==> b == dist
    ensures chosen.Some? && chosen.value in dist ==>
      |b| == |dist| - 1 && multiset(b) + multiset{chosen.value} == multiset(dist)
  {
    if chosen.None? then dist
    else
      var k := IndexOf(dist, chosen.value);
      if k == -1 then dist
      else
        RemoveAt(dist, k);
        dist[..k] + dist[k + 1..]
  }

  /** The role pool the players are dealt from: `PoolBase` shuffled. */
  method RolePool(names: RoleNames, config: GameConfig, draws: seq<real>) returns (pool: seq<string>)
    requires |draws| >= PLAYER_COUNT
    requires forall k :: 0 <= k < |draws| ==> IsDraw(draws[k])
    ensures |pool| >= PLAYER_COUNT - (if Chosen(config).Some? then 1 else 0)
    ensures KeepsDistribution(names, config) ==>
      |pool| == PLAYER_COUNT - (if Chosen(config).Some? then 1 else 0) &&
      multiset(pool) + Owed(Chosen(config)) == multiset(Distribution(names))
    ensures !KeepsDistribution(names, config) ==> multiset(pool) == multiset(Distribution(names))
  {
    pool := ShuffleArray(PoolBase(Distribution(names), Chosen(config)), draws);
  }

  /** Taking out the element at index k leaves the multiset less that element. */
  lemma RemoveAt<T>(s: seq<T>, k: int)
    requires 0 <= k < |s|
    ensures multiset(s[..k] + s[k + 1..]) + multiset{s[k]} == multiset(s)
  {
    assert s == s[..k] + [s[k]] + s[k + 1..];
  }

  /** The roles held by a list of players, in order. */
  function Roles(ps: seq<Player>): (r: seq<string>)
    ensures |r| == |ps|
    ensures forall i :: 0 <= i < |ps| ==> r[i] == ps[i].role
  {
    if |ps| == 0 then [] else [ps[0].role] + Roles(ps[1..])
  }

  /** The role an AI seat takes: the head of the pool, or, were the pool empty, the
      distribution entry at the seat's position among the AI seats. */
  function AiRole(names: RoleNames, pool: seq<string>, index: int, humanId: int): (role: string)
    ensures |pool| > 0 ==> role == pool[0]
  {
    var available := if |pool| > 0 then pool else Distribution(names);
    var aiIndex := if |pool| > 0 then 0 else if index > humanId then index - 1 else index;
    available[aiIndex % |available|]
  }

  /** `initializePlayers`: the human seat is floor(humanDraw * 8); the pool is dealt
      front to back to the seats in order, except that a human who chose a role gets
      that role instead of a pool entry. */
  method InitializePlayers(names: RoleNames, config: GameConfig, humanDraw: real, draws: seq<real>)
    returns (players: seq<Player>, humanId: int)
    requires IsDraw(humanDraw)
    requires |draws| >= PLAYER_COUNT
    requires forall k :: 0 <= k < |draws| ==> IsDraw(draws[k])
    ensures humanId == Scale(humanDraw, PLAYER_COUNT)
    ensures |players| == PLAYER_COUNT
    ensures Seated(players, humanId)
    ensures ChoosesRole(config) ==> players[humanId].role == config.selectedRole.value
    ensures KeepsDistribution(names, config) ==>
      multiset(Roles(players)) == multiset(Distribution(names))
  {
    humanId := Scale(humanDraw, PLAYER_COUNT);
    var pool := RolePool(names, config, draws);
    players := DealSeats(names, pool, humanId, Chosen(config));
    if KeepsDistribution(names, config) {
      DealtMultiset(players, pool, humanId, Chosen(config));
    }
  }

  /** The body of the `map` callback for one seat: the role the seat gets and the
      pool left after it. */
  method SeatRole(names: RoleNames, pool: seq<string>, index: int, humanId: int, chosen: Option<string>)
    returns (role: string, rest: seq<string>)
    requires index == humanId && chosen.None? ==> |pool| > 0
    ensures index == humanId && chosen.Some? ==> role == chosen.value && rest == pool
    ensures !(index == humanId && chosen.Some?) && |pool| > 0 ==>
      role == pool[0] && rest == pool[1..]
    ensures |pool| == 0 ==> rest == []
  {
    rest := pool;
    if index == humanId {
      if chosen.Some? {
        role := chosen.value;
      } else {
        role := rest[0];
        rest := rest[1..];
      }
    } else {
      role := AiRole(names, rest, index, humanId);
      if |rest| > 0 {
        rest := rest[1..];
      }
    }
  }

  /** How many pool entries the seats before seat `i` have taken. */
  function Taken(i: int, humanId: int, chosen: Option<string>): int {
    if chosen.Some? && humanId < i then i - 1 else i
  }

  /** Seat by seat, the roles are dealt front to back from `pool0`, except that the
      human's seat holds the chosen role when there is one. */
  predicate DealtFrom(ps: seq<Player>, pool0: seq<string>, humanId: int, chosen: Option<string>) {
    forall i :: 0 <= i < |ps| ==>
      if chosen.Some? && i == humanId then ps[i].role == chosen.value
      else 0 <= Taken(i, humanId, chosen) < |pool0| && ps[i].role == pool0[Taken(i, humanId, chosen)]
  }

  /** The `map` over the eight seats: seat `humanId` takes the chosen role when there
      is one, every other seat shifts the head off the pool. */
  method DealSeats(names: RoleNames, pool0: seq<string>, humanId: int, chosen: Option<string>)
    returns (players: seq<Player>)
    requires 0 <= humanId < PLAYER_COUNT
    requires |pool0| >= PLAYER_COUNT - (if chosen.Some? then 1 else 0)
    ensures |players| == PLAYER_COUNT
    ensures Seated(players, humanId)
    ensures DealtFrom(players, pool0, humanId, chosen)
    ensures chosen.Some? ==> players[humanId].role == chosen.value
  {
    var pool := pool0;
    players := [];
    var index := 0;
    while index < PLAYER_COUNT
      invariant 0 <= index <= PLAYER_COUNT
      invariant |players| == index
      invariant Seated(players, humanId)
      invariant DealtFrom(players, pool0, humanId, chosen)
      invariant 0 <= Taken(index, humanId, chosen) <= |pool0|
      invariant pool == pool0[Taken(index, humanId, chosen)..]
    {
      var isHuman := index == humanId;
      var role, rest := SeatRole(names, pool, index, humanId, chosen);
      pool := rest;
      SeatedSnoc(players, humanId, role);
      DealtSnoc(players, pool0, humanId, chosen, role);
      players := players + [NewPlayer(index, role, isHuman)];
      index := index + 1;
    }
  }

  lemma DealtSnoc(ps: seq<Player>, pool0: seq<string>, humanId: int, chosen: Option<string>, role: string)
    requires DealtFrom(ps, pool0, humanId, chosen)
    requires if chosen.Some? && |ps| == humanId then role == chosen.value
      else 0 <= Taken(|ps|, humanId, chosen) < |pool0| && role == pool0[Taken(|ps|, humanId, chosen)]
    ensures DealtFrom(ps + [NewPlayer(|ps|, role, |ps| == humanId)], pool0, humanId, chosen)
  {
    var qs := ps + [NewPlayer(|ps|, role, |ps| == humanId)];
    forall i | 0 <= i < |qs|
      ensures if chosen.Some? && i == humanId then qs[i].role == chosen.value
        else 0 <= Taken(i, humanId, chosen) < |pool0| && qs[i].role == pool0[Taken(i, humanId, chosen)]
    {
      if i < |ps| {
        assert qs[i] == ps[i];
      }
    }
  }

  /** With a pool exactly as large as the seats that draw from it, the roles dealt
      are the pool plus the chosen role. */
  lemma {:induction false} DealtMultiset(ps: seq<Player>, pool0: seq<string>, humanId: int, chosen: Option<string>)
    requires |ps| == PLAYER_COUNT && 0 <= humanId < PLAYER_COUNT
    requires |pool0| == PLAYER_COUNT - (if chosen.Some? then 1 else 0)
    requires DealtFrom(ps, pool0, humanId, chosen)
    ensures multiset(Roles(ps)) == multiset(pool0) + Owed(chosen)
  {
    if chosen.Some? {
      var order := pool0[..humanId] + [chosen.value] + pool0[humanId..];
      DealtOrder(ps, pool0, humanId, chosen.value);
      assert pool0 == pool0[..humanId] + pool0[humanId..];
      calc {
        multiset(order);
        multiset(pool0[..humanId]) + multiset{chosen.value} + multiset(pool0[humanId..]);
        multiset(pool0) + multiset{chosen.value};
      }
    } else {
      assert Roles(ps) == pool0;
    }
  }

  /** With a chosen role, the dealt roles are the pool with the chosen role slotted in
      at the human's seat. */
  lemma DealtOrder(ps: seq<Player>, pool0: seq<string>, humanId: int, c: string)
    requires |ps| == PLAYER_COUNT && 0 <= humanId < PLAYER_COUNT
    requires |pool0| == PLAYER_COUNT - 1
    requires DealtFrom(ps, pool0, humanId, Some(c))
    ensures Roles(ps) == pool0[..humanId] + [c] + pool0[humanId..]
  {
    var order := pool0[..humanId] + [c] + pool0[humanId..];
    assert |order| == |ps|;
    forall i | 0 <= i < |ps| ensures Roles(ps)[i] == order[i] {
      if i < humanId {
        assert order[i] == pool0[i];
      } else if i == humanId {
        assert order[i] == c;
      } else {
        assert order[i] == pool0[humanId..][i - humanId - 1] == pool0[i - 1];
      }
    }
  }

  /** Every seat holds a fresh player record with its own index as id, human exactly
      at `humanId`. */
  predicate Seated(ps: seq<Player>, humanId: int) {
    forall i :: 0 <= i < |ps| ==> ps[i] == NewPlayer(i, ps[i].role, i == humanId)
  }

  lemma SeatedSnoc(ps: seq<Player>, humanId: int, role: string)
    requires Seated(ps, humanId)
    ensures Seated(ps + [NewPlayer(|ps|, role, |ps| == humanId)], humanId)
  {
    var qs := ps + [NewPlayer(|ps|, role, |ps| == humanId)];
    forall i | 0 <= i < |qs| ensures qs[i] == NewPlayer(i, qs[i].role, i == humanId) {
      if i < |ps| {
        assert qs[i] == ps[i];
      }
    }
  }

  /** The werewolf string differs from every other role string of the edition. */
  predicate DistinctWolf(n: RoleNames) {
    n.werewolf !in [n.seer, n.witch, n.hunter, n.guard, n.villager]
  }

  /** The initial deal never ends the game: two wolves face six other players. */
  lemma {:induction false} InitialDealGoesOn(ps: seq<Player>, names: RoleNames)
    requires DistinctWolf(names)
    requires |ps| == PLAYER_COUNT
    requires forall p :: p in ps ==> p.isAlive
    requires multiset(Roles(ps)) == multiset(Distribution(names))
    ensures !CheckWinCondition(ps, names.werewolf).gameOver
  {
    AllAlive(ps);
    DealtWolves(ps, names);
    RolePartition(ps, names.werewolf);
    TwoAgainstSix(ps, names.werewolf);
  }

  lemma DealtWolves(ps: seq<Player>, names: RoleNames)
    requires DistinctWolf(names)
    requires multiset(Roles(ps)) == multiset(Distribution(names))
    ensures |WithRole(ps, names.werewolf)| == 2
  {
    WolfCount(ps, names.werewolf);
    WolvesInDistribution(names);
  }

  lemma TwoAgainstSix(ps: seq<Player>, wolf: string)
    requires AlivePlayers(ps) == ps
    requires |WithRole(ps, wolf)| == 2 && |WithoutRole(ps, wolf)| == 6
    ensures !CheckWinCondition(ps, wolf).gameOver
  {
  }

  /** Every edition's distribution holds its werewolf string exactly twice. */
  lemma WolvesInDistribution(names: RoleNames)
    requires DistinctWolf(names)
    ensures multiset(Distribution(names))[names.werewolf] == 2
  {
    var rest := [names.seer, names.witch, names.hunter, names.guard, names.villager, names.villager];
    assert Distribution(names) == [names.werewolf, names.werewolf] + rest;
    TwiceThenAbsent(names.werewolf, rest);
  }

  lemma TwiceThenAbsent(w: string, rest: seq<string>)
    requires w !in rest
    ensures multiset([w, w] + rest)[w] == 2
  {
    assert multiset(rest)[w] == 0;
  }

  /** Both editions keep the werewolf string apart from the others. */
  lemma EditionsDistinctWolf()
    ensures DistinctWolf(ROLES) && DistinctWolf(LEGACY_ROLES)
  {
    assert |ROLES.werewolf| == 8 && ROLES.werewolf[0] == 'W';
    assert |ROLES.seer| == 4 && |ROLES.witch| == 5 && |ROLES.hunter| == 6 && |ROLES.guard| == 5;
    assert ROLES.villager[0] == 'V';
    var w := LEGACY_ROLES.werewolf;
    assert w[0] == '\U{72FC}';
    assert LEGACY_ROLES.seer[0] != w[0] && LEGACY_ROLES.witch[0] != w[0];
    assert LEGACY_ROLES.hunter[0] != w[0] && LEGACY_ROLES.guard[0] != w[0];
    assert LEGACY_ROLES.villager[0] != w[0];
  }

  lemma {:induction false} AllAlive(ps: seq<Player>)
    requires forall p :: p in ps ==> p.isAlive
    ensures AlivePlayers(ps) == ps
  {
    if |ps| > 0 {
      AllAlive(ps[1..]);
    }
  }

  /** The number of players holding a role is that role's multiplicity in `Roles`. */
  lemma {:induction false} WolfCount(ps: seq<Player>, role: string)
    ensures |WithRole(ps, role)| == multiset(Roles(ps))[role]
  {
    if |ps| > 0 {
      WolfCount(ps[1..], role);
      assert Roles(ps) == [ps[0].role] + Roles(ps[1..]);
    }
  }
}
