/** The game-feature helpers of the precompute script (hw4_precompute.py):
    who played, who was at home, who won, a team's earlier games, its
    win/loss record and its average points scored and allowed, the removal
    of games listed twice with the sides flipped, and the derived fields of
    a game's feature record.  Dates are ordered integers; a row of the game
    file is a `Game`. */
module Games {
  import opened Results

  /** One row of the game results: the date, the two sides with their
      locations ("Home", "Away" or anything else) and scores, and the two
      optional differentials. */
  datatype Game = Game(
    date: int,
    team: string,
    opponent: string,
    teamLocation: string,
    opponentLocation: string,
    teamScore: int,
    opponentScore: int,
    teamDifferential: Option<real>,
    opponentDifferential: Option<real>)

  /** `inGame`: the team is one of the two sides. */
  predicate InGame(team: string, g: Game)
  {
    team == g.team || team == g.opponent
  }

  /** `atHome`: the team is the listed team at "Home", or the opponent
      listed "Away". */
  predicate AtHome(team: string, g: Game)
    ensures AtHome(team, g) ==> InGame(team, g)
  {
    || (team == g.team && g.teamLocation == "Home")
    || (team == g.opponent && g.opponentLocation == "Away")
  }

  /** `atOpponent`: the team is the listed team "Away", or the opponent
      listed at "Home". */
  predicate AtOpponent(team: string, g: Game)
    ensures AtOpponent(team, g) ==> InGame(team, g)
  {
    || (team == g.team && g.teamLocation == "Away")
    || (team == g.opponent && g.opponentLocation == "Home")
  }

  /** `wonGame`: the listed team wins on a strictly higher score; otherwise,
      a tie included, the opponent is credited with the win. */
  predicate WonGame(team: string, g: Game)
    ensures WonGame(team, g) ==> InGame(team, g)
  {
    if g.teamScore > g.opponentScore then team == g.team else team == g.opponent
  }

  /** A team that did not play is neither at home, nor away, nor a winner. */
  lemma NotInGame(team: string, g: Game)
    requires !InGame(team, g)
    ensures !AtHome(team, g) && !AtOpponent(team, g) && !WonGame(team, g)
  {
  }

  /** Between two different sides exactly one wins: the listed team on a
      strictly higher score, the opponent otherwise. */
  lemma OneWinner(g: Game)
    requires g.team != g.opponent
    ensures WonGame(g.team, g) <==> g.teamScore > g.opponentScore
    ensures WonGame(g.opponent, g) <==> g.teamScore <= g.opponentScore
    ensures forall t | WonGame(t, g) :: InGame(t, g)
  {
  }

  /** Between two different sides, no team is both at home and away. */
  lemma HomeOrAway(team: string, g: Game)
    requires g.team != g.opponent
    ensures !(AtHome(team, g) && AtOpponent(team, g))
  {
  }

  /** The conditions the helpers select games by. */
  datatype Test =
    | Plays(team: string)
    | Wins(team: string)
    | Loses(team: string)
    | Earlier(date: int)
    | On(date: int)

  predicate Holds(t: Test, g: Game)
  {
    match t
    case Plays(team) => InGame(team, g)
    case Wins(team) => WonGame(team, g)
    case Loses(team) => InGame(team, g) && !WonGame(team, g)
    case Earlier(date) => g.date < date
    case On(date) => g.date == date
  }

  /** The games that pass the test, in their original order: a list
      comprehension with a condition. */
  function Filter(gs: seq<Game>, t: Test): (r: seq<Game>)
    ensures |r| <= |gs|
    ensures forall g | g in r :: g in gs && Holds(t, g)
  {
    if gs == [] then []
    else
      var n := |gs| - 1;
      assert gs == gs[..n] + [gs[n]];
      Filter(gs[..n], t) + (if Holds(t, gs[n]) then [gs[n]] else [])
  }

  /** Every game that passes the test is kept. */
  lemma {:induction false} FilterComplete(gs: seq<Game>, t: Test)
    ensures forall g | g in gs && Holds(t, g) :: g in Filter(gs, t)
  {
    if gs != [] {
      var n := |gs| - 1;
      assert gs == gs[..n] + [gs[n]];
      FilterComplete(gs[..n], t);
    }
  }

  lemma {:induction false} FilterKeeps(gs: seq<Game>, t: Test)
    requires forall g | g in gs :: Holds(t, g)
    ensures Filter(gs, t) == gs
  {
    if gs != [] {
      var n := |gs| - 1;
      assert gs == gs[..n] + [gs[n]];
      FilterKeeps(gs[..n], t);
    }
  }

  lemma {:induction false} FilterNone(gs: seq<Game>, t: Test)
    requires forall g | g in gs :: !Holds(t, g)
    ensures Filter(gs, t) == []
  {
    if gs != [] {
      var n := |gs| - 1;
      assert gs == gs[..n] + [gs[n]];
      FilterNone(gs[..n], t);
    }
  }

  lemma FilterLast(gs: seq<Game>, t: Test)
    requires gs != []
    ensures var n := |gs| - 1;
      Filter(gs, t) == Filter(gs[..n], t) + (if Holds(t, gs[n]) then [gs[n]] else [])
  {
  }

  /** Filtering twice by a test and a stricter one is filtering once by
      the stricter one. */
  lemma {:induction false} FilterNarrows(gs: seq<Game>, wide: Test, narrow: Test)
    requires forall g | Holds(narrow, g) :: Holds(wide, g)
    ensures Filter(Filter(gs, wide), narrow) == Filter(gs, narrow)
  {
    if gs != [] {
      var n := |gs| - 1;
      FilterNarrows(gs[..n], wide, narrow);
      FilterLast(gs, wide);
      FilterLast(gs, narrow);
      if Holds(wide, gs[n]) {
        var f := Filter(gs[..n], wide);
        assert (f + [gs[n]])[..|f|] == f;
        FilterLast(f + [gs[n]], narrow);
      } else {
        assert !Holds(narrow, gs[n]);
        assert Filter(gs, wide) == Filter(gs[..n], wide);
        assert Filter(gs, narrow) == Filter(gs[..n], narrow);
      }
    }
  }

  /** The value of a `defaultdict(list)` at `team`. */
  function Lookup(byTeam: map<string, seq<Game>>, team: string): seq<Game>
  {
    if team in byTeam then byTeam[team] else []
  }

  /** The index `gamesbyteam`: every game appended to the lists of both of
      its sides, in the order of `games`. */
  ghost function Indexed(games: seq<Game>): map<string, seq<Game>>
  {
    if games == [] then map[]
    else
      var n := |games| - 1;
      var g := games[n];
      var m := Indexed(games[..n]);
      var m1 := m[g.team := Lookup(m, g.team) + [g]];
      m1[g.opponent := Lookup(m1, g.opponent) + [g]]
  }

  /** No game has the same team on both sides. */
  ghost predicate TwoSided(games: seq<Game>)
  {
    forall i | 0 <= i < |games| :: games[i].team != games[i].opponent
  }

  /** When no team plays itself, a team's list in the index holds exactly
      the games it played, in their order. */
  lemma {:induction false} IndexedPlays(games: seq<Game>, team: string)
    requires TwoSided(games)
    ensures Lookup(Indexed(games), team) == Filter(games, Plays(team))
  {
    if games != [] {
      var n := |games| - 1;
      assert TwoSided(games[..n]);
      IndexedPlays(games[..n], team);
    }
  }

  /** `gamesBefore`: the games of `team`'s list in the index with a date
      strictly before `date`.  The games passed by the caller are not read:
      the list comes from the index. */
  method GamesBefore(date: int, team: string, byTeam: map<string, seq<Game>>) returns (res: seq<Game>)
    ensures res == Filter(Lookup(byTeam, team), Earlier(date))
  {
    var gs := Lookup(byTeam, team);
    res := [];
    for i := 0 to |gs|
      invariant res == Filter(gs[..i], Earlier(date))
    {
      assert gs[..i + 1][..i] == gs[..i];
      if gs[i].date < date {
        res := res + [gs[i]];
      }
    }
    assert gs[..|gs|] == gs;
  }

  /** Over the index of the games, the earlier games of a team are exactly
      the games it played before the date, in their order. */
  lemma GamesBeforeIndexed(games: seq<Game>, date: int, team: string)
    requires TwoSided(games)
    ensures forall g | g in Filter(Lookup(Indexed(games), team), Earlier(date)) ::
      g in games && InGame(team, g) && g.date < date
    ensures forall g | g in games && InGame(team, g) && g.date < date ::
      g in Filter(Lookup(Indexed(games), team), Earlier(date))
    ensures var r := Filter(Lookup(Indexed(games), team), Earlier(date));
      Filter(r, Plays(team)) == r
  {
    IndexedPlays(games, team);
    var p := Filter(games, Plays(team));
    var r := Filter(p, Earlier(date));
    FilterComplete(games, Plays(team));
    FilterComplete(p, Earlier(date));
    FilterKeeps(r, Plays(team));
  }

  /** `record`: the wins and `len(ingames) - wins` over the games in which
      the team played. */
  function Record(team: string, games: seq<Game>): (r: (int, int))
    ensures 0 <= r.0 && 0 <= r.1
    ensures r.0 + r.1 == |Filter(games, Plays(team))|
  {
    var ingames := Filter(games, Plays(team));
    var wins := |Filter(ingames, Wins(team))|;
    (wins, |ingames| - wins)
  }

  lemma {:induction false} SplitWinsLosses(games: seq<Game>, team: string)
    ensures |Filter(games, Wins(team))| + |Filter(games, Loses(team))| == |Filter(games, Plays(team))|
  {
    if games != [] {
      SplitWinsLosses(games[..|games| - 1], team);
    }
  }

  /** The record counts the games the team won and the games it played and
      did not win. */
  lemma RecordCounts(team: string, games: seq<Game>)
    ensures Record(team, games).0 == |Filter(games, Wins(team))|
    ensures Record(team, games).1 == |Filter(games, Loses(team))|
  {
    FilterNarrows(games, Plays(team), Wins(team));
    SplitWinsLosses(games, team);
  }

  /** The points `team` scored in `g` (`own`) or let its opponent score. */
  function Points(team: string, g: Game, own: bool): int
  {
    if (team == g.team) == own then g.teamScore else g.opponentScore
  }

  ghost function Total(team: string, gs: seq<Game>, own: bool): int
  {
    if gs == [] then 0
    else
      var n := |gs| - 1;
      Total(team, gs[..n], own) + Points(team, gs[n], own)
  }

  ghost function Mean(total: int, n: nat): real
  {
    if n == 0 then 0.0 else total as real / n as real
  }

  /** The mean of the team's points (`own`) or of its opponents' points
      over the games it played; 0 when it played none. */
  ghost function Average(games: seq<Game>, team: string, own: bool): real
  {
    var ingames := Filter(games, Plays(team));
    Mean(Total(team, ingames, own), |ingames|)
  }

  /** The sum of `Points` over the games the team played. */
  method SumPoints(ingames: seq<Game>, team: string, own: bool) returns (sum: int)
    ensures sum == Total(team, ingames, own)
  {
    sum := 0;
    for i := 0 to |ingames|
      invariant sum == Total(team, ingames[..i], own)
    {
      assert ingames[..i + 1][..i] == ingames[..i];
      sum := sum + Points(team, ingames[i], own);
    }
    assert ingames[..|ingames|] == ingames;
  }

  /** `averageGained`: the team's own points per game it played. */
  method AverageGained(games: seq<Game>, team: string) returns (avg: real)
    ensures avg == Average(games, team, true)
  {
    var ingames := Filter(games, Plays(team));
    if |ingames| == 0 {
      return 0.0;
    }
    var sum := SumPoints(ingames, team, true);
    avg := sum as real / |ingames| as real;
  }

  /** `averageAllowed`: the opponents' points per game the team played. */
  method AverageAllowed(games: seq<Game>, team: string) returns (avg: real)
    ensures avg == Average(games, team, false)
  {
    var ingames := Filter(games, Plays(team));
    if |ingames| == 0 {
      return 0.0;
    }
    var sum := SumPoints(ingames, team, false);
    avg := sum as real / |ingames| as real;
  }

  lemma BoundStep(total: int, prev: int, x: int, n: int, lo: int, hi: int)
    requires total == prev + x && lo <= x <= hi
    requires lo * (n - 1) <= prev <= hi * (n - 1)
    ensures lo * n <= total <= hi * n
  {
    assert lo * n == lo * (n - 1) + lo;
    assert hi * n == hi * (n - 1) + hi;
  }

  lemma {:induction false} TotalBounds(team: string, gs: seq<Game>, own: bool, lo: int, hi: int)
    requires forall g | g in gs :: lo <= Points(team, g, own) <= hi
    ensures lo * |gs| <= Total(team, gs, own) <= hi * |gs|
  {
    if gs != [] {
      var n := |gs| - 1;
      var x := gs[n];
      assert x in gs;
      assert forall g | g in gs[..n] :: g in gs;
      TotalBounds(team, gs[..n], own, lo, hi);
      BoundStep(Total(team, gs, own), Total(team, gs[..n], own), Points(team, x, own), |gs|, lo, hi);
    }
  }

  lemma MeanBetween(total: int, n: nat, lo: int, hi: int)
    requires 0 < n && lo * n <= total <= hi * n
    ensures lo as real <= Mean(total, n) <= hi as real
  {
    assert (lo * n) as real == lo as real * n as real;
    assert (hi * n) as real == hi as real * n as real;
  }

  /** Without games both averages are 0; otherwise each lies between the
      least and the largest points per game. */
  lemma AverageBounds(games: seq<Game>, team: string, own: bool, lo: int, hi: int)
    requires forall g | g in games && InGame(team, g) :: lo <= Points(team, g, own) <= hi
    ensures Filter(games, Plays(team)) == [] ==> Average(games, team, own) == 0.0
    ensures Filter(games, Plays(team)) != [] ==> lo as real <= Average(games, team, own) <= hi as real
  {
    var ingames := Filter(games, Plays(team));
    TotalBounds(team, ingames, own, lo, hi);
    if ingames != [] {
      MeanBetween(Total(team, ingames, own), |ingames|, lo, hi);
    }
  }

  /** Games played only between `a` and `b`. */
  ghost predicate HeadToHead(gs: seq<Game>, a: string, b: string)
  {
    forall g | g in gs :: (g.team == a && g.opponent == b) || (g.team == b && g.opponent == a)
  }

  lemma {:induction false} AllowedIsGained(gs: seq<Game>, a: string, b: string)
    requires a != b && HeadToHead(gs, a, b)
    ensures Total(a, gs, false) == Total(b, gs, true)
  {
    if gs != [] {
      var n := |gs| - 1;
      assert gs[n] in gs;
      assert HeadToHead(gs[..n], a, b);
      AllowedIsGained(gs[..n], a, b);
    }
  }

  /** Over games between two teams only, what one allows on average is
      what the other scores on average. */
  lemma HeadToHeadAverages(gs: seq<Game>, a: string, b: string)
    requires a != b && HeadToHead(gs, a, b)
    ensures Average(gs, a, false) == Average(gs, b, true)
  {
    FilterKeeps(gs, Plays(a));
    FilterKeeps(gs, Plays(b));
    AllowedIsGained(gs, a, b);
  }

  /** The `all(...)` test of the duplicate removal: no game already kept
      that day has this game's team as its opponent. */
  predicate Fresh(g: Game, kept: seq<Game>)
  {
    forall h | h in kept :: g.team != h.opponent
  }

  /** The games of one day that survive the duplicate removal. */
  ghost function Kept(day: seq<Game>): (r: seq<Game>)
    ensures |r| <= |day|
    ensures forall g | g in r :: g in day
  {
    if day == [] then []
    else
      var n := |day| - 1;
      var kept := Kept(day[..n]);
      assert day == day[..n] + [day[n]];
      if Fresh(day[n], kept) then kept + [day[n]] else kept
  }

  /** The inner loop of the duplicate removal over one day's games. */
  method KeepFresh(day: seq<Game>) returns (unique: seq<Game>)
    ensures unique == Kept(day)
  {
    unique := [];
    for i := 0 to |day|
      invariant unique == Kept(day[..i])
    {
      assert day[..i + 1][..i] == day[..i];
      if Fresh(day[i], unique) {
        unique := unique + [day[i]];
      }
    }
    assert day[..|day|] == day;
  }

  /** The first game of a day is always kept. */
  lemma {:induction false} KeptFirst(day: seq<Game>)
    requires day != []
    ensures Kept(day) != [] && Kept(day)[0] == day[0]
  {
    var n := |day| - 1;
    if n > 0 {
      assert day[..n][0] == day[0];
      KeptFirst(day[..n]);
    }
  }

  /** No game has as its team the opponent of a game before it. */
  ghost predicate NoFlips(r: seq<Game>)
  {
    forall i, j | 0 <= i < j < |r| :: r[j].team != r[i].opponent
  }

  /** No kept game has as its team the opponent of a game kept before it:
      a flipped copy of a kept game is never kept. */
  lemma {:induction false} KeptNoFlips(day: seq<Game>)
    ensures NoFlips(Kept(day))
  {
    if day != [] {
      var n := |day| - 1;
      KeptNoFlips(day[..n]);
      var kept := Kept(day[..n]);
      if Fresh(day[n], kept) {
        var r := kept + [day[n]];
        assert Kept(day) == r;
        forall i, j | 0 <= i < j < |r|
          ensures r[j].team != r[i].opponent
        {
          assert r[i] == kept[i];
          if j == |kept| {
            assert r[i] in kept;
          } else {
            assert r[j] == kept[j];
          }
        }
      } else {
        assert Kept(day) == kept;
      }
    }
  }

  /** `idx` picks the games of `r` out of `day`, at strictly increasing
      positions. */
  ghost predicate PickedAt(r: seq<Game>, day: seq<Game>, idx: seq<nat>)
  {
    && |idx| == |r|
    && (forall i | 0 <= i < |idx| :: idx[i] < |day| && r[i] == day[idx[i]])
    && (forall i, j | 0 <= i < j < |idx| :: idx[i] < idx[j])
  }

  /** `r` is a subsequence of `day`. */
  ghost predicate Subsequence(r: seq<Game>, day: seq<Game>)
  {
    exists idx :: PickedAt(r, day, idx)
  }

  /** The positions in the day of the games that survive the duplicate
      removal, in the order the loop keeps them. */
  ghost function KeptAt(day: seq<Game>): seq<nat>
  {
    if day == [] then []
    else
      var n := |day| - 1;
      if Fresh(day[n], Kept(day[..n])) then KeptAt(day[..n]) + [n] else KeptAt(day[..n])
  }

  /** Keeping a picking of a prefix's games as a picking in the whole day. */
  lemma PickedInLonger(r: seq<Game>, day: seq<Game>, idx: seq<nat>)
    requires day != [] && PickedAt(r, day[..|day| - 1], idx)
    ensures PickedAt(r, day, idx)
    ensures PickedAt(r + [day[|day| - 1]], day, idx + [|day| - 1])
  {
  }

  /** The kept games of a day are a subsequence of the day's games, picked
      at the positions `KeptAt`: the duplicate removal only drops games, it
      never reorders them. */
  lemma {:induction false} KeptSubsequence(day: seq<Game>)
    ensures PickedAt(Kept(day), day, KeptAt(day))
    ensures Subsequence(Kept(day), day)
  {
    if day != [] {
      var n := |day| - 1;
      KeptSubsequence(day[..n]);
      PickedInLonger(Kept(day[..n]), day, KeptAt(day[..n]));
    }
    assert PickedAt(Kept(day), day, KeptAt(day));
  }

  /** Some game kept at a position before `j` has as its opponent the team
      of the game at `j`. */
  ghost predicate FlippedBefore(day: seq<Game>, idx: seq<nat>, j: nat)
    requires j < |day|
  {
    exists i | 0 <= i < |idx| && idx[i] < j :: day[idx[i]].opponent == day[j].team
  }

  /** The `k`-th kept game sits at position `KeptAt(day)[k]` of the day. */
  lemma KeptAtIndex(day: seq<Game>, k: nat)
    requires k < |Kept(day)|
    ensures k < |KeptAt(day)| && KeptAt(day)[k] < |day| && day[KeptAt(day)[k]] == Kept(day)[k]
  {
    KeptSubsequence(day);
  }

  /** A game that is not fresh has as its team the opponent of the game
      kept at some index. */
  lemma NotFreshAt(g: Game, kept: seq<Game>) returns (k: nat)
    requires !Fresh(g, kept)
    ensures k < |kept| && g.team == kept[k].opponent
  {
    var h :| h in kept && g.team == h.opponent;
    k :| k < |kept| && kept[k] == h;
  }

  /** The last game of a day that is not fresh is flipped by a game kept
      before it. */
  lemma DroppedLast(day: seq<Game>)
    requires day != [] && !Fresh(day[|day| - 1], Kept(day[..|day| - 1]))
    ensures FlippedBefore(day, KeptAt(day), |day| - 1)
  {
    var n := |day| - 1;
    var pre := day[..n];
    var idx := KeptAt(pre);
    var k := NotFreshAt(day[n], Kept(pre));
    KeptAtIndex(pre, k);
    assert KeptAt(day) == idx;
    assert pre[idx[k]] == day[idx[k]];
    assert k < |idx| && idx[k] < n && day[idx[k]].opponent == day[n].team;
  }

  /** The positions kept in a prefix stay kept when the day grows by one
      game. */
  lemma KeptAtExtends(day: seq<Game>, i: nat)
    requires day != [] && i < |KeptAt(day[..|day| - 1])|
    ensures i < |KeptAt(day)| && KeptAt(day)[i] == KeptAt(day[..|day| - 1])[i]
  {
  }

  /** A game flipped by a game kept earlier stays flipped when the day
      grows by one game. */
  lemma FlippedInLonger(day: seq<Game>, j: nat)
    requires day != [] && j < |day| - 1
    requires FlippedBefore(day[..|day| - 1], KeptAt(day[..|day| - 1]), j)
    ensures FlippedBefore(day, KeptAt(day), j)
  {
    var pre := day[..|day| - 1];
    var idx := KeptAt(pre);
    var i :| 0 <= i < |idx| && idx[i] < j && pre[idx[i]].opponent == pre[j].team;
    KeptAtExtends(day, i);
    assert pre[idx[i]] == day[idx[i]] && pre[j] == day[j];
    assert KeptAt(day)[i] < j && day[KeptAt(day)[i]].opponent == day[j].team;
  }

  /** Every game of the day that is dropped has its team as the opponent
      of a game kept earlier that day. */
  lemma {:induction false} KeptDropsOnlyFlips(day: seq<Game>)
    ensures forall j | 0 <= j < |day| && j !in KeptAt(day) :: FlippedBefore(day, KeptAt(day), j)
  {
    if day != [] {
      var n := |day| - 1;
      KeptDropsOnlyFlips(day[..n]);
      forall j | 0 <= j < |day| && j !in KeptAt(day)
        ensures FlippedBefore(day, KeptAt(day), j)
      {
        if j == n {
          DroppedLast(day);
        } else {
          assert j !in KeptAt(day[..n]);
          FlippedInLonger(day, j);
        }
      }
    }
  }

  /** Positions in `KeptAt` increase with the order of the kept games. */
  lemma KeptAtOrdered(day: seq<Game>, i: nat, m: nat)
    requires i < |KeptAt(day)| && m < |KeptAt(day)| && KeptAt(day)[i] < KeptAt(day)[m]
    ensures i < m
  {
    KeptSubsequence(day);
  }

  /** A kept game is not flipped by any game kept before it. */
  lemma KeptNotFlipped(day: seq<Game>, j: nat)
    requires j < |day| && j in KeptAt(day)
    ensures !FlippedBefore(day, KeptAt(day), j)
  {
    KeptNoFlips(day);
    var r, idx := Kept(day), KeptAt(day);
    var m :| 0 <= m < |idx| && idx[m] == j;
    KeptSubsequence(day);
    assert |r| == |idx|;
    forall i | 0 <= i < |idx| && idx[i] < j
      ensures day[idx[i]].opponent != day[j].team
    {
      KeptAtOrdered(day, i, m);
      KeptAtIndex(day, i);
      KeptAtIndex(day, m);
      assert r[m].team != r[i].opponent;
    }
  }

  /** Both halves of the duplicate removal, by position: the game at `j`
      is kept if and only if no game kept earlier that day has its team as
      opponent. Together with `KeptSubsequence` this fixes what the loop
      keeps. */
  lemma KeptExactly(day: seq<Game>)
    ensures forall j | 0 <= j < |day| :: j in KeptAt(day) <==> !FlippedBefore(day, KeptAt(day), j)
  {
    KeptDropsOnlyFlips(day);
    forall j | 0 <= j < |day| && j in KeptAt(day)
      ensures !FlippedBefore(day, KeptAt(day), j)
    {
      KeptNotFlipped(day, j);
    }
  }

  ghost function Dates(games: seq<Game>): set<int>
  {
    set g | g in games :: g.date
  }

  /** `m` is the earliest of the dates `s`. */
  predicate IsLeast(m: int, s: set<int>)
  {
    m in s && forall x | x in s :: m <= x
  }

  ghost function Element<T>(s: set<T>): (y: T)
    requires s != {}
    ensures y in s
  {
    var y :| y in s; y
  }

  lemma {:induction false} LeastExists(s: set<int>)
    requires s != {}
    ensures exists m :: IsLeast(m, s)
    decreases |s|
  {
    var y := Element(s);
    var rest := s - {y};
    if rest == {} {
      forall x | x in s
        ensures y <= x
      {
        assert x == y || x in rest;
      }
      assert IsLeast(y, s);
    } else {
      LeastExists(rest);
      var m :| IsLeast(m, rest);
      var least := if y < m then y else m;
      forall x | x in s
        ensures least <= x
      {
        if x != y {
          assert x in rest;
        }
      }
      assert IsLeast(least, s);
    }
  }

  ghost function Least(s: set<int>): (m: int)
    requires s != {}
    ensures IsLeast(m, s)
  {
    LeastExists(s);
    var m :| IsLeast(m, s); m
  }

  /** Strictly ascending dates. */
  ghost predicate Increasing(ds: seq<int>)
  {
    forall i, j | 0 <= i < j < |ds| :: ds[i] < ds[j]
  }

  /** The dates of `s` in ascending order. */
  ghost function Sorted(s: set<int>): (ds: seq<int>)
    ensures Increasing(ds)
    ensures forall i | 0 <= i < |ds| :: ds[i] in s
    decreases |s|
  {
    if s == {} then []
    else
      var m := Least(s);
      var rest := Sorted(s - {m});
      assert forall i | 0 <= i < |rest| :: m < rest[i] by {
        forall i | 0 <= i < |rest|
          ensures m < rest[i]
        {
          assert rest[i] in rest;
        }
      }
      [m] + rest
  }

  /** Every date of `s` is listed. */
  lemma {:induction false} SortedCovers(s: set<int>)
    ensures forall d | d in s :: d in Sorted(s)
    decreases |s|
  {
    if s != {} {
      var m := Least(s);
      SortedCovers(s - {m});
      assert Sorted(s) == [m] + Sorted(s - {m});
    }
  }

  /** The dates a list holds. */
  ghost function Listed(ds: seq<int>): set<int>
  {
    set d | d in ds
  }

  /** The sorted dates are exactly the dates of `s`. */
  lemma SortedSet(s: set<int>)
    ensures Listed(Sorted(s)) == s
  {
    SortedCovers(s);
    var ds := Sorted(s);
    forall d
      ensures d in Listed(ds) <==> d in s
    {
      if d in ds {
        var i :| 0 <= i < |ds| && ds[i] == d;
      }
    }
  }

  lemma SortedStep(dates: set<int>, remaining: set<int>, date: int, ds: seq<int>)
    requires IsLeast(date, remaining)
    requires ds + Sorted(remaining) == Sorted(dates)
    ensures (ds + [date]) + Sorted(remaining - {date}) == Sorted(dates)
  {
    assert date == Least(remaining);
  }

  /** `sorted(...)` of the dates: the least remaining date, again and
      again. */
  method SortDates(dates: set<int>) returns (ds: seq<int>)
    ensures ds == Sorted(dates)
  {
    ds := [];
    var remaining := dates;
    while remaining != {}
      invariant ds + Sorted(remaining) == Sorted(dates)
      decreases |remaining|
    {
      LeastExists(remaining);
      var date :| date in remaining && IsLeast(date, remaining);
      SortedStep(dates, remaining, date, ds);
      ds := ds + [date];
      remaining := remaining - {date};
    }
  }

  /** The surviving games of the dates `ds`, date after date: with the
      dates in ascending order, `uniquegames`. */
  ghost function Ascending(games: seq<Game>, ds: seq<int>): seq<Game>
  {
    if ds == [] then []
    else
      var n := |ds| - 1;
      Ascending(games, ds[..n]) + Kept(Filter(games, On(ds[n])))
  }

  lemma GroupStep(games: seq<Game>, i: nat, byDay: map<int, seq<Game>>)
    requires i < |games|
    requires byDay.Keys == Dates(games[..i])
    requires forall d | d in byDay :: byDay[d] == Filter(games[..i], On(d))
    ensures var g := games[i];
      var next := byDay[g.date := (if g.date in byDay then byDay[g.date] else []) + [g]];
      && next.Keys == Dates(games[..i + 1])
      && forall d | d in next :: next[d] == Filter(games[..i + 1], On(d))
  {
    var g := games[i];
    var next := byDay[g.date := (if g.date in byDay then byDay[g.date] else []) + [g]];
    assert games[..i + 1] == games[..i] + [g];
    assert games[..i + 1][..i] == games[..i];
    forall d | d in next
      ensures next[d] == Filter(games[..i + 1], On(d))
    {
      if d == g.date && g.date !in byDay {
        assert forall h | h in games[..i] :: h.date in Dates(games[..i]);
        FilterNone(games[..i], On(d));
      }
    }
  }

  /** `gamesbydate`: the games of each date, in their order. */
  method GroupByDate(games: seq<Game>) returns (byDay: map<int, seq<Game>>)
    ensures byDay.Keys == Dates(games)
    ensures forall d | d in byDay :: byDay[d] == Filter(games, On(d))
  {
    byDay := map[];
    for i := 0 to |games|
      invariant byDay.Keys == Dates(games[..i])
      invariant forall d | d in byDay :: byDay[d] == Filter(games[..i], On(d))
    {
      GroupStep(games, i, byDay);
      var g := games[i];
      byDay := byDay[g.date := (if g.date in byDay then byDay[g.date] else []) + [g]];
    }
    assert games[..|games|] == games;
  }

  lemma AscendingAppend(games: seq<Game>, dates: seq<int>, k: nat)
    requires k < |dates|
    ensures Ascending(games, dates[..k + 1]) == Ascending(games, dates[..k]) + Kept(Filter(games, On(dates[k])))
  {
    assert dates[..k + 1][..k] == dates[..k];
  }

  lemma ListedAppend(dates: seq<int>, k: nat)
    requires k < |dates|
    ensures Listed(dates[..k + 1]) == Listed(dates[..k]) + {dates[k]}
  {
    assert dates[..k + 1] == dates[..k] + [dates[k]];
  }

  lemma DedupStep(games: seq<Game>, dates: seq<int>, k: nat, unique: seq<Game>, byDate: map<int, seq<Game>>, day: seq<Game>)
    requires k < |dates|
    requires unique == Ascending(games, dates[..k])
    requires byDate.Keys == Listed(dates[..k])
    requires day == Kept(Filter(games, On(dates[k])))
    ensures unique + day == Ascending(games, dates[..k + 1])
    ensures byDate[dates[k] := day].Keys == Listed(dates[..k + 1])
  {
    AscendingAppend(games, dates, k);
    ListedAppend(dates, k);
  }

  /** The loop over the dates of hw4_precompute.py:34-40: each day's games
      with the flipped copies dropped, appended date after date and stored
      under their date. */
  method KeepByDate(games: seq<Game>, byDay: map<int, seq<Game>>, dates: seq<int>)
    returns (unique: seq<Game>, byDate: map<int, seq<Game>>)
    requires forall i | 0 <= i < |dates| :: dates[i] in byDay && byDay[dates[i]] == Filter(games, On(dates[i]))
    ensures unique == Ascending(games, dates)
    ensures byDate.Keys == Listed(dates)
    ensures forall d | d in byDate :: byDate[d] == Kept(Filter(games, On(d)))
  {
    unique := [];
    byDate := map[];
    for k := 0 to |dates|
      invariant unique == Ascending(games, dates[..k])
      invariant byDate.Keys == Listed(dates[..k])
      invariant forall d | d in byDate :: byDate[d] == Kept(Filter(games, On(d)))
    {
      var date := dates[k];
      var day := KeepFresh(byDay[date]);
      DedupStep(games, dates, k, unique, byDate, day);
      unique := unique + day;
      byDate := byDate[date := day];
    }
    assert dates[..|dates|] == dates;
  }

  /** The duplicate removal (hw4_precompute.py:32-40): the games grouped by
      date in their order, then, date after date in ascending order, each
      day's games with the flipped copies dropped; returns `uniquegames`
      and `uniquegamesbydate`. */
  method RemoveDuplicates(games: seq<Game>) returns (unique: seq<Game>, byDate: map<int, seq<Game>>)
    ensures unique == Ascending(games, Sorted(Dates(games)))
    ensures byDate.Keys == Dates(games)
    ensures forall d | d in byDate :: byDate[d] == Kept(Filter(games, On(d)))
  {
    var byDay := GroupByDate(games);
    var dates := SortDates(byDay.Keys);
    SortedSet(byDay.Keys);
    unique, byDate := KeepByDate(games, byDay, dates);
  }

  /** Every surviving game is one of the games, on one of the dates. */
  lemma {:induction false} AscendingMembers(games: seq<Game>, ds: seq<int>)
    ensures forall g | g in Ascending(games, ds) :: g in games && g.date in ds
  {
    if ds != [] {
      var n := |ds| - 1;
      AscendingMembers(games, ds[..n]);
      assert forall d | d in ds[..n] :: d in ds;
    }
  }

  ghost predicate DateOrdered(r: seq<Game>)
  {
    forall i, j | 0 <= i < j < |r| :: r[i].date <= r[j].date
  }

  lemma OrderedConcat(done: seq<Game>, day: seq<Game>, d: int)
    requires DateOrdered(done)
    requires forall g | g in done :: g.date <= d
    requires forall g | g in day :: g.date == d
    ensures DateOrdered(done + day)
  {
    var r := done + day;
    forall i, j | 0 <= i < j < |r|
      ensures r[i].date <= r[j].date
    {
      if j < |done| {
        assert r[i] == done[i] && r[j] == done[j];
      } else if i < |done| {
        assert r[i] == done[i] && r[j] == day[j - |done|];
      } else {
        assert r[i] == day[i - |done|] && r[j] == day[j - |done|];
      }
    }
  }

  /** With ascending dates, `uniquegames` is in date order. */
  lemma {:induction false} AscendingSorted(games: seq<Game>, ds: seq<int>)
    requires Increasing(ds)
    ensures DateOrdered(Ascending(games, ds))
  {
    if ds != [] {
      var n := |ds| - 1;
      assert Increasing(ds[..n]);
      AscendingSorted(games, ds[..n]);
      AscendingMembers(games, ds[..n]);
      var done := Ascending(games, ds[..n]);
      assert forall g | g in done :: g.date <= ds[n] by {
        forall g | g in done
          ensures g.date <= ds[n]
        {
          var i :| 0 <= i < n && ds[..n][i] == g.date;
        }
      }
      OrderedConcat(done, Kept(Filter(games, On(ds[n]))), ds[n]);
    }
  }

  /** `uniquegames` is in date order. */
  lemma UniqueSorted(games: seq<Game>)
    ensures DateOrdered(Ascending(games, Sorted(Dates(games))))
  {
    AscendingSorted(games, Sorted(Dates(games)));
  }

  /** The fields of `make_features` computed from the game and the
      histories (hw4_precompute.py:132-142); the date, the sides and the
      differentials are copied from the game. */
  datatype Features = Features(
    date: int,
    team: string,
    opponent: string,
    teamDifferential: Option<real>,
    opponentDifferential: Option<real>,
    atHome: int,
    atOpp: int,
    teamWins: int,
    teamLosses: int,
    teamAvgScore: real,
    teamAvgScoreAllowed: real,
    oppWins: int,
    oppLosses: int,
    oppAvgScore: real,
    oppAvgScoreAllowed: real,
    teamWon: int)

  function Flag(b: bool): int
  {
    if b then 1 else 0
  }

  /** The feature record of `game`, the histories being the two sides'
      games in the index strictly before the game's date. */
  ghost function Featured(game: Game, byTeam: map<string, seq<Game>>): Features
  {
    var th := Filter(Lookup(byTeam, game.team), Earlier(game.date));
    var oh := Filter(Lookup(byTeam, game.opponent), Earlier(game.date));
    Features(
      game.date, game.team, game.opponent, game.teamDifferential, game.opponentDifferential,
      Flag(AtHome(game.team, game)), Flag(AtOpponent(game.team, game)),
      Record(game.team, th).0, Record(game.team, th).1,
      Average(th, game.team, true), Average(th, game.team, false),
      Record(game.opponent, oh).0, Record(game.opponent, oh).1,
      Average(oh, game.opponent, true), Average(oh, game.opponent, false),
      Flag(WonGame(game.team, game)))
  }

  /** `make_features` for the statistic "Score". */
  method MakeFeatures(game: Game, byTeam: map<string, seq<Game>>) returns (f: Features)
    ensures f == Featured(game, byTeam)
  {
    var team := game.team;
    var opponent := game.opponent;
    var teamHistory := GamesBefore(game.date, team, byTeam);
    var oppHistory := GamesBefore(game.date, opponent, byTeam);
    var teamRecord := Record(team, teamHistory);
    var oppRecord := Record(opponent, oppHistory);
    var teamAvg := AverageGained(teamHistory, team);
    var teamAllowed := AverageAllowed(teamHistory, team);
    var oppAvg := AverageGained(oppHistory, opponent);
    var oppAllowed := AverageAllowed(oppHistory, opponent);
    f := Features(
      game.date, team, opponent, game.teamDifferential, game.opponentDifferential,
      if AtHome(team, game) then 1 else 0,
      if AtOpponent(team, game) then 1 else 0,
      teamRecord.0, teamRecord.1, teamAvg, teamAllowed,
      oppRecord.0, oppRecord.1, oppAvg, oppAllowed,
      if WonGame(team, game) then 1 else 0);
  }

  /** Built over the index of two-sided games, a game's feature record
      counts as wins and losses exactly the games each side played before
      the game's date; `team_won` is 1 exactly when the listed team
      outscored the opponent; `at_home` and `at_opp` are never both 1. */
  lemma FeaturesOfIndex(games: seq<Game>, game: Game)
    requires TwoSided(games) && game.team != game.opponent
    ensures var f := Featured(game, Indexed(games));
      && f.teamWins + f.teamLosses == |Filter(Filter(games, Plays(game.team)), Earlier(game.date))|
      && f.oppWins + f.oppLosses == |Filter(Filter(games, Plays(game.opponent)), Earlier(game.date))|
      && (f.teamWon == 1 <==> game.teamScore > game.opponentScore)
      && (f.teamWon == 0 <==> game.teamScore <= game.opponentScore)
      && 0 <= f.atHome + f.atOpp <= 1
  {
    var byTeam := Indexed(games);
    GamesBeforeIndexed(games, game.date, game.team);
    GamesBeforeIndexed(games, game.date, game.opponent);
    IndexedPlays(games, game.team);
    IndexedPlays(games, game.opponent);
    OneWinner(game);
    HomeOrAway(game.team, game);
  }
}
