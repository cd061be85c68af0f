/** The live scoreboard: an insertion-ordered map from game key to game object.
    The map is modelled as a Dafny map plus the list of its keys in insertion
    order, and is tied to the value-level board of BoardSpec by Valid(). */
module ScoreBoards {
  import opened UniqueGameIdGenerator
  import opened Games
  import opened ScoreSummary
  import opened BoardSpec

  /** Storing v under k adds at most v to the values of a map. */
  lemma UpdatedValues<K, V>(m: map<K, V>, k: K, v: V)
    ensures m[k := v].Values <= m.Values + {v}
  {
    forall x | x in m[k := v].Values ensures x in m.Values + {v} {
      var j :| j in m[k := v] && m[k := v][j] == x;
      if j != k {
        assert m[j] == x;
      }
    }
  }

  /** Removing a key adds nothing to the values of a map. */
  lemma RemovedValues<K, V>(m: map<K, V>, k: K)
    ensures (m - {k}).Values <= m.Values
  {
    forall x | x in (m - {k}).Values ensures x in m.Values {
      var j :| j in m - {k} && (m - {k})[j] == x;
      assert m[j] == x;
    }
  }

  class ScoreBoard {
    /** The stored games by key. */
    var games: map<string, Game>
    /** The keys of games in the order they were inserted. */
    var order: seq<string>
    /** The board as a value: key and current view of each game, in insertion order. */
    ghost var Contents: seq<Entry>

    /** The current view of every stored game, by key. */
    ghost function Snapshot(): map<string, GameView>
      reads this, games.Values
    {
      map k | k in games :: games[k].View()
    }

    ghost predicate Valid()
      reads this, games.Values
    {
      && WellFormed(Contents)
      && Stored(order, Snapshot(), Contents)
      && (forall k1, k2 :: k1 in games && k2 in games && k1 != k2 ==> games[k1] != games[k2])
    }

    constructor ()
      ensures Valid()
      ensures Contents == []
      ensures fresh(games.Values)
    {
      games := map[];
      order := [];
      Contents := [];
    }

    /** startGame: computes the key, runs the start checks and, when they pass,
        stores a fresh 0-0 game at the end of the board. */
    method StartGame(homeTeam: AsciiString, awayTeam: AsciiString) returns (outcome: Outcome)
      requires Valid()
      modifies this
      ensures Valid()
      ensures outcome == StartCheck(old(Contents), homeTeam, awayTeam)
      ensures outcome.Success? ==> Contents == Started(old(Contents), homeTeam, awayTeam)
      ensures outcome.Failure? ==> unchanged(this)
      ensures fresh(games.Values - old(games.Values))
    {
      var gameId := GenerateUniqueGameId(homeTeam, awayTeam);
      outcome := ValidateGameStartConditions(homeTeam, awayTeam, gameId);
      if outcome.Success? {
        var game := Put(gameId, homeTeam, awayTeam);
        UpdatedValues(old(games), gameId, game);
      }
    }

    /** games.put of a new key: a fresh 0-0 game stored under it, the key
        appended to the insertion order. */
    method Put(gameId: string, homeTeam: string, awayTeam: string) returns (game: Game)
      requires Valid()
      requires gameId == GameId(homeTeam, awayTeam)
      requires StartCheck(Contents, homeTeam, awayTeam) == Success
      modifies this
      ensures Valid()
      ensures Contents == Started(old(Contents), homeTeam, awayTeam)
      ensures fresh(game) && games == old(games)[gameId := game]
    {
      ghost var before := Snapshot();
      StartPreservesWellFormed(Contents, homeTeam, awayTeam);
      StoredStart(order, before, Contents, homeTeam, awayTeam);
      game := new Game(homeTeam, awayTeam);
      ghost var after := before[gameId := game.View()];
      games := games[gameId := game];
      order := order + [gameId];
      Contents := Started(Contents, homeTeam, awayTeam);
      assert Snapshot() == after by {
        forall k | k in games ensures games[k].View() == after[k] {
          if k != gameId {
            assert games[k] == old(games)[k];
          }
        }
      }
    }

    /** finishGame: removes the game stored under the pair's key, or reports
        GameNotFound and changes nothing. */
    method FinishGame(homeTeam: AsciiString, awayTeam: AsciiString) returns (outcome: Outcome)
      requires Valid()
      modifies this
      ensures Valid()
      ensures outcome == LookupCheck(old(Contents), GameId(homeTeam, awayTeam))
      ensures Contents == Finished(old(Contents), GameId(homeTeam, awayTeam))
      ensures outcome.Failure? ==> unchanged(this)
      ensures games.Values <= old(games.Values)
    {
      var gameId := GenerateUniqueGameId(homeTeam, awayTeam);
      KeyStored(gameId);
      if gameId !in games {
        FinishedAbsent(Contents, gameId);
        return Failure(GameNotFound);
      }
      Remove(gameId);
      RemovedValues(old(games), gameId);
      outcome := Success;
    }

    /** games.remove of a stored key: the key leaves both the map and the
        insertion order. */
    method Remove(gameId: string)
      requires Valid() && gameId in games
      modifies this
      ensures Valid()
      ensures Contents == Finished(old(Contents), gameId)
      ensures games == old(games) - {gameId}
    {
      ghost var before := Snapshot();
      FinishPreservesWellFormed(Contents, gameId);
      StoredFinish(order, before, Contents, gameId);
      games := games - {gameId};
      order := Without(order, gameId);
      Contents := Finished(Contents, gameId);
      forall k | k in games ensures k in before - {gameId} && games[k].View() == before[k] {
      }
      assert Snapshot() == before - {gameId};
    }

    /** updateScore: sets both scores of the game stored under the pair's key,
        or reports GameNotFound and changes nothing. */
    method UpdateScore(homeTeam: AsciiString, awayTeam: AsciiString, homeScore: int, awayScore: int)
      returns (outcome: Outcome)
      requires Valid()
      modifies this, games.Values
      ensures Valid()
      ensures outcome == LookupCheck(old(Contents), GameId(homeTeam, awayTeam))
      ensures Contents == Updated(old(Contents), GameId(homeTeam, awayTeam), homeScore, awayScore)
      ensures games == old(games) && order == old(order)
      ensures outcome.Failure? ==> unchanged(this) && unchanged(games.Values)
    {
      var gameId := GenerateUniqueGameId(homeTeam, awayTeam);
      KeyStored(gameId);
      if gameId !in games {
        UpdatedAbsent(Contents, gameId, homeScore, awayScore);
        return Failure(GameNotFound);
      }
      Rescore(gameId, homeScore, awayScore);
      outcome := Success;
    }

    /** Sets the score of the game stored under a present key, through the
        game object itself. */
    method Rescore(gameId: string, homeScore: int, awayScore: int)
      requires Valid() && gameId in games
      modifies this, games.Values
      ensures Valid()
      ensures Contents == Updated(old(Contents), gameId, homeScore, awayScore)
      ensures games == old(games) && order == old(order)
    {
      var game := games[gameId];
      ghost var before := Snapshot();
      ghost var after := before[gameId := before[gameId].(homeScore := homeScore, awayScore := awayScore)];
      Contents := Updated(Contents, gameId, homeScore, awayScore);
      UpdatePreservesWellFormed(old(Contents), gameId, homeScore, awayScore);
      StoredUpdate(order, before, old(Contents), gameId, homeScore, awayScore);
      game.UpdateScore(homeScore, awayScore);
      forall k | k in games ensures games[k].View() == after[k] {
        if k != gameId {
          assert games[k] != game;
        }
      }
      assert Snapshot() == after;
    }

    /** getSummaryByTotalScore: the games by non-increasing total, ties in the
        order they were started. The board is left as it is. */
    method GetSummaryByTotalScore() returns (summary: seq<GameView>)
      requires Valid()
      ensures summary == SortByTotal(Views(Contents))
      ensures SortedByTotal(summary)
      ensures multiset(summary) == multiset(Views(Contents))
      ensures forall t :: WithTotal(summary, t) == WithTotal(Views(Contents), t)
    {
      var values := Values();
      summary := SortByTotal(values);
      SortByTotalSorted(values);
      SortByTotalPermutes(values);
      forall t ensures WithTotal(summary, t) == WithTotal(values, t) {
        SortByTotalStable(values, t);
      }
    }

    /** games.values(): the current view of every game, in insertion order,
        read through the getters. */
    method Values() returns (values: seq<GameView>)
      requires Valid()
      ensures values == Views(Contents)
    {
      values := [];
      for i := 0 to |order|
        invariant values == Views(Contents)[..i]
      {
        GameAt(i);
        var game := games[order[i]];
        var home := game.GetHomeTeam();
        var away := game.GetAwayTeam();
        var homeScore := game.GetHomeScore();
        var awayScore := game.GetAwayScore();
        values := values + [GameView(home, away, homeScore, awayScore)];
      }
    }

    /** getGames: the stored map itself; its keys are exactly the board's keys
        and each maps to the game of that key. */
    method GetGames() returns (result: map<string, Game>)
      requires Valid()
      ensures forall k :: k in result <==> HasKey(Contents, k)
      ensures forall i :: 0 <= i < |Contents| ==> result[Contents[i].key].View() == Contents[i].game
    {
      result := games;
      forall k ensures k in result <==> HasKey(Contents, k) {
        KeyStored(k);
      }
    }

    /** The start checks in the order of the source: existing key, names, busy home, busy away. */
    method ValidateGameStartConditions(homeTeam: AsciiString, awayTeam: AsciiString, gameId: string)
      returns (outcome: Outcome)
      requires Valid()
      requires gameId == GameId(homeTeam, awayTeam)
      ensures outcome == StartCheck(Contents, homeTeam, awayTeam)
    {
      var gameExists := ValidateIfGameExists(gameId);
      if gameExists {
        return Failure(GameExists);
      }
      if !IsValidTeamName(homeTeam) || !IsValidTeamName(awayTeam) {
        return Failure(InvalidTeamName);
      }
      var homeBusy := ValidateIfTeamIsBusy(homeTeam);
      if homeBusy {
        return Failure(TeamBusy(homeTeam));
      }
      var awayBusy := ValidateIfTeamIsBusy(awayTeam);
      if awayBusy {
        return Failure(TeamBusy(awayTeam));
      }
      return Success;
    }

    /** The key is stored exactly when some game of the board has it. */
    method ValidateIfGameExists(gameId: string) returns (found: bool)
      requires Valid()
      ensures found <==> HasKey(Contents, gameId)
    {
      KeyStored(gameId);
      found := gameId in games;
    }

    /** Scans the games in insertion order, stopping at the first one in which
        the team plays at home or away, ignoring case. */
    method ValidateIfTeamIsBusy(team: AsciiString) returns (busy: bool)
      requires Valid()
      ensures busy <==> IsTeamBusy(Contents, team)
    {
      busy := false;
      var i := 0;
      while i < |order| && !busy
        invariant 0 <= i <= |order|
        invariant busy ==> IsTeamBusy(Contents, team)
        invariant !busy ==> forall j :: 0 <= j < i ==> !Plays(Contents[j].game, team)
        decreases |order| - i
      {
        GameAt(i);
        var game := games[order[i]];
        var home := game.GetHomeTeam();
        var away := game.GetAwayTeam();
        busy := EqualsIgnoreCase(home, team) || EqualsIgnoreCase(away, team);
        i := i + 1;
      }
    }

    /** The i-th key in insertion order is stored, and its game shows the i-th entry. */
    lemma GameAt(i: int)
      requires Valid() && 0 <= i < |order|
      ensures order[i] == Contents[i].key && order[i] in games
      ensures games[order[i]].View() == Contents[i].game
    {
    }

    /** A key is in the map exactly when the board has an entry with that key. */
    lemma KeyStored(key: string)
      requires Valid()
      ensures key in games <==> HasKey(Contents, key)
    {
      StoredHasKey(order, Snapshot(), Contents, key);
    }
  }
}
