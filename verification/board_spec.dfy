/** The scoreboard as a value: its games in the order they were started, each
    with the key it is stored under, the checks that guard every operation and
    the invariant that the operations keep. */
module BoardSpec {
  import opened UniqueGameIdGenerator
  import opened Games

  /** One stored game and the key it is stored under. */
  datatype Entry = Entry(key: string, game: GameView)

  datatype BoardError = GameExists | InvalidTeamName | TeamBusy(team: string) | GameNotFound

  datatype Outcome = Success | Failure(error: BoardError)

  /** A name the start check accepts: one or more ASCII letters. */
  predicate IsValidTeamName(name: string) {
    |name| > 0 && forall i :: 0 <= i < |name| ==> IsLetter(name[i])
  }

  /** String.equalsIgnoreCase, for ASCII text. */
  predicate EqualsIgnoreCase(a: string, b: string) {
    |a| == |b| && forall i :: 0 <= i < |a| ==> ToUpper(a[i]) == ToUpper(b[i])
  }

  /** The team plays in the game, at home or away, ignoring case. */
  predicate Plays(g: GameView, team: string) {
    EqualsIgnoreCase(g.homeTeam, team) || EqualsIgnoreCase(g.awayTeam, team)
  }

  predicate HasKey(es: seq<Entry>, key: string) {
    exists i :: 0 <= i < |es| && es[i].key == key
  }

  /** Some stored game already has this team on either side. */
  predicate IsTeamBusy(es: seq<Entry>, team: string) {
    exists i :: 0 <= i < |es| && Plays(es[i].game, team)
  }

  predicate DistinctKeys(es: seq<Entry>) {
    forall i, j :: 0 <= i < j < |es| ==> es[i].key != es[j].key
  }

  /** Some team of g2 also plays in g1. */
  predicate ShareTeam(g1: GameView, g2: GameView) {
    Plays(g1, g2.homeTeam) || Plays(g1, g2.awayTeam)
  }

  predicate WellFormedEntry(e: Entry) {
    && IsValidTeamName(e.game.homeTeam)
    && IsValidTeamName(e.game.awayTeam)
    && e.key == GameId(e.game.homeTeam, e.game.awayTeam)
  }

  /** The board invariant: keys are distinct and each is the id of its game's
      names, every stored name is letters only, and no team (ignoring case)
      is in two different games. */
  ghost predicate WellFormed(es: seq<Entry>) {
    && DistinctKeys(es)
    && (forall i {:trigger WellFormedEntry(es[i])} :: 0 <= i < |es| ==> WellFormedEntry(es[i]))
    && (forall i, j {:trigger ShareTeam(es[i].game, es[j].game)} ::
          0 <= i < |es| && 0 <= j < |es| && i != j ==> !ShareTeam(es[i].game, es[j].game))
  }

  /** The checks of startGame, in their order: an existing key, then the names,
      then a busy home team, then a busy away team. */
  function StartCheck(es: seq<Entry>, homeTeam: string, awayTeam: string): (r: Outcome)
    ensures r == Failure(GameExists) <==> HasKey(es, GameId(homeTeam, awayTeam))
    ensures r == Failure(InvalidTeamName) <==>
              !HasKey(es, GameId(homeTeam, awayTeam)) &&
              !(IsValidTeamName(homeTeam) && IsValidTeamName(awayTeam))
    ensures r.Failure? && r.error.TeamBusy? <==>
              !HasKey(es, GameId(homeTeam, awayTeam)) &&
              IsValidTeamName(homeTeam) && IsValidTeamName(awayTeam) &&
              (IsTeamBusy(es, homeTeam) || IsTeamBusy(es, awayTeam))
    ensures r.Failure? && r.error.TeamBusy? ==>
              r.error.team == (if IsTeamBusy(es, homeTeam) then homeTeam else awayTeam)
    ensures r == Success <==>
              !HasKey(es, GameId(homeTeam, awayTeam)) &&
              IsValidTeamName(homeTeam) && IsValidTeamName(awayTeam) &&
              !IsTeamBusy(es, homeTeam) && !IsTeamBusy(es, awayTeam)
  {
    if HasKey(es, GameId(homeTeam, awayTeam)) then Failure(GameExists)
    else if !IsValidTeamName(homeTeam) || !IsValidTeamName(awayTeam) then Failure(InvalidTeamName)
    else if IsTeamBusy(es, homeTeam) then Failure(TeamBusy(homeTeam))
    else if IsTeamBusy(es, awayTeam) then Failure(TeamBusy(awayTeam))
    else Success
  }

  /** The check of finishGame and updateScore: the key must be stored. */
  function LookupCheck(es: seq<Entry>, key: string): (r: Outcome)
    ensures r.Success? <==> HasKey(es, key)
    ensures r.Failure? ==> r.error == GameNotFound
  {
    if HasKey(es, key) then Success else Failure(GameNotFound)
  }

  /** The board after a successful start: a new 0-0 game appended at the end. */
  function Started(es: seq<Entry>, homeTeam: string, awayTeam: string): seq<Entry> {
    es + [Entry(GameId(homeTeam, awayTeam), GameView(homeTeam, awayTeam, 0, 0))]
  }

  /** The board without the entry stored under key. */
  function Finished(es: seq<Entry>, key: string): seq<Entry>
    decreases |es|
  {
    if es == [] then []
    else if es[0].key == key then Finished(es[1..], key)
    else [es[0]] + Finished(es[1..], key)
  }

  function Rescored(e: Entry, key: string, homeScore: int, awayScore: int): Entry {
    if e.key == key then e.(game := e.game.(homeScore := homeScore, awayScore := awayScore)) else e
  }

  /** The board with the game stored under key set to the given score. */
  function Updated(es: seq<Entry>, key: string, homeScore: int, awayScore: int): seq<Entry> {
    seq(|es|, i requires 0 <= i < |es| => Rescored(es[i], key, homeScore, awayScore))
  }

  /** The keys of the board in the order the games were started. */
  function Keys(es: seq<Entry>): seq<string> {
    seq(|es|, i requires 0 <= i < |es| => es[i].key)
  }

  /** The keys of ks other than key, in their order. */
  function Without(ks: seq<string>, key: string): seq<string>
    decreases |ks|
  {
    if ks == [] then []
    else if ks[0] == key then Without(ks[1..], key)
    else [ks[0]] + Without(ks[1..], key)
  }

  function Views(es: seq<Entry>): seq<GameView> {
    seq(|es|, i requires 0 <= i < |es| => es[i].game)
  }

  lemma EqualsIgnoreCaseSymmetric(a: string, b: string)
    ensures EqualsIgnoreCase(a, b) <==> EqualsIgnoreCase(b, a)
  {
  }

  /** A successful start keeps the invariant. */
  lemma StartPreservesWellFormed(es: seq<Entry>, homeTeam: string, awayTeam: string)
    requires WellFormed(es)
    requires StartCheck(es, homeTeam, awayTeam) == Success
    ensures WellFormed(Started(es, homeTeam, awayTeam))
  {
    var r := Started(es, homeTeam, awayTeam);
    var n := r[|es|];
    forall i | 0 <= i < |es|
      ensures !ShareTeam(es[i].game, n.game) && !ShareTeam(n.game, es[i].game)
    {
      assert !Plays(es[i].game, homeTeam) && !Plays(es[i].game, awayTeam);
      EqualsIgnoreCaseSymmetric(es[i].game.homeTeam, homeTeam);
      EqualsIgnoreCaseSymmetric(es[i].game.awayTeam, homeTeam);
      EqualsIgnoreCaseSymmetric(es[i].game.homeTeam, awayTeam);
      EqualsIgnoreCaseSymmetric(es[i].game.awayTeam, awayTeam);
    }
    assert forall i :: 0 <= i < |es| ==> r[i] == es[i];
  }

  /** Removing one position keeps the invariant. */
  lemma RemoveAtPreservesWellFormed(es: seq<Entry>, k: int)
    requires WellFormed(es) && 0 <= k < |es|
    ensures WellFormed(es[..k] + es[k + 1..])
  {
    var r := es[..k] + es[k + 1..];
    assert forall p :: 0 <= p < |r| ==> r[p] == es[if p < k then p else p + 1];
  }

  /** Finishing a key that is not stored changes nothing. */
  lemma {:induction false} FinishedAbsent(es: seq<Entry>, key: string)
    requires !HasKey(es, key)
    ensures Finished(es, key) == es
    decreases |es|
  {
    if es != [] {
      assert forall i :: 0 <= i < |es| - 1 ==> es[1..][i] == es[i + 1];
      assert !HasKey(es[1..], key);
      FinishedAbsent(es[1..], key);
      assert es == [es[0]] + es[1..];
    }
  }

  /** finishGame removes exactly the entry at the key's position and keeps the
      others in their order. */
  lemma {:induction false} FinishedRemovesAt(es: seq<Entry>, k: int)
    requires DistinctKeys(es) && 0 <= k < |es|
    ensures Finished(es, es[k].key) == es[..k] + es[k + 1..]
    decreases k
  {
    var key := es[k].key;
    if k == 0 {
      assert forall i :: 0 <= i < |es| - 1 ==> es[1..][i] == es[i + 1];
      assert !HasKey(es[1..], key);
      FinishedAbsent(es[1..], key);
    } else {
      FinishedRemovesAt(es[1..], k - 1);
      assert es[1..][k - 1] == es[k];
      assert es[..k] + es[k + 1..] == [es[0]] + (es[1..][..k - 1] + es[1..][k..]);
    }
  }

  /** After removing key, every remaining entry was on the board and has another key. */
  lemma FinishedKeeps(es: seq<Entry>, key: string)
    requires DistinctKeys(es)
    ensures forall e :: e in Finished(es, key) ==> e in es && e.key != key
  {
    if HasKey(es, key) {
      var k :| 0 <= k < |es| && es[k].key == key;
      FinishedRemovesAt(es, k);
    } else {
      FinishedAbsent(es, key);
    }
  }

  /** A finish keeps the invariant. */
  lemma FinishPreservesWellFormed(es: seq<Entry>, key: string)
    requires WellFormed(es)
    ensures WellFormed(Finished(es, key))
  {
    if HasKey(es, key) {
      var k :| 0 <= k < |es| && es[k].key == key;
      FinishedRemovesAt(es, k);
      RemoveAtPreservesWellFormed(es, k);
    } else {
      FinishedAbsent(es, key);
    }
  }

  /** An update keeps the invariant: keys and names stay where they were. */
  lemma UpdatePreservesWellFormed(es: seq<Entry>, key: string, homeScore: int, awayScore: int)
    requires WellFormed(es)
    ensures WellFormed(Updated(es, key, homeScore, awayScore))
  {
    var r := Updated(es, key, homeScore, awayScore);
    forall i | 0 <= i < |es| ensures WellFormedEntry(r[i]) {
      assert WellFormedEntry(es[i]);
    }
    forall i, j | 0 <= i < |es| && 0 <= j < |es| && i != j ensures !ShareTeam(r[i].game, r[j].game) {
      assert !ShareTeam(es[i].game, es[j].game);
    }
  }

  /** An update leaves the keys, their order and every other game as they
      were, and sets the score of the addressed game only. */
  lemma UpdatedChangesOnlyKey(es: seq<Entry>, key: string, homeScore: int, awayScore: int, i: int)
    requires 0 <= i < |es|
    ensures var r := Updated(es, key, homeScore, awayScore);
            |r| == |es| && r[i].key == es[i].key &&
            r[i].game.homeTeam == es[i].game.homeTeam && r[i].game.awayTeam == es[i].game.awayTeam &&
            (es[i].key != key ==> r[i] == es[i]) &&
            (es[i].key == key ==> r[i].game.homeScore == homeScore && r[i].game.awayScore == awayScore)
  {
  }

  /** Removing a key from the key list matches removing its entry from the board. */
  lemma {:induction false} KeysFinished(es: seq<Entry>, key: string)
    ensures Keys(Finished(es, key)) == Without(Keys(es), key)
    decreases |es|
  {
    if es != [] {
      KeysFinished(es[1..], key);
      assert Keys(es)[1..] == Keys(es[1..]);
      if es[0].key != key {
        assert Keys([es[0]] + Finished(es[1..], key)) == [es[0].key] + Keys(Finished(es[1..], key));
      }
    }
  }

  /** Updating a key that is not stored changes nothing. */
  lemma UpdatedAbsent(es: seq<Entry>, key: string, homeScore: int, awayScore: int)
    requires !HasKey(es, key)
    ensures Updated(es, key, homeScore, awayScore) == es
  {
    assert forall i :: 0 <= i < |es| ==> es[i].key != key;
  }

  lemma {:induction false} FinishedAppend(a: seq<Entry>, b: seq<Entry>, key: string)
    ensures Finished(a + b, key) == Finished(a, key) + Finished(b, key)
    decreases |a|
  {
    if a == [] {
      assert a + b == b;
    } else {
      var head := if a[0].key == key then [] else [a[0]];
      FinishedAppend(a[1..], b, key);
      assert (a + b)[0] == a[0];
      assert (a + b)[1..] == a[1..] + b;
      calc {
        Finished(a + b, key);
        head + Finished(a[1..] + b, key);
        head + (Finished(a[1..], key) + Finished(b, key));
        (head + Finished(a[1..], key)) + Finished(b, key);
      }
    }
  }

  /** How a live board stores this board: order lists the keys in the order
      the games were started, and views holds each game's view under its key
      and nothing else. */
  predicate Stored(order: seq<string>, views: map<string, GameView>, es: seq<Entry>) {
    && order == Keys(es)
    && (forall i :: 0 <= i < |es| ==> es[i].key in views && views[es[i].key] == es[i].game)
    && (forall k :: k in views ==> HasKey(es, k))
  }

  lemma StoredHasKey(order: seq<string>, views: map<string, GameView>, es: seq<Entry>, key: string)
    requires Stored(order, views, es)
    ensures key in views <==> HasKey(es, key)
  {
  }

  /** Appending the key and adding the new 0-0 game stores the started board. */
  lemma StoredStart(order: seq<string>, views: map<string, GameView>, es: seq<Entry>, homeTeam: string, awayTeam: string)
    requires Stored(order, views, es) && !HasKey(es, GameId(homeTeam, awayTeam))
    ensures var key := GameId(homeTeam, awayTeam);
            Stored(order + [key], views[key := GameView(homeTeam, awayTeam, 0, 0)], Started(es, homeTeam, awayTeam))
  {
    var key := GameId(homeTeam, awayTeam);
    var r := Started(es, homeTeam, awayTeam);
    var views' := views[key := GameView(homeTeam, awayTeam, 0, 0)];
    assert Keys(r) == order + [key];
    forall k | k in views' ensures HasKey(r, k) {
      if k == key {
        assert r[|es|].key == k;
      } else {
        var i :| 0 <= i < |es| && es[i].key == k;
        assert r[i].key == k;
      }
    }
  }

  /** The entries left by finishing the key at position k, by position. */
  lemma FinishedAt(es: seq<Entry>, k: int)
    requires DistinctKeys(es) && 0 <= k < |es|
    ensures var r := Finished(es, es[k].key);
            |r| == |es| - 1 &&
            (forall p :: 0 <= p < k ==> r[p] == es[p]) &&
            (forall p :: k <= p < |r| ==> r[p] == es[p + 1])
  {
    FinishedRemovesAt(es, k);
  }

  /** Dropping the key from both stores the finished board. */
  lemma StoredFinish(order: seq<string>, views: map<string, GameView>, es: seq<Entry>, key: string)
    requires Stored(order, views, es) && DistinctKeys(es)
    ensures Stored(Without(order, key), views - {key}, Finished(es, key))
  {
    KeysFinished(es, key);
    if HasKey(es, key) {
      var k :| 0 <= k < |es| && es[k].key == key;
      StoredFinishAt(order, views, es, k);
    } else {
      FinishedAbsent(es, key);
    }
  }

  lemma StoredFinishAt(order: seq<string>, views: map<string, GameView>, es: seq<Entry>, k: int)
    requires Stored(order, views, es) && DistinctKeys(es) && 0 <= k < |es|
    ensures var r := Finished(es, es[k].key);
            && (forall p :: 0 <= p < |r| ==> r[p].key in views - {es[k].key} && (views - {es[k].key})[r[p].key] == r[p].game)
            && (forall x :: x in views - {es[k].key} ==> HasKey(r, x))
  {
    var key := es[k].key;
    var r := Finished(es, key);
    FinishedAt(es, k);
    forall p | 0 <= p < |r| ensures r[p].key in views - {key} && (views - {key})[r[p].key] == r[p].game {
      var j := if p < k then p else p + 1;
      assert r[p] == es[j] && j != k;
    }
    forall x | x in views - {key} ensures HasKey(r, x) {
      var i :| 0 <= i < |es| && es[i].key == x;
      var p := if i < k then i else i - 1;
      assert r[p] == es[i];
    }
  }

  /** Replacing the stored view of key stores the updated board. */
  lemma StoredUpdate(order: seq<string>, views: map<string, GameView>, es: seq<Entry>, key: string,
                     homeScore: int, awayScore: int)
    requires Stored(order, views, es) && key in views
    ensures Stored(order, views[key := views[key].(homeScore := homeScore, awayScore := awayScore)],
                   Updated(es, key, homeScore, awayScore))
  {
    var r := Updated(es, key, homeScore, awayScore);
    assert Keys(r) == Keys(es);
    forall k | k in views ensures HasKey(r, k) {
      var i :| 0 <= i < |es| && es[i].key == k;
      assert r[i].key == k;
    }
  }

  /** Starting a game and then finishing the same pair gives back the board. */
  lemma StartThenFinish(es: seq<Entry>, homeTeam: string, awayTeam: string)
    requires StartCheck(es, homeTeam, awayTeam) == Success
    ensures Finished(Started(es, homeTeam, awayTeam), GameId(homeTeam, awayTeam)) == es
  {
    var key := GameId(homeTeam, awayTeam);
    var n := Entry(key, GameView(homeTeam, awayTeam, 0, 0));
    FinishedAppend(es, [n], key);
    FinishedAbsent(es, key);
    assert Finished([n], key) == Finished([n][1..], key) == [];
  }

  /** On an empty board, any two letter-only names start, and finishing them
      empties the board again. */
  lemma EmptyBoardRoundTrip(homeTeam: string, awayTeam: string)
    requires IsValidTeamName(homeTeam) && IsValidTeamName(awayTeam)
    ensures StartCheck([], homeTeam, awayTeam) == Success
    ensures Finished(Started([], homeTeam, awayTeam), GameId(homeTeam, awayTeam)) == []
  {
    StartThenFinish([], homeTeam, awayTeam);
  }

  /** Starting the same pair again is rejected with GameExists. */
  lemma RestartRejected(es: seq<Entry>, homeTeam: string, awayTeam: string)
    ensures StartCheck(Started(es, homeTeam, awayTeam), homeTeam, awayTeam) == Failure(GameExists)
  {
    assert Started(es, homeTeam, awayTeam)[|es|].key == GameId(homeTeam, awayTeam);
  }

  /** The busy check ignores the case of the team asked about. */
  lemma TeamBusyIgnoresCase(es: seq<Entry>, team: string)
    ensures IsTeamBusy(es, UpperString(team)) <==> IsTeamBusy(es, team)
  {
    var up := UpperString(team);
    assert forall j :: 0 <= j < |team| ==> ToUpper(up[j]) == ToUpper(team[j]);
    forall i | 0 <= i < |es| ensures Plays(es[i].game, up) <==> Plays(es[i].game, team) {
    }
  }

  /** Because keys are not unique, a board holding "A" against "BCD" refuses to
      start "LC" against "D" with GameExists although neither team is busy. */
  lemma KeyCollisionRejectsFreeTeams()
    ensures StartCheck([], "A", "BCD") == Success
    ensures var es := Started([], "A", "BCD");
            && !IsTeamBusy(es, "LC") && !IsTeamBusy(es, "D")
            && StartCheck(es, "LC", "D") == Failure(GameExists)
  {
    GameIdNotInjective();
    var es := Started([], "A", "BCD");
    assert es[0].key == GameId("LC", "D");
    assert ToUpper('A') != ToUpper('D');
  }

  /** Starting a running pair again with home and away swapped is refused:
      with GameExists only when the swapped key happens to be stored, and
      otherwise because the new home team is already playing. */
  lemma SwappedStartRejected(es: seq<Entry>, homeTeam: string, awayTeam: string)
    requires StartCheck(es, homeTeam, awayTeam) == Success
    ensures var r := Started(es, homeTeam, awayTeam);
            StartCheck(r, awayTeam, homeTeam) ==
              if HasKey(r, GameId(awayTeam, homeTeam)) then Failure(GameExists) else Failure(TeamBusy(awayTeam))
  {
    var r := Started(es, homeTeam, awayTeam);
    assert Plays(r[|es|].game, awayTeam);
  }

  /** Poland against Spain is running, so Spain against Poland has a key of
      its own: finishing the swapped pair finds nothing and leaves the game on
      the board. */
  lemma SwappedTeamsNotFound()
    ensures var es := Started([], "Poland", "Spain");
            && LookupCheck(es, GameId("Spain", "Poland")) == Failure(GameNotFound)
            && Finished(es, GameId("Spain", "Poland")) == es
            && |es| == 1
  {
    GameIdPolandSpain();
    var es := Started([], "Poland", "Spain");
    assert GameId("Poland", "Spain") != GameId("Spain", "Poland") by {
      assert GameId("Poland", "Spain")[1] != GameId("Spain", "Poland")[1];
    }
    assert !HasKey(es, GameId("Spain", "Poland"));
    FinishedAbsent(es, GameId("Spain", "Poland"));
  }

  /** Poland against Spain is running, so starting Spain against Poland passes
      the key check and is refused because Spain is already playing. */
  lemma SwappedStartBusy()
    ensures StartCheck([], "Poland", "Spain") == Success
    ensures StartCheck(Started([], "Poland", "Spain"), "Spain", "Poland") == Failure(TeamBusy("Spain"))
  {
    GameIdPolandSpain();
    var es := Started([], "Poland", "Spain");
    assert GameId("Poland", "Spain") != GameId("Spain", "Poland") by {
      assert GameId("Poland", "Spain")[1] != GameId("Spain", "Poland")[1];
    }
    assert !HasKey(es, GameId("Spain", "Poland"));
    assert IsValidTeamName("Poland") && IsValidTeamName("Spain");
    SwappedStartRejected([], "Poland", "Spain");
  }
}
