/** One match: two team names and the current score. */
module Games {

  /** What can be observed of a game at one moment: its names and its score. */
  datatype GameView = GameView(homeTeam: string, awayTeam: string, homeScore: int, awayScore: int)

  class Game {
    var homeTeam: string
    var awayTeam: string
    var homeScore: int
    var awayScore: int

    function View(): GameView
      reads this
    {
      GameView(homeTeam, awayTeam, homeScore, awayScore)
    }

    /** Stores both names as given, without checking them (equal names are
        accepted); the scores keep their initial value 0. */
    constructor (homeTeam: string, awayTeam: string)
      ensures View() == GameView(homeTeam, awayTeam, 0, 0)
    {
      this.homeTeam := homeTeam;
      this.awayTeam := awayTeam;
      this.homeScore := 0;
      this.awayScore := 0;
    }

    /** Resets the score to 0-0 and leaves the names alone; the resulting state
        depends only on the names, so calling it twice is the same as once. */
    method StartGame()
      modifies this
      ensures View() == GameView(old(homeTeam), old(awayTeam), 0, 0)
    {
      homeScore := 0;
      awayScore := 0;
    }

    method GetHomeTeam() returns (team: string)
      ensures team == homeTeam
    {
      team := homeTeam;
    }

    method GetAwayTeam() returns (team: string)
      ensures team == awayTeam
    {
      team := awayTeam;
    }

    method GetHomeScore() returns (score: int)
      ensures score == homeScore
    {
      score := homeScore;
    }

    method GetAwayScore() returns (score: int)
      ensures score == awayScore
    {
      score := awayScore;
    }

    /** Sets both scores at once, without any check, and keeps the names. */
    method UpdateScore(homeScore: int, awayScore: int)
      modifies this
      ensures View() == GameView(old(homeTeam), old(awayTeam), homeScore, awayScore)
    {
      this.homeScore := homeScore;
      this.awayScore := awayScore;
    }
  }
}
