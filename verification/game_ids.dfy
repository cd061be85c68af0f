/** The key under which the scoreboard stores a game: every ASCII letter of the
    home name followed by the away name, replaced by its position in the
    alphabet (A=1 .. Z=26) written in decimal, with nothing between the numbers.
    Despite its name the key is neither unique nor independent of which team
    plays at home; both facts are proved below. */
module UniqueGameIdGenerator {

  /** A 7-bit ASCII character; team names outside this range are not modelled. */
  type AsciiChar = c: char | c as int < 128 witness 'A'
  type AsciiString = seq<AsciiChar>

  predicate IsLetter(c: char) {
    'A' <= c <= 'Z' || 'a' <= c <= 'z'
  }

  predicate IsDigit(c: char) {
    '0' <= c <= '9'
  }

  predicate AllDigits(s: string) {
    forall i :: 0 <= i < |s| ==> IsDigit(s[i])
  }

  /** Upper-casing of one ASCII character; every other character is kept. */
  function ToUpper(c: char): (u: char)
    ensures IsLetter(u) <==> IsLetter(c)
    ensures IsLetter(c) ==> 'A' <= u <= 'Z'
    ensures !IsLetter(c) ==> u == c
    ensures 'A' <= c <= 'Z' ==> u == c
    ensures 'a' <= c <= 'z' ==> u as int - 'A' as int == c as int - 'a' as int
  {
    if 'a' <= c <= 'z' then (c as int - 32) as char else c
  }

  function UpperString(s: string): (r: string)
    ensures |r| == |s|
    ensures forall i :: 0 <= i < |s| ==> r[i] == ToUpper(s[i])
  {
    seq(|s|, i requires 0 <= i < |s| => ToUpper(s[i]))
  }

  /** Alphabet position of a letter, ignoring its case. */
  function Position(c: char): (p: int)
    requires IsLetter(c)
    ensures 1 <= p <= 26
    ensures p == (if 'a' <= c <= 'z' then c as int - 'a' as int else c as int - 'A' as int) + 1
  {
    ToUpper(c) as int - 'A' as int + 1
  }

  function DigitChar(d: nat): (c: char)
    requires d < 10
    ensures IsDigit(c)
  {
    ('0' as int + d) as char
  }

  /** Decimal text of a natural number, as StringBuilder.append(int) writes it. */
  function Decimal(n: nat): string
    decreases n
  {
    if n < 10 then [DigitChar(n)] else Decimal(n / 10) + [DigitChar(n % 10)]
  }

  /** The decimal text is made of digits only: one below ten, two below a hundred. */
  lemma {:induction false} DecimalShape(n: nat)
    ensures 1 <= |Decimal(n)| && AllDigits(Decimal(n))
    ensures n < 10 ==> |Decimal(n)| == 1
    ensures 10 <= n < 100 ==> |Decimal(n)| == 2
    decreases n
  {
    if n >= 10 {
      DecimalShape(n / 10);
    }
  }

  /** Value of a string of decimal digits. */
  function DecimalValue(s: string): nat
    requires AllDigits(s)
    decreases |s|
  {
    if s == [] then 0
    else 10 * DecimalValue(s[..|s| - 1]) + (s[|s| - 1] as int - '0' as int)
  }

  /** Reading back the decimal text of a number gives that number. */
  lemma {:induction false} DecimalRoundTrip(n: nat)
    ensures AllDigits(Decimal(n)) && DecimalValue(Decimal(n)) == n
    decreases n
  {
    DecimalShape(n);
    if n >= 10 {
      DecimalShape(n / 10);
      DecimalRoundTrip(n / 10);
      var s := Decimal(n);
      assert s[..|s| - 1] == Decimal(n / 10);
    }
  }

  /** What one character adds to the key: its position for a letter, nothing otherwise. */
  function LetterCode(c: char): string {
    if IsLetter(c) then Decimal(Position(c)) else ""
  }

  /** The number of letters among the first n characters of s. */
  function LettersInPrefix(s: string, n: nat): nat
    requires n <= |s|
    decreases n
  {
    if n == 0 then 0 else LettersInPrefix(s, n - 1) + (if IsLetter(s[n - 1]) then 1 else 0)
  }

  function LetterCount(s: string): nat {
    LettersInPrefix(s, |s|)
  }

  /** The encoding of the first n characters of s, character by character
      from the left, as the generator's loop builds it. */
  function EncodePrefix(s: string, n: nat): string
    requires n <= |s|
    decreases n
  {
    if n == 0 then "" else EncodePrefix(s, n - 1) + LetterCode(s[n - 1])
  }

  /** The encoding of a whole string. Each letter gives one or two digits. */
  function Digits(s: string): string {
    EncodePrefix(s, |s|)
  }

  /** The key of a game: the encoding of the home name directly followed by the away name. */
  function GameId(homeTeam: string, awayTeam: string): string {
    Digits(homeTeam + awayTeam)
  }

  function TrimStart(s: string): (r: string)
    ensures |r| <= |s|
    ensures (forall i :: 0 <= i < |s| ==> s[i] > ' ') ==> r == s
    decreases |s|
  {
    if s != [] && s[0] <= ' ' then TrimStart(s[1..]) else s
  }

  function TrimEnd(s: string): (r: string)
    ensures |r| <= |s|
    ensures (forall i :: 0 <= i < |s| ==> s[i] > ' ') ==> r == s
    decreases |s|
  {
    if s != [] && s[|s| - 1] <= ' ' then TrimEnd(s[..|s| - 1]) else s
  }

  /** String.trim: drops leading and trailing characters up to and including the space. */
  function Trim(s: string): (r: string)
    ensures |r| <= |s|
    ensures (forall i :: 0 <= i < |s| ==> s[i] > ' ') ==> r == s
  {
    TrimEnd(TrimStart(s))
  }

  /** generateUniqueGameId: walks the combined names once, appending each
      letter's position; the final trim has nothing to remove. */
  method GenerateUniqueGameId(homeTeam: AsciiString, awayTeam: AsciiString) returns (id: string)
    ensures id == GameId(homeTeam, awayTeam)
    ensures AllDigits(id)
  {
    var combinedTeams := homeTeam + awayTeam;
    var idBuilder := "";
    for i := 0 to |combinedTeams|
      invariant idBuilder == EncodePrefix(combinedTeams, i)
    {
      var c := combinedTeams[i];
      if IsLetter(c) {
        var number := ToUpper(c) as int - 'A' as int + 1;
        idBuilder := idBuilder + Decimal(number);
      }
    }
    DigitsShape(combinedTeams);
    id := Trim(idBuilder);
  }

  /** The encoding of a prefix depends on that prefix only. */
  lemma {:induction false} EncodePrefixAgree(s: string, u: string, n: nat)
    requires n <= |s| && n <= |u|
    requires forall i :: 0 <= i < n ==> s[i] == u[i]
    ensures EncodePrefix(s, n) == EncodePrefix(u, n)
    decreases n
  {
    if n > 0 {
      EncodePrefixAgree(s, u, n - 1);
    }
  }

  /** Appending one character appends that character's code. */
  lemma DigitsSnoc(s: string, c: char)
    ensures Digits(s + [c]) == Digits(s) + LetterCode(c)
  {
    EncodePrefixAgree(s + [c], s, |s|);
  }

  /** The encoding holds only decimal digits, one or two per letter. */
  lemma {:induction false} EncodePrefixShape(s: string, n: nat)
    requires n <= |s|
    ensures AllDigits(EncodePrefix(s, n))
    ensures LettersInPrefix(s, n) <= |EncodePrefix(s, n)| <= 2 * LettersInPrefix(s, n)
    decreases n
  {
    if n > 0 {
      EncodePrefixShape(s, n - 1);
      if IsLetter(s[n - 1]) {
        DecimalShape(Position(s[n - 1]));
      }
    }
  }

  lemma DigitsShape(s: string)
    ensures AllDigits(Digits(s))
    ensures LetterCount(s) <= |Digits(s)| <= 2 * LetterCount(s)
  {
    EncodePrefixShape(s, |s|);
  }

  lemma {:induction false} EncodeAppend(a: string, b: string, k: nat)
    requires k <= |b|
    ensures EncodePrefix(a + b, |a| + k) == Digits(a) + EncodePrefix(b, k)
    decreases k
  {
    if k == 0 {
      EncodePrefixAgree(a + b, a, |a|);
    } else {
      EncodeAppend(a, b, k - 1);
      assert (a + b)[|a| + k - 1] == b[k - 1];
    }
  }

  /** The encoding of a concatenation is the concatenation of the encodings. */
  lemma DigitsAppend(a: string, b: string)
    ensures Digits(a + b) == Digits(a) + Digits(b)
  {
    EncodeAppend(a, b, |b|);
  }

  /** Home letters come first: the key is the home encoding followed by the away encoding. */
  lemma GameIdSplit(homeTeam: string, awayTeam: string)
    ensures GameId(homeTeam, awayTeam) == Digits(homeTeam) + Digits(awayTeam)
  {
    DigitsAppend(homeTeam, awayTeam);
  }

  /** The key is empty exactly when neither name has a letter, and it has between
      one and two digits per letter. */
  lemma GameIdLength(homeTeam: string, awayTeam: string)
    ensures var n := LetterCount(homeTeam) + LetterCount(awayTeam);
            n <= |GameId(homeTeam, awayTeam)| <= 2 * n
    ensures GameId(homeTeam, awayTeam) == "" <==> LetterCount(homeTeam) + LetterCount(awayTeam) == 0
  {
    GameIdSplit(homeTeam, awayTeam);
    DigitsShape(homeTeam);
    DigitsShape(awayTeam);
    var h, a := Digits(homeTeam), Digits(awayTeam);
    assert |h + a| == |h| + |a|;
  }

  /** A character that is not a letter adds nothing to the encoding. */
  lemma DigitsSkipsNonLetter(a: string, c: char, b: string)
    requires !IsLetter(c)
    ensures Digits(a + [c] + b) == Digits(a + b)
  {
    calc {
      Digits(a + [c] + b);
      { DigitsAppend(a + [c], b); }
      Digits(a + [c]) + Digits(b);
      { DigitsSnoc(a, c); assert LetterCode(c) == ""; }
      Digits(a) + Digits(b);
      { DigitsAppend(a, b); }
      Digits(a + b);
    }
  }

  /** Upper-casing a letter does not change its code. */
  lemma LetterCodeIgnoresCase(c: char)
    ensures LetterCode(ToUpper(c)) == LetterCode(c)
  {
  }

  lemma {:induction false} EncodePrefixIgnoresCase(s: string, n: nat)
    requires n <= |s|
    ensures EncodePrefix(UpperString(s), n) == EncodePrefix(s, n)
    decreases n
  {
    if n > 0 {
      EncodePrefixIgnoresCase(s, n - 1);
      LetterCodeIgnoresCase(s[n - 1]);
    }
  }

  /** Upper-casing a name does not change its encoding. */
  lemma DigitsIgnoresCase(s: string)
    ensures Digits(UpperString(s)) == Digits(s)
  {
    EncodePrefixIgnoresCase(s, |s|);
  }

  /** Upper-casing either team name does not change the key. */
  lemma GameIdIgnoresCase(homeTeam: string, awayTeam: string)
    ensures GameId(UpperString(homeTeam), awayTeam) == GameId(homeTeam, awayTeam)
    ensures GameId(homeTeam, UpperString(awayTeam)) == GameId(homeTeam, awayTeam)
  {
    GameIdSplit(homeTeam, awayTeam);
    GameIdSplit(UpperString(homeTeam), awayTeam);
    GameIdSplit(homeTeam, UpperString(awayTeam));
    DigitsIgnoresCase(homeTeam);
    DigitsIgnoresCase(awayTeam);
  }

  /** The encoding of "POLAND": P=16, O=15, L=12, A=1, N=14, D=4. */
  lemma DigitsPoland()
    ensures Digits("POLAND") == "1615121144"
  {
    var s := "POLAND";
    assert EncodePrefix(s, 1) == "16" by { assert s[0] == 'P' && LetterCode('P') == "16"; }
    assert EncodePrefix(s, 2) == "1615" by { assert s[1] == 'O' && LetterCode('O') == "15"; assert "16" + "15" == "1615"; }
    assert EncodePrefix(s, 3) == "161512" by { assert s[2] == 'L' && LetterCode('L') == "12"; assert "1615" + "12" == "161512"; }
    assert EncodePrefix(s, 4) == "1615121" by { assert s[3] == 'A' && LetterCode('A') == "1"; assert "161512" + "1" == "1615121"; }
    assert EncodePrefix(s, 5) == "161512114" by { assert s[4] == 'N' && LetterCode('N') == "14"; assert "1615121" + "14" == "161512114"; }
    assert EncodePrefix(s, 6) == "1615121144" by { assert s[5] == 'D' && LetterCode('D') == "4"; assert "161512114" + "4" == "1615121144"; }
  }

  lemma DigitsItaly()
    ensures Digits("ITALY") == "92011225"
  {
    var s := "ITALY";
    assert EncodePrefix(s, 1) == "9" by { assert s[0] == 'I' && LetterCode('I') == "9"; }
    assert EncodePrefix(s, 2) == "920" by { assert s[1] == 'T' && LetterCode('T') == "20"; assert "9" + "20" == "920"; }
    assert EncodePrefix(s, 3) == "9201" by { assert s[2] == 'A' && LetterCode('A') == "1"; assert "920" + "1" == "9201"; }
    assert EncodePrefix(s, 4) == "920112" by { assert s[3] == 'L' && LetterCode('L') == "12"; assert "9201" + "12" == "920112"; }
    assert EncodePrefix(s, 5) == "92011225" by { assert s[4] == 'Y' && LetterCode('Y') == "25"; assert "920112" + "25" == "92011225"; }
  }

  /** The encoding of "Spain", in mixed case: S=19, P=16, A=1, I=9, N=14. */
  lemma DigitsSpain()
    ensures Digits("Spain") == "19161914"
  {
    var s := "Spain";
    assert EncodePrefix(s, 1) == "19" by { assert s[0] == 'S' && LetterCode('S') == "19"; }
    assert EncodePrefix(s, 2) == "1916" by { assert s[1] == 'p' && LetterCode('p') == "16"; assert "19" + "16" == "1916"; }
    assert EncodePrefix(s, 3) == "19161" by { assert s[2] == 'a' && LetterCode('a') == "1"; assert "1916" + "1" == "19161"; }
    assert EncodePrefix(s, 4) == "191619" by { assert s[3] == 'i' && LetterCode('i') == "9"; assert "19161" + "9" == "191619"; }
    assert EncodePrefix(s, 5) == "19161914" by { assert s[4] == 'n' && LetterCode('n') == "14"; assert "191619" + "14" == "19161914"; }
  }

  /** "Poland" in mixed case encodes like "POLAND". */
  lemma DigitsPolandMixedCase()
    ensures Digits("Poland") == "1615121144"
  {
    DigitsIgnoresCase("Poland");
    assert UpperString("Poland") == "POLAND";
    DigitsPoland();
  }

  /** The keys of Poland against Spain and of Spain against Poland. */
  lemma GameIdPolandSpain()
    ensures GameId("Poland", "Spain") == "161512114419161914"
    ensures GameId("Spain", "Poland") == "191619141615121144"
  {
    GameIdSplit("Poland", "Spain");
    GameIdSplit("Spain", "Poland");
    DigitsPolandMixedCase();
    DigitsSpain();
    assert "1615121144" + "19161914" == "161512114419161914";
    assert "19161914" + "1615121144" == "191619141615121144";
  }

  /** Swapping home and away changes the key. */
  lemma GameIdDependsOnOrder()
    ensures GameId("POLAND", "ITALY") == "161512114492011225"
    ensures GameId("ITALY", "POLAND") == "920112251615121144"
  {
    GameIdSplit("POLAND", "ITALY");
    GameIdSplit("ITALY", "POLAND");
    DigitsPoland();
    DigitsItaly();
    assert "1615121144" + "92011225" == "161512114492011225";
    assert "92011225" + "1615121144" == "920112251615121144";
  }

  lemma DigitsAbcd()
    ensures Digits("ABCD") == "1234"
  {
    var s := "ABCD";
    assert EncodePrefix(s, 1) == "1" by { assert s[0] == 'A' && LetterCode('A') == "1"; }
    assert EncodePrefix(s, 2) == "12" by { assert s[1] == 'B' && LetterCode('B') == "2"; assert "1" + "2" == "12"; }
    assert EncodePrefix(s, 3) == "123" by { assert s[2] == 'C' && LetterCode('C') == "3"; assert "12" + "3" == "123"; }
    assert EncodePrefix(s, 4) == "1234" by { assert s[3] == 'D' && LetterCode('D') == "4"; assert "123" + "4" == "1234"; }
  }

  lemma DigitsLcd()
    ensures Digits("LCD") == "1234"
  {
    var s := "LCD";
    assert EncodePrefix(s, 1) == "12" by { assert s[0] == 'L' && LetterCode('L') == "12"; }
    assert EncodePrefix(s, 2) == "123" by { assert s[1] == 'C' && LetterCode('C') == "3"; assert "12" + "3" == "123"; }
    assert EncodePrefix(s, 3) == "1234" by { assert s[2] == 'D' && LetterCode('D') == "4"; assert "123" + "4" == "1234"; }
  }

  /** Two different names can share an encoding: "AB" and "L" both give "12". */
  lemma DigitsNotInjective()
    ensures Digits("AB") == Digits("L") == "12"
  {
    assert EncodePrefix("AB", 1) == "1" by { assert "AB"[0] == 'A' && LetterCode('A') == "1"; }
    assert EncodePrefix("AB", 2) == "12" by { assert "AB"[1] == 'B' && LetterCode('B') == "2"; assert "1" + "2" == "12"; }
    assert EncodePrefix("L", 1) == "12" by { assert "L"[0] == 'L' && LetterCode('L') == "12"; }
  }

  /** Different pairs of names can share a key: "A"+"BCD" and "LC"+"D" both
      encode to "1234", because the numbers are written without a separator. */
  lemma GameIdNotInjective()
    ensures ("A", "BCD") != ("LC", "D")
    ensures GameId("A", "BCD") == GameId("LC", "D") == "1234"
  {
    assert "A" + "BCD" == "ABCD";
    assert "LC" + "D" == "LCD";
    DigitsAbcd();
    DigitsLcd();
  }
}
