// Points, the combo multiplier and the high score.  Hits less than a
// second apart raise the multiplier by one half up to three times; a
// slower hit sets it back to one.  The multiplier is kept here in halves
// (2 for 1x up to 6 for 3x), which makes the award an exact integer floor.
module Scoring {
  import opened GameConstants

  /** One award as recorded in the history. */
  datatype ScoreEvent = ScoreEvent(points: int, reason: string, timestamp: int)

  /** The multiplier in halves after a hit `gap` milliseconds after the previous one. */
  function NextHalves(halves: int, gap: int): (h: int)
    requires 2 <= halves <= 6
    ensures 2 <= h <= 6
    ensures gap >= 1000 <==> h == 2
    ensures gap < 1000 ==> h == if halves < 6 then halves + 1 else 6
  {
    if gap < 1000 then (if halves + 1 < 6 then halves + 1 else 6) else 2
  }

  /** The points awarded: floor(points * halves / 2). */
  function Award(points: int, halves: int): (r: int)
    requires 2 <= halves <= 6
    ensures 2 * r <= points * halves < 2 * r + 2
  {
    (points * halves) / 2
  }

  /** With points not negative the award is at least the base points and at most three times them. */
  lemma {:induction false} AwardBounds(points: int, halves: int)
    requires 2 <= halves <= 6 && points >= 0
    ensures points <= Award(points, halves) <= 3 * points
  {
    assert points * halves >= points * 2;
    assert points * halves <= points * 6;
  }

  /** The multiplier after `k` more hits, each within a second of the last. */
  function QuickHits(halves: int, k: nat): (h: int)
    requires 2 <= halves <= 6
    ensures 2 <= h <= 6
  {
    if k == 0 then halves else NextHalves(QuickHits(halves, k - 1), 0)
  }

  /** A streak of quick hits after a first hit reaches 1 + k/2 times, capped at 3. */
  lemma {:induction false} StreakMultiplier(k: nat)
    ensures QuickHits(2, k) == if 2 + k < 6 then 2 + k else 6
  {
    if k > 0 {
      StreakMultiplier(k - 1);
    }
  }

  /** How JavaScript prints the multiplier in the history's reason text. */
  function MultiplierText(halves: int): string {
    if halves == 2 then "1"
    else if halves == 3 then "1.5"
    else if halves == 4 then "2"
    else if halves == 5 then "2.5"
    else "3"
  }

  /** The last `count` events in order, as `slice(-count)` gives them: a
      count of 0 is slice(0), the whole history, and a negative count
      drops that many events from the front. */
  function RecentEvents(history: seq<ScoreEvent>, count: int): (r: seq<ScoreEvent>)
    ensures count > 0 ==> |r| == (if count < |history| then count else |history|)
    ensures count == 0 ==> r == history
    ensures |r| <= |history| && r == history[|history| - |r|..]
  {
    if count == 0 then history
    else if count > 0 then (if count < |history| then history[|history| - count..] else history)
    else (if -count < |history| then history[-count..] else [])
  }

  /** The decimal digit for 0..9. */
  function DigitChar(d: int): (c: char)
    requires 0 <= d < 10
    ensures '0' <= c <= '9'
  {
    ['0', '1', '2', '3', '4', '5', '6', '7', '8', '9'][d]
  }

  /** The decimal digits of `n`, with no leading zero. */
  function Digits(n: nat): (s: string)
    ensures |s| >= 1 && (forall k :: 0 <= k < |s| ==> '0' <= s[k] <= '9')
    ensures n >= 10 ==> s[0] != '0'
  {
    if n < 10 then [DigitChar(n)] else Digits(n / 10) + [DigitChar(n % 10)]
  }

  /** Number.prototype.toString for an integer: the digits, after a minus sign when negative. */
  function DecimalString(n: int): string {
    if n < 0 then "-" + Digits(-n) else Digits(n)
  }

  /** padStart(width, '0'): zeros in front up to `width` characters; a longer string is kept whole. */
  function PadStart(s: string, width: nat): (r: string)
    ensures |r| == if |s| < width then width else |s|
    ensures r[|r| - |s|..] == s && forall k :: 0 <= k < |r| - |s| ==> r[k] == '0'
  {
    if |s| < width then seq(width - |s|, _ => '0') + s else s
  }

  /** The score as displayed: its decimal form padded with zeros to six characters. */
  function Formatted(n: int): string {
    PadStart(DecimalString(n), 6)
  }

  /** The value of a string of decimal digits. */
  function Value(s: string): int
    requires forall k :: 0 <= k < |s| ==> '0' <= s[k] <= '9'
  {
    if s == [] then 0 else 10 * Value(s[..|s| - 1]) + (s[|s| - 1] as int - '0' as int)
  }

  /** Reading the digits back gives the number. */
  lemma {:induction false} DigitsValue(n: nat)
    ensures Value(Digits(n)) == n
  {
    if n >= 10 {
      DigitsValue(n / 10);
      var s := Digits(n);
      assert s[..|s| - 1] == Digits(n / 10);
    }
  }

  /** Leading zeros do not change a value. */
  lemma {:induction false} LeadingZeros(z: nat, s: string)
    requires forall k :: 0 <= k < |s| ==> '0' <= s[k] <= '9'
    ensures var p := seq(z, _ => '0') + s;
      (forall k :: 0 <= k < |p| ==> '0' <= p[k] <= '9') && Value(p) == Value(s)
    decreases |s|
  {
    var p := seq(z, _ => '0') + s;
    if s == [] {
      ZerosValue(z);
      assert p == seq(z, _ => '0');
    } else {
      LeadingZeros(z, s[..|s| - 1]);
      assert p[..|p| - 1] == seq(z, _ => '0') + s[..|s| - 1];
    }
  }

  /** A run of zeros is worth nothing. */
  lemma {:induction false} ZerosValue(z: nat)
    ensures Value(seq(z, _ => '0')) == 0
  {
    if z > 0 {
      ZerosValue(z - 1);
      assert seq(z, _ => '0')[..z - 1] == seq(z - 1, _ => '0');
    }
  }

  /** The displayed score of a non-negative score is at least six digits and reads back as the score. */
  lemma {:induction false} FormattedRoundTrip(n: nat)
    ensures var f := Formatted(n);
      |f| >= 6 && (forall k :: 0 <= k < |f| ==> '0' <= f[k] <= '9') && Value(f) == n
  {
    var s := Digits(n);
    DigitsValue(n);
    assert DecimalString(n) == s;
    if |s| < 6 {
      LeadingZeros(6 - |s|, s);
      assert Formatted(n) == seq(6 - |s|, _ => '0') + s;
    } else {
      assert Formatted(n) == s;
    }
  }

  /** Scores below a million show exactly six characters. */
  lemma {:induction false} FormattedWidth(n: nat)
    requires n < 1000000
    ensures |Formatted(n)| == 6
  {
    assert Pow10(6) == 1000000;
    DigitsLength(n, 6);
  }

  function Pow10(k: nat): (p: nat)
    ensures p >= 1
  {
    if k == 0 then 1 else 10 * Pow10(k - 1)
  }

  /** A number below 10^k has at most k digits. */
  lemma {:induction false} DigitsLength(n: nat, k: nat)
    requires 1 <= k && n < Pow10(k)
    ensures |Digits(n)| <= k
  {
    if n >= 10 {
      DigitsLength(n / 10, k - 1);
    }
  }

  class ScoringSystem {
    var score: int
    var highScore: int
    var scoreHistory: seq<ScoreEvent>
    var comboHalves: int
    var lastHitTime: int

    /** The multiplier is 1x to 3x in halves, and the high score is never below the score or zero. */
    ghost predicate Valid()
      reads this
    {
      2 <= comboHalves <= 6 && highScore >= score && highScore >= 0
    }

    /** Starts from nothing, with the high score that was saved (zero when none was). */
    constructor (savedHighScore: nat)
      ensures Valid() && score == 0 && highScore == savedHighScore && scoreHistory == []
      ensures comboHalves == 2 && lastHitTime == 0
    {
      score := 0;
      highScore := savedHighScore;
      scoreHistory := [];
      comboHalves := 2;
      lastHitTime := 0;
    }

    /** A hit worth `points` at time `now`: the multiplier steps up for a
        hit within a second of the last one and drops to 1x otherwise, the
        award is added and recorded, and the high score follows the score. */
    method AddScore(points: int, reason: string, now: int)
      requires Valid()
      modifies this
      ensures Valid()
      ensures comboHalves == NextHalves(old(comboHalves), now - old(lastHitTime))
      ensures score == old(score) + Award(points, comboHalves) && lastHitTime == now
      ensures scoreHistory == old(scoreHistory) +
        [ScoreEvent(Award(points, comboHalves), reason + " (" + MultiplierText(comboHalves) + "x)", now)]
      ensures highScore == if score > old(highScore) then score else old(highScore)
    {
      if now - lastHitTime < 1000 {
        comboHalves := if comboHalves + 1 < 6 then comboHalves + 1 else 6;
      } else {
        comboHalves := 2;
      }
      var finalPoints := (points * comboHalves) / 2;
      score := score + finalPoints;
      lastHitTime := now;
      var scoreEvent := ScoreEvent(finalPoints, reason + " (" + MultiplierText(comboHalves) + "x)", now);
      scoreHistory := scoreHistory + [scoreEvent];
      if score > highScore {
        highScore := score;
      }
    }

    method AddAlienScore(now: int)
      requires Valid()
      modifies this
      ensures Valid() && lastHitTime == now
      ensures comboHalves == NextHalves(old(comboHalves), now - old(lastHitTime))
      ensures score == old(score) + Award(ALIEN_POINTS, comboHalves)
      ensures scoreHistory == old(scoreHistory) +
        [ScoreEvent(Award(ALIEN_POINTS, comboHalves), "alien" + " (" + MultiplierText(comboHalves) + "x)", now)]
      ensures highScore == if score > old(highScore) then score else old(highScore)
    {
      AddScore(ALIEN_POINTS, "alien", now);
    }

    method AddUFOScore(isBonus: bool, now: int)
      requires Valid()
      modifies this
      ensures Valid() && lastHitTime == now
      ensures comboHalves == NextHalves(old(comboHalves), now - old(lastHitTime))
      ensures score == old(score) + Award(if isBonus then BONUS_UFO_POINTS else UFO_POINTS, comboHalves)
      ensures scoreHistory == old(scoreHistory) +
        [ScoreEvent(Award(if isBonus then BONUS_UFO_POINTS else UFO_POINTS, comboHalves),
                    (if isBonus then "bonus-ufo" else "ufo") + " (" + MultiplierText(comboHalves) + "x)", now)]
      ensures highScore == if score > old(highScore) then score else old(highScore)
    {
      var points := if isBonus then BONUS_UFO_POINTS else UFO_POINTS;
      var reason := if isBonus then "bonus-ufo" else "ufo";
      AddScore(points, reason, now);
    }

    method AddLevelBonus(now: int)
      requires Valid()
      modifies this
      ensures Valid() && lastHitTime == now
      ensures comboHalves == NextHalves(old(comboHalves), now - old(lastHitTime))
      ensures score == old(score) + Award(LEVEL_BONUS, comboHalves)
      ensures scoreHistory == old(scoreHistory) +
        [ScoreEvent(Award(LEVEL_BONUS, comboHalves), "level-complete" + " (" + MultiplierText(comboHalves) + "x)", now)]
      ensures highScore == if score > old(highScore) then score else old(highScore)
    {
      AddScore(LEVEL_BONUS, "level-complete", now);
    }

    function GetScore(): int
      reads this
    {
      score
    }

    function GetHighScore(): int
      reads this
    {
      highScore
    }

    /** The multiplier itself: 1, 1.5, 2, 2.5 or 3. */
    function GetComboMultiplier(): (m: real)
      requires Valid()
      reads this
      ensures 1.0 <= m <= 3.0 && m * 2.0 == comboHalves as real
    {
      comboHalves as real / 2.0
    }

    /** Back to a new game: no score, 1x, no history; the high score stays. */
    method Reset()
      requires Valid()
      modifies this`score, this`comboHalves, this`lastHitTime, this`scoreHistory
      ensures Valid() && score == 0 && comboHalves == 2 && lastHitTime == 0 && scoreHistory == []
      ensures highScore == old(highScore)
    {
      score := 0;
      comboHalves := 2;
      lastHitTime := 0;
      scoreHistory := [];
    }

    function GetRecentScoreEvents(count: int): seq<ScoreEvent>
      reads this
    {
      RecentEvents(scoreHistory, count)
    }

    function GetFormattedScore(): string
      reads this
    {
      Formatted(score)
    }

    function GetFormattedHighScore(): string
      reads this
    {
      Formatted(highScore)
    }

    /** Sets the score outright; the high score follows it up, never down. */
    method SetScore(score: int)
      requires Valid()
      modifies this`score, this`highScore
      ensures Valid() && this.score == score
      ensures highScore == if score > old(highScore) then score else old(highScore)
    {
      this.score := score;
      if this.score > highScore {
        highScore := this.score;
      }
    }
  }
}
