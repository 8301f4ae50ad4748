/**
 * The gamified counters both learner components keep (XP, hearts, streak, level)
 * and how one graded answer changes them. A correct answer adds the XP the grading route
 * awarded, extends the streak, and raises the level by one when the new XP divided
 * by 100 reaches the current level. A wrong answer costs a heart (never below zero)
 * and resets the streak.
 */
module Gamification {
  import opened GradeRoute

  datatype Stats = Stats(xp: int, hearts: int, streak: int, level: int)

  const MaxHearts: int := 3

  /** A fresh session: no XP, three hearts, no streak, level 1. */
  const Initial: Stats := Stats(0, MaxHearts, 0, 1)

  /** The level-up test `(xp + xpGained) / 100 >= level`, with `/` the exact division of numbers. */
  predicate ReachesNextLevel(xp: int, gain: int, level: int) {
    (xp + gain) as real / 100.0 >= level as real
  }

  /** The same test on integers: the XP reaches a hundred times the level. */
  lemma ReachesNextLevelInIntegers(xp: int, gain: int, level: int)
    ensures ReachesNextLevel(xp, gain, level) <==> xp + gain >= 100 * level
  {
  }

  /** The counters after one graded answer, judged against the counters before it. */
  function Rewarded(s: Stats, correct: bool, gain: int): (r: Stats)
    ensures r.level == s.level || r.level == s.level + 1
    ensures r.level == s.level + 1 <==> correct && s.xp + gain >= 100 * s.level
    ensures 0 <= s.hearts ==> 0 <= r.hearts <= s.hearts
    ensures !correct ==> r.hearts == (if s.hearts > 0 then s.hearts - 1 else 0)
    ensures correct ==> r.xp == s.xp + gain && r.streak == s.streak + 1 && r.hearts == s.hearts
    ensures !correct ==> r.streak == 0 && r.xp == s.xp && r.level == s.level
  {
    ReachesNextLevelInIntegers(s.xp, gain, s.level);
    if correct then
      Stats(s.xp + gain, s.hearts, s.streak + 1, if ReachesNextLevel(s.xp, gain, s.level) then s.level + 1 else s.level)
    else
      Stats(s.xp, if s.hearts - 1 > 0 then s.hearts - 1 else 0, 0, s.level)
  }

  /** What every reachable state satisfies: the level is one more than the hundreds of XP. */
  predicate Consistent(s: Stats) {
    && s.xp >= 0
    && s.level == s.xp / 100 + 1
    && 0 <= s.hearts <= MaxHearts
    && s.streak >= 0
  }

  lemma InitialConsistent()
    ensures Consistent(Initial)
  {
  }

  /**
   * A grade worth between 0 and 100 XP keeps the counters consistent: a single
   * level-up per answer is enough for the level to keep pace with the XP.
   */
  lemma RewardKeepsConsistent(s: Stats, correct: bool, gain: int)
    requires Consistent(s) && 0 <= gain <= 100
    ensures Consistent(Rewarded(s, correct, gain))
  {
    var r := Rewarded(s, correct, gain);
    if correct {
      var q := s.xp / 100;
      assert 100 * q <= s.xp < 100 * q + 100;
      if s.xp + gain >= 100 * (q + 1) {
        assert 100 * (q + 1) <= r.xp < 100 * (q + 2);
        assert r.xp / 100 == q + 1;
      } else {
        assert 100 * q <= r.xp < 100 * (q + 1);
        assert r.xp / 100 == q;
      }
    }
  }

  /** A grade worth more than 100 XP can skip a level, which the single level-up does not follow. */
  lemma LargeGainOutrunsLevel()
    ensures Consistent(Initial) && !Consistent(Rewarded(Initial, true, 200))
  {
  }

  /** The counters after a sequence of graded answers. */
  function Replay(s: Stats, verdicts: seq<Verdict>): Stats {
    if verdicts == [] then s
    else
      var last := verdicts[|verdicts| - 1];
      Rewarded(Replay(s, verdicts[..|verdicts| - 1]), last.correct, last.xpGained)
  }

  /** The number of correct answers at the end of the sequence. */
  function TrailingCorrect(verdicts: seq<Verdict>): (n: nat)
    ensures n <= |verdicts|
  {
    if verdicts == [] || !verdicts[|verdicts| - 1].correct then 0
    else TrailingCorrect(verdicts[..|verdicts| - 1]) + 1
  }

  function WrongCount(verdicts: seq<Verdict>): (n: nat)
    ensures n <= |verdicts|
  {
    if verdicts == [] then 0
    else WrongCount(verdicts[..|verdicts| - 1]) + if verdicts[|verdicts| - 1].correct then 0 else 1
  }

  /** The XP of all correct answers. */
  function EarnedXp(verdicts: seq<Verdict>): int {
    if verdicts == [] then 0
    else
      var last := verdicts[|verdicts| - 1];
      EarnedXp(verdicts[..|verdicts| - 1]) + if last.correct then last.xpGained else 0
  }

  /** Grades as the grading route gives them: 10 XP exactly when correct. */
  predicate GraderVerdicts(verdicts: seq<Verdict>) {
    forall i :: 0 <= i < |verdicts| ==> (verdicts[i].xpGained == if verdicts[i].correct then CorrectXp else 0)
  }

  /**
   * From a fresh session, the counters are determined by the answers: XP is the sum
   * earned, the streak is the run of correct answers at the end, a heart is lost per
   * wrong answer until none are left, and the level follows the XP.
   */
  lemma {:induction false} ReplayFromInitial(verdicts: seq<Verdict>)
    requires GraderVerdicts(verdicts)
    ensures var s := Replay(Initial, verdicts);
            && s.xp == EarnedXp(verdicts)
            && s.streak == TrailingCorrect(verdicts)
            && s.hearts == (if WrongCount(verdicts) >= MaxHearts then 0 else MaxHearts - WrongCount(verdicts))
            && Consistent(s)
  {
    if verdicts != [] {
      var prefix := verdicts[..|verdicts| - 1];
      var last := verdicts[|verdicts| - 1];
      assert GraderVerdicts(prefix) by {
        assert forall i :: 0 <= i < |prefix| ==> prefix[i] == verdicts[i];
      }
      ReplayFromInitial(prefix);
      assert last.xpGained == if last.correct then CorrectXp else 0;
      RewardKeepsConsistent(Replay(Initial, prefix), last.correct, last.xpGained);
    }
  }
}
