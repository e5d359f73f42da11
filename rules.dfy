/**
 * How a round is decided and scored: a digest mismatch is a win for the
 * user, otherwise the two choices are compared cyclically; the score is a
 * pair of `unsigned int` counters.
 */
module Rules {
  import opened GameTypes
  import opened Codec

  /** What the end of a round reports. */
  datatype Verdict = HashMismatch | Win | Lose | Tie

  /** The rules of the game, written out case by case. */
  predicate Beats(a: Choice, b: Choice) {
    (a == Rock && b == Scissors) || (a == Paper && b == Rock) || (a == Scissors && b == Paper)
  }

  /**
   * The cyclic comparison `d = (3 + mine - theirs) % 3` of two valid
   * choices. The left operand of `%` lies in 1..5, so C++'s truncating
   * remainder and the one here agree.
   */
  function Outcome(mine: Choice, theirs: Choice): (v: Verdict)
    ensures v != HashMismatch
    ensures v == Tie <==> mine == theirs
    ensures v == Win <==> Beats(mine, theirs)
    ensures v == Lose <==> Beats(theirs, mine)
  {
    var d := (3 + mine.Value() - theirs.Value()) % 3;
    if d == 1 then Win
    else if d == 2 then Lose
    else Tie
  }

  /** The verdict the other side of a round reaches. */
  function Mirror(v: Verdict): (w: Verdict) {
    match v
    case Win => Lose
    case Lose => Win
    case Tie => Tie
    case HashMismatch => HashMismatch
  }

  /** Swapping the two choices swaps win and loss and keeps a tie. */
  lemma OutcomeAntisymmetric(a: Choice, b: Choice)
    ensures Outcome(b, a) == Mirror(Outcome(a, b))
  {
  }

  /**
   * The end of a round: a commitment that the opponent's reveal does not
   * reproduce wins for the user without comparing choices; otherwise the
   * choices decide.
   */
  function Judge(h: Hmac, mine: Choice, committed: ChoiceMade, revealed: ChoiceReveal): (v: Verdict)
    ensures v == HashMismatch <==> !Matches(h, committed, revealed)
    ensures Matches(h, committed, revealed) ==> v == Outcome(mine, revealed.choice)
  {
    if committed.hash != Commit(h, revealed).hash then HashMismatch
    else Outcome(mine, revealed.choice)
  }

  /**
   * Two honest players who commit to and reveal `a` and `b` reach
   * opposite verdicts: neither sees a mismatch, and one wins exactly when
   * the other loses.
   */
  lemma HonestPlayersAgree(h: Hmac, a: ChoiceReveal, b: ChoiceReveal)
    ensures Judge(h, a.choice, Commit(h, b), b) == Outcome(a.choice, b.choice)
    ensures Judge(h, b.choice, Commit(h, a), a) == Mirror(Judge(h, a.choice, Commit(h, b), b))
  {
    HonestRevealMatches(h, a);
    HonestRevealMatches(h, b);
    OutcomeAntisymmetric(a.choice, b.choice);
  }

  /** `wins` and `losses`, two `unsigned int`s. */
  datatype Score = Score(wins: uint32, losses: uint32)

  /** `++` on an `unsigned int`: wraps to 0 after `UINT32_MAX`. */
  function Inc(x: uint32): (r: uint32)
    ensures x < UINT32_MAX ==> r == x + 1
    ensures x == UINT32_MAX ==> r == 0
  {
    (x + 1) % 0x1_0000_0000
  }

  /**
   * The score after a round with verdict `v`: a win or a mismatch moves
   * only `wins`, a loss moves only `losses`, and a tie moves neither.
   */
  function Tally(s: Score, v: Verdict): (r: Score)
    ensures r.wins != s.wins <==> v == Win || v == HashMismatch
    ensures r.losses != s.losses <==> v == Lose
    ensures r == s <==> v == Tie
  {
    match v
    case HashMismatch => s.(wins := Inc(s.wins))
    case Win => s.(wins := Inc(s.wins))
    case Lose => s.(losses := Inc(s.losses))
    case Tie => s
  }

  /** The score after a digest mismatch: one more win, losses unchanged. */
  lemma MismatchScoresWin(s: Score)
    requires s.wins < UINT32_MAX
    ensures Tally(s, HashMismatch) == Score(s.wins + 1, s.losses)
  {
  }

  /**
   * With valid digests, a win adds one to `wins`, a loss adds one to
   * `losses`, and a tie changes neither.
   */
  lemma OutcomeScores(s: Score, mine: Choice, theirs: Choice)
    requires s.wins < UINT32_MAX && s.losses < UINT32_MAX
    ensures Beats(mine, theirs) ==> Tally(s, Outcome(mine, theirs)) == Score(s.wins + 1, s.losses)
    ensures Beats(theirs, mine) ==> Tally(s, Outcome(mine, theirs)) == Score(s.wins, s.losses + 1)
    ensures mine == theirs ==> Tally(s, Outcome(mine, theirs)) == s
  {
  }

  /** No verdict lowers a counter, and the two together grow by at most one. */
  lemma TallyStep(s: Score, v: Verdict)
    requires s.wins < UINT32_MAX && s.losses < UINT32_MAX
    ensures Tally(s, v).wins >= s.wins && Tally(s, v).losses >= s.losses
    ensures s.wins + s.losses <= Tally(s, v).wins + Tally(s, v).losses <= s.wins + s.losses + 1
  {
  }

  /** The score after a sequence of rounds. */
  function TallyAll(s: Score, vs: seq<Verdict>): (r: Score)
    decreases |vs|
  {
    if vs == [] then s else TallyAll(Tally(s, vs[0]), vs[1..])
  }

  /** The rounds of `vs` that count for the user. */
  function Wins(vs: seq<Verdict>): (n: nat)
    ensures n <= |vs|
  {
    if vs == [] then 0
    else (if vs[0] == Win || vs[0] == HashMismatch then 1 else 0) + Wins(vs[1..])
  }

  /** The rounds of `vs` that count against the user. */
  function Losses(vs: seq<Verdict>): (n: nat)
    ensures n <= |vs|
  {
    if vs == [] then 0
    else (if vs[0] == Lose then 1 else 0) + Losses(vs[1..])
  }

  /**
   * As long as neither counter wraps, the score after a run of rounds is
   * the starting score plus one win per won or mismatched round and one
   * loss per lost round; together they grow by at most one per round.
   */
  lemma {:induction false} TallyAllCounts(s: Score, vs: seq<Verdict>)
    requires s.wins + |vs| <= UINT32_MAX && s.losses + |vs| <= UINT32_MAX
    ensures TallyAll(s, vs) == Score(s.wins + Wins(vs), s.losses + Losses(vs))
    ensures Wins(vs) + Losses(vs) <= |vs|
    decreases |vs|
  {
    if vs != [] {
      TallyAllCounts(Tally(s, vs[0]), vs[1..]);
    }
  }

  /**
   * From 0 - 0 the score is the number of won (or mismatched) rounds and
   * the number of lost rounds, as long as there are fewer than 2^32 rounds.
   */
  lemma FreshScoreCountsRounds(vs: seq<Verdict>)
    requires |vs| <= UINT32_MAX
    ensures TallyAll(Score(0, 0), vs) == Score(Wins(vs), Losses(vs))
  {
    TallyAllCounts(Score(0, 0), vs);
  }

  /**
   * Two honest engines starting from 0 - 0, where the user plays rock and
   * the opponent scissors: the user's score becomes 1 - 0 and the
   * opponent's 0 - 1.
   */
  lemma RockBeatsScissorsRound(h: Hmac, mine: ChoiceReveal, theirs: ChoiceReveal)
    requires mine.choice == Rock && theirs.choice == Scissors
    ensures Tally(Score(0, 0), Judge(h, mine.choice, Commit(h, theirs), theirs)) == Score(1, 0)
    ensures Tally(Score(0, 0), Judge(h, theirs.choice, Commit(h, mine), mine)) == Score(0, 1)
  {
    HonestPlayersAgree(h, mine, theirs);
  }
}
