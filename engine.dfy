/**
 * The round protocol of `Game::run`. The `Game` object holds the
 * connection state, the score and the three queues; each call of `Round`
 * is one iteration of the loop in `run`: wait until both connections are
 * up, take the user's choice, send the commitment, wait for the
 * opponent's commitment, send the reveal, wait for the opponent's reveal,
 * check it and score the round.
 *
 * What other threads do while `run` blocks enters as parameters: the
 * state changes made while `wait_for` waits, the tokens the user types
 * once the choice queue has been cleared, and what the random source
 * reports. The messages the opponent sends are the contents of the
 * incoming queue.
 */
module Engine {
  import opened GameTypes
  import opened Flags
  import opened Waiting
  import opened Queues
  import opened Codec
  import opened Rules
  import opened Ui

  /** A message `run` put on the outgoing queue or took off the incoming queue. */
  datatype Event = Sent(m: Message) | Took(m: Message)

  /** The events of taking the messages `ms` off the incoming queue, in order. */
  function Taken(ms: seq<Message>): (es: seq<Event>) {
    seq(|ms|, k requires 0 <= k < |ms| => Took(ms[k]))
  }

  lemma TakenSnoc(s: seq<Message>, i: nat)
    requires i < |s|
    ensures Taken(s[..i + 1]) == Taken(s[..i]) + [Took(s[i])]
  {
  }

  /** Some message of `s` has type `t`. */
  ghost predicate HasType(s: seq<Message>, t: MessageType) {
    exists k :: 0 <= k < |s| && s[k].Type() == t
  }

  lemma HasTypeInTail(s: seq<Message>, t: MessageType)
    requires HasType(s, t) && s[0].Type() != t
    ensures HasType(s[1..], t)
  {
    var k :| 0 <= k < |s| && s[k].Type() == t;
    assert s[1..][k - 1] == s[k];
  }

  /** No message of `s` has type `t`. */
  ghost predicate NoneOfType(s: seq<Message>, t: MessageType) {
    forall k :: 0 <= k < |s| ==> s[k].Type() != t
  }

  /** The position of the first message of type `t`: the one a skipping loop stops at. */
  function FirstOfType(s: seq<Message>, t: MessageType): (k: nat)
    requires HasType(s, t)
    ensures k < |s| && s[k].Type() == t
    ensures NoneOfType(s[..k], t)
    decreases |s|
  {
    if s[0].Type() == t then 0
    else
      HasTypeInTail(s, t);
      var k := FirstOfType(s[1..], t);
      assert s[..k + 1] == [s[0]] + s[1..][..k];
      1 + k
  }

  /** A message of type `t` with none before it is the first one. */
  lemma FirstOfTypeIs(s: seq<Message>, t: MessageType, i: nat)
    requires i < |s| && s[i].Type() == t && NoneOfType(s[..i], t)
    ensures HasType(s, t) && FirstOfType(s, t) == i
  {
  }

  /** A message of type `t` at or before the first one is the first one. */
  lemma FirstOfTypeNoLater(s: seq<Message>, t: MessageType, i: nat)
    requires HasType(s, t) && i <= FirstOfType(s, t) && s[i].Type() == t
    ensures FirstOfType(s, t) == i
  {
  }

  /** The incoming messages let a round finish: a commitment, and a reveal after it. */
  ghost predicate RoundReady(s: seq<Message>) {
    HasType(s, ChoiceMadeType) && HasType(s[FirstOfType(s, ChoiceMadeType) + 1..], ChoiceRevealType)
  }

  /**
   * How a round reads the incoming messages: reveals it drops, the
   * commitment it keeps, commitments it drops, the reveal it keeps, and
   * the messages it leaves for later rounds.
   */
  datatype Exchange = Exchange(
    droppedReveals: seq<Message>,
    committed: ChoiceMade,
    droppedCommits: seq<Message>,
    revealed: ChoiceReveal,
    rest: seq<Message>)

  /**
   * The messages `s` are, in order, the parts of `ex`, and the dropped
   * messages have the other type: no commitment among the dropped
   * reveals and no reveal among the dropped commitments.
   */
  ghost predicate SplitsInto(s: seq<Message>, ex: Exchange) {
    && s == ex.droppedReveals + [MadeMessage(ex.committed)] + ex.droppedCommits
            + [RevealMessage(ex.revealed)] + ex.rest
    && NoneOfType(ex.droppedReveals, ChoiceMadeType)
    && NoneOfType(ex.droppedCommits, ChoiceRevealType)
  }

  /**
   * The split of the incoming messages that a round makes: it skips to
   * the first commitment, then from there to the first reveal.
   */
  function ExchangeOf(s: seq<Message>): (ex: Exchange)
    requires RoundReady(s)
    ensures |ex.droppedReveals| == FirstOfType(s, ChoiceMadeType)
    ensures var i := |ex.droppedReveals|;
            && s[..i] == ex.droppedReveals
            && s[i] == MadeMessage(ex.committed)
            && |ex.droppedCommits| == FirstOfType(s[i + 1..], ChoiceRevealType)
            && var after := s[i + 1..];
            && after[..|ex.droppedCommits|] == ex.droppedCommits
            && after[|ex.droppedCommits|] == RevealMessage(ex.revealed)
            && after[|ex.droppedCommits| + 1..] == ex.rest
  {
    var i := FirstOfType(s, ChoiceMadeType);
    var after := s[i + 1..];
    var j := FirstOfType(after, ChoiceRevealType);
    Exchange(s[..i], s[i].choiceMade, after[..j], after[j].choiceReveal, after[j + 1..])
  }

  /** The split is a split: the parts make up the messages, and every dropped message has the other type. */
  lemma ExchangeOfSplits(s: seq<Message>)
    requires RoundReady(s)
    ensures SplitsInto(s, ExchangeOf(s))
  {
    var ex := ExchangeOf(s);
    var i := |ex.droppedReveals|;
    ExchangeSteps(s);
    CutTwice(s, i, |ex.droppedCommits|);
  }

  /** A sequence cut at position `i`, and its remainder cut at position `j`. */
  lemma CutTwice<T>(s: seq<T>, i: nat, j: nat)
    requires i < |s| && j < |s| - i - 1
    ensures s == s[..i] + [s[i]] + s[i + 1..][..j] + [s[i + 1..][j]] + s[i + 1..][j + 1..]
  {
    var after := s[i + 1..];
    assert after == after[..j] + [after[j]] + after[j + 1..];
    assert s == s[..i] + [s[i]] + after;
  }

  /** A message sequence splits in only one way, so `ExchangeOf` is the split. */
  lemma ExchangeUnique(s: seq<Message>, ex: Exchange)
    requires SplitsInto(s, ex)
    ensures RoundReady(s) && ExchangeOf(s) == ex
  {
    var i := |ex.droppedReveals|;
    var after := ex.droppedCommits + [RevealMessage(ex.revealed)] + ex.rest;
    assert s == ex.droppedReveals + [MadeMessage(ex.committed)] + after;
    assert s[..i] == ex.droppedReveals && s[i] == MadeMessage(ex.committed) && s[i + 1..] == after;
    FirstOfTypeIs(s, ChoiceMadeType, i);
    var j := |ex.droppedCommits|;
    assert after[..j] == ex.droppedCommits && after[j] == RevealMessage(ex.revealed);
    FirstOfTypeIs(after, ChoiceRevealType, j);
    assert after[j + 1..] == ex.rest;
  }

  /** Where the two skipping loops of a round stop, and what each takes. */
  lemma ExchangeSteps(s: seq<Message>)
    requires RoundReady(s)
    ensures var ex := ExchangeOf(s);
            var i := |ex.droppedReveals|;
            var after := s[i + 1..];
            var j := |ex.droppedCommits|;
            && FirstOfType(s, ChoiceMadeType) == i
            && s[i] == MadeMessage(ex.committed)
            && s[..i + 1] == ex.droppedReveals + [MadeMessage(ex.committed)]
            && HasType(after, ChoiceRevealType)
            && FirstOfType(after, ChoiceRevealType) == j
            && after[j] == RevealMessage(ex.revealed)
            && after[..j + 1] == ex.droppedCommits + [RevealMessage(ex.revealed)]
            && after[j + 1..] == ex.rest
  {
    var ex := ExchangeOf(s);
    var i := |ex.droppedReveals|;
    var after := s[i + 1..];
    var j := |ex.droppedCommits|;
    assert s[..i + 1] == s[..i] + [s[i]];
    assert after[..j + 1] == after[..j] + [after[j]];
  }

  /** A reveal that arrives before any commitment is consumed and lost. */
  lemma EarlyRevealIsLost(r: ChoiceReveal, c: ChoiceMade, later: seq<Message>)
    requires RoundReady([RevealMessage(r), MadeMessage(c)] + later)
    ensures ExchangeOf([RevealMessage(r), MadeMessage(c)] + later).droppedReveals == [RevealMessage(r)]
  {
    var s := [RevealMessage(r), MadeMessage(c)] + later;
    assert s[0] == RevealMessage(r) && s[1] == MadeMessage(c) && s[..1] == [RevealMessage(r)];
    FirstOfTypeIs(s, ChoiceMadeType, 1);
  }

  /** The events of one round, in the order `run` causes them. */
  function RoundEvents(h: Hmac, mine: ChoiceReveal, ex: Exchange): (es: seq<Event>) {
    [Sent(MadeMessage(Commit(h, mine)))]
    + Taken(ex.droppedReveals + [MadeMessage(ex.committed)])
    + [Sent(RevealMessage(mine))]
    + Taken(ex.droppedCommits + [RevealMessage(ex.revealed)])
  }

  /** How a round's event sequence lines up with its four parts. */
  lemma RoundEventsSplit(t: seq<Event>, h: Hmac, mine: ChoiceReveal, ex: Exchange)
    ensures t + [Sent(MadeMessage(Commit(h, mine)))]
              + Taken(ex.droppedReveals + [MadeMessage(ex.committed)])
              + [Sent(RevealMessage(mine))]
              + Taken(ex.droppedCommits + [RevealMessage(ex.revealed)])
            == t + RoundEvents(h, mine, ex)
  {
  }

  /** The messages sent in `es`, in order. */
  function SentOf(es: seq<Event>): (ms: seq<Message>)
    decreases |es|
  {
    if es == [] then []
    else if es[0].Sent? then [es[0].m] + SentOf(es[1..])
    else SentOf(es[1..])
  }

  lemma {:induction false} SentOfAppend(a: seq<Event>, b: seq<Event>)
    ensures SentOf(a + b) == SentOf(a) + SentOf(b)
    decreases |a|
  {
    if a == [] {
      assert a + b == b;
    } else {
      assert (a + b)[0] == a[0] && (a + b)[1..] == a[1..] + b;
      SentOfAppend(a[1..], b);
      if a[0].Sent? {
        assert [a[0].m] + SentOf(a[1..]) + SentOf(b) == [a[0].m] + (SentOf(a[1..]) + SentOf(b));
      }
    }
  }

  lemma {:induction false} NothingSentWhileTaking(ms: seq<Message>)
    ensures SentOf(Taken(ms)) == []
    decreases |ms|
  {
    if ms != [] {
      assert Taken(ms)[1..] == Taken(ms[1..]);
      NothingSentWhileTaking(ms[1..]);
    }
  }

  /** In a round, the outgoing messages are exactly the user's commitment and then the user's reveal. */
  lemma RoundSendsCommitThenReveal(h: Hmac, mine: ChoiceReveal, ex: Exchange)
    ensures SentOf(RoundEvents(h, mine, ex)) == [MadeMessage(Commit(h, mine)), RevealMessage(mine)]
  {
    var a := [Sent(MadeMessage(Commit(h, mine)))];
    var b := Taken(ex.droppedReveals + [MadeMessage(ex.committed)]);
    var c := [Sent(RevealMessage(mine))];
    var d := Taken(ex.droppedCommits + [RevealMessage(ex.revealed)]);
    SentOfAppend(a + b + c, d);
    SentOfAppend(a + b, c);
    SentOfAppend(a, b);
    NothingSentWhileTaking(ex.droppedReveals + [MadeMessage(ex.committed)]);
    NothingSentWhileTaking(ex.droppedCommits + [RevealMessage(ex.revealed)]);
    assert SentOf(a) == [MadeMessage(Commit(h, mine))];
    assert SentOf(c) == [RevealMessage(mine)];
  }

  /**
   * The reveal goes out right after the opponent's commitment has been
   * taken, and everything taken before that commitment was a reveal.
   */
  lemma RevealFollowsOpponentCommit(h: Hmac, mine: ChoiceReveal, ex: Exchange)
    requires NoneOfType(ex.droppedReveals, ChoiceMadeType)
    ensures var es := RoundEvents(h, mine, ex);
            var i := |ex.droppedReveals| + 1;
            && i + 1 < |es|
            && es[i] == Took(MadeMessage(ex.committed))
            && es[i + 1] == Sent(RevealMessage(mine))
            && forall k :: 0 < k < i ==> es[k].Took? && es[k].m.RevealMessage?
  {
  }

  /**
   * Counters left at 5 - 2 by `AsDeclared`: after a first round in which
   * rock beats an honest scissors, the score printed is 6 - 2, not 1 - 0.
   */
  lemma LeftoverScoreMisreports(h: Hmac, mine: ChoiceReveal, theirs: ChoiceReveal)
    requires mine.choice == Rock && theirs.choice == Scissors
    ensures Tally(Score(5, 2), Judge(h, mine.choice, Commit(h, theirs), theirs)) == Score(6, 2)
  {
    HonestPlayersAgree(h, mine, theirs);
  }

  /** The result of one iteration of the loop in `run`. */
  datatype RoundResult =
    | Skipped                                  // `wait_for` returned false: `continue`
    | Aborted(error: Error)                    // the reveal's constructor threw
    | Played(mine: ChoiceReveal, verdict: Verdict)

  class Game {
    /** HMAC with the configured hash. */
    const hmac: Hmac

    var state: State
    var wins: uint32
    var losses: uint32

    /** Messages received from the opponent. */
    const incoming: Queue<Message>
    /** Messages to be sent to the opponent. */
    const outgoing: Queue<Message>
    /** The player's choices. */
    const choices: Queue<Choice>

    /** The messages `run` has sent and taken so far. */
    ghost var trace: seq<Event>

    ghost predicate Valid()
      reads this
    {
      incoming != outgoing
    }

    /**
     * A new game. `wins` and `losses` have no initialiser in the class;
     * they start at 0 here.
     */
    constructor (hmac: Hmac)
      ensures Valid() && this.hmac == hmac
      ensures state == 0 && wins == 0 && losses == 0
      ensures fresh(incoming) && fresh(outgoing) && fresh(choices)
      ensures incoming.data == [] && outgoing.data == [] && choices.data == []
      ensures trace == []
    {
      this.hmac := hmac;
      state := 0;
      wins := 0;
      losses := 0;
      incoming := new Queue();
      outgoing := new Queue();
      choices := new Queue();
      trace := [];
    }

    /**
     * The constructor as declared: `wins` and `losses` have no
     * initialiser and `main` creates the game as a local variable, so the
     * counters hold whatever `leftover` values the storage held.
     */
    constructor AsDeclared(hmac: Hmac, leftover: Score)
      ensures Valid() && this.hmac == hmac
      ensures state == 0 && wins == leftover.wins && losses == leftover.losses
      ensures fresh(incoming) && fresh(outgoing) && fresh(choices)
      ensures incoming.data == [] && outgoing.data == [] && choices.data == []
      ensures trace == []
    {
      this.hmac := hmac;
      state := 0;
      wins := leftover.wins;
      losses := leftover.losses;
      incoming := new Queue();
      outgoing := new Queue();
      choices := new Queue();
      trace := [];
    }

    /** The first statement of `run`: the state becomes exactly `Running`. */
    method Start()
      modifies this`state
      ensures state == Running
    {
      state := Running;
    }

    /** `state_on` */
    method StateOn(conditions: State)
      modifies this`state
      ensures state == On(old(state), conditions)
    {
      state := On(state, conditions);
    }

    /** `state_off` */
    method StateOff(conditions: State)
      modifies this`state
      ensures state == Off(old(state), conditions)
    {
      state := Off(state, conditions);
    }

    /**
     * `wait_for`: evaluates its predicate on the current state and, while
     * it is false, lets the next batch of other threads' updates happen.
     * It returns at the first observed state where `previous` is broken or
     * `next` holds; the result says whether `previous` still holds. A
     * waiter no batch would ever wake blocks forever, which the
     * precondition excludes.
     */
    method WaitFor(previous: State, next: State, batches: seq<seq<Update>>) returns (ok: bool, ghost seen: nat)
      requires WakesWithin(state, batches, previous, next)
      modifies this`state
      ensures seen == WakeIndex(old(state), batches, previous, next)
      ensures state == Observe(old(state), batches[..seen])
      ensures ok == Check(state, previous)
      ensures ok ==> Check(state, next)
      ensures ok ==> forall j :: 0 <= j <= seen ==> Check(Observe(old(state), batches[..j]), previous)
      ensures !ok ==> forall j :: 0 <= j < seen ==> !Check(Observe(old(state), batches[..j]), next)
    {
      ghost var s0 := state;
      ghost var k := WakeIndex(s0, batches, previous, next);
      var i := 0;
      while !Wake(state, previous, next)
        invariant 0 <= i <= k
        invariant state == Observe(s0, batches[..i])
        decreases k - i
      {
        ObserveNext(s0, batches, i);
        state := ApplyAll(state, batches[i]);
        i := i + 1;
      }
      seen := i;
      ok := Check(state, previous);
    }

    /**
     * The loop of `run_ui` over the tokens `tokens`: each of "rock",
     * "paper" and "scissors" puts its choice on the queue, and any other
     * token is skipped.
     */
    method ReadInput(tokens: seq<string>)
      modifies choices
      ensures choices.data == old(choices.data) + ParseAll(tokens)
    {
      var i := 0;
      while i < |tokens|
        invariant 0 <= i <= |tokens|
        invariant choices.data == old(choices.data) + ParseAll(tokens[..i])
      {
        var s := tokens[i];
        if s == "rock" {
          choices.Put(Rock);
        } else if s == "paper" {
          choices.Put(Paper);
        } else if s == "scissors" {
          choices.Put(Scissors);
        }
        assert tokens[..i + 1] == tokens[..i] + [s];
        ParseAllAppend(tokens[..i], [s]);
        i := i + 1;
      }
      assert tokens[..i] == tokens;
    }

    /**
     * The user input step of a round: stale choices are dropped, then the
     * user types `tokens`, and the first choice they name is taken.
     */
    method TakeChoice(tokens: seq<string>) returns (choice: Choice)
      requires ParseAll(tokens) != []
      modifies choices
      ensures choice == ParseAll(tokens)[0]
      ensures choices.data == ParseAll(tokens)[1..]
    {
      choices.Clear();
      ReadInput(tokens);
      choice := choices.Get();
      assert ParseAll(tokens) == [choice] + choices.data;
      assert ([choice] + choices.data)[0] == choice && ([choice] + choices.data)[1..] == choices.data;
    }

    /**
     * One of the two skipping loops of `run`: takes incoming messages
     * until one of type `t` arrives, dropping the others, and returns it.
     */
    method AwaitMessage(t: MessageType) returns (m: Message)
      requires HasType(incoming.data, t)
      modifies this`trace, incoming
      ensures var k := FirstOfType(old(incoming.data), t);
              && m == old(incoming.data)[k]
              && incoming.data == old(incoming.data)[k + 1..]
              && trace == old(trace) + Taken(old(incoming.data)[..k + 1])
    {
      ghost var s0 := incoming.data;
      ghost var k := FirstOfType(s0, t);
      ghost var i := 0;
      while true
        invariant 0 <= i <= k
        invariant incoming.data == s0[i..]
        invariant trace == old(trace) + Taken(s0[..i])
        decreases k - i
      {
        m := incoming.Get();
        assert s0[i..][0] == s0[i] && s0[i..][1..] == s0[i + 1..];
        assert m == s0[i] && incoming.data == s0[i + 1..];
        TakenSnoc(s0, i);
        trace := trace + [Took(m)];
        if m.Type() == t {
          FirstOfTypeNoLater(s0, t, i);
          break;
        }
        i := i + 1;
      }
    }

    /**
     * One iteration of the loop in `run`. The preconditions say that the
     * calls that block return, on the paths that make them: some batch of
     * updates wakes the waiter; if the wait ends with the game running, the
     * user types a valid choice; and if the reveal is built, the opponent's
     * commitment and then its reveal arrive.
     */
    method Round(batches: seq<seq<Update>>, tokens: seq<string>, random: RandomRead)
      returns (result: RoundResult)
      requires Valid()
      requires WakesWithin(state, batches, Running, Ready)
      requires Check(Observe(state, batches[..WakeIndex(state, batches, Running, Ready)]), Running) ==>
                 && ParseAll(tokens) != []
                 && (NewReveal(ParseAll(tokens)[0], random).Ok? ==> RoundReady(incoming.data))
      modifies this, incoming, outgoing, choices
      ensures Valid()
      ensures state == Observe(old(state), batches[..WakeIndex(old(state), batches, Running, Ready)])
      ensures result.Skipped? <==> !Check(state, Running)
      ensures result.Skipped? ==>
                && incoming.data == old(incoming.data) && outgoing.data == old(outgoing.data)
                && choices.data == old(choices.data)
                && wins == old(wins) && losses == old(losses) && trace == old(trace)
      ensures !result.Skipped? ==> choices.data == ParseAll(tokens)[1..]
      ensures !result.Skipped? ==>
                match NewReveal(ParseAll(tokens)[0], random)
                case Err(e) =>
                  && result == Aborted(e)
                  && incoming.data == old(incoming.data) && outgoing.data == old(outgoing.data)
                  && wins == old(wins) && losses == old(losses) && trace == old(trace)
                case Ok(mine) =>
                  var ex := ExchangeOf(old(incoming.data));
                  && result == Played(mine, Judge(hmac, mine.choice, ex.committed, ex.revealed))
                  && outgoing.data == old(outgoing.data) + [MadeMessage(Commit(hmac, mine)), RevealMessage(mine)]
                  && incoming.data == ex.rest
                  && Score(wins, losses) == Tally(Score(old(wins), old(losses)), result.verdict)
                  && trace == old(trace) + RoundEvents(hmac, mine, ex)
    {
      var ok, seen := WaitFor(Running, Ready, batches);
      if !ok {
        return Skipped;
      }

      var choice := TakeChoice(tokens);
      var made := NewReveal(choice, random);
      if made.Err? {
        return Aborted(made.error);
      }
      var mine := made.value;
      var theirCommit, theirReveal := ExchangeChoices(mine);
      var verdict := Settle(mine.choice, theirCommit, theirReveal);
      result := Played(mine, verdict);
    }

    /**
     * Puts `m` on the outgoing queue, then waits for the first incoming
     * message of type `t`.
     */
    method SendThenAwait(m: Message, t: MessageType) returns (got: Message)
      requires Valid() && HasType(incoming.data, t)
      modifies this`trace, incoming, outgoing
      ensures var k := FirstOfType(old(incoming.data), t);
              && got == old(incoming.data)[k]
              && incoming.data == old(incoming.data)[k + 1..]
              && outgoing.data == old(outgoing.data) + [m]
              && trace == old(trace) + [Sent(m)] + Taken(old(incoming.data)[..k + 1])
    {
      outgoing.Put(m);
      trace := trace + [Sent(m)];
      got := AwaitMessage(t);
    }

    /**
     * The network half of a round: send the commitment to `mine`, take the
     * opponent's commitment, send `mine`, take the opponent's reveal.
     */
    method ExchangeChoices(mine: ChoiceReveal) returns (theirCommit: ChoiceMade, theirReveal: ChoiceReveal)
      requires Valid() && RoundReady(incoming.data)
      modifies this`trace, incoming, outgoing
      ensures var ex := ExchangeOf(old(incoming.data));
              && theirCommit == ex.committed && theirReveal == ex.revealed
              && outgoing.data == old(outgoing.data) + [MadeMessage(Commit(hmac, mine)), RevealMessage(mine)]
              && incoming.data == ex.rest
              && trace == old(trace) + RoundEvents(hmac, mine, ex)
    {
      ghost var t0 := trace;
      ghost var o0 := outgoing.data;
      ghost var s0 := incoming.data;
      ghost var ex := ExchangeOf(s0);
      ghost var i := |ex.droppedReveals|;
      ghost var after := s0[i + 1..];
      ghost var j := |ex.droppedCommits|;
      ExchangeSteps(s0);

      // Send my commitment and get the opponent's.
      var myCommit := Commit(hmac, mine);
      var msg := SendThenAwait(MadeMessage(myCommit), ChoiceMadeType);
      theirCommit := msg.choiceMade;
      ghost var t1 := trace;
      assert t1 == t0 + [Sent(MadeMessage(myCommit))] + Taken(s0[..i + 1]);
      assert incoming.data == after;

      // Reveal my choice and get the opponent's reveal.
      msg := SendThenAwait(RevealMessage(mine), ChoiceRevealType);
      theirReveal := msg.choiceReveal;
      assert trace == t1 + [Sent(RevealMessage(mine))] + Taken(after[..j + 1]);
      assert outgoing.data == o0 + [MadeMessage(myCommit)] + [RevealMessage(mine)];
      assert o0 + [MadeMessage(myCommit)] + [RevealMessage(mine)] == o0 + [MadeMessage(myCommit), RevealMessage(mine)];
      RoundEventsSplit(t0, hmac, mine, ex);
    }

    /**
     * The end of a round: recompute the opponent's commitment from its
     * reveal; a mismatch counts as a win, otherwise the cyclic comparison
     * of the choices decides.
     */
    method Settle(choice: Choice, theirCommit: ChoiceMade, theirReveal: ChoiceReveal) returns (verdict: Verdict)
      modifies this`wins, this`losses
      ensures verdict == Judge(hmac, choice, theirCommit, theirReveal)
      ensures Score(wins, losses) == Tally(Score(old(wins), old(losses)), verdict)
    {
      var recomputed := Commit(hmac, theirReveal);
      var same := DigestsEqual(theirCommit.hash, recomputed.hash);
      if !same {
        verdict := HashMismatch;
        wins := Inc(wins);
      } else {
        verdict := Outcome(choice, theirReveal.choice);
        if verdict == Win {
          wins := Inc(wins);
        } else if verdict == Lose {
          losses := Inc(losses);
        }
      }
    }
  }
}
