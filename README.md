# Rock paper scissors over two connections: a Dafny model

The program plays rock paper scissors between two peers. Each peer commits to
a choice before seeing the other's. A round goes like this:

1. A peer waits until it is running and both of its TCP connections are up.
2. It takes the user's choice.
3. It draws a 64-byte random secret.
4. It sends the HMAC of the choice keyed by that secret (a `ChoiceMade`
   commitment).
5. It waits for the opponent's commitment.
6. It sends its choice together with the secret (a `ChoiceReveal`).
7. It waits for the opponent's reveal.
8. It recomputes the opponent's HMAC. A mismatch counts as a win. Otherwise
   the cyclic rock/paper/scissors rule decides a win, a loss or a tie.

The connection state is a set of bits guarded by a mutex and a condition
variable. Three blocking FIFO queues connect the threads:

- incoming messages
- outgoing messages
- the user's choices

The model follows the files of the game engine:

- `game_types.dfy` (`GameTypes`): the choices, the message types, the
  commitment and reveal records, and the digest and secret sizes.
- `flags.dfy` (`Flags`, `Waiting`):
  - `Flags` has the `unsigned` state as a bit set, with `check`, `state_on`
    and `state_off`. The bitwise operators are defined digit by digit, with a
    lemma per bit.
  - `Waiting` has the wake-up rule of `wait_for`. Other threads' updates
    arrive as a sequence of batches, one per evaluation of the waiter's
    predicate.
- `queue.dfy` (`Queues`): the class `Queue<T>` over a `seq` field. An
  operational semantics of sequences of put, get and clear calls proves the
  FIFO order.
- `codec.dfy` (`Codec`): the constructors of `ChoiceReveal` and `ChoiceMade`,
  and the digest comparison.
  - HMAC is a parameter of type `(Secret, seq<byte>) -> Digest`.
  - `getrandom` is a parameter giving its return value and the bytes it wrote.
- `rules.dfy` (`Rules`): the verdict of a round, which includes a hash
  mismatch, and the score update with `unsigned` wrap-around.
- `ui.dfy` (`Ui`): the printed names of the choices and the token loop of
  `run_ui`.
- `engine.dfy` (`Engine`): the class `Game`. It has the state, the
  counters, the three queues and a ghost trace of the messages sent and
  taken. Its methods are `state_on`, `state_off`, `wait_for`, the UI loop,
  the two message-skipping loops and one iteration of the loop in `run`.

The model runs the threads one after another and keeps only their effect on
the game:

- Each blocking call becomes a precondition saying that it returns.
- The user's typed tokens are a parameter.
- The opponent's messages are the contents of the incoming queue.
- The other threads' state changes are a parameter.

What the code does, and the model with it:

- The loop is sequential and silently drops messages of the wrong type while
  it waits.
- `run_server` clears the server-connected bit and accepts again when the
  peer closes. `run_client` retries only a failed connect, once a second.
  After it connects it never notices a drop: the client-connected bit stays
  set. The round loop does not react to a drop within a round, and nothing
  resets the score, the round or the queues.
- The digest comparison is `std::equal`, which stops at the first differing
  byte, so it is not constant-time.
- The sending thread sends every queued message, but it never discards the
  queue when the connection drops. A failed send throws, and nothing catches
  it, so it ends the program.

## Model

| member | source | states |
|---|---|---|
| GameTypes.Choice.Value | src/game.hpp:25-29 | rock, paper and scissors are the values 0, 1 and 2, each value naming exactly one choice |
| GameTypes.ChoiceOfValue | src/game.hpp:25-29 | an integer names a choice iff it is 0, 1 or 2, and then the choice it names has that value |
| GameTypes.ChoiceValueBijective | src/game.hpp:25-29 | converting a choice to its value and back gives the same choice |
| GameTypes.MessageType.Tag | src/game.hpp:31-34 | `choice_made` is tag 0 and `choice_reveal` is tag 1, each tag naming exactly one type |
| GameTypes.Message.Type | src/game.hpp:58-64 | a message's type is `choice_made` exactly when it carries a commitment and `choice_reveal` exactly when it carries a reveal |
| Flags.Pow2Width | src/game.hpp:69 | an `unsigned` state holds 32 bits: 2^32 values |
| Flags.OrBit | src/game.cpp:81 | bit i of `a \| b` is set iff bit i is set in a or in b |
| Flags.AndBit | src/game.cpp:47 | bit i of `a & b` is set iff bit i is set in both |
| Flags.AndNotBit | src/game.cpp:89 | bit i of `a & ~b` is set iff it is set in a and clear in b |
| Flags.SameBitsSameValue | src/game.hpp:69 | two states with the same bits are the same state |
| Flags.OrBelow | src/game.cpp:81 | `\|` of two 32-bit values stays within 32 bits |
| Flags.AndNotAtMost | src/game.cpp:89 | `& ~` never exceeds its left operand, so it stays within 32 bits |
| Flags.AndIsConditionIffCovers | src/game.cpp:47 | `(s & condition) == condition` holds iff every bit of `condition` is set in `s` |
| Flags.Check | src/game.cpp:46-48 | `check(condition)` holds iff every bit of `condition` is on in the state |
| Flags.On | src/game.cpp:78-84 | after `state_on`, a bit is on iff it was on before or is one of the conditions |
| Flags.Off | src/game.cpp:86-92 | after `state_off`, a bit is on iff it was on before and is not one of the conditions |
| Flags.ConditionsAreDistinctBits | src/game.hpp:70-72 | running, server connected and client connected are bits 0, 1 and 2 and no others, and `run`'s target condition is exactly their union |
| Waiting.WakeIndex | src/game.cpp:50-56 | a waiter returns at the first observed state where `previous` is broken or `next` holds; no earlier observation wakes it |
| Waiting.ObserveNext | src/game.cpp:52-54 | each re-evaluation of the wait predicate sees the previous state with the next batch of updates applied |
| Waiting.WakeIndexUnique | src/game.cpp:50-56 | an observation that wakes the waiter after none of the earlier ones did is the one at which it returns |
| Queues.Queue.constructor | src/queue.hpp:17 | a new queue is empty |
| Queues.Queue.Size | src/queue.hpp:20-23 | `size` is the number of queued elements and changes nothing |
| Queues.Queue.Empty | src/queue.hpp:26-29 | `empty` holds iff no element is queued, and changes nothing |
| Queues.Queue.Put | src/queue.hpp:33-40 | `put` appends the value at the back and changes nothing else |
| Queues.Queue.Get | src/queue.hpp:43-51 | `get` on a non-empty queue removes and returns the front element, leaving the rest in order |
| Queues.Queue.Clear | src/queue.hpp:54-57 | `clear` empties the queue |
| Queues.Queue.Perform | src/queue.hpp:33-57 | one `put`, `get` or `clear` on a queue has exactly the effect of one step of the call semantics the FIFO lemmas are about |
| Queues.RunIsFifo | src/queue.hpp:33-51 | over any run of puts and gets with no clear, the elements taken followed by those left are the initial contents followed by everything put |
| Queues.GetsTakeFront | src/queue.hpp:43-51 | n gets on a queue of at least n elements return its first n elements and leave the rest |
| Queues.RunPuts | src/queue.hpp:33-40 | a run of puts takes nothing and appends the values in order |
| Queues.RunAppend | src/queue.hpp:10-58 | running two sequences of calls one after the other takes what each takes, in order, and leaves what the second leaves |
| Queues.PutsThenGets | src/queue.hpp:33-51 | putting xs and then getting everything returns the old contents followed by xs and leaves the queue empty |
| Queues.FifoOrder | src/queue.hpp:33-51 | values put on an empty queue come out in the order they were put |
| Codec.ChoiceBytes | src/game.cpp:40 | the HMAC input is the 4 bytes of the choice's `int` value: the value, then three zero bytes |
| Codec.ChoiceBytesInjective | src/game.cpp:40 | two choices give the same HMAC input iff they are the same choice |
| Codec.NewReveal | src/game.cpp:20-31 | a reveal is built iff `getrandom` returned at least 64 bytes, and then it holds the choice and those bytes as its secret. A return of -1 is the `getrandom` error. Any other short count is the short-read error |
| Codec.Commit | src/game.cpp:33-44 | when HMAC tells the three choice encodings apart under the reveal's secret, no other choice keyed by that secret yields the commitment's digest |
| Codec.FirstByteDigestBinds | src/game.cpp:39-42 | the premise of the binding properties can be met: an HMAC that keeps the first message byte tells the choices apart under every key |
| Codec.DigestsEqual | src/game.cpp:185 | the digest comparison holds iff the two digests are equal |
| Codec.HonestRevealMatches | src/game.cpp:33-44 | recomputing the commitment from an honest reveal matches the commitment that was sent |
| Codec.ChangedChoiceDetected | src/game.cpp:184-185 | if HMAC gives the three choice encodings distinct digests under the secret, a reveal whose choice differs from the committed one does not match |
| Rules.Outcome | src/game.cpp:191-202 | the modular difference of the two choices gives never a mismatch; a tie iff the choices are equal; a win iff mine beats theirs; a loss iff theirs beats mine |
| Rules.OutcomeAntisymmetric | src/game.cpp:191-202 | swapping the players swaps win and loss and keeps a tie |
| Rules.Judge | src/game.cpp:184-203 | the verdict is a hash mismatch iff the reveal does not match the commitment, and otherwise the outcome of the two choices |
| Rules.HonestPlayersAgree | src/game.cpp:184-203 | when both peers reveal honestly, each sees the outcome of the two choices and the two verdicts mirror each other |
| Rules.Inc | src/game.cpp:187 | `++` on an `unsigned` adds one below the maximum and wraps to 0 at it |
| Rules.Tally | src/game.cpp:185-203 | `wins` changes iff the verdict is a win or a mismatch, `losses` changes iff it is a loss, and the score is unchanged iff it is a tie (each `++` changes its counter, wrap-around included) |
| Rules.MismatchScoresWin | src/game.cpp:185-188 | a hash mismatch adds one win and leaves the losses |
| Rules.OutcomeScores | src/game.cpp:189-203 | a beating choice adds one win, a beaten one adds one loss, and a tie changes nothing |
| Rules.TallyStep | src/game.cpp:184-204 | without wrap-around, a round never lowers a counter and adds at most one point in total |
| Rules.Wins | src/game.cpp:187-194 | the wins over a sequence of verdicts number at most the rounds |
| Rules.Losses | src/game.cpp:198 | the losses over a sequence of verdicts number at most the rounds |
| Rules.TallyAllCounts | src/game.cpp:136-206 | without wrap-around, scoring a sequence of rounds adds its wins and its losses to the counters, and these number at most the rounds |
| Rules.FreshScoreCountsRounds | src/game.cpp:136-206 | counters that start at 0 show exactly the number of rounds won and lost |
| Rules.RockBeatsScissorsRound | src/game.cpp:189-199 | an honest round of rock against scissors scores 1-0 for the rock player and 0-1 for the other |
| Ui.Name | src/game.cpp:10-18 | the printed name of a choice parses back to that choice |
| Ui.Parse | src/game.cpp:116-124 | "rock", "paper" and "scissors" each name exactly their choice, and every other token names none |
| Ui.ParseAll | src/game.cpp:114-125 | the choices read from some tokens are at most as many as the tokens |
| Ui.ParseAllAppend | src/game.cpp:114-125 | reading two runs of tokens one after the other yields the choices of the first run followed by those of the second |
| Ui.ParseAllSound | src/game.cpp:114-125 | a choice is read iff some token is its name |
| Engine.TakenSnoc | src/game.cpp:159 | taking one more message appends one event to the trace |
| Engine.HasTypeInTail | src/game.cpp:158-164 | if the head is not of the awaited type, a message of that type is still in the rest |
| Engine.FirstOfType | src/game.cpp:158-164 | the message a skipping loop stops at is of the awaited type, and no earlier message is |
| Engine.FirstOfTypeIs | src/game.cpp:158-164 | a message of the awaited type with none before it is the first one of that type |
| Engine.FirstOfTypeNoLater | src/game.cpp:174-180 | a message of the awaited type at or before the first one is the first one |
| Engine.ExchangeOf | src/game.cpp:157-180 | a round consumes the dropped reveals before the first commitment, that commitment, the dropped commitments before the next reveal, and that reveal, and it leaves the rest |
| Engine.ExchangeOfSplits | src/game.cpp:157-180 | the incoming messages are exactly the parts a round consumes followed by the rest, and the dropped parts hold no message of the awaited type |
| Engine.CutTwice | src/game.cpp:157-180 | a general sequence identity: cutting a sequence at any i and then cutting its tail at any j gives parts that join back in order; the split proofs apply it at the two awaited messages |
| Engine.ExchangeUnique | src/game.cpp:157-180 | any split of the incoming messages that has the round's shape is the one the round uses |
| Engine.ExchangeSteps | src/game.cpp:157-180 | the messages taken by the first loop and then by the second make up the prefix that the round consumes |
| Engine.EarlyRevealIsLost | src/game.cpp:158-164 | a reveal that arrives before the opponent's commitment is dropped and never judged |
| Engine.RoundEventsSplit | src/game.cpp:150-180 | the round's trace is the commitment sent, the messages taken up to the opponent's commitment, the reveal sent, and the messages taken up to the opponent's reveal |
| Engine.SentOfAppend | src/game.cpp:153 | the messages sent over two parts of a trace are those of the first part followed by those of the second |
| Engine.NothingSentWhileTaking | src/game.cpp:158-180 | the skipping loops send nothing |
| Engine.RoundSendsCommitThenReveal | src/game.cpp:150-169 | a round sends exactly two messages: its commitment, then its reveal |
| Engine.RevealFollowsOpponentCommit | src/game.cpp:157-169 | the peer sends its reveal only after it has taken the opponent's commitment, and it has taken no other commitment before that one |
| Engine.LeftoverScoreMisreports | src/game.hpp:86 | from leftover counters 5-2, a first round won with rock against scissors reports 6-2 rather than 1-0 |
| Engine.Game.constructor | src/game.cpp:128-129 | a new game has state 0, counters at 0, three fresh empty distinct queues and an empty trace |
| Engine.Game.AsDeclared | src/game.hpp:78-86 | as declared, only `state` is initialised; the counters keep whatever the storage held |
| Engine.Game.Start | src/game.cpp:132 | `run` sets the state to exactly running |
| Engine.Game.StateOn | src/game.cpp:78-84 | `state_on` replaces the state by its bitwise or with the conditions |
| Engine.Game.StateOff | src/game.cpp:86-92 | `state_off` clears the conditions' bits from the state |
| Engine.Game.WaitFor | src/game.cpp:50-56 | the waiter sees states up to the first one that wakes it. It returns true iff `previous` holds there, and then `next` holds too and `previous` held at every state the waiter observed. If it returns false, `next` held at no earlier observation |
| Engine.Game.ReadInput | src/game.cpp:112-126 | the UI loop appends the choices named by the tokens, in order, and skips the other tokens |
| Engine.Game.TakeChoice | src/game.cpp:146-147 | after the stale choices are cleared, the choice used is the first one the user types, and the later ones stay queued |
| Engine.Game.AwaitMessage | src/game.cpp:158-164 | the loop returns the first incoming message of the awaited type, drops the ones before it, and leaves the rest queued |
| Engine.Game.SendThenAwait | src/game.cpp:150-164 | the message goes to the back of the outgoing queue, then the first incoming message of the awaited type is taken |
| Engine.Game.ExchangeChoices | src/game.cpp:150-180 | the round sends its commitment and its reveal and takes the opponent's first commitment and then the first reveal after it, leaving the rest queued |
| Engine.Game.Settle | src/game.cpp:184-203 | the verdict is the judgement of the opponent's reveal against its commitment, and the counters are the old score with that verdict tallied |
| Engine.Game.Round | src/game.cpp:136-206 | one loop iteration skips iff the wait ends with running off, and then nothing else changes, whatever was typed or received. A failed `getrandom` aborts with its error before anything is sent or received. Otherwise both messages are sent in order, the opponent's commitment and reveal are taken, the rest stays queued, and the score records the judged verdict |

## Left out

- Sockets, `run_server`, `run_client` and the byte-level message encoding
  (`network.hpp`, `network.cpp`) are not part of this model. A peer's message
  arrives as a typed value in the incoming queue. Tag bytes other than 0 and
  1, and choice values other than 0 to 2, cannot be represented.
- Threads, mutexes and condition variables: the model keeps the sequential
  effect of each operation.
  - A blocking `get` or `wait_for` becomes a precondition that it returns.
  - Other threads' updates are parameters.
  - The three thread starts in `run` (src/game.cpp:133-135) are not modelled.
- The HMAC is an arbitrary function parameter.
  - SHA-256 itself is not modelled.
  - The `HMAC_CTX_new` failure (src/game.cpp:35-37) is not modelled.
- `getrandom` is modelled only by its return value and the bytes it wrote.
- Console output, `std::cin` beyond the token list, and `main`'s argument
  check are left out, and so is `util.cpp`.
- The endless `while (true)` of `run` is modelled by one iteration (`Round`)
  plus the lemmas over a sequence of verdicts. The exception of a failed
  reveal constructor is the `Aborted` result, after which `run` would end.
- Codec.ChoiceBytes: assumes `sizeof(Choice) == 4` on a little-endian target,
  as the HMAC reads the choice's object bytes.
- Codec.DigestsEqual: proves the result, not the timing. Like `std::equal`,
  it stops at the first differing byte, so it is not constant-time.
- Codec.ChangedChoiceDetected: assumes that HMAC gives the three choice
  encodings distinct digests under the secret. HMAC-SHA256 is not modelled,
  so that is not proved. `Codec.Commit` states its binding under the same
  premise.
- Rules.MismatchScoresWin: requires the wins to be below the maximum. At the
  maximum the counter wraps to 0, as `Rules.Inc` states.
- Rules.OutcomeScores: requires both counters to be below the maximum, for
  the same reason.
- Rules.TallyStep: requires both counters to be below the maximum, for the
  same reason.
- Rules.TallyAllCounts: requires that no counter can reach the maximum
  within the rounds, for the same reason.
- Rules.FreshScoreCountsRounds: requires at most 2^32-1 rounds, for the same
  reason.
- Engine.Game.Round: assumes that the wait completes. When the wait ends
  with the game running, it also assumes that the user's input completes.
  When the reveal is built, it assumes that both awaited messages arrive. Otherwise the source blocks forever, which the
  model does not represent.
- The connection threads' handling of a dropped connection is not modelled:
  the server clearing its bit and accepting again, and the client's retry of
  a failed connect (src/game.cpp:58-110). The model has no score or queue reset after a drop,
  because the code has none.
- Engine.Game.WaitFor: the waiter sees the state only when it re-evaluates
  its predicate. If `previous` is broken and restored between two
  re-evaluations, the waiter does not see it and can still return true. Its
  contract says that `previous` held at every observed state, not at every
  intermediate state.

## Findings

| source | as written | input that shows it | evidently intended | confidence | as-written member | corrected member |
|---|---|---|---|---|---|---|
| src/game.hpp:86 | `unsigned int wins, losses;` has no initialiser, and the constructor at src/game.cpp:128-129 does not set the counters. `main` builds the game as a local variable (src/main.cpp:9), so the counters start indeterminate | storage that holds 5 and 2, then a first round of rock against scissors: the score prints 6 - 2 | the counters start at 0, so the score is exactly the rounds won and lost (1 - 0 here) | not executed | Engine.Game.AsDeclared, Engine.LeftoverScoreMisreports | Engine.Game.constructor, Rules.FreshScoreCountsRounds |
