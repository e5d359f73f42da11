/**
 * The console side of a choice: the name `operator<<` prints for it and
 * the mapping from the tokens `run_ui` reads to the choices it queues.
 */
module Ui {
  import opened GameTypes

  /** The text `operator<<` writes for a choice. */
  function Name(c: Choice): (s: string)
    ensures Parse(s) == Some(c)
  {
    match c
    case Rock => "rock"
    case Paper => "paper"
    case Scissors => "scissors"
  }

  /** The choice a token read by `run_ui` stands for; any other token is ignored. */
  function Parse(token: string): (r: Option<Choice>)
    ensures r == Some(Rock) <==> token == "rock"
    ensures r == Some(Paper) <==> token == "paper"
    ensures r == Some(Scissors) <==> token == "scissors"
    ensures r == None <==> token !in {"rock", "paper", "scissors"}
  {
    if token == "rock" then Some(Rock)
    else if token == "paper" then Some(Paper)
    else if token == "scissors" then Some(Scissors)
    else None
  }

  /** The choices `run_ui` puts in the queue for the tokens `tokens`, in order. */
  function ParseAll(tokens: seq<string>): (cs: seq<Choice>)
    ensures |cs| <= |tokens|
  {
    if tokens == [] then []
    else
      match Parse(tokens[0])
      case Some(c) => [c] + ParseAll(tokens[1..])
      case None => ParseAll(tokens[1..])
  }

  /** Reading tokens in two stretches queues the same choices as reading them at once. */
  lemma {:induction false} ParseAllAppend(a: seq<string>, b: seq<string>)
    ensures ParseAll(a + b) == ParseAll(a) + ParseAll(b)
    decreases |a|
  {
    if a != [] {
      assert (a + b)[0] == a[0] && (a + b)[1..] == a[1..] + b;
      ParseAllAppend(a[1..], b);
      match Parse(a[0])
      case Some(c) =>
        assert [c] + ParseAll(a[1..]) + ParseAll(b) == [c] + (ParseAll(a[1..]) + ParseAll(b));
      case None =>
    } else {
      assert a + b == b;
    }
  }

  /** Every queued choice comes from a token naming it, and no named choice is lost. */
  lemma {:induction false} ParseAllSound(tokens: seq<string>)
    ensures forall c :: c in ParseAll(tokens) <==> exists k :: 0 <= k < |tokens| && tokens[k] == Name(c)
    decreases |tokens|
  {
    if tokens != [] {
      ParseAllSound(tokens[1..]);
      forall c
        ensures (exists k :: 0 <= k < |tokens| && tokens[k] == Name(c)) <==>
                tokens[0] == Name(c) || exists k :: 0 <= k < |tokens[1..]| && tokens[1..][k] == Name(c)
      {
        if exists k :: 0 <= k < |tokens| && tokens[k] == Name(c) {
          var k :| 0 <= k < |tokens| && tokens[k] == Name(c);
          if k > 0 {
            assert tokens[1..][k - 1] == Name(c);
          }
        }
        if exists k :: 0 <= k < |tokens[1..]| && tokens[1..][k] == Name(c) {
          var k :| 0 <= k < |tokens[1..]| && tokens[1..][k] == Name(c);
          assert tokens[k + 1] == Name(c);
        }
      }
      forall c
        ensures tokens[0] == Name(c) <==> Parse(tokens[0]) == Some(c)
      {
      }
    }
  }
}
