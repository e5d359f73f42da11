/**
 * The commitment scheme of a round: building a reveal (a choice and a
 * fresh random secret), building the commitment to it (an HMAC of the
 * choice keyed by the secret), and comparing digests. HMAC and the random
 * source are foreign; they enter as a function parameter and as the value
 * the random source reported.
 */
module Codec {
  import opened GameTypes

  /**
   * HMAC with the configured hash: a deterministic function of the key
   * and the message that yields `DIGEST_SIZE` bytes.
   */
  type Hmac = (Secret, seq<byte>) -> Digest

  /**
   * What one `getrandom` call into the secret buffer reports: its return
   * value `n` (-1 on failure, otherwise the number of bytes written) and
   * the contents of the buffer afterwards.
   */
  datatype RandomRead = RandomRead(n: int, buffer: Secret)

  /**
   * The bytes `HMAC_Update` reads from a `Choice`: the object
   * representation of an `int` holding its underlying value, four bytes,
   * least significant first.
   */
  function ChoiceBytes(c: Choice): (b: seq<byte>)
    ensures |b| == 4 && b[0] as int == c.Value() && b[1..] == [0, 0, 0]
  {
    [c.Value() as byte, 0, 0, 0]
  }

  /** Different choices are fed to HMAC as different messages. */
  lemma ChoiceBytesInjective(a: Choice, b: Choice)
    ensures ChoiceBytes(a) == ChoiceBytes(b) <==> a == b
  {
    if ChoiceBytes(a) == ChoiceBytes(b) {
      assert ChoiceBytes(a)[0] == ChoiceBytes(b)[0];
    }
  }

  /**
   * The `ChoiceReveal(choice)` constructor: the choice with the secret the
   * random source wrote, or the exception it throws when the source failed
   * or wrote fewer than `SECRET_LENGTH` bytes.
   */
  function NewReveal(choice: Choice, r: RandomRead): (res: Result<ChoiceReveal>)
    ensures res.Ok? <==> r.n >= SECRET_LENGTH
    ensures res.Ok? ==> res.value.choice == choice && res.value.secret == r.buffer
    ensures r.n == -1 ==> res == Err(GetrandomFailed)
    ensures r.n != -1 && r.n < SECRET_LENGTH ==> res == Err(GetrandomShortRead)
  {
    if r.n == -1 then Err(GetrandomFailed)
    else if r.n < SECRET_LENGTH then Err(GetrandomShortRead)
    else Ok(ChoiceReveal(choice, r.buffer))
  }

  /**
   * The `ChoiceMade(choice_reveal)` constructor: the commitment to a reveal.
   * When HMAC tells the three choices apart under the reveal's secret, no
   * other choice keyed by that secret yields the same digest.
   */
  function Commit(h: Hmac, choiceReveal: ChoiceReveal): (m: ChoiceMade)
    ensures BindsChoices(h, choiceReveal.secret) ==>
              forall c: Choice :: c != choiceReveal.choice ==> h(choiceReveal.secret, ChoiceBytes(c)) != m.hash
  {
    ChoiceMade(h(choiceReveal.secret, ChoiceBytes(choiceReveal.choice)))
  }

  /** A received commitment agrees with the one recomputed from a reveal. */
  predicate Matches(h: Hmac, committed: ChoiceMade, choiceReveal: ChoiceReveal) {
    committed.hash == Commit(h, choiceReveal).hash
  }

  /**
   * `std::equal` over the `DIGEST_SIZE` bytes of two digests: compares
   * front to back and stops at the first mismatch (it does not take the
   * same time for every input).
   */
  method DigestsEqual(a: Digest, b: Digest) returns (equal: bool)
    ensures equal <==> a == b
  {
    var i := 0;
    while i < DIGEST_SIZE
      invariant 0 <= i <= DIGEST_SIZE
      invariant a[..i] == b[..i]
    {
      if a[i] != b[i] {
        return false;
      }
      i := i + 1;
    }
    assert a == a[..DIGEST_SIZE] && b == b[..DIGEST_SIZE];
    return true;
  }

  /** Recomputing the commitment from an honest reveal reproduces the digest that was sent. */
  lemma HonestRevealMatches(h: Hmac, choiceReveal: ChoiceReveal)
    ensures Matches(h, Commit(h, choiceReveal), choiceReveal)
  {
  }

  /**
   * HMAC under key `key` gives the three choice encodings three different
   * digests. (Injectivity over all messages is impossible for a function
   * into `DIGEST_SIZE`-byte digests; only the three messages a commitment
   * can hash matter.)
   */
  ghost predicate BindsChoices(h: Hmac, key: Secret) {
    forall c1: Choice, c2: Choice :: h(key, ChoiceBytes(c1)) == h(key, ChoiceBytes(c2)) ==> c1 == c2
  }

  /** A digest holding the first message byte followed by zeros. */
  function FirstByteDigest(key: Secret, msg: seq<byte>): (d: Digest)
    ensures |msg| > 0 ==> d[0] == msg[0]
  {
    (if |msg| > 0 then [msg[0]] else [0]) + seq(DIGEST_SIZE - 1, _ => 0)
  }

  /** `BindsChoices` can be met: an HMAC that keeps the first message byte meets it under every key. */
  lemma FirstByteDigestBinds(key: Secret)
    ensures BindsChoices(FirstByteDigest, key)
  {
    forall c1: Choice, c2: Choice | FirstByteDigest(key, ChoiceBytes(c1)) == FirstByteDigest(key, ChoiceBytes(c2))
      ensures c1 == c2
    {
      assert ChoiceBytes(c1)[0] == ChoiceBytes(c2)[0];
    }
  }

  /**
   * A reveal that keeps the secret but changes the choice does not match
   * the commitment, as long as HMAC tells the choices apart under that secret.
   */
  lemma ChangedChoiceDetected(h: Hmac, secret: Secret, committed: Choice, revealed: Choice)
    requires committed != revealed
    requires BindsChoices(h, secret)
    ensures !Matches(h, Commit(h, ChoiceReveal(committed, secret)), ChoiceReveal(revealed, secret))
  {
  }
}
