/**
 * The value types of the game header: the three choices, the one-byte
 * message tag, the reveal and commitment records, the wire message, and
 * the size constants they are built from.
 */
module GameTypes {

  newtype byte = b: int | 0 <= b < 0x100

  /** The width of `unsigned int` on the platforms the game targets. */
  type uint32 = x: int | 0 <= x < 0x1_0000_0000

  const UINT32_MAX: uint32 := 0xFFFF_FFFF

  const SHA256_DIGEST_SIZE: nat := 32
  const SHA512_DIGEST_SIZE: nat := 64

  /** The configured hash function is SHA-256. */
  const DIGEST_SIZE: nat := SHA256_DIGEST_SIZE

  /** Length of the randomly generated secret keys. */
  const SECRET_LENGTH: nat := 64

  type Secret = s: seq<byte> | |s| == SECRET_LENGTH witness seq(SECRET_LENGTH, _ => 0)

  type Digest = d: seq<byte> | |d| == DIGEST_SIZE witness seq(DIGEST_SIZE, _ => 0)

  /** `enum class Choice`, whose enumerators have the underlying values 0, 1, 2. */
  datatype Choice = Rock | Paper | Scissors {

    /** The underlying integer value the outcome arithmetic works on. */
    function Value(): (v: int)
      ensures 0 <= v < 3
      ensures v == 0 <==> this == Rock
      ensures v == 1 <==> this == Paper
      ensures v == 2 <==> this == Scissors
    {
      match this
      case Rock => 0
      case Paper => 1
      case Scissors => 2
    }
  }

  /** The enumerator of `Choice` whose underlying value is `v`, if there is one. */
  function ChoiceOfValue(v: int): (r: Option<Choice>)
    ensures r.Some? <==> 0 <= v < 3
    ensures r.Some? ==> r.value.Value() == v
  {
    if v == 0 then Some(Rock)
    else if v == 1 then Some(Paper)
    else if v == 2 then Some(Scissors)
    else None
  }

  /** `Choice` has exactly three values and `Value` numbers them without gaps or repeats. */
  lemma ChoiceValueBijective(c: Choice)
    ensures ChoiceOfValue(c.Value()) == Some(c)
  {
  }

  /** `enum MessageType: std::uint8_t`. */
  datatype MessageType = ChoiceMadeType | ChoiceRevealType {

    /** The tag byte that precedes the payload of a message. */
    function Tag(): (b: byte)
      ensures b == 0 <==> this == ChoiceMadeType
      ensures b == 1 <==> this == ChoiceRevealType
    {
      if ChoiceMadeType? then 0 else 1
    }
  }

  /** Data for revealing a player's choice: the choice and the secret key. */
  datatype ChoiceReveal = ChoiceReveal(choice: Choice, secret: Secret)

  /** Data announcing that a player has chosen: the HMAC of the choice under the secret. */
  datatype ChoiceMade = ChoiceMade(hash: Digest)

  /**
   * A message sent over the connections: a tag and the one payload the tag
   * selects. The datatype makes the selection structural: a message holds
   * a `ChoiceMade` exactly when its type is `ChoiceMadeType`.
   */
  datatype Message = MadeMessage(choiceMade: ChoiceMade) | RevealMessage(choiceReveal: ChoiceReveal) {

    function Type(): (t: MessageType)
      ensures t == ChoiceMadeType <==> MadeMessage?
      ensures t == ChoiceRevealType <==> RevealMessage?
    {
      match this
      case MadeMessage(_) => ChoiceMadeType
      case RevealMessage(_) => ChoiceRevealType
    }
  }

  /** The two ways secret generation throws. */
  datatype Error = GetrandomFailed | GetrandomShortRead

  datatype Option<T> = None | Some(value: T)

  datatype Result<T> = Ok(value: T) | Err(error: Error)
}
