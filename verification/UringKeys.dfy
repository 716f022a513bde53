/** The 64-bit keys that driver/uring.rs gives the kernel and gets back with each completion: a slab
    token shifted left by two bits, with the kind of the submission in the low bits.  Shift and mask
    are written as the arithmetic they are on u64. */
module UringKeys {
  import opened Basics

  const TOKENS: nat := U64 / 4

  /** The completion of the read on the interrupt eventfd, and of a timeout. */
  const INTERRUPT_KEY: nat := U64 - 1
  const TIMEOUT_KEY: nat := U64 - 2

  datatype Kind = PollRead | Completion | PollWrite

  function KindBits(k: Kind): nat {
    match k case PollRead => 0 case Completion => 1 case PollWrite => 2
  }

  /** The shift drops the bits of the token beyond the 62nd. */
  function Encode(token: nat, k: Kind): (key: nat)
    ensures key < U64
  {
    (token % TOKENS) * 4 + KindBits(k)
  }

  function DecodeToken(key: nat): nat {
    key / 4
  }

  function DecodeBits(key: nat): nat {
    key % 4
  }

  lemma SmallMod(a: nat, m: nat)
    requires m > 0
    ensures a % m < m
    ensures a % m == a <==> a < m
  {
    if a < m {
      assert a / m == 0;
    }
  }

  lemma UnpackBits(a: nat, b: nat)
    requires b < 4
    ensures (a * 4 + b) / 4 == a && (a * 4 + b) % 4 == b
  {
  }

  /** A key gives its token back if and only if the token fits in 62 bits; the kind always survives. */
  lemma KeyRoundTrip(token: nat, k: Kind)
    ensures DecodeToken(Encode(token, k)) == token <==> token < TOKENS
    ensures DecodeBits(Encode(token, k)) == KindBits(k)
  {
    SmallMod(token, TOKENS);
    UnpackBits(token % TOKENS, KindBits(k));
  }

  lemma KeyInjective(token: nat, k: Kind, token': nat, k': Kind)
    requires token < TOKENS && token' < TOKENS && Encode(token, k) == Encode(token', k')
    ensures token == token' && k == k'
  {
    KeyRoundTrip(token, k);
    KeyRoundTrip(token', k');
  }

  /** The one key that collides with a reserved value is that of a write poll on the last token. */
  lemma ReservedIff(token: nat, k: Kind)
    requires token < TOKENS
    ensures Encode(token, k) == INTERRUPT_KEY || Encode(token, k) == TIMEOUT_KEY <==> token == TOKENS - 1 && k == PollWrite
  {
    KeyOfSmallToken(token, k);
    assert U64 == 4 * TOKENS;
  }

  lemma KeyOfSmallToken(token: nat, k: Kind)
    requires token < TOKENS
    ensures Encode(token, k) == 4 * token + KindBits(k)
  {
    SmallMod(token, TOKENS);
  }
}
