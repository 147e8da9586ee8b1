/** Types shared by the modules of the model. */
module Prelude {

  datatype Option<+T> = None | Some(value: T)

  /** A 64-bit machine word (`uintptr_t`). */
  const WORD_MODULUS: nat := 0x1_0000_0000_0000_0000

  type Word = w: nat | w < WORD_MODULUS witness 0

  const INT_MODULUS: nat := 0x1_0000_0000

  /** The word that a C `int` holding the low 32 bits of `w` becomes when it is widened again. */
  function SignExtendInt(w: Word): (r: Word)
    ensures r % INT_MODULUS == w % INT_MODULUS
    ensures r < INT_MODULUS / 2 || WORD_MODULUS - INT_MODULUS / 2 <= r
  {
    var low := w % INT_MODULUS;
    if low < INT_MODULUS / 2 then low else low + (WORD_MODULUS - INT_MODULUS)
  }

  /** Word addition wraps around. */
  function AddWord(a: Word, b: Word): Word {
    (a + b) % WORD_MODULUS
  }
}
