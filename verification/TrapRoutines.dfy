/** Saving and restoring the registers of a hart on a trap (`trap_vector`, `restore_after_trap`). */
module TrapRoutines {
  import opened Prelude

  // Numbers of the integer registers.
  const RA: nat := 1
  const SP: nat := 2
  const GP: nat := 3
  const T0: nat := 5
  const S0: nat := 8
  const A0: nat := 10
  const S2: nat := 18
  const T3: nat := 28

  const REGISTERS: nat := 32

  // Words of a trap frame: one per register, in the place of x0 the saved pc, and satp behind them.
  const PC_WORD: nat := 0
  const SATP_WORD: nat := 32
  const FRAME_WORDS: nat := 33

  class Hart {
    const registers: array<Word>
    /** The trap frame in the hart's scratch space. */
    const frame: array<Word>
    var sscratch: Word
    var sepc: Word
    var satp: Word
    var pc: Word

    ghost predicate Valid()
      reads this, registers, frame
    {
      registers.Length == REGISTERS && frame.Length == FRAME_WORDS && registers != frame
    }

    constructor (registers: array<Word>, frame: array<Word>, scratch: Word, sepc: Word, satp: Word)
      requires registers.Length == REGISTERS && frame.Length == FRAME_WORDS && registers != frame
      ensures Valid() && this.registers == registers && this.frame == frame
      ensures sscratch == scratch && this.sepc == sepc && this.satp == satp
    {
      this.registers := registers;
      this.frame := frame;
      sscratch := scratch;
      this.sepc := sepc;
      this.satp := satp;
      pc := 0;
    }

    /** A store to word `i` of the frame, through the pointer in sp. */
    method StoreWord(i: nat, w: Word, ghost frameAt: Word)
      requires Valid() && i < FRAME_WORDS && registers[SP] == frameAt
      modifies frame
      ensures frame[..] == old(frame[..])[i := w]
    {
      frame[i] := w;
    }

    /** A load of word `i` of the frame, through the pointer in a0. */
    method LoadWord(i: nat, ghost frameAt: Word) returns (w: Word)
      requires Valid() && i < FRAME_WORDS && registers[A0] == frameAt
      ensures w == frame[i]
    {
      w := frame[i];
    }

    /** The register stores of one group; storing s3 a second time, as the code does, changes nothing. */
    method StoreRegisters(from: nat, to: nat, ghost frameAt: Word)
      requires Valid() && 1 <= from <= to <= REGISTERS && registers[SP] == frameAt
      modifies frame
      ensures forall r :: from <= r < to ==> frame[r] == registers[r]
      ensures forall r :: 0 <= r < FRAME_WORDS && !(from <= r < to) ==> frame[r] == old(frame[r])
    {
      for r := from to to
        invariant forall q :: from <= q < r ==> frame[q] == registers[q]
        invariant forall q :: 0 <= q < FRAME_WORDS && !(from <= q < r) ==> frame[q] == old(frame[q])
      {
        StoreWord(r, registers[r], frameAt);
      }
    }

    /** The register loads of one group, which leaves out a0. */
    method LoadRegisters(from: nat, to: nat, ghost frameAt: Word)
      requires Valid() && 1 <= from <= to <= REGISTERS && registers[A0] == frameAt && !(from <= A0 < to)
      modifies registers
      ensures forall r :: from <= r < to ==> registers[r] == frame[r]
      ensures forall r :: 0 <= r < REGISTERS && !(from <= r < to) ==> registers[r] == old(registers[r])
    {
      for r := from to to
        invariant forall q :: from <= q < r ==> registers[q] == frame[q]
        invariant forall q :: 0 <= q < REGISTERS && !(from <= q < r) ==> registers[q] == old(registers[q])
      {
        registers[r] := LoadWord(r, frameAt);
      }
    }

    /**
     trap_vector: every register reaches the frame, sp (register 2) out of sscratch and pc out of
     sepc; the satp word of the frame is left alone, and sscratch holds the scratch pointer again.
     The handler runs on the work stack only if the hart had a process; otherwise its stack
     pointer stays at the bottom of the scratch space. Every store goes through a pointer to the
     frame, which lies `frameOffset` bytes into the scratch space.
     */
    method TrapVector(kernelSatp: Word, hasProcess: bool, frameOffset: Word, workStackTop: Word)
      requires Valid()
      modifies this, registers, frame
      ensures Valid() && sscratch == old(sscratch) && sepc == old(sepc) && satp == kernelSatp
      ensures forall r :: 1 <= r < 32 ==> frame[r] == old(registers[r])
      ensures frame[0] == old(sepc) && frame[32] == old(frame[32])
      ensures registers[2] == if hasProcess then AddWord(old(sscratch), workStackTop) else old(sscratch)
    {
      ghost var frameAt := AddWord(sscratch, frameOffset);
      sscratch, registers[SP] := registers[SP], sscratch;
      registers[SP] := AddWord(registers[SP], frameOffset);
      StoreRegisters(RA, SP, frameAt);
      StoreRegisters(GP, S0, frameAt);
      StoreRegisters(T3, REGISTERS, frameAt);
      StoreRegisters(A0, S2, frameAt);
      StoreRegisters(S0, A0, frameAt);
      StoreRegisters(S2, T3, frameAt);
      registers[T0] := sscratch;
      StoreWord(SP, registers[T0], frameAt);
      registers[T0] := sepc;
      StoreWord(PC_WORD, registers[T0], frameAt);
      OffsetUndone(old(sscratch), frameOffset);
      registers[SP] := SubtractWord(registers[SP], frameOffset);
      sscratch := registers[SP];
      registers[T0] := kernelSatp;
      satp := registers[T0];
      registers[T0] := if hasProcess then 1 else 0;
      if registers[T0] != 0 {
        registers[T0] := workStackTop;
        registers[SP] := AddWord(registers[SP], registers[T0]);
      }
    }

    /**
     restore_after_trap: every register and the page table come from the frame, pc from sepc. Every
     load goes through a pointer to the frame in a0, which is itself loaded last.
     */
    method RestoreAfterTrap(frameOffset: Word)
      requires Valid()
      modifies this, registers
      ensures Valid() && sscratch == old(sscratch) && sepc == old(sepc)
      ensures forall r :: 1 <= r < 32 ==> registers[r] == frame[r]
      ensures satp == frame[32] && pc == sepc
    {
      ghost var frameAt := AddWord(sscratch, frameOffset);
      registers[A0] := AddWord(sscratch, frameOffset);
      registers[T0] := LoadWord(SATP_WORD, frameAt);
      satp := registers[T0];
      LoadRegisters(RA, SP, frameAt);
      LoadRegisters(GP, T0, frameAt);
      LoadRegisters(SP, GP, frameAt);
      LoadRegisters(T0, S0, frameAt);
      LoadRegisters(T3, REGISTERS, frameAt);
      LoadRegisters(A0 + 1, S2, frameAt);
      LoadRegisters(S0, A0, frameAt);
      LoadRegisters(S2, T3, frameAt);
      registers[A0] := LoadWord(A0, frameAt);
      pc := sepc;
    }

    /** A trap from which the hart returns at once changes no register, and goes on where the trap came. */
    method TrapAndReturn(kernelSatp: Word, hasProcess: bool, frameOffset: Word, workStackTop: Word)
      requires Valid() && frame[32] == satp
      modifies this, registers, frame
      ensures Valid() && sscratch == old(sscratch) && satp == old(satp) && pc == old(sepc)
      ensures forall r :: 1 <= r < 32 ==> registers[r] == old(registers[r])
    {
      TrapVector(kernelSatp, hasProcess, frameOffset, workStackTop);
      RestoreAfterTrap(frameOffset);
    }
  }

  function SubtractWord(a: Word, b: Word): Word {
    (a - b) % WORD_MODULUS
  }

  lemma OffsetUndone(a: Word, b: Word)
    ensures SubtractWord(AddWord(a, b), b) == a
  {
  }
}
