/** Packing and patching of 32-bit instruction words (src/bytecode.rs,
    bootstrap/fixup_hex.py). */
module Bytecode {
  const OP_CONSTU := 0x07
  const OP_JMP := 0x50
  const OP_JMPF := 0x52
  const OP_CLOSURE := 0x60
  const OP_PERFORM := 0x90

  function Pack(opcode: nat, op1: nat, op2: nat, op3: nat): nat {
    opcode * 0x1000000 + op1 * 0x10000 + op2 * 0x100 + op3
  }

  function Opcode(w: nat): nat { w / 0x1000000 % 0x100 }
  function Op1(w: nat): nat { w / 0x10000 % 0x100 }
  function Op2(w: nat): nat { w / 0x100 % 0x100 }
  function Op3(w: nat): nat { w % 0x100 }

  function Signed16(x: nat): int { if x < 0x8000 then x else x - 0x10000 }

  /** The 16-bit immediate of operands one and two, and the signed offset of
      operands two and three that conditional jumps use. */
  function Imm16(w: nat): nat { Op1(w) * 0x100 + Op2(w) }
  function Offset16(w: nat): int { Signed16(Op2(w) * 0x100 + Op3(w)) }

  function High(x: int): nat { x / 0x100 % 0x100 }
  function Low(x: int): nat { x % 0x100 }

  function PatchJmpF(w: nat, offset: int): nat { Pack(OP_JMPF, Op1(w), High(offset), Low(offset)) }
  function PatchJmp(offset: int): nat { Pack(OP_JMP, High(offset), Low(offset), 0) }
  function PatchConstU(w: nat, idx: nat): nat { Pack(OP_CONSTU, High(idx), Low(idx), Op3(w)) }
  function PatchPerform(w: nat, idx: nat): nat { Pack(OP_PERFORM, High(idx), Low(idx), Op3(w)) }
  function PatchClosure(w: nat, idx: nat): nat { Pack(OP_CLOSURE, High(idx), Low(idx), Op3(w)) }

  lemma {:induction false} PackFields(opcode: nat, op1: nat, op2: nat, op3: nat)
    requires opcode < 0x100 && op1 < 0x100 && op2 < 0x100 && op3 < 0x100
    ensures var w := Pack(opcode, op1, op2, op3);
            w < 0x1_0000_0000 && Opcode(w) == opcode && Op1(w) == op1 && Op2(w) == op2 && Op3(w) == op3
  {
    var w := Pack(opcode, op1, op2, op3);
    assert w / 0x100 == opcode * 0x10000 + op1 * 0x100 + op2;
    assert w / 0x10000 == opcode * 0x100 + op1;
    assert w / 0x1000000 == opcode;
  }

  lemma {:induction false} SplitBytes(x: int)
    ensures High(x) * 0x100 + Low(x) == x % 0x10000
    ensures Signed16(x % 0x10000) == x <==> -0x8000 <= x < 0x8000
  {
  }

  /** A patched conditional jump keeps its register and holds the offset
      exactly when the offset fits in 16 signed bits. */
  lemma {:induction false} JmpFDecodes(w: nat, offset: int)
    ensures var p := PatchJmpF(w, offset);
            && Opcode(p) == OP_JMPF && Op1(p) == Op1(w)
            && (Offset16(p) == offset <==> -0x8000 <= offset < 0x8000)
  {
    PackFields(OP_JMPF, Op1(w), High(offset), Low(offset));
    SplitBytes(offset);
  }

  lemma {:induction false} JmpDecodes(offset: int)
    ensures var p := PatchJmp(offset);
            && Opcode(p) == OP_JMP
            && (Signed16(Imm16(p)) == offset <==> -0x8000 <= offset < 0x8000)
  {
    PackFields(OP_JMP, High(offset), Low(offset), 0);
    SplitBytes(offset);
  }

  /** Indexed instructions keep their destination register and hold the index
      exactly when it fits in 16 bits. */
  lemma {:induction false} IndexDecodes(opcode: nat, w: nat, idx: nat)
    requires opcode < 0x100
    ensures var p := Pack(opcode, High(idx), Low(idx), Op3(w));
            && Opcode(p) == opcode && Op3(p) == Op3(w)
            && (Imm16(p) == idx <==> idx < 0x10000)
  {
    PackFields(opcode, High(idx), Low(idx), Op3(w));
    SplitBytes(idx);
  }
}
