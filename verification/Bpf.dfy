/** The BPF assembler, disassembler and virtual machine (x/net/bpf). */
module Bpf {
  import opened Options
  import opened Words

  // ----- Instructions (instructions.go) ------------------------------------------------

  type Register = bv16
  const REG_A: Register := 0
  const REG_X: Register := 1

  type AluOp = bv16
  const ADD: AluOp := 0x00
  const SUB: AluOp := 0x10
  const MUL: AluOp := 0x20
  const DIV: AluOp := 0x30
  const OR: AluOp := 0x40
  const AND: AluOp := 0x50
  const SHIFT_LEFT: AluOp := 0x60
  const SHIFT_RIGHT: AluOp := 0x70
  const NEG: AluOp := 0x80
  const MOD: AluOp := 0x90
  const XOR: AluOp := 0xA0

  datatype JumpTest =
    | Equal | NotEqual | GreaterThan | LessThan | GreaterOrEqual | LessOrEqual | BitsSet | BitsNotSet
    | OtherTest(code: bv16)

  const EXT_LEN: int := 1

  datatype Raw = Raw(op: bv16, jt: U8, jf: U8, k: U32)

  datatype Instruction =
    | RawInstruction(raw: Raw)
    | LoadConstant(dst: Register, val: U32)
    | LoadScratch(dst: Register, n: int)
    | LoadAbsolute(off: U32, size: int)
    | LoadIndirect(off: U32, size: int)
    | LoadMemShift(off: U32)
    | LoadExtension(num: int)
    | StoreScratch(src: Register, n: int)
    | AluConstant(op: AluOp, val: U32)
    | AluX(op: AluOp)
    | NegateA
    | Jump(skip: U32)
    | JumpIf(cond: JumpTest, val: U32, skipTrue: U8, skipFalse: U8)
    | RetA
    | RetConstant(val: U32)
    | Txa
    | Tax

  // ----- Assembling --------------------------------------------------------------------

  const MODE_IMMEDIATE: bv16 := 0x00
  const MODE_ABSOLUTE: bv16 := 0x20
  const MODE_INDIRECT: bv16 := 0x40
  const MODE_SCRATCH: bv16 := 0x60
  const MODE_PACKET_LEN: bv16 := 0x80
  const MODE_MEM_SHIFT: bv16 := 0xA0

  function AssembleLoad(dst: Register, size: int, mode: bv16, k: U32): Option<Raw> {
    if (dst != REG_A && dst != REG_X) || (size != 1 && size != 2 && size != 4) then None
    else
      var cls: bv16 := if dst == REG_A then 0 else 1;
      var sz: bv16 := if size == 1 then 0x10 else if size == 2 then 0x08 else 0x00;
      Some(Raw(cls | sz | mode, 0, 0, k))
  }

  /** `n` in 32 bits without a sign. */
  function Uint32(n: int): (u: U32)
    ensures 0 <= n < 0x1_0000_0000 ==> u == n
  {
    n % 0x1_0000_0000
  }

  /** The comparison that is encoded, and whether the two skips change places. */
  function JumpCode(c: JumpTest): Option<(bv16, bool)> {
    match c
    case Equal => Some((0x10, false))
    case NotEqual => Some((0x10, true))
    case GreaterThan => Some((0x20, false))
    case LessThan => Some((0x30, true))
    case GreaterOrEqual => Some((0x30, false))
    case LessOrEqual => Some((0x20, true))
    case BitsSet => Some((0x40, false))
    case BitsNotSet => Some((0x40, true))
    case OtherTest(_) => None
  }

  function Assemble(ins: Instruction): Option<Raw> {
    match ins
    case RawInstruction(raw) => Some(raw)
    case LoadConstant(dst, val) => AssembleLoad(dst, 4, MODE_IMMEDIATE, val)
    case LoadScratch(dst, n) => if n < 0 || n > 15 then None else AssembleLoad(dst, 4, MODE_SCRATCH, Uint32(n))
    case LoadAbsolute(off, size) => AssembleLoad(REG_A, size, MODE_ABSOLUTE, off)
    case LoadIndirect(off, size) => AssembleLoad(REG_A, size, MODE_INDIRECT, off)
    case LoadMemShift(off) => AssembleLoad(REG_X, 1, MODE_MEM_SHIFT, off)
    case LoadExtension(num) =>
      if num == EXT_LEN then AssembleLoad(REG_A, 4, MODE_PACKET_LEN, 0)
      else AssembleLoad(REG_A, 4, MODE_ABSOLUTE, Uint32(num - 0x1000))
    case StoreScratch(src, n) =>
      if n < 0 || n > 15 || (src != REG_A && src != REG_X) then None
      else Some(Raw(if src == REG_A then 2 else 3, 0, 0, Uint32(n)))
    case AluConstant(op, val) => Some(Raw(4 | op, 0, 0, val))
    case AluX(op) => Some(Raw(4 | 8 | op, 0, 0, 0))
    case NegateA => Some(Raw(4 | NEG, 0, 0, 0))
    case Jump(skip) => Some(Raw(5, 0, 0, skip))
    case JumpIf(cond, val, skipTrue, skipFalse) =>
      var code := JumpCode(cond);
      if code.None? then None
      else if code.value.1 then Some(Raw(5 | code.value.0, skipFalse, skipTrue, val))
      else Some(Raw(5 | code.value.0, skipTrue, skipFalse, val))
    case RetA => Some(Raw(6 | 0x10, 0, 0, 0))
    case RetConstant(val) => Some(Raw(6, 0, 0, val))
    case Txa => Some(Raw(7 | 0x80, 0, 0, 0))
    case Tax => Some(Raw(7, 0, 0, 0))
  }

  // ----- Disassembling -----------------------------------------------------------------

  predicate IsAluOp(op: bv16) {
    || op == ADD || op == SUB || op == MUL || op == DIV || op == OR || op == AND
    || op == SHIFT_LEFT || op == SHIFT_RIGHT || op == MOD || op == XOR
  }

  const LAST_OFFSET: U32 := 0xFFFF_EFFF

  function DisassembleLoad(ri: Raw): Instruction {
    var reg := ri.op & 0x01;
    var width := ri.op & 0x18;
    var mode := ri.op & 0xE0;
    if width != 0x00 && width != 0x08 && width != 0x10 then RawInstruction(ri)
    else
      var size := if width == 0x00 then 4 else if width == 0x08 then 2 else 1;
      if mode == MODE_IMMEDIATE then (if size != 4 then RawInstruction(ri) else LoadConstant(reg, ri.k))
      else if mode == MODE_SCRATCH then
        (if size != 4 || ri.k > 15 then RawInstruction(ri) else LoadScratch(reg, ri.k))
      else if mode == MODE_ABSOLUTE then
        (if ri.k > LAST_OFFSET then LoadExtension(Uint32(0x1000 + ri.k)) else LoadAbsolute(ri.k, size))
      else if mode == MODE_INDIRECT then LoadIndirect(ri.k, size)
      else if mode == MODE_PACKET_LEN then (if size != 4 then RawInstruction(ri) else LoadExtension(EXT_LEN))
      else if mode == MODE_MEM_SHIFT then LoadMemShift(ri.k)
      else RawInstruction(ri)
  }

  function DisassembleJump(ri: Raw): Instruction {
    var cond := ri.op & 0xF0;
    if ri.op & 0x0F != 5 then RawInstruction(ri)
    else if cond == 0x00 then Jump(ri.k)
    else if cond == 0x10 then
      (if ri.jt == 0 then JumpIf(NotEqual, ri.k, ri.jf, 0) else JumpIf(Equal, ri.k, ri.jt, ri.jf))
    else if cond == 0x20 then
      (if ri.jt == 0 then JumpIf(LessOrEqual, ri.k, ri.jf, 0) else JumpIf(GreaterThan, ri.k, ri.jt, ri.jf))
    else if cond == 0x30 then
      (if ri.jt == 0 then JumpIf(LessThan, ri.k, ri.jf, 0) else JumpIf(GreaterOrEqual, ri.k, ri.jt, ri.jf))
    else if cond == 0x40 then JumpIf(BitsSet, ri.k, ri.jt, ri.jf)
    else RawInstruction(ri)
  }

  function Disassemble(ri: Raw): Instruction {
    var cls := ri.op & 0x07;
    if cls <= 1 then DisassembleLoad(ri)
    else if cls == 2 then (if ri.op != 2 || ri.k > 15 then RawInstruction(ri) else StoreScratch(REG_A, ri.k))
    else if cls == 3 then (if ri.op != 3 || ri.k > 15 then RawInstruction(ri) else StoreScratch(REG_X, ri.k))
    else if cls == 4 then
      var op := ri.op & 0xF0;
      if IsAluOp(op) then (if ri.op & 0x08 != 0 then AluX(op) else AluConstant(op, ri.k))
      else if op == NEG then NegateA
      else RawInstruction(ri)
    else if cls == 5 then DisassembleJump(ri)
    else if cls == 6 then
      (if ri.op == 0x16 then RetA else if ri.op == 6 then RetConstant(ri.k) else RawInstruction(ri))
    else (if ri.op == 7 then Tax else if ri.op == 0x87 then Txa else RawInstruction(ri))
  }

  // ----- One instruction there and back ------------------------------------------------

  /** Conditional jumps come back with the comparison that is encoded, or with its opposite and
    * the skips changed if nothing is skipped when it holds. */
  function Normal(ins: Instruction): Instruction {
    match ins
    case JumpIf(cond, val, t, f) =>
      (match cond
       case Equal => if t == 0 then JumpIf(NotEqual, val, f, 0) else ins
       case NotEqual => if f == 0 then JumpIf(NotEqual, val, t, 0) else JumpIf(Equal, val, f, t)
       case GreaterThan => if t == 0 then JumpIf(LessOrEqual, val, f, 0) else ins
       case LessOrEqual => if f == 0 then JumpIf(LessOrEqual, val, t, 0) else JumpIf(GreaterThan, val, f, t)
       case GreaterOrEqual => if t == 0 then JumpIf(LessThan, val, f, 0) else ins
       case LessThan => if f == 0 then JumpIf(LessThan, val, t, 0) else JumpIf(GreaterOrEqual, val, f, t)
       case BitsNotSet => JumpIf(BitsSet, val, f, t)
       case _ => ins)
    case _ => ins
  }

  /** What can be encoded: no raw instruction, one of the ten operators, an offset that does not
    * mean an extension, an extension other than a reserved number. */
  predicate IsPlain(ins: Instruction) {
    match ins
    case RawInstruction(_) => false
    case AluConstant(op, _) => IsAluOp(op)
    case AluX(op) => IsAluOp(op)
    case LoadAbsolute(off, _) => off <= LAST_OFFSET
    case LoadExtension(num) => num == EXT_LEN
    case _ => true
  }

  lemma LoadBack(dst: Register, size: int, mode: bv16, k: U32)
    requires AssembleLoad(dst, size, mode, k).Some? && mode & 0xE0 == mode
    ensures var op := AssembleLoad(dst, size, mode, k).value.op;
      && op & 0x07 <= 1 && op & 0x01 == dst && op & 0xE0 == mode
      && op & 0x18 == (if size == 4 then 0 else if size == 2 then 0x08 else 0x10)
      && AssembleLoad(dst, size, mode, k).value.k == k && (size == 1 || size == 2 || size == 4)
  {
  }

  lemma AluBack(op: AluOp)
    requires IsAluOp(op)
    ensures (4 | op) & 0x07 == 4 && (4 | op) & 0xF0 == op && (4 | op) & 0x08 == 0
    ensures (4 | 8 | op) & 0x07 == 4 && (4 | 8 | op) & 0xF0 == op && (4 | 8 | op) & 0x08 != 0
  {
  }

  lemma JumpBack(code: bv16)
    requires code == 0x10 || code == 0x20 || code == 0x30 || code == 0x40
    ensures (5 | code) & 0x07 == 5 && (5 | code) & 0x0F == 5 && (5 | code) & 0xF0 == code
  {
  }

  lemma ThereAndBack(ins: Instruction)
    requires IsPlain(ins) && Assemble(ins).Some?
    ensures Disassemble(Assemble(ins).value) == Normal(ins)
  {
    hide AssembleLoad;
    match ins {
      case LoadConstant(dst, val) => LoadBack(dst, 4, MODE_IMMEDIATE, val);
      case LoadScratch(dst, n) => LoadBack(dst, 4, MODE_SCRATCH, n);
      case LoadAbsolute(off, size) => LoadBack(REG_A, size, MODE_ABSOLUTE, off);
      case LoadIndirect(off, size) => LoadBack(REG_A, size, MODE_INDIRECT, off);
      case LoadMemShift(off) => LoadBack(REG_X, 1, MODE_MEM_SHIFT, off);
      case LoadExtension(num) => LoadBack(REG_A, 4, MODE_PACKET_LEN, 0);
      case AluConstant(op, _) => AluBack(op);
      case AluX(op) => AluBack(op);
      case JumpIf(cond, _, _, _) => JumpBack(JumpCode(cond).value.0);
      case _ =>
    }
  }

  /** An absolute load comes back as itself exactly if its offset is not that of an extension. */
  lemma AbsoluteLoads(off: U32, size: int)
    requires Assemble(LoadAbsolute(off, size)).Some?
    ensures Disassemble(Assemble(LoadAbsolute(off, size)).value) == LoadAbsolute(off, size) <==> off <= LAST_OFFSET
  {
    hide AssembleLoad;
    LoadBack(REG_A, size, MODE_ABSOLUTE, off);
  }

  // ----- Programs (asm.go) -------------------------------------------------------------

  ghost predicate Assembles(p: seq<Instruction>) {
    forall i :: 0 <= i < |p| ==> Assemble(p[i]).Some?
  }

  method AssembleAll(p: seq<Instruction>) returns (raw: Option<seq<Raw>>)
    ensures raw.Some? == Assembles(p)
    ensures raw.Some? ==> |raw.value| == |p| && forall i :: 0 <= i < |p| ==> Some(raw.value[i]) == Assemble(p[i])
  {
    hide Assemble;
    var ret := seq(|p|, _ => Raw(0, 0, 0, 0));
    var i := 0;
    while i < |p|
      invariant i <= |p| == |ret|
      invariant forall k :: 0 <= k < i ==> Some(ret[k]) == Assemble(p[k])
    {
      var r := Assemble(p[i]);
      if r.None? {
        return None;
      }
      ret := ret[i := r.value];
      i := i + 1;
    }
    raw := Some(ret);
  }

  method DisassembleAll(raw: seq<Raw>) returns (p: seq<Instruction>, allDecoded: bool)
    ensures |p| == |raw| && forall i :: 0 <= i < |raw| ==> p[i] == Disassemble(raw[i])
    ensures allDecoded == forall i :: 0 <= i < |raw| ==> !Disassemble(raw[i]).RawInstruction?
  {
    hide Disassemble;
    p := seq(|raw|, _ => RetA);
    allDecoded := true;
    var i := 0;
    while i < |raw|
      invariant i <= |raw| == |p|
      invariant forall k :: 0 <= k < i ==> p[k] == Disassemble(raw[k])
      invariant allDecoded == forall k :: 0 <= k < i ==> !Disassemble(raw[k]).RawInstruction?
    {
      p := p[i := Disassemble(raw[i])];
      if p[i].RawInstruction? {
        allDecoded := false;
      }
      i := i + 1;
    }
  }

  // ----- The virtual machine (vm.go, vm_instructions.go) -------------------------------

  type Byte = b: nat | b < 256

  /** Is the instruction, with `check` instructions after it, allowed? */
  predicate Allowed(ins: Instruction, check: nat) {
    match ins
    case Jump(skip) => skip < check
    case JumpIf(_, _, t, f) => t < check && f < check
    case AluConstant(op, val) => val != 0 || (op != DIV && op != MOD)
    case LoadExtension(num) => num == EXT_LEN
    case _ => true
  }

  predicate IsReturn(ins: Instruction) {
    ins.RetA? || ins.RetConstant?
  }

  /** The programs that `NewVM` accepts without an error. */
  ghost predicate Accepted(p: seq<Instruction>) {
    && p != [] && IsReturn(p[|p| - 1]) && Assembles(p)
    && forall i :: 0 <= i < |p| ==> Allowed(p[i], |p| - (i + 1))
  }

  method NewVM(p: seq<Instruction>) returns (ok: bool)
    ensures ok == Accepted(p)
  {
    hide Assemble;
    if |p| == 0 {
      return false;
    }
    var i := 0;
    while i < |p|
      invariant i <= |p| && forall k :: 0 <= k < i ==> Allowed(p[k], |p| - (k + 1))
    {
      var check := |p| - (i + 1);
      match p[i] {
        case Jump(skip) =>
          if check <= skip {
            return false;
          }
        case JumpIf(_, _, t, f) =>
          if check <= t || check <= f {
            return false;
          }
        case AluConstant(op, val) =>
          if val == 0 && (op == DIV || op == MOD) {
            return false;
          }
        case LoadExtension(num) =>
          if num != EXT_LEN {
            return false;
          }
        case _ =>
      }
      i := i + 1;
    }
    if !IsReturn(p[|p| - 1]) {
      return false;
    }
    var raw := AssembleAll(p);
    ok := raw.Some?;
  }

  datatype Machine = Machine(a: U32, x: U32, scratch: seq<U32>)

  const START := Machine(0, 0, [0, 0, 0, 0, 0, 0, 0, 0, 0, 0, 0, 0, 0, 0, 0, 0])

  /** How a run ends: with a result, at an unknown instruction, with a panic, or behind the last
    * instruction. */
  datatype Outcome = Returned(bytes: U32) | Unknown(index: nat) | Panicked | FellOff

  datatype Next = Go(m: Machine, skip: nat) | Stop | Done(outcome: Outcome)

  /** Two words through a gate, bit by bit. */
  function Word(g: Gate, a: U32, v: U32): U32 {
    Powers();
    Bitwise(g, a, v, 32)
  }

  function Times(a: U32, v: U32): U32 {
    Uint32(a * v)
  }

  /** `None` is a division by zero. An unknown operator does nothing. */
  function Alu(op: AluOp, a: U32, v: U32): Option<U32> {
    if op == ADD then Some(Uint32(a + v))
    else if op == SUB then Some(Uint32(a - v))
    else if op == MUL then Some(Times(a, v))
    else if op == DIV then (if v == 0 then None else Some(Shrink(a, v)))
    else if op == OR then Some(Word(Or, a, v))
    else if op == AND then Some(Word(And, a, v))
    else if op == SHIFT_LEFT then Some(Shifted(a, v, true))
    else if op == SHIFT_RIGHT then Some(Shifted(a, v, false))
    else if op == MOD then (if v == 0 then None else Some(a % v))
    else if op == XOR then Some(Word(Xor, a, v))
    else Some(a)
  }

  function Holds(cond: JumpTest, a: U32, v: U32): bool {
    match cond
    case Equal => a == v
    case NotEqual => a != v
    case GreaterThan => a > v
    case LessThan => a < v
    case GreaterOrEqual => a >= v
    case LessOrEqual => a <= v
    case BitsSet => Word(And, a, v) != 0
    case BitsNotSet => Word(And, a, v) == 0
    case OtherTest(_) => false
  }

  /** `size` bytes of the packet as a number; `None` outside of it. */
  function Load(packet: seq<Byte>, offset: nat, size: int): Option<U32>
    requires size == 1 || size == 2 || size == 4
  {
    if offset + size > |packet| then None
    else if size == 1 then Some(packet[offset])
    else
      var b0: int, b1: int := packet[offset], packet[offset + 1];
      if size == 2 then Some(256 * b0 + b1)
      else
        var b2: int, b3: int := packet[offset + 2], packet[offset + 3];
        Some(0x100_0000 * b0 + 0x1_0000 * b1 + 0x100 * b2 + b3)
  }

  function SetReg(m: Machine, r: Register, v: U32): Machine {
    if r == REG_A then m.(a := v) else if r == REG_X then m.(x := v) else m
  }

  function LoadedA(m: Machine, v: Option<U32>): Next {
    if v.None? then Stop else Go(m.(a := v.value), 0)
  }

  /** One instruction, the one at `i`. The shifted load checks its bounds for no bytes, and so
    * panics directly behind the packet. */
  function Step(ins: Instruction, i: nat, packet: seq<Byte>, m: Machine): Next {
    match ins
    case AluConstant(op, val) =>
      var r := Alu(op, m.a, val);
      if r.None? then Done(Panicked) else Go(m.(a := r.value), 0)
    case AluX(op) =>
      var r := Alu(op, m.a, m.x);
      if r.None? then Stop else Go(m.(a := r.value), 0)
    case Jump(skip) => Go(m, skip)
    case JumpIf(cond, val, t, f) => Go(m, if Holds(cond, m.a, val) then t else f)
    case LoadAbsolute(off, size) =>
      if off + size > |packet| then Stop
      else if size != 1 && size != 2 && size != 4 then Done(Panicked)
      else LoadedA(m, Load(packet, off, size))
    case LoadConstant(dst, val) => Go(SetReg(m, dst, val), 0)
    case LoadExtension(num) => if num != EXT_LEN then Done(Panicked) else Go(m.(a := Uint32(|packet|)), 0)
    case LoadIndirect(off, size) =>
      if off + m.x + size > |packet| then Stop
      else if size != 1 && size != 2 && size != 4 then Done(Panicked)
      else LoadedA(m, Load(packet, off + m.x, size))
    case LoadMemShift(off) =>
      if off > |packet| then Stop
      else if off == |packet| then Done(Panicked)
      else Go(m.(x := packet[off] % 16 * 4), 0)
    case LoadScratch(dst, n) =>
      if dst != REG_A && dst != REG_X then Go(m, 0)
      else if 0 <= n < |m.scratch| then Go(SetReg(m, dst, m.scratch[n]), 0)
      else Done(Panicked)
    case StoreScratch(src, n) =>
      if src != REG_A && src != REG_X then Go(m, 0)
      else if !(0 <= n < |m.scratch|) then Done(Panicked)
      else Go(m.(scratch := m.scratch[n := if src == REG_A then m.a else m.x]), 0)
    case RetA => Done(Returned(m.a))
    case RetConstant(val) => Done(Returned(val))
    case Tax => Go(m.(x := m.a), 0)
    case Txa => Go(m.(a := m.x), 0)
    case NegateA => Done(Unknown(i))
    case RawInstruction(_) => Done(Unknown(i))
  }

  /** The run from instruction `i` on. */
  function Execute(p: seq<Instruction>, packet: seq<Byte>, i: nat, m: Machine): Outcome
    decreases |p| - i
  {
    if i >= |p| then FellOff
    else
      match Step(p[i], i, packet, m)
      case Go(m', skip) => Execute(p, packet, i + 1 + skip, m')
      case Stop => Returned(0)
      case Done(outcome) => outcome
  }

  /** What a caller sees: a program that ends without returning accepts nothing. */
  function Visible(outcome: Outcome): Outcome {
    if outcome == FellOff then Returned(0) else outcome
  }

  method Run(p: seq<Instruction>, packet: seq<Byte>) returns (outcome: Outcome)
    ensures outcome == Visible(Execute(p, packet, 0, START))
  {
    hide Step;
    var regs := START;
    var ok := true;
    var i := 0;
    while i < |p| && ok
      invariant ok ==> Execute(p, packet, i, regs) == Execute(p, packet, 0, START)
      invariant !ok ==> Execute(p, packet, 0, START) == Returned(0)
      decreases |p| - i, ok
    {
      match Step(p[i], i, packet, regs) {
        case Go(regs1, skip) =>
          regs := regs1;
          i := i + skip;
        case Stop =>
          ok := false;
        case Done(result) =>
          return Visible(result);
      }
      i := i + 1;
    }
    outcome := Returned(0);
  }

  // ----- Runs of accepted programs -----------------------------------------------------

  /** A run of an accepted program does not end behind it. It panics only at a shifted load
    * directly behind the packet, and stops as unknown only at an instruction that the machine
    * does not have. */
  lemma {:induction false} RunsAreSafe(p: seq<Instruction>, packet: seq<Byte>, i: nat, m: Machine)
    requires Accepted(p) && i < |p| && |m.scratch| == 16
    ensures match Execute(p, packet, i, m)
            case Returned(_) => true
            case Unknown(k) => k < |p| && (p[k] == NegateA || p[k].RawInstruction?)
            case Panicked => exists k :: 0 <= k < |p| && p[k].LoadMemShift? && p[k].off == |packet|
            case FellOff => false
    decreases |p| - i
  {
    hide Alu, Load, Holds;
    OneStep(p, packet, i, m);
    var next := Step(p[i], i, packet, m);
    if next.Go? {
      RunsAreSafe(p, packet, i + 1 + next.skip, next.m);
    }
  }

  lemma OneStep(p: seq<Instruction>, packet: seq<Byte>, i: nat, m: Machine)
    requires Accepted(p) && i < |p| && |m.scratch| == 16
    ensures match Step(p[i], i, packet, m)
            case Go(m', skip) => i + 1 + skip < |p| && |m'.scratch| == 16
            case Stop => true
            case Done(Returned(_)) => true
            case Done(Unknown(k)) => k == i && (p[i] == NegateA || p[i].RawInstruction?)
            case Done(Panicked) => p[i].LoadMemShift? && p[i].off == |packet|
            case Done(FellOff) => false
  {
    hide Holds, Load, AssembleLoad;
    var ins := p[i];
    assert Allowed(ins, |p| - (i + 1)) && Assemble(ins).Some?;
    LoadSizes(ins);
    if ins.AluConstant? {
      NoDivision(ins.op, m.a, ins.val);
    }
    if i == |p| - 1 {
      assert IsReturn(ins);
    }
  }

  lemma LoadSizes(ins: Instruction)
    requires Assemble(ins).Some?
    ensures ins.LoadAbsolute? || ins.LoadIndirect? ==> ins.size == 1 || ins.size == 2 || ins.size == 4
    ensures ins.LoadScratch? || ins.StoreScratch? ==> 0 <= ins.n <= 15
  {
  }

  lemma NoDivision(op: AluOp, a: U32, v: U32)
    requires v != 0 || (op != DIV && op != MOD)
    ensures Alu(op, a, v).Some?
  {
    hide Shifted, Times, Shrink, Word;
  }

  /** The instructions that a run executes. */
  function Trace(p: seq<Instruction>, packet: seq<Byte>, i: nat, m: Machine): (t: seq<nat>)
    decreases |p| - i
  {
    if i >= |p| then []
    else
      match Step(p[i], i, packet, m)
      case Go(m', skip) => [i] + Trace(p, packet, i + 1 + skip, m')
      case _ => [i]
  }

  /** No instruction is executed twice, so a run takes at most one step for each. */
  lemma {:induction false} RunsForward(p: seq<Instruction>, packet: seq<Byte>, i: nat, m: Machine)
    ensures var t := Trace(p, packet, i, m);
      && (forall k :: 0 <= k < |t| ==> i <= t[k] < |p|)
      && (forall j, k :: 0 <= j < k < |t| ==> t[j] < t[k])
      && |t| <= |p|
    decreases |p| - i
  {
    hide Step;
    StepsLeft(p, packet, i, m);
    if i < |p| {
      var next := Step(p[i], i, packet, m);
      if next.Go? {
        RunsForward(p, packet, i + 1 + next.skip, next.m);
      }
    }
  }

  lemma {:induction false} StepsLeft(p: seq<Instruction>, packet: seq<Byte>, i: nat, m: Machine)
    ensures |Trace(p, packet, i, m)| <= if i < |p| then |p| - i else 0
    decreases |p| - i
  {
    hide Step;
    if i < |p| {
      var next := Step(p[i], i, packet, m);
      if next.Go? {
        StepsLeft(p, packet, i + 1 + next.skip, next.m);
      }
    }
  }

  /** A run of an accepted program panics exactly if it reaches a shifted load directly behind the
    * packet. */
  lemma {:induction false} PanicsExactly(p: seq<Instruction>, packet: seq<Byte>, i: nat, m: Machine)
    requires Accepted(p) && i < |p| && |m.scratch| == 16
    ensures Execute(p, packet, i, m) == Panicked <==>
      exists k :: k in Trace(p, packet, i, m) && k < |p| && p[k].LoadMemShift? && p[k].off == |packet|
    decreases |p| - i
  {
    hide Alu, Load, Holds;
    OneStep(p, packet, i, m);
    var next := Step(p[i], i, packet, m);
    var t := Trace(p, packet, i, m);
    assert i in t;
    if next.Go? {
      PanicsExactly(p, packet, i + 1 + next.skip, next.m);
      var rest := Trace(p, packet, i + 1 + next.skip, next.m);
      assert t == [i] + rest;
      assert forall k :: k in t <==> k == i || k in rest;
    }
  }

  // ----- Meaning is preserved ----------------------------------------------------------

  /** A jump and its normal form go the same way. */
  lemma NormalStep(ins: Instruction, i: nat, packet: seq<Byte>, m: Machine)
    ensures Step(Normal(ins), i, packet, m) == Step(ins, i, packet, m)
  {
    hide Alu, Load, Word;
  }

  lemma NormalAllowed(ins: Instruction, check: nat)
    ensures Allowed(Normal(ins), check) == Allowed(ins, check)
    ensures Assemble(ins).Some? ==> Assemble(Normal(ins)).Some?
    ensures IsReturn(Normal(ins)) == IsReturn(ins)
  {
    hide AssembleLoad;
  }

  /** The program that comes back. */
  ghost predicate ComesBack(p: seq<Instruction>, q: seq<Instruction>) {
    && Assembles(p) && |q| == |p|
    && forall i :: 0 <= i < |p| ==> q[i] == Disassemble(Assemble(p[i]).value)
  }

  lemma {:induction false} SameRuns(p: seq<Instruction>, q: seq<Instruction>, packet: seq<Byte>, i: nat, m: Machine)
    requires |q| == |p| && forall k :: 0 <= k < |p| ==> q[k] == Normal(p[k])
    ensures Execute(q, packet, i, m) == Execute(p, packet, i, m)
    decreases |p| - i
  {
    hide Step, Normal;
    if i < |p| {
      NormalStep(p[i], i, packet, m);
      var next := Step(p[i], i, packet, m);
      if next.Go? {
        SameRuns(p, q, packet, i + 1 + next.skip, next.m);
      }
    }
  }

  /** Assembling and disassembling an accepted program gives an accepted program with the same
    * result on every packet. */
  lemma MeaningPreserved(p: seq<Instruction>, q: seq<Instruction>, packet: seq<Byte>)
    requires Accepted(p) && (forall i :: 0 <= i < |p| ==> IsPlain(p[i])) && ComesBack(p, q)
    ensures Accepted(q)
    ensures Execute(q, packet, 0, START) == Execute(p, packet, 0, START)
  {
    hide Disassemble, Assemble, Normal, Allowed, IsPlain, IsReturn;
    forall i | 0 <= i < |p|
      ensures q[i] == Normal(p[i]) && Allowed(q[i], |q| - (i + 1)) && Assemble(q[i]).Some? &&
        IsReturn(q[i]) == IsReturn(p[i])
    {
      ThereAndBack(p[i]);
      NormalAllowed(p[i], |p| - (i + 1));
    }
    SameRuns(p, q, packet, 0, START);
  }

  /** An absolute load whose offset means an extension does not keep its meaning: this program
    * returns 0 on a packet of one byte, and 1 when it comes back. */
  lemma ExtensionOffsets()
    ensures var p := [LoadAbsolute(0xFFFF_F001, 4), RetA];
      var q := [LoadExtension(EXT_LEN), RetA];
      && Accepted(p) && ComesBack(p, q) && Accepted(q)
      && Execute(p, [7], 0, START) == Returned(0) && Execute(q, [7], 0, START) == Returned(1)
  {
    var p := [LoadAbsolute(0xFFFF_F001, 4), RetA];
    var q := [LoadExtension(EXT_LEN), RetA];
    LoadBack(REG_A, 4, MODE_ABSOLUTE, 0xFFFF_F001);
    assert Step(q[0], 0, [7], START) == Go(START.(a := 1), 0);
    assert Execute(q, [7], 1, START.(a := 1)) == Returned(1);
  }

  /** The bounds check of the shifted load lets the offset behind the packet pass. */
  lemma ShiftedLoadPanics(packet: seq<Byte>)
    requires |packet| < 0x1_0000_0000
    ensures var p := [LoadMemShift(|packet|), RetA]; Accepted(p) && Execute(p, packet, 0, START) == Panicked
  {
    hide Execute, Assemble, Step, START;
    var p := [LoadMemShift(|packet|), RetA];
    OneShift(packet, START);
    PanicsHere(p, packet, 0, START);
  }

  lemma OneShift(packet: seq<Byte>, m: Machine)
    requires |packet| < 0x1_0000_0000
    ensures Assemble(LoadMemShift(|packet|)).Some? && Assemble(RetA).Some?
    ensures Step(LoadMemShift(|packet|), 0, packet, m) == Done(Panicked)
  {
  }

  lemma PanicsHere(p: seq<Instruction>, packet: seq<Byte>, i: nat, m: Machine)
    requires i < |p| && Step(p[i], i, packet, m) == Done(Panicked)
    ensures Execute(p, packet, i, m) == Panicked
  {
    hide Step;
  }
}
