/** What the BPF instructions mean, in numbers and bits, and how they are encoded. */
module BpfMeaning {
  import opened Options
  import opened Words
  import opened Bpf

  // ----- Operators ------------------------------------------------------------------------

  /** What the operator with the code `op` computes: sums, differences and products that wrap
    * around, quotients and remainders, and bits. Another code leaves `a` as it is. */
  ghost predicate Computes(op: bv16, a: U32, v: U32, r: U32) {
    match op
    case 0x00 => r == a + v || r == a + v - 0x1_0000_0000
    case 0x10 => r == a - v || r == a - v + 0x1_0000_0000
    case 0x20 => exists q: nat :: Divided(a * v, 0x1_0000_0000, q, r)
    case 0x30 => exists rest: nat :: Divided(a, v, r, rest)
    case 0x40 => forall i: nat :: i < 32 ==> Bit(r, i) == (Bit(a, i) || Bit(v, i))
    case 0x50 => forall i: nat :: i < 32 ==> Bit(r, i) == (Bit(a, i) && Bit(v, i))
    case 0x60 => forall i: nat :: i < 32 ==> Bit(r, i) == (i >= v && Bit(a, i - v))
    case 0x70 => forall i: nat :: i < 32 ==> Bit(r, i) == (i + v < 32 && Bit(a, i + v))
    case 0x90 => exists q: nat :: Divided(a, v, q, r)
    case 0xA0 => forall i: nat :: i < 32 ==> Bit(r, i) == (Bit(a, i) != Bit(v, i))
    case _ => r == a
  }

  /** `x` is `q` times `d` and a smaller rest. */
  ghost predicate Divided(x: int, d: nat, q: nat, rest: nat) {
    x == d * q + rest && rest < d
  }

  predicate DividesByZero(op: bv16, v: U32) {
    v == 0 && (op == 0x30 || op == 0x90)
  }

  /** Every operator computes what it should, and only a division by zero has no result. */
  lemma AluMeans(op: AluOp, a: U32, v: U32)
    ensures Alu(op, a, v).None? <==> DividesByZero(op, v)
    ensures Alu(op, a, v).Some? ==> Computes(op, a, v, Alu(op, a, v).value)
  {
    hide Alu, Computes, DividesByZero;
    if op == OR || op == AND || op == XOR {
      GatesMean(op, a, v);
    } else if op == SHIFT_LEFT || op == SHIFT_RIGHT {
      ShiftsMean(op, a, v);
    } else {
      NumbersMean(op, a, v);
    }
  }

  lemma GatesMean(op: AluOp, a: U32, v: U32)
    requires op == OR || op == AND || op == XOR
    ensures Alu(op, a, v).Some? && !DividesByZero(op, v) && Computes(op, a, v, Alu(op, a, v).value)
  {
    hide Word, Bit, Divided;
    var r := Alu(op, a, v).value;
    forall i: nat | i < 32
      ensures op == OR ==> Bit(r, i) == (Bit(a, i) || Bit(v, i))
      ensures op == AND ==> Bit(r, i) == (Bit(a, i) && Bit(v, i))
      ensures op == XOR ==> Bit(r, i) == (Bit(a, i) != Bit(v, i))
    {
      WordMeans(a, v, i);
    }
  }

  lemma ShiftsMean(op: AluOp, a: U32, v: U32)
    requires op == SHIFT_LEFT || op == SHIFT_RIGHT
    ensures Alu(op, a, v).Some? && !DividesByZero(op, v) && Computes(op, a, v, Alu(op, a, v).value)
  {
    hide Shifted, Bit, Divided;
    var r := Alu(op, a, v).value;
    forall i: nat | i < 32
      ensures op == SHIFT_LEFT ==> Bit(r, i) == (i >= v && Bit(a, i - v))
      ensures op == SHIFT_RIGHT ==> Bit(r, i) == (i + v < 32 && Bit(a, i + v))
    {
      ShiftsBits(a, v, i);
    }
  }

  lemma NumbersMean(op: AluOp, a: U32, v: U32)
    requires op !in {OR, AND, XOR, SHIFT_LEFT, SHIFT_RIGHT}
    ensures Alu(op, a, v).None? <==> DividesByZero(op, v)
    ensures Alu(op, a, v).Some? ==> Computes(op, a, v, Alu(op, a, v).value)
  {
    hide Shifted, Times, Shrink, Word, Bit, Divided;
    if op == MUL {
      TimesMeans(a, v);
    } else if (op == DIV || op == MOD) && v > 0 {
      ShrinkMeans(a, v);
    }
  }

  lemma TimesMeans(a: U32, v: U32)
    ensures exists q: nat :: Divided(a * v, 0x1_0000_0000, q, Times(a, v))
  {
    Product(a, v);
    assert Divided(a * v, 0x1_0000_0000, a * v / 0x1_0000_0000, Times(a, v));
  }

  lemma ShrinkMeans(a: U32, v: U32)
    requires v > 0
    ensures exists rest: nat :: Divided(a, v, Shrink(a, v), rest)
    ensures exists q: nat :: Divided(a, v, q, a % v)
  {
    assert Divided(a, v, Shrink(a, v), a % v);
  }

  lemma WordMeans(a: U32, v: U32, i: nat)
    requires i < 32
    ensures Bit(Word(Or, a, v), i) == (Bit(a, i) || Bit(v, i))
    ensures Bit(Word(And, a, v), i) == (Bit(a, i) && Bit(v, i))
    ensures Bit(Word(Xor, a, v), i) == (Bit(a, i) != Bit(v, i))
  {
    hide Bitwise, Bit;
    GatesBits(Or, a, v, 32, i);
    GatesBits(And, a, v, 32, i);
    GatesBits(Xor, a, v, 32, i);
  }

  /** There is only one such result. */
  lemma OneResult(op: bv16, a: U32, v: U32, r: U32, r': U32)
    requires Computes(op, a, v, r) && Computes(op, a, v, r') && !DividesByZero(op, v)
    ensures r == r'
  {
    hide Bit, Divided;
    if op == 0x20 {
      OneRest(a * v, 0x1_0000_0000, r, r');
    } else if op == 0x30 {
      OneQuotient(a, v, r, r');
    } else if op == 0x90 {
      OneRest(a, v, r, r');
    } else if op in {0x40, 0x50, 0x60, 0x70, 0xA0} {
      SameResult(op, a, v, r, r');
    }
  }

  lemma SameResult(op: bv16, a: U32, v: U32, r: U32, r': U32)
    requires Computes(op, a, v, r) && Computes(op, a, v, r') && op in {0x40, 0x50, 0x60, 0x70, 0xA0}
    ensures r == r'
  {
    hide Bit, Divided, Power;
    forall i: nat | i < 32 ensures Bit(r, i) == Bit(r', i) {
    }
    Powers();
    SameBits(r, r', 32);
  }

  lemma OneRest(x: int, d: nat, r: U32, r': U32)
    requires (exists q: nat :: Divided(x, d, q, r)) && (exists q: nat :: Divided(x, d, q, r'))
    ensures r == r'
  {
    var q: nat :| Divided(x, d, q, r);
    var q': nat :| Divided(x, d, q', r');
    Product(d, q);
    Unique(x, d, q, r);
    Unique(x, d, q', r');
  }

  lemma OneQuotient(x: nat, d: nat, q: U32, q': U32)
    requires (exists r: nat :: Divided(x, d, q, r)) && (exists r: nat :: Divided(x, d, q', r))
    ensures q == q'
  {
    var r: nat :| Divided(x, d, q, r);
    var r': nat :| Divided(x, d, q', r');
    Unique(x, d, q, r);
    Unique(x, d, q', r');
  }

  /** What a comparison says. */
  ghost predicate Compares(cond: JumpTest, a: U32, v: U32) {
    match cond
    case Equal => a <= v <= a
    case NotEqual => a < v || v < a
    case GreaterThan => exists d: nat :: Above(a, v, d) && d > 0
    case LessThan => exists d: nat :: Above(v, a, d) && d > 0
    case GreaterOrEqual => exists d: nat :: Above(a, v, d)
    case LessOrEqual => exists d: nat :: Above(v, a, d)
    case BitsSet => Meet(a, v, 32)
    case BitsNotSet => !Meet(a, v, 32)
    case OtherTest(_) => false
  }

  predicate Above(a: U32, v: U32, d: nat) {
    a == v + d
  }

  lemma HoldsMeans(cond: JumpTest, a: U32, v: U32)
    ensures Holds(cond, a, v) <==> Compares(cond, a, v)
  {
    hide Bitwise, Meet;
    Meets(a, v, 32);
    assert a >= v ==> Above(a, v, a - v);
    assert v >= a ==> Above(v, a, v - a);
  }

  /** The number that bytes spell, the first one weighing most. */
  function BigEndian(bytes: seq<Byte>): nat {
    if bytes == [] then 0 else 0x100 * BigEndian(bytes[..|bytes| - 1]) + bytes[|bytes| - 1]
  }

  lemma LoadMeans(packet: seq<Byte>, offset: nat, size: int)
    requires size == 1 || size == 2 || size == 4
    ensures Load(packet, offset, size).Some? <==> offset + size <= |packet|
    ensures offset + size <= |packet| ==>
      Load(packet, offset, size) == Some(BigEndian(packet[offset..offset + size]))
  {
    if offset + size <= |packet| {
      var bytes := packet[offset..offset + size];
      assert BigEndian(bytes[..1]) == bytes[0] by { assert bytes[..1][..0] == []; }
      if size >= 2 {
        assert bytes[..2][..1] == bytes[..1];
        assert BigEndian(bytes[..2]) == 0x100 * BigEndian(bytes[..1]) + bytes[1];
      }
      if size == 4 {
        assert bytes[..3][..2] == bytes[..2] && bytes[..4][..3] == bytes[..3];
        assert BigEndian(bytes[..3]) == 0x100 * BigEndian(bytes[..2]) + bytes[2];
      }
      assert bytes[..size] == bytes;
    }
  }

  // ----- Instructions, by what programs return --------------------------------------------

  function Result(p: seq<Instruction>, packet: seq<Byte>): Outcome {
    Visible(Execute(p, packet, 0, START))
  }

  predicate Returns(p: seq<Instruction>, packet: seq<Byte>, n: nat) {
    Result(p, packet).Returned? && Result(p, packet).bytes == n
  }

  /** The outcome of a run from its first step. */
  function After(p: seq<Instruction>, packet: seq<Byte>, i: nat, next: Next): Outcome {
    match next
    case Go(m, skip) => Execute(p, packet, i + 1 + skip, m)
    case Stop => Returned(0)
    case Done(outcome) => outcome
  }

  lemma OnStep(p: seq<Instruction>, packet: seq<Byte>, i: nat, m: Machine)
    requires i < |p|
    ensures Execute(p, packet, i, m) == After(p, packet, i, Step(p[i], i, packet, m))
  {
    hide Step;
  }

  /** A constant goes through an operator, with the other operand in the instruction or in X. */
  lemma Operators(op: AluOp, a: U32, v: U32, packet: seq<Byte>)
    ensures !DividesByZero(op, v) ==>
      exists r :: Computes(op, a, v, r)
        && Result([LoadConstant(REG_A, a), AluConstant(op, v), RetA], packet) == Returned(r)
        && Result([LoadConstant(REG_A, a), LoadConstant(REG_X, v), AluX(op), RetA], packet) == Returned(r)
    ensures DividesByZero(op, v) ==>
      Result([LoadConstant(REG_A, a), LoadConstant(REG_X, v), AluX(op), RetA], packet) == Returned(0)
  {
    hide Alu, Execute, Computes;
    AluMeans(op, a, v);
    var p := [LoadConstant(REG_A, a), AluConstant(op, v), RetA];
    var q := [LoadConstant(REG_A, a), LoadConstant(REG_X, v), AluX(op), RetA];
    var m, n := START.(a := a), START.(a := a, x := v);
    OnStep(p, packet, 0, START);
    OnStep(q, packet, 0, START);
    OnStep(q, packet, 1, m);
    OnStep(p, packet, 1, m);
    OnStep(q, packet, 2, n);
    if Alu(op, a, v).Some? {
      var r := Alu(op, a, v).value;
      OnStep(p, packet, 2, m.(a := r));
      OnStep(q, packet, 3, n.(a := r));
    }
  }

  /** A value comes back from the other register, and from the slot where it was stored but from
    * no other. */
  lemma Registers(v: U32, i: int, k: int, packet: seq<Byte>)
    requires 0 <= i < 16 && 0 <= k < 16
    ensures Result([LoadConstant(REG_A, v), Tax, LoadConstant(REG_A, 0), Txa, RetA], packet) == Returned(v)
    ensures Result([LoadConstant(REG_A, v), StoreScratch(REG_A, i), LoadScratch(REG_X, k), Txa, RetA], packet) ==
      Returned(if i == k then v else 0)
    ensures Result([LoadConstant(REG_X, v), StoreScratch(REG_X, i), LoadScratch(REG_A, k), RetA], packet) ==
      Returned(if i == k then v else 0)
  {
    Moves(v, packet);
    var p := [LoadConstant(REG_A, v), StoreScratch(REG_A, i), LoadScratch(REG_X, k), Txa, RetA];
    var q := [LoadConstant(REG_X, v), StoreScratch(REG_X, i), LoadScratch(REG_A, k), RetA];
    hide Execute;
    var slots: seq<U32> := START.scratch[i := v];
    var w: U32 := slots[k];
    OnStep(p, packet, 0, START);
    OnStep(p, packet, 1, Machine(v, 0, START.scratch));
    OnStep(p, packet, 2, Machine(v, 0, slots));
    OnStep(p, packet, 3, Machine(v, w, slots));
    OnStep(p, packet, 4, Machine(w, w, slots));
    OnStep(q, packet, 0, START);
    OnStep(q, packet, 1, Machine(0, v, START.scratch));
    OnStep(q, packet, 2, Machine(0, v, slots));
    OnStep(q, packet, 3, Machine(w, v, slots));
  }

  lemma Moves(v: U32, packet: seq<Byte>)
    ensures Result([LoadConstant(REG_A, v), Tax, LoadConstant(REG_A, 0), Txa, RetA], packet) == Returned(v)
  {
    hide Execute;
    var p := [LoadConstant(REG_A, v), Tax, LoadConstant(REG_A, 0), Txa, RetA];
    OnStep(p, packet, 0, START);
    OnStep(p, packet, 1, START.(a := v));
    OnStep(p, packet, 2, START.(a := v, x := v));
    OnStep(p, packet, 3, START.(a := 0, x := v));
    OnStep(p, packet, 4, START.(a := v, x := v));
  }

  /** Bytes of the packet, at an offset or at one from X on; outside of the packet there are none,
    * and the run ends with 0. */
  lemma Loads(off: U32, x: U32, size: int, packet: seq<Byte>)
    requires size == 1 || size == 2 || size == 4
    ensures off + size <= |packet| ==>
      Returns([LoadAbsolute(off, size), RetA], packet, BigEndian(packet[off..off + size]))
    ensures off + x + size <= |packet| ==>
      Returns([LoadConstant(REG_X, x), LoadIndirect(off, size), RetA], packet,
              BigEndian(packet[off + x..off + x + size]))
    ensures off + size > |packet| ==> Result([LoadAbsolute(off, size), RetA], packet) == Returned(0)
    ensures off + x + size > |packet| ==>
      Result([LoadConstant(REG_X, x), LoadIndirect(off, size), RetA], packet) == Returned(0)
  {
    hide Execute, Load, BigEndian;
    LoadMeans(packet, off, size);
    LoadMeans(packet, off + x, size);
    var p := [LoadAbsolute(off, size), RetA];
    var q := [LoadConstant(REG_X, x), LoadIndirect(off, size), RetA];
    OnStep(p, packet, 0, START);
    OnStep(q, packet, 0, START);
    OnStep(q, packet, 1, START.(x := x));
    if off + size <= |packet| {
      OnStep(p, packet, 1, START.(a := Load(packet, off, size).value));
    }
    if off + x + size <= |packet| {
      OnStep(q, packet, 2, START.(a := Load(packet, off + x, size).value, x := x));
    }
  }

  /** Is `r` four times the last four bits of `b`? */
  predicate FourTimes(r: nat, b: Byte) {
    r % 4 == 0 && r / 4 < 16 && r / 4 <= b && (b - r / 4) % 16 == 0
  }

  lemma Length(packet: seq<Byte>)
    ensures |packet| < 0x1_0000_0000 ==> Result([LoadExtension(1), RetA], packet) == Returned(|packet|)
  {
    hide Execute;
    var p := [LoadExtension(1), RetA];
    OnStep(p, packet, 0, START);
    OnStep(p, packet, 1, START.(a := Uint32(|packet|)));
  }

  /** Four times the last four bits of a byte; the offset behind the packet panics. */
  lemma HeaderLength(off: U32, packet: seq<Byte>)
    ensures off > |packet| ==> Result([LoadMemShift(off), Txa, RetA], packet) == Returned(0)
    ensures off == |packet| ==> Result([LoadMemShift(off), Txa, RetA], packet) == Panicked
    ensures off < |packet| ==> exists r: U32 ::
      FourTimes(r, packet[off]) && Result([LoadMemShift(off), Txa, RetA], packet) == Returned(r)
  {
    hide Execute;
    var q := [LoadMemShift(off), Txa, RetA];
    OnStep(q, packet, 0, START);
    if off < |packet| {
      var r: U32 := packet[off] % 16 * 4;
      OnStep(q, packet, 1, START.(x := r));
      OnStep(q, packet, 2, START.(a := r, x := r));
      LastBits(packet[off]);
    }
  }

  lemma LastBits(b: Byte)
    ensures FourTimes(b % 16 * 4, b)
  {
  }

  /** A jump skips exactly as many instructions as it says, for the side that holds. */
  lemma Jumps(cond: JumpTest, a: U32, v: U32, packet: seq<Byte>)
    ensures Result([Jump(1), RetConstant(1), RetConstant(2)], packet) == Returned(2)
    ensures Result([LoadConstant(REG_A, a), JumpIf(cond, v, 1, 2), RetConstant(0), RetConstant(1), RetConstant(2)],
                   packet) == Returned(if Compares(cond, a, v) then 1 else 2)
  {
    hide Execute, Holds, Compares;
    HoldsMeans(cond, a, v);
    var p := [Jump(1), RetConstant(1), RetConstant(2)];
    var q := [LoadConstant(REG_A, a), JumpIf(cond, v, 1, 2), RetConstant(0), RetConstant(1), RetConstant(2)];
    OnStep(p, packet, 0, START);
    OnStep(p, packet, 2, START);
    var m := START.(a := a);
    OnStep(q, packet, 0, START);
    OnStep(q, packet, 1, m);
    OnStep(q, packet, 3, m);
    OnStep(q, packet, 4, m);
  }

  // ----- Codes ----------------------------------------------------------------------------

  /** Is there an encoding? */
  predicate Encodable(ins: Instruction) {
    match ins
    case LoadConstant(dst, _) => dst <= 1
    case LoadScratch(dst, n) => dst <= 1 && 0 <= n < 16
    case StoreScratch(src, n) => src <= 1 && 0 <= n < 16
    case LoadAbsolute(_, size) => size in {1, 2, 4}
    case LoadIndirect(_, size) => size in {1, 2, 4}
    case JumpIf(cond, _, _, _) => !cond.OtherTest?
    case _ => true
  }

  lemma EncodableExactly(ins: Instruction)
    ensures Assemble(ins).Some? <==> Encodable(ins)
  {
  }

  /** The codes of classic BPF. */
  lemma LoadCodes(k: U32, n: U32)
    requires n < 16
    ensures Assemble(LoadConstant(REG_A, k)) == Some(Raw(0, 0, 0, k))
    ensures Assemble(LoadConstant(REG_X, k)) == Some(Raw(1, 0, 0, k))
    ensures Assemble(LoadScratch(REG_A, n)) == Some(Raw(96, 0, 0, n))
    ensures Assemble(LoadScratch(REG_X, n)) == Some(Raw(97, 0, 0, n))
    ensures Assemble(LoadAbsolute(k, 1)) == Some(Raw(48, 0, 0, k))
    ensures Assemble(LoadAbsolute(k, 2)) == Some(Raw(40, 0, 0, k))
    ensures Assemble(LoadAbsolute(k, 4)) == Some(Raw(32, 0, 0, k))
    ensures Assemble(LoadIndirect(k, 1)) == Some(Raw(80, 0, 0, k))
    ensures Assemble(LoadIndirect(k, 2)) == Some(Raw(72, 0, 0, k))
    ensures Assemble(LoadIndirect(k, 4)) == Some(Raw(64, 0, 0, k))
    ensures Assemble(LoadMemShift(k)) == Some(Raw(177, 0, 0, k))
    ensures Assemble(LoadExtension(1)) == Some(Raw(128, 0, 0, 0))
    ensures Assemble(LoadExtension(0)) == Some(Raw(32, 0, 0, 4294963200))
    ensures Assemble(LoadExtension(4)) == Some(Raw(32, 0, 0, 4294963204))
    ensures Assemble(LoadExtension(56)) == Some(Raw(32, 0, 0, 4294963256))
    ensures Assemble(StoreScratch(REG_A, n)) == Some(Raw(2, 0, 0, n))
    ensures Assemble(StoreScratch(REG_X, n)) == Some(Raw(3, 0, 0, n))
  {
  }

  lemma JumpCodes(k: U32, t: U8, f: U8)
    ensures Assemble(Jump(k)) == Some(Raw(5, 0, 0, k))
    ensures Assemble(JumpIf(Equal, k, t, f)) == Some(Raw(21, t, f, k))
    ensures Assemble(JumpIf(NotEqual, k, t, f)) == Some(Raw(21, f, t, k))
    ensures Assemble(JumpIf(GreaterThan, k, t, f)) == Some(Raw(37, t, f, k))
    ensures Assemble(JumpIf(LessOrEqual, k, t, f)) == Some(Raw(37, f, t, k))
    ensures Assemble(JumpIf(GreaterOrEqual, k, t, f)) == Some(Raw(53, t, f, k))
    ensures Assemble(JumpIf(LessThan, k, t, f)) == Some(Raw(53, f, t, k))
    ensures Assemble(JumpIf(BitsSet, k, t, f)) == Some(Raw(69, t, f, k))
    ensures Assemble(JumpIf(BitsNotSet, k, t, f)) == Some(Raw(69, f, t, k))
  {
  }

  lemma OtherCodes(k: U32)
    ensures Assemble(Tax) == Some(Raw(7, 0, 0, 0))
    ensures Assemble(Txa) == Some(Raw(135, 0, 0, 0))
    ensures Assemble(RetA) == Some(Raw(22, 0, 0, 0))
    ensures Assemble(RetConstant(k)) == Some(Raw(6, 0, 0, k))
    ensures Assemble(NegateA) == Some(Raw(132, 0, 0, 0))
  {
  }

  lemma AluCodes(k: U32)
    ensures Assemble(AluConstant(0x00, k)) == Some(Raw(4, 0, 0, k))
    ensures Assemble(AluConstant(0x10, k)) == Some(Raw(20, 0, 0, k))
    ensures Assemble(AluConstant(0x20, k)) == Some(Raw(36, 0, 0, k))
    ensures Assemble(AluConstant(0x30, k)) == Some(Raw(52, 0, 0, k))
    ensures Assemble(AluConstant(0x40, k)) == Some(Raw(68, 0, 0, k))
  {
  }

  lemma MoreAluCodes(k: U32)
    ensures Assemble(AluConstant(0x50, k)) == Some(Raw(84, 0, 0, k))
    ensures Assemble(AluConstant(0x60, k)) == Some(Raw(100, 0, 0, k))
    ensures Assemble(AluConstant(0x70, k)) == Some(Raw(116, 0, 0, k))
    ensures Assemble(AluConstant(0x90, k)) == Some(Raw(148, 0, 0, k))
    ensures Assemble(AluConstant(0xA0, k)) == Some(Raw(164, 0, 0, k))
  {
  }

  lemma AluXCodes()
    ensures Assemble(AluX(0x00)) == Some(Raw(12, 0, 0, 0))
    ensures Assemble(AluX(0x10)) == Some(Raw(28, 0, 0, 0))
    ensures Assemble(AluX(0x20)) == Some(Raw(44, 0, 0, 0))
    ensures Assemble(AluX(0x30)) == Some(Raw(60, 0, 0, 0))
    ensures Assemble(AluX(0x40)) == Some(Raw(76, 0, 0, 0))
    ensures Assemble(AluX(0x50)) == Some(Raw(92, 0, 0, 0))
    ensures Assemble(AluX(0x60)) == Some(Raw(108, 0, 0, 0))
    ensures Assemble(AluX(0x70)) == Some(Raw(124, 0, 0, 0))
    ensures Assemble(AluX(0x90)) == Some(Raw(156, 0, 0, 0))
    ensures Assemble(AluX(0xA0)) == Some(Raw(172, 0, 0, 0))
  {
  }

  /** Is this raw instruction one that has a meaning, with no operand that is not used? */
  predicate Canonical(ri: Raw) {
    && (ri.op !in {21, 37, 53, 69} ==> ri.jt == 0 && ri.jf == 0)
    && (|| ri.op in {0, 1, 64, 72, 80, 177, 4, 20, 36, 52, 68, 84, 100, 116, 148, 164, 5, 21, 37, 53, 69, 6}
        || (ri.op in {2, 3, 96, 97} && ri.k < 16)
        || (ri.op in {128, 12, 28, 44, 60, 76, 92, 108, 124, 156, 172, 132, 7, 135, 22} && ri.k == 0)
        || (ri.op in {40, 48} && ri.k <= 0xFFFF_EFFF)
        || (ri.op == 32 && ri.k != 0xFFFF_F001))
  }

  /** Disassembling such an instruction and assembling it again gives it back. */
  lemma CanonicalBack(ri: Raw)
    requires Canonical(ri)
    ensures !Disassemble(ri).RawInstruction? && Assemble(Disassemble(ri)) == Some(ri)
  {
    if ri.op in {21, 37, 53, 69} {
      JumpBackAgain(ri);
    } else if ri.op in {0, 1, 64, 72, 80, 177, 96, 97, 128, 40, 48, 32} {
      LoadBackAgain(ri);
    } else if ri.op in {4, 20, 36, 52, 68, 84, 100, 116, 148, 164, 12, 28, 44, 60, 76, 92, 108, 124, 156, 172} {
      AluBackAgain(ri);
    }
  }

  lemma JumpBackAgain(ri: Raw)
    requires Canonical(ri) && ri.op in {21, 37, 53, 69}
    ensures !Disassemble(ri).RawInstruction? && Assemble(Disassemble(ri)) == Some(ri)
  {
    hide DisassembleLoad;
  }

  lemma LoadBackAgain(ri: Raw)
    requires Canonical(ri) && ri.op in {0, 1, 64, 72, 80, 177, 96, 97, 128, 40, 48, 32}
    ensures !Disassemble(ri).RawInstruction? && Assemble(Disassemble(ri)) == Some(ri)
  {
    hide DisassembleJump;
  }

  lemma AluBackAgain(ri: Raw)
    requires Canonical(ri)
    requires ri.op in {4, 20, 36, 52, 68, 84, 100, 116, 148, 164, 12, 28, 44, 60, 76, 92, 108, 124, 156, 172}
    ensures !Disassemble(ri).RawInstruction? && Assemble(Disassemble(ri)) == Some(ri)
  {
    hide DisassembleJump, DisassembleLoad;
  }

  /** What is assembled is such an instruction, unless it was raw or has an unknown operator or
    * an offset that means an extension. */
  lemma AssemblesCanonical(ins: Instruction)
    requires Assemble(ins).Some? && IsPlain(ins)
    ensures Canonical(Assemble(ins).value)
  {
  }
}
