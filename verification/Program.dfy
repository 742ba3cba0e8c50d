/** The canonical instruction set (`src/opcode.rs`), reduced to one opcode family per shape of
    effect, and loaded programs (`src/progs/mod.rs`). */
module Program {
  import opened Bytes

  /** How an instruction uses one of its operands. */
  datatype Operand = Global | GlobalIndex | Jump | Immediate | Unused

  datatype SwitchKind = SwFloat | SwVector | SwString | SwInt

  /** What makes a conditional branch jump. */
  datatype Test = WordNonZero | WordZero | FloatTrue | FloatFalse

  /** Opcode families. `n` is the opcode number where one family covers several opcodes that differ
      only in arithmetic; `words` is the size of the value moved. */
  datatype Op =
    | AluWord(n: nat)               // C = A op B
    | AluVector(n: nat)             // C[k] = A[k] op B[k], k = 0, 1, 2
    | VectorWord(n: nat)            // MUL_V, EQ_V, NE_V, NOT_V: one word of two vectors
    | Scale(n: nat)                 // MUL_FV, MUL_VF, DIV_VF: a vector and a number
    | CompareStrings(n: nat)        // EQ_S, NE_S
    | NotString                     // NOT_S
    | LoadField(words: nat)         // LOAD_*
    | Address                       // ADDRESS
    | StoreGlobal(words: nat)       // STORE_*
    | StorePtr(words: nat)          // STOREP_*
    | LoadPtr(words: nat)           // LOADP_*
    | StoreField(words: nat)        // STOREF_*
    | CompoundStorePtr(n: nat)      // MULSTOREP_F, DIVSTOREP_F, ADDSTOREP_F, SUBSTOREP_F
    | Return                        // RETURN, DONE
    | Branch(test: Test)            // IF_*, IFNOT_*
    | Goto
    | Call(argc: nat, hexen2: bool) // CALL0..8, CALL1H..8H
    | Switch(kind: SwitchKind)
    | Case
    | CaseRange
    | FetchGlobal(words: nat)       // FETCH_GBL_*
    | GlobalAddress
    | LoadArray(words: nat)         // LOADA_*
    | GLoad(words: nat)             // GLOAD_*
    | GStore(words: nat)            // GSTOREP_*
    | BoundCheck
    | Push
    | Bad
    | JumpOutOfRange

  /** Opcodes that read at most one word each at A and B and write one word at C. */
  predicate IsAluWord(n: nat) {
    || n == 1 || n == 5 || n == 6 || n == 8 || n == 10 || 13 <= n <= 15 || 18 <= n <= 23
    || n == 44 || n == 47 || n == 48 || 62 <= n <= 65 || 116 <= n <= 123 || 130 <= n <= 135
    || n == 138 || 140 <= n <= 142 || n == 144 || 161 <= n <= 176 || n == 179 || n == 180
    || 183 <= n <= 196 || 225 <= n <= 228 || n == 254 || 276 <= n <= 277
  }

  /** Decodes an opcode number; numbers outside the modelled families decode to `Bad`. */
  function FromNumber(n: nat): Op {
    if IsAluWord(n) then AluWord(n)
    else if n == 7 || n == 9 then AluVector(n)
    else if n == 2 || n == 11 || n == 16 || n == 45 then VectorWord(n)
    else if n == 3 || n == 4 || n == 139 then Scale(n)
    else if n == 12 || n == 17 then CompareStrings(n)
    else if n == 46 then NotString
    else if n == 24 || 26 <= n <= 29 || n == 126 || n == 153 then LoadField(1)
    else if n == 25 then LoadField(3)
    else if n == 30 then Address
    else if n == 31 || 33 <= n <= 36 || n == 113 || n == 152 then StoreGlobal(1)
    else if n == 32 then StoreGlobal(3)
    else if n == 37 || 39 <= n <= 42 || n == 127 then StorePtr(1)
    else if n == 38 then StorePtr(3)
    else if n == 154 || 156 <= n <= 160 then LoadPtr(1)
    else if n == 155 then LoadPtr(3)
    else if 220 <= n <= 222 then StoreField(1)
    else if n == 219 then StoreField(3)
    else if n == 68 || n == 71 || n == 74 || n == 78 then CompoundStorePtr(n)
    else if n == 0 || n == 43 then Return
    else if n == 49 || n == 137 then Branch(WordNonZero)
    else if n == 50 || n == 136 then Branch(WordZero)
    else if n == 217 then Branch(FloatTrue)
    else if n == 218 then Branch(FloatFalse)
    else if n == 61 then Goto
    else if 51 <= n <= 59 then Call(n - 51, false)
    else if 105 <= n <= 112 then Call(n - 104, true)
    else if n == 98 then Switch(SwFloat)
    else if n == 99 then Switch(SwVector)
    else if n == 100 then Switch(SwString)
    else if n == 101 || n == 102 || n == 215 then Switch(SwInt)
    else if n == 103 then Case
    else if n == 104 then CaseRange
    else if n == 80 || 82 <= n <= 84 then FetchGlobal(1)
    else if n == 81 then FetchGlobal(3)
    else if n == 143 then GlobalAddress
    else if n == 145 || 147 <= n <= 151 then LoadArray(1)
    else if n == 146 then LoadArray(3)
    else if 205 <= n <= 210 then GLoad(1)
    else if n == 216 then GLoad(3)
    else if 197 <= n <= 202 then GStore(1)
    else if n == 203 then GStore(3)
    else if n == 211 then BoundCheck
    else if n == 213 then Push
    else Bad
  }

  datatype Operands = Operands(a: Operand, b: Operand, c: Operand)

  /** How each family uses operands A, B and C. */
  function OperandKinds(op: Op): Operands {
    match op
    case Return => Operands(Global, Unused, Unused)
    case StoreGlobal(_) => Operands(Global, Global, Unused)
    case Branch(_) => Operands(Global, Jump, Unused)
    case Goto => Operands(Jump, Unused, Unused)
    case Call(_, h) => if h then Operands(Global, Global, Global) else Operands(Global, Unused, Unused)
    case Switch(_) => Operands(Global, Jump, Unused)
    case Case => Operands(Global, Jump, Unused)
    case CaseRange => Operands(Global, Global, Jump)
    case FetchGlobal(_) => Operands(GlobalIndex, Global, Global)
    case GlobalAddress => Operands(GlobalIndex, Global, Global)
    case LoadArray(_) => Operands(GlobalIndex, Global, Global)
    case GLoad(_) => Operands(Global, Unused, Global)
    case GStore(_) => Operands(Global, Global, Unused)
    case BoundCheck => Operands(Global, Immediate, Immediate)
    case Push => Operands(Global, Unused, Global)
    case NotString => Operands(Global, Unused, Global)
    case Bad => Operands(Unused, Unused, Unused)
    case JumpOutOfRange => Operands(Unused, Unused, Unused)
    case _ => Operands(Global, Global, Global)
  }

  /** A statement. Global operands are byte offsets; jump operands are statement indices. */
  datatype Stmt = Stmt(op: Op, a: word, b: word, c: word)

  const Sentinel: Stmt := Stmt(JumpOutOfRange, 0, 0, 0)
  const Poisoned: Stmt := Stmt(Bad, 0, 0, 0)

  /** Where word `i` of a globals area lies. */
  function WordSlot(gbase: nat, i: nat): nat { gbase + 4 * i }

  predicate OnWord(v: nat, gbase: nat, limit: nat) {
    exists i: nat {:trigger WordSlot(gbase, i)} :: i < limit && v == WordSlot(gbase, i)
  }

  lemma WordSlotFits(gbase: nat, i: nat, limit: nat, v: nat)
    requires i < limit && v == WordSlot(gbase, i)
    ensures OnWord(v, gbase, limit)
  {
  }

  /** One operand is usable by the interpreter without checks: a global operand lies on a word of
      `[gbase, gbase + 4 * limit)`, an index below `limit`, a jump inside the `count` statements. */
  predicate OperandOk(kind: Operand, v: word, gbase: nat, limit: nat, count: nat) {
    match kind
    case Global => OnWord(v, gbase, limit)
    case Unused => OnWord(v, gbase, limit)
    case GlobalIndex => v < limit
    case Jump => v < count
    case Immediate => true
  }

  /** Values moved are one to three words. */
  predicate OpOk(op: Op) {
    match op
    case LoadField(n) => 1 <= n <= 3
    case StoreGlobal(n) => 1 <= n <= 3
    case StorePtr(n) => 1 <= n <= 3
    case LoadPtr(n) => 1 <= n <= 3
    case StoreField(n) => 1 <= n <= 3
    case FetchGlobal(n) => 1 <= n <= 3
    case LoadArray(n) => 1 <= n <= 3
    case GLoad(n) => 1 <= n <= 3
    case GStore(n) => 1 <= n <= 3
    case _ => true
  }

  predicate StmtOk(st: Stmt, gbase: nat, limit: nat, count: nat) {
    || st.op == Bad || st.op == JumpOutOfRange
    || var k := OperandKinds(st.op);
       OpOk(st.op)
       && OperandOk(k.a, st.a, gbase, limit, count)
       && OperandOk(k.b, st.b, gbase, limit, count)
       && OperandOk(k.c, st.c, gbase, limit, count)
  }

  /** Statements the interpreter can run: every operand usable, and a trap at the very end. */
  predicate CodeOk(code: seq<Stmt>, gbase: nat, limit: nat) {
    && 0 < |code| < U32
    && code[|code| - 1].op == JumpOutOfRange
    && forall i {:trigger StmtOk(code[i], gbase, limit, |code|)} :: 0 <= i < |code| ==> StmtOk(code[i], gbase, limit, |code|)
  }

  /** One parameter word to copy from a PARM slot into a function's locals (byte offsets). */
  datatype ParamCopy = ParamCopy(src: nat, dst: nat)

  /** What entering a QuakeC function needs. */
  datatype QcFunc = QcFunc(entry: word, localsAddr: word, localsWords: word, copies: seq<ParamCopy>)

  predicate CopyOk(c: ParamCopy, gbase: nat, limit: nat) {
    && gbase <= c.src && c.src + 4 <= gbase + 4 * limit
    && gbase <= c.dst && c.dst + 4 <= gbase + 4 * limit
  }

  predicate FuncOk(f: QcFunc, gbase: nat, limit: nat, count: nat) {
    && f.entry < count
    && gbase <= f.localsAddr && f.localsAddr + 4 * f.localsWords <= gbase + 4 * limit
    && forall c :: c in f.copies ==> CopyOk(c, gbase, limit)
  }
}
