/** Conversion of raw records into the canonical program (`src/progs/load.rs`), and its relocation
    when a VM takes it (`src/vm/core.rs`). Whatever the records hold, the interpreter can trust
    the result. */
module Loader {
  import opened Bytes
  import opened Program

  /** Globals are followed by three zero words; operands may name those. */
  const GLOBALS_TAIL: nat := 3

  /** How many globals operands may name. */
  function WithTail(numGlobals: word): nat { numGlobals + GLOBALS_TAIL }

  const BREAKPOINT_BIT: nat := 0x8000
  const HEXEN2_CALL_DELTA: nat := 53

  /** A statement as stored in the file. */
  datatype RawStatement = RawStatement(op: word, a: word, b: word, c: word)

  function OpNumber(op: word): word {
    if op / BREAKPOINT_BIT % 2 == 1 then op - BREAKPOINT_BIT else op
  }

  // ---- operands --------------------------------------------------------------------------------

  /** The signed jump offset stored in an operand. */
  function JumpOffset(value: word, wide: bool): int {
    if wide then Signed(value)
    else if value % 0x1_0000 < 0x8000 then value % 0x1_0000 else value % 0x1_0000 - 0x1_0000
  }

  /** The canonical form of one operand of statement `index` (of `count`), or `None` if it poisons
      the statement. */
  function CanonicalOperand(kind: Operand, value: word, index: nat, count: nat, wide: bool, limit: nat)
    : (r: Option<word>)
    requires count < U32
  {
    match kind
    case Global => if 4 * value < U32 && value < limit then Some(4 * value) else None
    case Unused => if 4 * value < U32 && value < limit then Some(4 * value) else None
    case GlobalIndex => if value < limit then Some(value) else None
    case Jump =>
      var target := index + JumpOffset(value, wide);
      Some(if 0 <= target < count then target else count)
    case Immediate => Some(value)
  }

  function CanonicalStatement(raw: RawStatement, index: nat, count: nat, wide: bool, limit: nat): (st: Stmt)
    requires count < U32
  {
    var op := FromNumber(OpNumber(raw.op));
    var k := OperandKinds(op);
    var a := CanonicalOperand(k.a, raw.a, index, count, wide, limit);
    var b := CanonicalOperand(k.b, raw.b, index, count, wide, limit);
    var c := CanonicalOperand(k.c, raw.c, index, count, wide, limit);
    if op != Bad && a.Some? && b.Some? && c.Some? then Stmt(op, a.value, b.value, c.value) else Poisoned
  }

  /** The globals an operand kind must name exist, and their byte offset fits a word. */
  predicate Names(kind: Operand, value: word, limit: nat) {
    match kind
    case Global => value < limit && value < 0x4000_0000
    case Unused => value < limit && value < 0x4000_0000
    case GlobalIndex => value < limit
    case Jump => true
    case Immediate => true
  }

  /** What a record's operand names: a global by its byte offset, the index of a global, the statement
      a jump reaches (the sentinel `count` if there is none), or a number. */
  predicate Means(kind: Operand, value: word, index: nat, count: nat, wide: bool, v: word) {
    match kind
    case Global => v == 4 * value
    case Unused => v == 4 * value
    case GlobalIndex => v == value
    case Jump => JumpsTo(index + JumpOffset(value, wide), count, v)
    case Immediate => v == value
  }

  /** A jump goes to its target if that is one of the `count` statements, else to the sentinel after
      them. */
  predicate JumpsTo(target: int, count: nat, v: nat) { v <= count && if 0 <= target < count then v == target else v == count }

  lemma CanonicalOperandMeans(kind: Operand, value: word, index: nat, count: nat, wide: bool, limit: nat)
    requires index < count < U32 - 1
    ensures var r := CanonicalOperand(kind, value, index, count, wide, limit);
      (r.Some? <==> Names(kind, value, limit)) && (r.Some? ==> Means(kind, value, index, count, wide, r.value))
  {
  }

  /** A statement keeps its opcode exactly when the opcode is known and every global it names
      exists; otherwise it traps. Each of its operands then is what the record names, whichever of
      them is a jump. */
  lemma CanonicalStatementMeaning(raw: RawStatement, index: nat, count: nat, wide: bool, limit: nat)
    requires index < count < U32 - 1
    ensures var st := CanonicalStatement(raw, index, count, wide, limit);
      var op := FromNumber(OpNumber(raw.op));
      var k := OperandKinds(op);
      && (st.op != Bad <==> op != Bad && Names(k.a, raw.a, limit) && Names(k.b, raw.b, limit) && Names(k.c, raw.c, limit))
      && (st.op != Bad ==>
            && st.op == op && Means(k.a, raw.a, index, count, wide, st.a)
            && Means(k.b, raw.b, index, count, wide, st.b) && Means(k.c, raw.c, index, count, wide, st.c))
  {
    var k := OperandKinds(FromNumber(OpNumber(raw.op)));
    CanonicalOperandMeans(k.a, raw.a, index, count, wide, limit);
    CanonicalOperandMeans(k.b, raw.b, index, count, wide, limit);
    CanonicalOperandMeans(k.c, raw.c, index, count, wide, limit);
  }

  lemma CanonicalOperandOk(kind: Operand, value: word, index: nat, count: nat, wide: bool, limit: nat)
    requires index < count < U32 - 1
    ensures var r := CanonicalOperand(kind, value, index, count, wide, limit);
      r.Some? ==> OperandOk(kind, r.value, 0, limit, count + 1)
  {
    var i: nat := value;
    assert WordSlot(0, i) == 4 * value;
  }

  /** Whatever the record holds, the interpreter can run the statement. */
  lemma CanonicalStatementOk(raw: RawStatement, index: nat, count: nat, wide: bool, limit: nat)
    requires index < count < U32 - 1
    ensures StmtOk(CanonicalStatement(raw, index, count, wide, limit), 0, limit, count + 1)
  {
    var k := OperandKinds(FromNumber(OpNumber(raw.op)));
    CanonicalOperandOk(k.a, raw.a, index, count, wide, limit);
    CanonicalOperandOk(k.b, raw.b, index, count, wide, limit);
    CanonicalOperandOk(k.c, raw.c, index, count, wide, limit);
  }

  /** Decodes, sanitizes and relocates one statement. */
  method CanonicalRecord(raw: RawStatement, index: nat, count: nat, wide: bool, limit: nat) returns (st: Stmt)
    requires count < U32
    ensures st == CanonicalStatement(raw, index, count, wide, limit)
  {
    var op := FromNumber(OpNumber(raw.op));
    if op == Bad { return Poisoned; }
    var k := OperandKinds(op);
    var a := CanonicalOperand(k.a, raw.a, index, count, wide, limit);
    var b := CanonicalOperand(k.b, raw.b, index, count, wide, limit);
    var c := CanonicalOperand(k.c, raw.c, index, count, wide, limit);
    if a.None? || b.None? || c.None? { return Poisoned; }
    return Stmt(op, a.value, b.value, c.value);
  }

  /** The first `n` records in canonical form. */
  function Canonical(raw: seq<RawStatement>, n: nat, wide: bool, limit: nat): (r: seq<Stmt>)
    requires n <= |raw| < U32
    ensures |r| == n
  {
    if n == 0 then [] else Canonical(raw, n - 1, wide, limit) + [CanonicalStatement(raw[n - 1], n - 1, |raw|, wide, limit)]
  }

  lemma {:induction false} CanonicalAt(raw: seq<RawStatement>, n: nat, wide: bool, limit: nat, i: nat)
    requires i < n <= |raw| < U32
    ensures Canonical(raw, n, wide, limit)[i] == CanonicalStatement(raw[i], i, |raw|, wide, limit)
  {
    if i < n - 1 { CanonicalAt(raw, n - 1, wide, limit, i); }
  }

  /** Every record in canonical form. */
  method ConvertRecords(raw: seq<RawStatement>, wide: bool, limit: nat) returns (statements: seq<Stmt>)
    requires |raw| < U32
    ensures statements == Canonical(raw, |raw|, wide, limit)
  {
    statements := [];
    for index := 0 to |raw|
      invariant statements == Canonical(raw, index, wide, limit)
    {
      var st := CanonicalRecord(raw[index], index, |raw|, wide, limit);
      statements := statements + [st];
    }
  }

  /** The canonical form of every statement, with the out-of-range sentinel at the end. */
  method CanonicalStatements(raw: seq<RawStatement>, wide: bool, limit: nat) returns (statements: seq<Stmt>)
    requires |raw| < U32 - 1
    ensures |statements| == |raw| + 1
    ensures forall i :: 0 <= i < |raw| ==> statements[i] == CanonicalStatement(raw[i], i, |raw|, wide, limit)
    ensures statements[|raw|] == Sentinel
    ensures CodeOk(statements, 0, limit)
  {
    var converted := ConvertRecords(raw, wide, limit);
    forall i | 0 <= i < |raw|
      ensures converted[i] == CanonicalStatement(raw[i], i, |raw|, wide, limit)
    {
      CanonicalAt(raw, |raw|, wide, limit, i);
    }
    CanonicalCodeOk(raw, converted, wide, limit);
    statements := converted + [Sentinel];
  }

  lemma CanonicalCodeOk(raw: seq<RawStatement>, statements: seq<Stmt>, wide: bool, limit: nat)
    requires |statements| == |raw| < U32 - 1
    requires forall i :: 0 <= i < |raw| ==> statements[i] == CanonicalStatement(raw[i], i, |raw|, wide, limit)
    ensures CodeOk(statements + [Sentinel], 0, limit)
  {
    forall i | 0 <= i < |raw|
      ensures StmtOk(statements[i], 0, limit, |raw| + 1)
    {
      CanonicalStatementOk(raw[i], i, |raw|, wide, limit);
    }
  }

  // ---- the Hexen 2 calling convention ----------------------------------------------------------

  predicate IsPlainCall(n: nat) { 52 <= n <= 59 }
  predicate IsRand(n: nat) { 92 <= n <= 97 }

  function Hexen2Statement(s: RawStatement): (r: RawStatement) {
    var n := OpNumber(s.op);
    var bp := s.op - n;
    if IsPlainCall(n) then s.(op := bp + n + HEXEN2_CALL_DELTA)
    else if IsRand(n) && s.c == 0 then s.(c := 1)
    else s
  }

  /** `CALLn` becomes `CALLnH`, and `RAND*` results default to the return slot. */
  method RewriteHexen2Calls(raw: array<RawStatement>)
    modifies raw
    ensures forall i :: 0 <= i < raw.Length ==> raw[i] == Hexen2Statement(old(raw[i]))
  {
    for i := 0 to raw.Length
      invariant forall j :: 0 <= j < i ==> raw[j] == Hexen2Statement(old(raw[j]))
      invariant forall j :: i <= j < raw.Length ==> raw[j] == old(raw[j])
    {
      var n := OpNumber(raw[i].op);
      var bp := raw[i].op - n;
      if IsPlainCall(n) {
        raw[i] := raw[i].(op := bp + n + HEXEN2_CALL_DELTA);
      }
      if IsRand(n) && raw[i].c == 0 {
        raw[i] := raw[i].(c := 1);
      }
    }
  }

  /** The global of the return slot. */
  const RETURN_GLOBAL: word := 1

  lemma BreakpointKept(s: RawStatement, n: word)
    requires n == OpNumber(s.op) && IsPlainCall(n)
    ensures OpNumber(s.op - n + n + HEXEN2_CALL_DELTA) == n + HEXEN2_CALL_DELTA
  {
  }

  /** The rewrite turns a call with arguments into the call of as many arguments that copies its operands,
      and sends the result of a `RAND` without a place for it to the return slot. Breakpoint flags,
      the other operands and all other statements stay, and a second rewrite changes nothing. */
  lemma Hexen2StatementMeaning(s: RawStatement)
    ensures var r, n := Hexen2Statement(s), OpNumber(s.op);
      && r.op - OpNumber(r.op) == s.op - n
      && (IsPlainCall(n) ==> r == s.(op := r.op) && FromNumber(OpNumber(r.op)) == FromNumber(n).(hexen2 := true))
      && (IsRand(n) && s.c == 0 ==> r == s.(c := RETURN_GLOBAL))
      && (!IsPlainCall(n) && !(IsRand(n) && s.c == 0) ==> r == s)
      && Hexen2Statement(r) == r
  {
    var n := OpNumber(s.op);
    if IsPlainCall(n) {
      BreakpointKept(s, n);
    }
  }

  // ---- functions -------------------------------------------------------------------------------

  datatype RawFunction = RawFunction(firstStatement: int, parmStart: word, locals: word, numParms: int, parmSizes: seq<byte>)

  datatype FunctionKind = Null | QuakeC(entry: word) | Builtin(number: nat) | NamedBuiltin | EntryOutOfRange | LocalsOutOfRange

  datatype Function = Function(kind: FunctionKind, parmStart: word, locals: word, copies: seq<ParamCopy>)

  function Clamp8(n: int): (r: nat)
    ensures r <= 8
  {
    if n < 0 then 0 else if n > 8 then 8 else n
  }

  /** Words of the first `n` parameters. */
  function ParmWords(sizes: seq<byte>, n: nat): nat
    requires n <= |sizes|
  {
    if n == 0 then 0 else ParmWords(sizes, n - 1) + sizes[n - 1]
  }

  /** Parameter `slot`, word `w` comes from global `4 + 3 * slot + w` and goes to the next local. */
  predicate CopyInRange(start: nat, sizes: seq<byte>, limit: nat, slot: nat, w: nat)
    requires slot <= |sizes|
  {
    WordInRange(start + ParmWords(sizes, slot), limit, slot, w)
  }

  /** Word `w` of parameter `slot` and the local it goes to, from word `from` on, both exist. */
  predicate WordInRange(from: nat, limit: nat, slot: nat, w: nat) {
    4 + 3 * slot + w < limit && from + w < limit && 4 * (from + w) < U32
  }

  predicate AllCopiesInRange(start: nat, sizes: seq<byte>, limit: nat, parms: nat)
    requires parms <= |sizes|
  {
    forall slot, w {:trigger CopyInRange(start, sizes, limit, slot, w)} ::
      0 <= slot < parms && 0 <= w < sizes[slot] ==> CopyInRange(start, sizes, limit, slot, w)
  }

  /** The copies of the first `w` words of parameter `slot`, whose local starts at word `start`. */
  function PlanSlot(start: nat, slot: nat, w: nat): (copies: seq<ParamCopy>)
    ensures |copies| == w
  {
    if w == 0 then []
    else PlanSlot(start, slot, w - 1) + [ParamCopy(4 * (4 + 3 * slot + w - 1), 4 * (start + w - 1))]
  }

  /** The copies of the first `n` parameters. */
  function Plan(start: nat, sizes: seq<byte>, n: nat): (copies: seq<ParamCopy>)
    requires n <= |sizes|
    ensures |copies| == ParmWords(sizes, n)
  {
    if n == 0 then []
    else Plan(start, sizes, n - 1) + PlanSlot(start + ParmWords(sizes, n - 1), n - 1, sizes[n - 1])
  }

  lemma {:induction false} PlanSlotAt(start: nat, slot: nat, w: nat, j: nat)
    requires j < w
    ensures PlanSlot(start, slot, w)[j] == ParamCopy(4 * (4 + 3 * slot + j), 4 * (start + j))
  {
    if j < w - 1 { PlanSlotAt(start, slot, w - 1, j); }
  }

  /** The parameters fill consecutive locals, in order; word `w` of parameter `slot` comes from
      global `4 + 3 * slot + w`. */
  lemma {:induction false} PlanAt(start: nat, sizes: seq<byte>, n: nat, slot: nat, w: nat)
    requires slot < n <= |sizes| && w < sizes[slot]
    ensures ParmWords(sizes, slot) + w < ParmWords(sizes, n)
    ensures Plan(start, sizes, n)[ParmWords(sizes, slot) + w]
         == ParamCopy(4 * (4 + 3 * slot + w), 4 * (start + ParmWords(sizes, slot) + w))
  {
    if slot < n - 1 {
      PlanAt(start, sizes, n - 1, slot, w);
    } else {
      PlanSlotAt(start + ParmWords(sizes, slot), slot, sizes[slot], w);
    }
  }

  predicate Within(copies: seq<ParamCopy>, limit: nat) {
    forall c :: c in copies ==> CopyOk(c, 0, limit)
  }

  /** Plans the copies of parameter `slot`, whose local starts at word `from`. */
  method PlanSlotCopies(from: nat, slot: nat, size: nat, limit: nat) returns (ok: bool, copies: seq<ParamCopy>)
    ensures ok <==> forall w :: 0 <= w < size ==> WordInRange(from, limit, slot, w)
    ensures ok ==> copies == PlanSlot(from, slot, size) && Within(copies, limit)
  {
    copies := [];
    for w := 0 to size
      invariant forall v :: 0 <= v < w ==> WordInRange(from, limit, slot, v)
      invariant copies == PlanSlot(from, slot, w) && Within(copies, limit)
    {
      var src, dst := 4 + 3 * slot + w, from + w;
      if src >= limit || dst >= limit || 4 * dst >= U32 {
        assert !WordInRange(from, limit, slot, w);
        return false, [];
      }
      copies := copies + [ParamCopy(4 * src, 4 * dst)];
    }
    ok := true;
  }

  /** Parameter `i` is copied word by word from PARM slot `i` into consecutive locals starting at
      `parmStart`. Succeeds exactly when the locals and every word copied lie in the globals and
      their tail. */
  method PlanParamCopies(raw: RawFunction, limit: nat) returns (ok: bool, copies: seq<ParamCopy>)
    requires |raw.parmSizes| == 8
    ensures ok <==> raw.parmStart + raw.locals <= limit
                    && AllCopiesInRange(raw.parmStart, raw.parmSizes, limit, Clamp8(raw.numParms))
    ensures ok ==> copies == Plan(raw.parmStart, raw.parmSizes, Clamp8(raw.numParms)) && Within(copies, limit)
  {
    copies := [];
    if raw.parmStart + raw.locals > limit {
      return false, [];
    }
    var parms := Clamp8(raw.numParms);
    var dst: nat := raw.parmStart;
    for slot := 0 to parms
      invariant dst == raw.parmStart + ParmWords(raw.parmSizes, slot)
      invariant AllCopiesInRange(raw.parmStart, raw.parmSizes, limit, slot)
      invariant copies == Plan(raw.parmStart, raw.parmSizes, slot) && Within(copies, limit)
    {
      var fits, more := PlanSlotCopies(dst, slot, raw.parmSizes[slot], limit);
      SlotInRange(raw.parmStart, raw.parmSizes, limit, slot, dst);
      if !fits { return false, []; }
      copies := copies + more;
      dst := dst + raw.parmSizes[slot];
    }
    ok := true;
  }

  /** One more parameter is in range when each of its words is. */
  lemma SlotInRange(start: nat, sizes: seq<byte>, limit: nat, slot: nat, from: nat)
    requires slot < |sizes| && from == start + ParmWords(sizes, slot)
    ensures AllCopiesInRange(start, sizes, limit, slot) && (forall w :: 0 <= w < sizes[slot] ==> WordInRange(from, limit, slot, w))
            <==> AllCopiesInRange(start, sizes, limit, slot + 1)
  {
    if AllCopiesInRange(start, sizes, limit, slot + 1) {
      forall w | 0 <= w < sizes[slot]
        ensures WordInRange(from, limit, slot, w)
      {
        assert CopyInRange(start, sizes, limit, slot, w);
      }
    }
  }

  /** A record as read from a file. */
  predicate RecordOk(r: RawFunction) { |r.parmSizes| == 8 && -0x8000_0000 <= r.firstStatement < 0x8000_0000 }

  predicate RecordsOk(records: seq<RawFunction>) { forall i :: 0 <= i < |records| ==> RecordOk(records[i]) }

  /** The canonical form of function record `index`. */
  function FunctionOf(index: nat, raw: RawFunction, numStatements: word, limit: nat): Function
    requires RecordOk(raw)
  {
    var start, n := raw.parmStart, Clamp8(raw.numParms);
    if index == 0 then Function(Null, start, raw.locals, [])
    else if raw.firstStatement == 0 then Function(NamedBuiltin, start, raw.locals, [])
    else if raw.firstStatement < 0 then Function(Builtin(-raw.firstStatement), start, raw.locals, [])
    else if raw.firstStatement >= numStatements then Function(EntryOutOfRange, start, raw.locals, [])
    else if start + raw.locals <= limit && AllCopiesInRange(start, raw.parmSizes, limit, n)
    then Function(QuakeC(raw.firstStatement), start, raw.locals, Plan(start, raw.parmSizes, n))
    else Function(LocalsOutOfRange, start, raw.locals, [])
  }

  /** Validates a function record and plans its parameter copies. */
  method CanonicalFunction(index: nat, raw: RawFunction, numStatements: word, limit: nat) returns (f: Function)
    requires RecordOk(raw)
    ensures f.parmStart == raw.parmStart && f.locals == raw.locals
    ensures f.kind.QuakeC? <==> index != 0 && 0 < raw.firstStatement < numStatements
                                && raw.parmStart + raw.locals <= limit
                                && AllCopiesInRange(raw.parmStart, raw.parmSizes, limit, Clamp8(raw.numParms))
    ensures f.kind.QuakeC? ==> f.kind.entry == raw.firstStatement
                               && f.copies == Plan(raw.parmStart, raw.parmSizes, Clamp8(raw.numParms))
                               && Within(f.copies, limit)
    ensures !f.kind.QuakeC? ==> f.copies == []
    ensures f.kind.Builtin? ==> f.kind.number == -raw.firstStatement
    ensures f == FunctionOf(index, raw, numStatements, limit)
  {
    if index == 0 {
      return Function(Null, raw.parmStart, raw.locals, []);
    }
    if raw.firstStatement > 0 {
      var entry := raw.firstStatement;
      if entry >= numStatements {
        return Function(EntryOutOfRange, raw.parmStart, raw.locals, []);
      }
      var ok, copies := PlanParamCopies(raw, limit);
      if ok {
        return Function(QuakeC(entry), raw.parmStart, raw.locals, copies);
      }
      return Function(LocalsOutOfRange, raw.parmStart, raw.locals, []);
    }
    if raw.firstStatement == 0 {
      return Function(NamedBuiltin, raw.parmStart, raw.locals, []);
    }
    return Function(Builtin(-raw.firstStatement), raw.parmStart, raw.locals, []);
  }

  // ---- relocation ------------------------------------------------------------------------------

  predicate IsRelocated(kind: Operand) { kind.Global? || kind.Unused? }

  function RelocateOperand(kind: Operand, v: word, gbase: word): word {
    if IsRelocated(kind) then Wrap(v + gbase) else v
  }

  /** A statement with its global operands turned into absolute byte addresses. */
  function RelocateStatement(st: Stmt, gbase: word): Stmt {
    var k := OperandKinds(st.op);
    Stmt(st.op, RelocateOperand(k.a, st.a, gbase), RelocateOperand(k.b, st.b, gbase), RelocateOperand(k.c, st.c, gbase))
  }

  const CODE_WINDOW: nat := 0x1_0000

  /** Statements relocated to `gbase` and padded with the sentinel to `CODE_WINDOW`, if there are
      no more. */
  function RelocateAndPad(code: seq<Stmt>, gbase: word): seq<Stmt> {
    var relocated := seq(|code|, i requires 0 <= i < |code| => RelocateStatement(code[i], gbase));
    if |code| >= CODE_WINDOW then relocated
    else relocated + seq(CODE_WINDOW - |code|, i => Sentinel)
  }

  function RelocateCopy(c: ParamCopy, gbase: word): ParamCopy {
    ParamCopy(Wrap(c.src + gbase), Wrap(c.dst + gbase))
  }

  function RelocateFunction(f: Function, gbase: word): Option<QcFunc> {
    if f.kind.QuakeC? then
      Some(QcFunc(f.kind.entry, Wrap(gbase + Wrap(f.parmStart * 4)), f.locals,
                  seq(|f.copies|, i requires 0 <= i < |f.copies| => RelocateCopy(f.copies[i], gbase))))
    else None
  }

  lemma RelocatedOperandOk(kind: Operand, v: word, gbase: word, limit: nat, count: nat, padded: nat)
    requires OperandOk(kind, v, 0, limit, count) && count <= padded
    requires gbase + 4 * limit < U32
    ensures OperandOk(kind, RelocateOperand(kind, v, gbase), gbase, limit, padded)
  {
    if kind.Global? || kind.Unused? {
      var i: nat :| i < limit && v == WordSlot(0, i);
      assert WordSlot(gbase, i) == v + gbase;
    }
  }

  lemma RelocatedStatementOk(st: Stmt, gbase: word, limit: nat, count: nat, padded: nat)
    requires StmtOk(st, 0, limit, count) && count <= padded
    requires gbase + 4 * limit < U32
    ensures StmtOk(RelocateStatement(st, gbase), gbase, limit, padded)
  {
    if st.op != Bad && st.op != JumpOutOfRange {
      var k := OperandKinds(st.op);
      RelocatedOperandOk(k.a, st.a, gbase, limit, count, padded);
      RelocatedOperandOk(k.b, st.b, gbase, limit, count, padded);
      RelocatedOperandOk(k.c, st.c, gbase, limit, count, padded);
    }
  }

  /** The interpreter's trust in its code survives relocation and padding: no operand address wraps
      around, every jump still lands in the table, and the trap is still last. */
  lemma RelocatedCodeOk(code: seq<Stmt>, gbase: word, limit: nat)
    requires CodeOk(code, 0, limit)
    requires gbase + 4 * limit < U32
    ensures CodeOk(RelocateAndPad(code, gbase), gbase, limit)
    ensures |RelocateAndPad(code, gbase)| >= CODE_WINDOW
  {
    var out := RelocateAndPad(code, gbase);
    forall i | 0 <= i < |out|
      ensures StmtOk(out[i], gbase, limit, |out|)
    {
      if i < |code| {
        RelocatedStatementOk(code[i], gbase, limit, |code|, |out|);
      }
    }
  }

  lemma RelocatedCopyOk(c: ParamCopy, gbase: word, limit: nat)
    requires CopyOk(c, 0, limit) && gbase + 4 * limit < U32
    ensures CopyOk(RelocateCopy(c, gbase), gbase, limit)
  {
  }

  /** Entering a relocated function touches only its progs' globals and their tail. */
  lemma RelocatedFunctionOk(f: Function, gbase: word, limit: nat, count: nat)
    requires f.kind.QuakeC? && f.kind.entry < count && f.parmStart + f.locals <= limit && Within(f.copies, limit)
    requires gbase + 4 * limit < U32
    ensures FuncOk(RelocateFunction(f, gbase).value, gbase, limit, count)
  {
    var qc := RelocateFunction(f, gbase).value;
    forall c | c in qc.copies
      ensures CopyOk(c, gbase, limit)
    {
      var i :| 0 <= i < |qc.copies| && qc.copies[i] == c;
      RelocatedCopyOk(f.copies[i], gbase, limit);
    }
  }

  /** What an operand of the code the interpreter runs stands for, given what the record names. */
  predicate MeansAt(kind: Operand, value: word, index: nat, count: nat, wide: bool, gbase: nat, v: word) {
    match kind
    case Global => v == gbase + 4 * value
    case Unused => v == gbase + 4 * value
    case GlobalIndex => v == value
    case Jump => JumpsTo(index + JumpOffset(value, wide), count, v)
    case Immediate => v == value
  }

  lemma RelocatedOperandMeans(kind: Operand, value: word, index: nat, count: nat, wide: bool, limit: nat, gbase: word, v: word)
    requires Means(kind, value, index, count, wide, v) && Names(kind, value, limit) && gbase + 4 * limit < U32
    ensures MeansAt(kind, value, index, count, wide, gbase, RelocateOperand(kind, v, gbase))
  {
  }

  /** Statement `i` of the code the interpreter runs: it keeps its opcode exactly when every global it
      names exists, and then its operands are the addresses of those globals, wherever they were placed,
      and its jumps go where the record says. */
  lemma LoadedStatementMeaning(raw: seq<RawStatement>, wide: bool, limit: nat, gbase: word, i: nat)
    requires i < |raw| < U32 - 1 && gbase + 4 * limit < U32
    ensures |RelocateAndPad(CanonicalCode(raw, wide, limit), gbase)| > |raw|
    ensures var st := RelocateAndPad(CanonicalCode(raw, wide, limit), gbase)[i];
      var op := FromNumber(OpNumber(raw[i].op));
      var k := OperandKinds(op);
      && (st.op != Bad <==> op != Bad && Names(k.a, raw[i].a, limit) && Names(k.b, raw[i].b, limit) && Names(k.c, raw[i].c, limit))
      && (st.op != Bad ==>
            && st.op == op && MeansAt(k.a, raw[i].a, i, |raw|, wide, gbase, st.a)
            && MeansAt(k.b, raw[i].b, i, |raw|, wide, gbase, st.b) && MeansAt(k.c, raw[i].c, i, |raw|, wide, gbase, st.c))
  {
    var st := CanonicalStatement(raw[i], i, |raw|, wide, limit);
    assert RelocateAndPad(CanonicalCode(raw, wide, limit), gbase)[i] == RelocateStatement(st, gbase);
    CanonicalStatementMeaning(raw[i], i, |raw|, wide, limit);
    if st.op != Bad {
      var k := OperandKinds(st.op);
      RelocatedOperandMeans(k.a, raw[i].a, i, |raw|, wide, limit, gbase, st.a);
      RelocatedOperandMeans(k.b, raw[i].b, i, |raw|, wide, limit, gbase, st.b);
      RelocatedOperandMeans(k.c, raw[i].c, i, |raw|, wide, limit, gbase, st.c);
    }
  }

  predicate EntryOk(f: Option<QcFunc>, gbase: nat, limit: nat, count: nat) {
    f.Some? ==> FuncOk(f.value, gbase, limit, count)
  }

  /** The canonical form of every function record. */
  function FunctionsOf(records: seq<RawFunction>, numStatements: word, limit: nat): (functions: seq<Function>)
    requires RecordsOk(records)
    ensures |functions| == |records|
  {
    seq(|records|, i requires 0 <= i < |records| => FunctionOf(i, records[i], numStatements, limit))
  }

  /** The call information of functions. */
  function CallInfos(functions: seq<Function>, gbase: word): (funcs: seq<Option<QcFunc>>)
    ensures |funcs| == |functions|
  {
    seq(|functions|, i requires 0 <= i < |functions| => RelocateFunction(functions[i], gbase))
  }

  /** Canonical functions and their call information, record by record. */
  method LoadFunctions(records: seq<RawFunction>, numStatements: word, gbase: word, limit: nat, count: nat)
    returns (functions: seq<Function>, funcs: seq<Option<QcFunc>>)
    requires RecordsOk(records)
    requires gbase + 4 * limit < U32 && numStatements <= count
    ensures functions == FunctionsOf(records, numStatements, limit) && funcs == CallInfos(functions, gbase)
    ensures forall i :: 0 <= i < |records| ==> EntryOk(funcs[i], gbase, limit, count)
  {
    functions, funcs := [], [];
    for i := 0 to |records|
      invariant |functions| == |funcs| == i
      invariant functions == FunctionsOf(records, numStatements, limit)[..i]
      invariant forall j :: 0 <= j < i ==> funcs[j] == RelocateFunction(functions[j], gbase)
      invariant forall j :: 0 <= j < i ==> EntryOk(funcs[j], gbase, limit, count)
    {
      var f := CanonicalFunction(i, records[i], numStatements, limit);
      var qc := RelocateFunction(f, gbase);
      assert EntryOk(qc, gbase, limit, count) by {
        if f.kind.QuakeC? { RelocatedFunctionOk(f, gbase, limit, count); }
      }
      functions, funcs := functions + [f], funcs + [qc];
    }
  }

  /** The canonical code: every statement, then the sentinel. */
  function CanonicalCode(raw: seq<RawStatement>, wide: bool, limit: nat): seq<Stmt>
    requires |raw| < U32 - 1
  {
    seq(|raw|, i requires 0 <= i < |raw| => CanonicalStatement(raw[i], i, |raw|, wide, limit)) + [Sentinel]
  }

  /** From arbitrary records to what the interpreter runs: the code and every QuakeC function are
      within their tables, wherever the globals are placed. */
  method Load(raw: seq<RawStatement>, records: seq<RawFunction>, wide: bool, numGlobals: word, gbase: word)
    returns (code: seq<Stmt>, functions: seq<Function>, funcs: seq<Option<QcFunc>>)
    requires |raw| < U32 - 1
    requires RecordsOk(records)
    requires gbase + 4 * WithTail(numGlobals) < U32
    ensures code == RelocateAndPad(CanonicalCode(raw, wide, WithTail(numGlobals)), gbase)
    ensures CodeOk(code, gbase, WithTail(numGlobals)) && |code| >= CODE_WINDOW
    ensures functions == FunctionsOf(records, |raw|, WithTail(numGlobals)) && funcs == CallInfos(functions, gbase)
    ensures forall i :: 0 <= i < |funcs| ==> EntryOk(funcs[i], gbase, WithTail(numGlobals), |code|)
  {
    var limit := WithTail(numGlobals);
    var statements := CanonicalStatements(raw, wide, limit);
    assert statements == CanonicalCode(raw, wide, limit);
    RelocatedCodeOk(statements, gbase, limit);
    code := RelocateAndPad(statements, gbase);
    functions, funcs := LoadFunctions(records, |raw|, gbase, limit, |code|);
  }
}
