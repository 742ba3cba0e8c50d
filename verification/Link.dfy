/** From the records of a file to a running program (`src/progs/load.rs`, `src/vm/mod.rs`,
    `src/vm/core.rs`): whatever the records hold, what runs stays inside the program. */
module Link {
  import opened Bytes
  import opened Program
  import opened Memory
  import opened Views
  import opened Machine
  import opened Step
  import opened Interp
  import opened Loop
  import opened StackSafe
  import opened Loader

  // ---- binding ---------------------------------------------------------------------------------

  /** The binding slots of the registered builtins. */
  datatype Builtins = Builtins(byNumber: map<nat, nat>, byName: map<seq<byte>, nat>)

  function SlotOr<K>(slots: map<K, nat>, k: K): Callee { if k in slots then BuiltinFn(slots[k]) else MissingFn }

  /** How a function record is called. */
  function Bind(f: Function, name: seq<byte>, b: Builtins): Callee {
    match f.kind
    case Null => NullFn
    case QuakeC(_) => QcFn
    case Builtin(number) => SlotOr(b.byNumber, number)
    case NamedBuiltin => SlotOr(b.byName, name)
    case EntryOutOfRange => InvalidFn
    case LocalsOutOfRange => InvalidFn
  }

  /** The records of a file: statements, functions and their names, and the number of globals. */
  datatype File = File(statements: seq<RawStatement>, functions: seq<RawFunction>, names: seq<seq<byte>>, wide: bool, numGlobals: word)

  /** What the file format itself guarantees. */
  predicate FileOk(f: File) { |f.statements| < U32 - 1 && RecordsOk(f.functions) && |f.names| == |f.functions| }

  function BindAll(functions: seq<Function>, names: seq<seq<byte>>, b: Builtins): (callees: seq<Callee>)
    requires |names| == |functions|
    ensures |callees| == |functions|
  {
    seq(|functions|, i requires 0 <= i < |functions| => Bind(functions[i], names[i], b))
  }

  /** The program of a file loaded with its globals at `gbase`. */
  function Linked(f: File, gbase: word, b: Builtins): ProgsState
    requires FileOk(f)
  {
    var functions := FunctionsOf(f.functions, |f.statements|, WithTail(f.numGlobals));
    ProgsState(gbase, f.numGlobals, RelocateAndPad(CanonicalCode(f.statements, f.wide, WithTail(f.numGlobals)), gbase),
               BindAll(functions, f.names, b), CallInfos(functions, gbase), [])
  }

  /** Binds each function record. */
  method BindFunctions(functions: seq<Function>, names: seq<seq<byte>>, b: Builtins) returns (callees: seq<Callee>)
    requires |names| == |functions|
    ensures callees == BindAll(functions, names, b)
  {
    callees := [];
    for i := 0 to |functions|
      invariant callees == BindAll(functions, names, b)[..i]
    {
      callees := callees + [Bind(functions[i], names[i], b)];
    }
  }

  /** Loads a file and binds its functions. */
  method LinkProgs(f: File, gbase: word, b: Builtins) returns (ps: ProgsState)
    requires FileOk(f) && gbase + 4 * WithTail(f.numGlobals) < U32
    ensures ps == Linked(f, gbase, b)
  {
    var code, functions, funcs := Load(f.statements, f.functions, f.wide, f.numGlobals, gbase);
    var callees := BindFunctions(functions, f.names, b);
    ps := ProgsState(gbase, f.numGlobals, code, callees, funcs, []);
  }

  // ---- what can be trusted ---------------------------------------------------------------------

  /** A function is dispatched to the interpreter exactly when it has an entry there. */
  lemma BoundLikeEntered(f: Function, name: seq<byte>, b: Builtins, gbase: word)
    ensures Bind(f, name, b) == QcFn <==> RelocateFunction(f, gbase).Some?
  {
  }

  lemma LinkedEntryOk(f: File, gbase: word, b: Builtins, i: nat)
    requires FileOk(f) && gbase + 4 * WithTail(f.numGlobals) < U32 && i < |f.functions|
    ensures var ps := Linked(f, gbase, b);
      && EntryOk(ps.funcs[i], gbase, WithTail(f.numGlobals), |ps.code|)
      && (ps.callees[i] == QcFn <==> ps.funcs[i].Some?)
  {
    var g := FunctionOf(i, f.functions[i], |f.statements|, WithTail(f.numGlobals));
    BoundLikeEntered(g, f.names[i], b, gbase);
    if g.kind.QuakeC? {
      var raw := f.functions[i];
      PlanWithin(raw.parmStart, raw.parmSizes, Clamp8(raw.numParms), WithTail(f.numGlobals));
      RelocatedFunctionOk(g, gbase, WithTail(f.numGlobals), |Linked(f, gbase, b).code|);
    }
  }

  /** Planned copies in range stay within the globals and their tail. */
  lemma {:induction false} PlanWithin(start: nat, sizes: seq<byte>, n: nat, limit: nat)
    requires n <= |sizes| && AllCopiesInRange(start, sizes, limit, n)
    ensures Within(Plan(start, sizes, n), limit)
  {
    if n > 0 {
      var slot: nat := n - 1;
      PlanWithin(start, sizes, slot, limit);
      SlotInRange(start, sizes, limit, slot, start + ParmWords(sizes, slot));
      SlotWithin(start + ParmWords(sizes, slot), slot, sizes[slot], limit);
    }
  }

  lemma {:induction false} SlotWithin(from: nat, slot: nat, w: nat, limit: nat)
    requires forall v :: 0 <= v < w ==> WordInRange(from, limit, slot, v)
    ensures Within(PlanSlot(from, slot, w), limit)
  {
    if w > 0 {
      SlotWithin(from, slot, w - 1, limit);
      assert WordInRange(from, limit, slot, w - 1);
    }
  }

  lemma LinkedCodeOk(f: File, gbase: word, code: seq<Stmt>)
    requires FileOk(f) && gbase + 4 * WithTail(f.numGlobals) < U32 && code == CanonicalCode(f.statements, f.wide, WithTail(f.numGlobals))
    ensures CodeOk(RelocateAndPad(code, gbase), gbase, WithTail(f.numGlobals))
  {
    CanonicalCodeOk(f.statements, code[..|f.statements|], f.wide, WithTail(f.numGlobals));
    assert code == code[..|f.statements|] + [Sentinel];
    RelocatedCodeOk(code, gbase, WithTail(f.numGlobals));
  }

  lemma LinkedEntriesOk(f: File, gbase: word, b: Builtins, ps: ProgsState)
    requires FileOk(f) && gbase + 4 * WithTail(f.numGlobals) < U32 && ps == Linked(f, gbase, b)
    ensures |ps.callees| == |ps.funcs|
    ensures forall i :: 0 <= i < |ps.funcs| ==> EntryOk(ps.funcs[i], ps.gbase, WithTail(f.numGlobals), |ps.code|)
    ensures forall i :: 0 <= i < |ps.funcs| ==> (ps.callees[i] == QcFn <==> ps.funcs[i].Some?)
  {
    forall i | 0 <= i < |ps.funcs|
      ensures EntryOk(ps.funcs[i], ps.gbase, WithTail(f.numGlobals), |ps.code|)
      ensures ps.callees[i] == QcFn <==> ps.funcs[i].Some?
    {
      LinkedEntryOk(f, gbase, b, i);
    }
  }

  /** Any file, loaded anywhere in region S, is a program the interpreter can run. */
  lemma LinkedIsOk(f: File, gbase: word, b: Builtins, sLen: nat)
    requires FileOk(f) && gbase + 4 * WithTail(f.numGlobals) < U32 && gbase + 4 * WithTail(f.numGlobals) <= sLen
    ensures ProgsOk(Linked(f, gbase, b), sLen)
  {
    LinkedCodeOk(f, gbase, CanonicalCode(f.statements, f.wide, WithTail(f.numGlobals)));
    LinkedEntriesOk(f, gbase, b, Linked(f, gbase, b));
    TablesOk(Linked(f, gbase, b), WithTail(f.numGlobals), sLen);
  }

  lemma TablesOk(ps: ProgsState, limit: nat, sLen: nat)
    requires limit == ps.numGlobals + 3 && ps.gbase + 4 * limit <= sLen
    requires CodeOk(ps.code, ps.gbase, limit) && |ps.callees| == |ps.funcs|
    requires forall i :: 0 <= i < |ps.funcs| ==> EntryOk(ps.funcs[i], ps.gbase, limit, |ps.code|)
    requires forall i :: 0 <= i < |ps.funcs| ==> (ps.callees[i] == QcFn <==> ps.funcs[i].Some?)
    ensures ProgsOk(ps, sLen)
  {
  }

  // ---- from files to runs ----------------------------------------------------------------------

  /** A progs some file was loaded as; the globals it shares may have been registered since. */
  ghost predicate IsLinked(ps: ProgsState, sLen: nat) {
    && ps.gbase + 4 * WithTail(ps.numGlobals) <= sLen && sLen < U32
    && exists f: File, b: Builtins :: FileOk(f) && f.numGlobals == ps.numGlobals && ps.(shared := []) == Linked(f, ps.gbase, b)
  }

  lemma SharedAside(ps: ProgsState, ps': ProgsState, sLen: nat)
    requires ps' == ps.(shared := []) && ProgsOk(ps', sLen)
    ensures ProgsOk(ps, sLen)
  {
    forall i | 0 <= i < |ps.funcs|
      ensures EntryOk(ps.funcs[i], ps.gbase, ps.numGlobals + 3, |ps.code|)
    {
      assert EntryOk(ps'.funcs[i], ps'.gbase, ps'.numGlobals + 3, |ps'.code|);
    }
  }

  lemma LinkedProgsOk(ps: ProgsState, sLen: nat)
    requires IsLinked(ps, sLen)
    ensures ProgsOk(ps, sLen)
  {
    var f: File, b: Builtins :| FileOk(f) && f.numGlobals == ps.numGlobals && ps.(shared := []) == Linked(f, ps.gbase, b);
    LinkedIsOk(f, ps.gbase, b, sLen);
    SharedAside(ps, ps.(shared := []), sLen);
  }

  /** A VM running programs loaded from any files. */
  ghost predicate RunsFiles(env: Env, v: View, mem: Mem) {
    && mem.Valid() && ViewOk(v, env, mem.s) && 1 <= |env.progs| <= 256
    && forall i :: 0 <= i < |env.progs| ==> IsLinked(env.progs[i], |mem.s|)
  }

  lemma FilesAreLaid(env: Env, v: View, mem: Mem)
    requires RunsFiles(env, v, mem)
    ensures EnvOk(env, |mem.s|)
  {
    forall i | 0 <= i < |env.progs|
      ensures ProgsOk(env.progs[i], |mem.s|)
    {
      LinkedProgsOk(env.progs[i], |mem.s|);
    }
  }

  /** Where a run of a loaded program may be: at a statement of its code, whose global operands lie in its
      globals, their tail or the two words after it, and whose jumps lead into the code. */
  ghost predicate Inside(env: Env, v: View, m: Machine, d: nat) {
    && RunOk(env, v, m, d)
    && (IsTrap(Next(env, m).op) || OperandsInside(Current(env, m), Next(env, m)))
  }

  predicate IsTrap(op: Op) { op == Bad || op == JumpOutOfRange }

  predicate OperandsInside(ps: ProgsState, st: Stmt) {
    var k := OperandKinds(st.op);
    OperandInside(ps, k.a, st.a) && OperandInside(ps, k.b, st.b) && OperandInside(ps, k.c, st.c)
  }

  /** Three words at a global operand, the size of a vector, lie in reach of the globals. */
  predicate OperandInside(ps: ProgsState, kind: Operand, v: word) {
    match kind
    case Global => ps.gbase <= v && v + 12 <= ps.gbase + 4 * (ps.numGlobals + 5)
    case GlobalIndex => v < ps.numGlobals + 3
    case Jump => v < |ps.code|
    case Immediate => true
    case Unused => true
  }

  lemma OkIsInside(env: Env, v: View, m: Machine, d: nat)
    requires RunOk(env, v, m, d)
    ensures Inside(env, v, m, d)
  {
    NextOk(env, m, |m.mem.s|);
  }

  /** Whatever the files hold: entering any function of any of the programs and running it, for any
      budget, stays inside the programs at every step, and comes to an end. */
  lemma FilesRunInside(env: Env, v: View, m: Machine, prnum: nat, index: nat, budget: nat)
    requires RunsFiles(env, v, m.mem) && Enter(env, m, prnum, index, m.x.pc).error.None?
    ensures var d := |m.frames|;
      var l := StepsOf(env, v, d);
      var m0 := Enter(env, m, prnum, index, m.x.pc).m;
      && Sound(l) && l.ok(m0)
      && (forall n: nat, k: nat, t :: Executes(l, m0, n, k, t) ==> Inside(env, v, t, d))
      && (Run(l, m0, budget).Spent? ==> Inside(env, v, Run(l, m0, budget).s, d))
  {
    var d := |m.frames|;
    var l := StepsOf(env, v, d);
    var m0 := Enter(env, m, prnum, index, m.x.pc).m;
    InterpreterSound(env, v, d);
    FilesAreLaid(env, v, m.mem);
    EnterKeepsOk(env, v, m, prnum, index, m.x.pc, d);
    forall n: nat, k: nat, t | Executes(l, m0, n, k, t)
      ensures Inside(env, v, t, d)
    {
      BudgetInvisible(l, m0, n, k, t, k + 1);
      OkIsInside(env, v, t, d);
    }
    if Run(l, m0, budget).Spent? { OkIsInside(env, v, Run(l, m0, budget).s, d); }
  }
}
