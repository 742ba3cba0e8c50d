/** Calls, returns, branches and the interpreter loop, one statement at a time
    (`src/vm/core.rs`, `src/vm/interp.rs`, `src/vm/multiprogs.rs`). */
module Step {
  import opened Bytes
  import opened Program
  import opened Memory
  import opened Views
  import opened Machine
  import opened Effects
  import opened Loop
  import Loader

  // ---- entering and leaving functions ----------------------------------------------------------

  const PARM_WORDS: nat := 24

  function SatSub(a: nat, b: nat): nat { if a >= b then a - b else 0 }

  /** The byte offset of local-stack word `w`. */
  function StackAt(m: Mem, w: nat): nat { m.lsBase + 4 * w }

  /** Moves `len` bytes within region S (memmove), or does nothing when out of range. */
  function Move(s: seq<byte>, src: nat, dst: nat, len: nat): (r: seq<byte>)
    ensures |r| == |s|
  {
    if src + len > |s| || dst + len > |s| then s else Splice(s, dst, s[src..src + len])
  }

  /** Copies the first `k` shared globals both progs have. */
  function CopyShared(s: seq<byte>, a: seq<Option<SharedGlobal>>, b: seq<Option<SharedGlobal>>, k: nat): (r: seq<byte>)
    requires k <= |a| && k <= |b|
    ensures |r| == |s|
  {
    if k == 0 then s
    else
      var t := CopyShared(s, a, b, k - 1);
      match (a[k - 1], b[k - 1])
      case (Some(x), Some(y)) => Copy(Whole, t, x.offset, y.offset, if x.words < y.words then x.words else y.words)
      case _ => t
  }

  function SharedBetween(s: seq<byte>, a: ProgsState, b: ProgsState): (r: seq<byte>)
    ensures |r| == |s|
  {
    CopyShared(s, a.shared, b.shared, if |a.shared| < |b.shared| then |a.shared| else |b.shared|)
  }

  /** A call switching progs: PARM0-7 and the shared globals move along. */
  function SwitchIn(env: Env, s: seq<byte>, from: nat, to: nat): (r: seq<byte>)
    ensures |r| == |s|
  {
    if from < |env.progs| && to < |env.progs| then
      var a, b := env.progs[from], env.progs[to];
      SharedBetween(Copy(Whole, s, SlotAt(a.gbase, OFS_PARM0), SlotAt(b.gbase, OFS_PARM0), PARM_WORDS), a, b)
    else s
  }

  /** A return switching progs: RETURN and the shared globals move back. */
  function SwitchOut(env: Env, s: seq<byte>, from: nat, to: nat): (r: seq<byte>)
    ensures |r| == |s|
  {
    if from < |env.progs| && to < |env.progs| then
      var a, b := env.progs[from], env.progs[to];
      SharedBetween(Copy(Whole, s, SlotAt(a.gbase, OFS_RETURN), SlotAt(b.gbase, OFS_RETURN), 3), a, b)
    else s
  }

  /** Copies parameter words one by one. */
  function CopyParams(s: seq<byte>, copies: seq<ParamCopy>, n: nat): (r: seq<byte>)
    requires n <= |copies|
    ensures |r| == |s|
  {
    if n == 0 then s
    else
      var t := CopyParams(s, copies, n - 1);
      Set(Whole, t, copies[n - 1].dst, G(Whole, t, copies[n - 1].src))
  }

  datatype EnterResult = EnterResult(m: Machine, error: Option<ErrorKind>)

  function FuncAt(env: Env, prnum: nat, index: nat): Option<QcFunc> {
    if prnum < |env.progs| && index < |env.progs[prnum].funcs| then env.progs[prnum].funcs[index] else None
  }

  /** What entering a function does once its record is found: the caller's pushed memory is kept,
      the callee's locals saved above it, its parameters copied, its caller pushed. */
  function EnterFunc(m: Machine, f: QcFunc, prnum: nat, index: nat, resumePc: nat): (r: EnterResult)
    ensures SameShape(m.mem, r.m.mem) && r.m.argc == m.argc && r.m.str == m.str
    ensures r.error.Some? ==> r.m == m
  {
    var lsTop := m.x.lsTop + m.x.pushed;
    var newTop := lsTop + f.localsWords;
    var len := 4 * f.localsWords;
    if lsTop >= U32 || newTop >= U32 || newTop > m.mem.lsWords
       || f.localsAddr + len > |m.mem.s| || StackAt(m.mem, lsTop) + len > |m.mem.s|
    then EnterResult(m, Some(LocalStack))
    else
      var saved := Move(m.mem.s, f.localsAddr, StackAt(m.mem, lsTop), len);
      var s := CopyParams(saved, f.copies, |f.copies|);
      var frame := Frame(resumePc, m.x.func, m.x.prnum, m.x.pushed, m.x.switchRef, m.x.switchKind,
                         lsTop, m.x.localsAddr, m.x.localsWords);
      var x := Exec(f.entry, index, prnum, 0, newTop, 0, SwFloat, f.localsAddr, f.localsWords);
      EnterResult(WithS(m, s).(frames := m.frames + [frame], x := x), None)
  }

  /** Enters QuakeC function `index` of progs `prnum`, resuming the current context at `resumePc`. */
  function Enter(env: Env, m: Machine, prnum: nat, index: nat, resumePc: nat): (r: EnterResult)
    ensures SameShape(m.mem, r.m.mem) && r.m.argc == m.argc && r.m.str == m.str
    ensures r.error.Some? ==> r.m.frames == m.frames && r.m.x == m.x
  {
    if |m.frames| >= env.callDepth then EnterResult(m, Some(CallDepth))
    else
      var m1 := if prnum != m.x.prnum && |env.progs| > 1 then WithS(m, SwitchIn(env, m.mem.s, m.x.prnum, prnum)) else m;
      match FuncAt(env, prnum, index)
      case None => EnterResult(m1, Some(InvalidFunction))
      case Some(f) => EnterFunc(m1, f, prnum, index, resumePc)
  }

  /** Region S with the current function's locals restored from the local stack. */
  function RestoreLocals(m: Machine): (s: seq<byte>)
    ensures |s| == |m.mem.s|
  {
    Move(m.mem.s, StackAt(m.mem, SatSub(m.x.lsTop, m.x.localsWords)), m.x.localsAddr, 4 * m.x.localsWords)
  }

  /** The registers of the caller saved in `f`, whose callee's locals started at `top`. */
  function CallerRegs(env: Env, f: Frame, top: nat): Exec {
    Exec(f.resumePc, f.func, f.prnum, f.pushed, SatSub(top, f.pushed),
         if env.switchReset then 0 else f.switchRef, if env.switchReset then SwFloat else f.switchKind,
         f.localsAddr, f.localsWords)
  }

  /** Returns from the current function: restores its caller's locals and context. */
  function Leave(env: Env, m: Machine): (r: Machine)
    ensures SameShape(m.mem, r.mem) && r.argc == m.argc && r.str == m.str
    ensures r.frames == if m.frames == [] then [] else m.frames[..|m.frames| - 1]
  {
    var top := SatSub(m.x.lsTop, m.x.localsWords);
    var m1 := WithS(m, RestoreLocals(m));
    if m.frames == [] then m1.(x := m1.x.(lsTop := top))
    else
      var f := m.frames[|m.frames| - 1];
      var m2 := m1.(frames := m.frames[..|m.frames| - 1], x := CallerRegs(env, f, top));
      if f.prnum != m.x.prnum then WithS(m2, SwitchOut(env, m2.mem.s, m.x.prnum, f.prnum)) else m2
  }

  /** Pops frames down to `depth`, restoring locals. */
  function Unwind(env: Env, m: Machine, depth: nat): (r: Machine)
    ensures SameShape(m.mem, r.mem) && r.argc == m.argc && r.str == m.str
    ensures |r.frames| <= depth || r.frames == m.frames
    ensures r.frames == if |m.frames| <= depth then m.frames else m.frames[..depth]
    decreases |m.frames|
  {
    if |m.frames| <= depth then m else Unwind(env, Leave(env, m), depth)
  }

  // ---- statements ------------------------------------------------------------------------------

  /** Why the interpreter loop stopped. */
  datatype Exit = Returned | BuiltinExit(slot: nat, func: word) | FaultExit(kind: ErrorKind)

  type Result = StepResult<Machine, Exit>

  function AtPc(m: Machine, pc: nat): (r: Machine)
    ensures r.mem == m.mem && r.frames == m.frames && r.x == m.x.(pc := pc)
  {
    m.(x := m.x.(pc := pc))
  }

  /** Whether a branch's test holds of word `w`. */
  predicate Holds(test: Test, w: word) {
    match test
    case WordNonZero => w != 0
    case WordZero => w == 0
    case FloatTrue => FloatIsTrue(w)
    case FloatFalse => !FloatIsTrue(w)
  }

  predicate VectorEq(env: Env, v: View, s: seq<byte>, a: nat, b: nat)
    requires HasView(v, s)
  {
    SameVec(env, VecAt(v, s, a), VecAt(v, s, b))
  }

  predicate VectorLe(env: Env, v: View, s: seq<byte>, a: nat, b: nat)
    requires HasView(v, s)
  {
    && env.floatLe(G(v, s, a), G(v, s, b))
    && env.floatLe(G(v, s, Nth(a, 1)), G(v, s, Nth(b, 1)))
    && env.floatLe(G(v, s, Nth(a, 2)), G(v, s, Nth(b, 2)))
  }

  predicate CaseHits(env: Env, v: View, m: Machine, oa: nat)
    requires m.mem.Valid() && HasView(v, m.mem.s)
  {
    var s, r := m.mem.s, m.x.switchRef;
    match m.x.switchKind
    case SwFloat => env.floatEq(G(v, s, r), G(v, s, oa))
    case SwVector => VectorEq(env, v, s, r, oa)
    case SwInt => G(v, s, r) == G(v, s, oa)
    case SwString => StringsEqual(m, G(v, s, r), G(v, s, oa))
  }

  predicate CaseRangeHits(env: Env, v: View, m: Machine, oa: nat, ob: nat)
    requires HasView(v, m.mem.s)
  {
    var s, r := m.mem.s, m.x.switchRef;
    match m.x.switchKind
    case SwFloat => env.floatLe(G(v, s, oa), G(v, s, r)) && env.floatLe(G(v, s, r), G(v, s, ob))
    case SwVector => VectorLe(env, v, s, oa, r) && VectorLe(env, v, s, r, ob)
    case SwInt => Signed(G(v, s, oa)) <= Signed(G(v, s, r)) <= Signed(G(v, s, ob))
    case SwString => false
  }

  /** A jump is counted before it is taken. */
  function JumpTo(m: Machine, target: nat): Result { StepResult(true, m, Go(AtPc(m, target))) }

  function Fall(m: Machine, ticks: bool): Result { StepResult(ticks, m, Go(AtPc(m, m.x.pc + 1))) }

  function Trap(m: Machine, kind: ErrorKind): Result { StepResult(false, m, Stop(FaultExit(kind), m)) }

  /** `CALLnH` passes its operands in the first two PARM slots. */
  function PassOperands(v: View, s: seq<byte>, ps: ProgsState, argc: nat, hexen2: bool, ob: nat, oc: nat): (r: seq<byte>)
    requires HasView(v, s)
    ensures |r| == |s|
  {
    if !hexen2 then s
    else
      var t := if argc >= 2 then Copy(v, s, oc, SlotAt(ps.gbase, OFS_PARM1), 3) else s;
      Copy(v, t, ob, SlotAt(ps.gbase, OFS_PARM0), 3)
  }

  function ProgsOf(fv: word): nat { fv / 0x100_0000 }
  function IndexOf(fv: word): nat { fv % 0x100_0000 }

  function CalleeAt(env: Env, fv: word): Callee {
    var p, i := ProgsOf(fv), IndexOf(fv);
    if p < |env.progs| && i < |env.progs[p].callees| then env.progs[p].callees[i] else InvalidFn
  }

  /** Dispatches a call of function value `fv`, its arguments passed. */
  function Dispatch(env: Env, m: Machine, fv: word): (out: Outcome<Machine, Exit>)
    ensures SameShape(m.mem, out.s.mem)
  {
    match CalleeAt(env, fv)
    case QcFn =>
      var r := Enter(env, m, ProgsOf(fv), IndexOf(fv), m.x.pc + 1);
      if r.error.Some? then Stop(FaultExit(r.error.value), r.m) else Go(r.m)
    case BuiltinFn(slot) => Stop(BuiltinExit(slot, fv), AtPc(m, m.x.pc + 1))
    case NullFn => Stop(FaultExit(NullFunction), m)
    case MissingFn => Stop(FaultExit(NotImplemented), m)
    case InvalidFn => Stop(FaultExit(InvalidFunction), m)
  }

  function CallStep(env: Env, v: View, m: Machine, ps: ProgsState, st: Stmt): (r: Result)
    requires HasView(v, m.mem.s) && st.op.Call?
    ensures r.ticks && r.blocked == m && SameShape(m.mem, r.out.s.mem)
  {
    var s := PassOperands(v, m.mem.s, ps, st.op.argc, st.op.hexen2, st.b, st.c);
    var m1 := WithS(m, s).(argc := st.op.argc);
    StepResult(true, m, Dispatch(env, m1, G(v, s, st.a)))
  }

  function ReturnStep(env: Env, v: View, m: Machine, ps: ProgsState, oa: nat, d: nat): (r: Result)
    requires HasView(v, m.mem.s)
    ensures r.ticks && r.blocked == m && SameShape(m.mem, r.out.s.mem)
  {
    var m1 := Leave(env, WithS(m, Copy(v, m.mem.s, oa, SlotAt(ps.gbase, OFS_RETURN), 3)));
    StepResult(true, m, if |m1.frames| <= d then Stop(Returned, m1) else Go(m1))
  }

  /** Control opcodes. A `SWITCH` sets its registers before it is counted. */
  function Control(env: Env, v: View, m: Machine, ps: ProgsState, st: Stmt, d: nat): (r: Result)
    requires m.mem.Valid() && HasView(v, m.mem.s) && IsControl(st.op)
    ensures SameShape(m.mem, r.blocked.mem) && SameShape(m.mem, r.out.s.mem)
  {
    match st.op
    case Branch(test) => if Holds(test, G(v, m.mem.s, st.a)) then JumpTo(m, st.b) else Fall(m, true)
    case Goto => JumpTo(m, st.a)
    case Switch(kind) => JumpTo(m.(x := m.x.(switchRef := st.a, switchKind := kind)), st.b)
    case Case => if CaseHits(env, v, m, st.a) then JumpTo(m, st.b) else Fall(m, false)
    case CaseRange =>
      if m.x.switchKind.SwString? then Trap(m, StringCaseRange)
      else if CaseRangeHits(env, v, m, st.a, st.b) then JumpTo(m, st.c)
      else Fall(m, false)
    case Call(_, _) => CallStep(env, v, m, ps, st)
    case Return => ReturnStep(env, v, m, ps, st.a, d)
  }

  /** Executes one statement. */
  function Execute(env: Env, v: View, m: Machine, ps: ProgsState, st: Stmt, d: nat): (r: Result)
    requires m.mem.Valid() && HasView(v, m.mem.s)
    ensures SameShape(m.mem, r.blocked.mem) && SameShape(m.mem, r.out.s.mem)
  {
    if IsControl(st.op) then Control(env, v, m, ps, st, d)
    else match Straight(env, v, m, ps, st)
      case Done(m1) => Fall(m1, false)
      case Fault(kind) => Trap(m, kind)
  }

  /** The statement at `pc`: the window masks the index instead of checking it. */
  function Fetch(v: View, code: seq<Stmt>, pc: nat): Option<Stmt> {
    var at := if v.Whole? then pc else pc % Loader.CODE_WINDOW;
    if at < |code| then Some(code[at]) else None
  }

  // ---- well-formed runs ------------------------------------------------------------------------

  /** A progs the loader produced, with its globals and their tail in region S. */
  predicate ProgsOk(ps: ProgsState, sLen: nat) {
    && CodeOk(ps.code, ps.gbase, ps.numGlobals + 3)
    && |ps.callees| == |ps.funcs|
    && (forall i {:trigger Loader.EntryOk(ps.funcs[i], ps.gbase, ps.numGlobals + 3, |ps.code|)} :: 0 <= i < |ps.funcs| ==>
          Loader.EntryOk(ps.funcs[i], ps.gbase, ps.numGlobals + 3, |ps.code|))
    && (forall i :: 0 <= i < |ps.funcs| ==> (ps.callees[i] == QcFn <==> ps.funcs[i].Some?))
    && ps.gbase + 4 * (ps.numGlobals + 3) <= sLen
  }

  /** Returning the first global is always a statement the interpreter can run. */
  lemma ReturnsFirst(gbase: word, limit: nat, count: nat)
    requires limit > 0
    ensures StmtOk(Stmt(Return, gbase, gbase, gbase), gbase, limit, count)
  {
    assert WordSlot(gbase, 0) == gbase;
  }

  predicate EnvOk(env: Env, sLen: nat) {
    && 1 <= |env.progs| <= 256
    && forall i {:trigger ProgsOk(env.progs[i], sLen)} :: 0 <= i < |env.progs| ==> ProgsOk(env.progs[i], sLen)
  }

  /** Execution may continue at `pc` of progs `prnum`. */
  predicate CtxOk(env: Env, prnum: nat, pc: nat) {
    prnum < |env.progs| && pc < |env.progs[prnum].code|
  }

  /** The code can be fetched through the view. */
  predicate ViewOk(v: View, env: Env, s: seq<byte>) {
    && HasView(v, s)
    && (v.Window? ==> forall i :: 0 <= i < |env.progs| ==> |env.progs[i].code| == Loader.CODE_WINDOW)
  }

  /** A machine running above `d` frames: every context it will return to can continue. */
  predicate RunOk(env: Env, v: View, m: Machine, d: nat) {
    && m.mem.Valid() && EnvOk(env, |m.mem.s|) && ViewOk(v, env, m.mem.s)
    && d < |m.frames|
    && CtxOk(env, m.x.prnum, m.x.pc)
    && forall i {:trigger CtxOk(env, m.frames[i].prnum, m.frames[i].resumePc)} :: d < i < |m.frames| ==>
         CtxOk(env, m.frames[i].prnum, m.frames[i].resumePc)
  }

  /** The progs and statement a well-formed machine runs next. */
  function Current(env: Env, m: Machine): ProgsState
    requires CtxOk(env, m.x.prnum, m.x.pc)
  {
    env.progs[m.x.prnum]
  }

  function Next(env: Env, m: Machine): Stmt
    requires CtxOk(env, m.x.prnum, m.x.pc)
  {
    env.progs[m.x.prnum].code[m.x.pc]
  }

  /** One step of the interpreter. */
  function StepOf(env: Env, v: View, m: Machine, d: nat): (r: Result)
    requires RunOk(env, v, m, d)
    ensures SameShape(m.mem, r.blocked.mem) && SameShape(m.mem, r.out.s.mem)
  {
    match Fetch(v, Current(env, m).code, m.x.pc)
    case None => Trap(m, JumpOutOfRangeErr)
    case Some(st) => Execute(env, v, m, Current(env, m), st, d)
  }
}
