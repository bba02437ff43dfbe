/** The SPC700's stack (src/spc700.c): a page of memory under an eight-bit pointer that
    wraps, against an abstract last-in-first-out stack. */
module Stack {
  import opened Bits
  import opened Aram

  const STACK_PAGE := 0x100
  const CAPACITY := 0x100

  /** The parts of the machine that pushing, popping, calling and returning touch. */
  datatype Machine = Machine(mem: seq<u8>, sp: u8, pc: u16) {
    ghost predicate Valid() { IsMemory(mem) }
  }

  predicate IsMmio(a: u16) { 0xf0 <= a < 0x100 }

  predicate InStackPage(a: u16) { STACK_PAGE <= a < STACK_PAGE + 0x100 }

  function Dec(sp: u8): u8 { if sp == 0 then 0xff else sp - 1 }

  function Inc(sp: u8): u8 { if sp == 0xff then 0 else sp + 1 }

  function Push(m: Machine, b: u8): (r: Machine)
    requires m.Valid()
    ensures r.Valid()
  {
    m.(mem := m.mem[STACK_PAGE + m.sp := b], sp := Dec(m.sp))
  }

  function Popped(m: Machine): Machine { m.(sp := Inc(m.sp)) }

  function Top(m: Machine): u8
    requires m.Valid()
  {
    m.mem[STACK_PAGE + Inc(m.sp)]
  }

  /** A word goes on the stack high byte first and comes off low byte first. */
  function PushWord(m: Machine, w: u16): (r: Machine)
    requires m.Valid()
    ensures r.Valid()
  {
    Push(Push(m, w / 0x100), w % 0x100)
  }

  function Call(m: Machine, a: u16): (r: Machine)
    requires m.Valid()
    ensures r.Valid()
  {
    PushWord(m, m.pc).(pc := a)
  }

  function Return(m: Machine): (r: Machine)
    requires m.Valid()
    ensures r.Valid()
  {
    var m1 := Popped(m);
    Popped(m1).(pc := Top(m) + Top(m1) as int * 0x100)
  }

  /** In numbers: a call leaves the return address in page 1, its high byte under the pointer
      and its low byte below, $01ff below $0100, and takes two off the pointer; a return is to
      the word above the pointer. */
  lemma CallInNumbers(m: Machine, a: u16)
    requires m.Valid()
    ensures var r := Call(m, a);
            && r.mem == m.mem[0x100 + m.sp := m.pc / 0x100][0x100 + (m.sp as int + 0xff) % 0x100 := m.pc % 0x100]
            && r.sp == (m.sp as int + 0xfe) % 0x100 && r.pc == a
    ensures var r := Return(m);
            && r.mem == m.mem && r.sp == (m.sp as int + 2) % 0x100
            && r.pc == m.mem[0x100 + (m.sp as int + 1) % 0x100] + m.mem[0x100 + (m.sp as int + 2) % 0x100] as int * 0x100
  {
    assert Dec(m.sp) == (m.sp as int + 0xff) % 0x100 && Dec(Dec(m.sp)) == (m.sp as int + 0xfe) % 0x100;
    assert Inc(m.sp) == (m.sp as int + 1) % 0x100 && Inc(Inc(m.sp)) == (m.sp as int + 2) % 0x100;
  }

  // ---- the abstract stack ----

  /** The address of the k-th byte pushed since the pointer stood at base. */
  function Place(base: u8, k: nat): u8
    requires k < CAPACITY
  {
    if k <= base then base - k else base - k + 0x100
  }

  /** The machine holds the bytes st, first pushed first, pushed since sp was base. */
  ghost predicate Represents(m: Machine, base: u8, st: seq<u8>)
  {
    && m.Valid() && |st| <= CAPACITY
    && m.sp == (if |st| == CAPACITY then base else Place(base, |st|))
    && forall k :: 0 <= k < |st| ==> m.mem[STACK_PAGE + Place(base, k)] == st[k]
  }

  /** A push puts a byte on the abstract stack and writes nothing outside page 1, so no
      sound register either. */
  lemma PushRefines(m: Machine, base: u8, st: seq<u8>, b: u8)
    requires Represents(m, base, st) && |st| < CAPACITY
    ensures Represents(Push(m, b), base, st + [b])
    ensures forall a: u16 :: !InStackPage(a) ==> Push(m, b).mem[a] == m.mem[a]
  {
    assert forall k :: 0 <= k < |st| ==> Place(base, k) != Place(base, |st|);
  }

  /** A pop takes the byte pushed last. */
  lemma PopRefines(m: Machine, base: u8, st: seq<u8>)
    requires Represents(m, base, st) && st != []
    ensures Top(m) == st[|st| - 1]
    ensures Represents(Popped(m), base, st[..|st| - 1])
  {
  }

  // ---- interleaved operations ----

  /** An operation, and any instruction that leaves the stack alone: a jump, or a store
      outside page 1. */
  datatype Op = PushOp(b: u8) | PopOp | CallOp(addr: u16) | RetOp | JumpOp(addr: u16) | StoreOp(a: u16, b: u8)

  ghost predicate Harmless(op: Op) { op.StoreOp? ==> !InStackPage(op.a) }

  ghost function Step(m: Machine, op: Op): (r: Machine)
    requires m.Valid()
    ensures r.Valid()
  {
    match op
    case PushOp(b) => Push(m, b)
    case PopOp => Popped(m)
    case CallOp(a) => Call(m, a)
    case RetOp => Return(m)
    case JumpOp(a) => m.(pc := a)
    case StoreOp(a, b) => m.(mem := m.mem[a := b])
  }

  /** The abstract machine: a stack of bytes and a program counter. */
  datatype Lifo = Lifo(st: seq<u8>, pc: u16)

  /** The depth stays between 0 and 256 bytes. */
  predicate Fits(s: Lifo, op: Op)
  {
    match op
    case PushOp(_) => |s.st| < CAPACITY
    case PopOp => |s.st| >= 1
    case CallOp(_) => |s.st| + 2 <= CAPACITY
    case RetOp => |s.st| >= 2
    case _ => true
  }

  function LifoStep(s: Lifo, op: Op): Lifo
    requires Fits(s, op)
  {
    var n := |s.st|;
    match op
    case PushOp(b) => s.(st := s.st + [b])
    case PopOp => s.(st := s.st[..n - 1])
    case CallOp(a) => Lifo(s.st + [s.pc / 0x100, s.pc % 0x100], a)
    case RetOp => Lifo(s.st[..n - 2], s.st[n - 1] + s.st[n - 2] as int * 0x100)
    case JumpOp(a) => s.(pc := a)
    case StoreOp(_, _) => s
  }

  lemma StepRefines(m: Machine, base: u8, s: Lifo, op: Op)
    requires Represents(m, base, s.st) && m.pc == s.pc && Fits(s, op) && Harmless(op)
    ensures Represents(Step(m, op), base, LifoStep(s, op).st) && Step(m, op).pc == LifoStep(s, op).pc
    ensures op.PopOp? ==> Top(m) == s.st[|s.st| - 1]
    ensures !op.StoreOp? ==> forall a: u16 :: !InStackPage(a) ==> Step(m, op).mem[a] == m.mem[a]
  {
    var n := |s.st|;
    match op {
      case PushOp(b) => PushRefines(m, base, s.st, b);
      case PopOp => PopRefines(m, base, s.st);
      case CallOp(a) => CallPushes(m, base, s.st, a);
      case RetOp =>
        assert s.st == s.st[..n - 2] + [s.st[n - 2], s.st[n - 1]];
        ReturnPops(m, base, s.st[..n - 2], s.st[n - 2], s.st[n - 1]);
      case JumpOp(a) => SameStack(m, Step(m, op), base, s.st);
      case StoreOp(a, b) => SameStack(m, Step(m, op), base, s.st);
    }
  }

  lemma CallPushes(m: Machine, base: u8, st: seq<u8>, addr: u16)
    requires Represents(m, base, st) && |st| + 2 <= CAPACITY
    ensures Represents(Call(m, addr), base, st + [m.pc / 0x100, m.pc % 0x100])
    ensures forall a: u16 :: !InStackPage(a) ==> Call(m, addr).mem[a] == m.mem[a]
  {
    var hi, lo := m.pc / 0x100, m.pc % 0x100;
    PushRefines(m, base, st, hi);
    PushRefines(Push(m, hi), base, st + [hi], lo);
    assert st + [hi] + [lo] == st + [hi, lo];
    SameStack(PushWord(m, m.pc), Call(m, addr), base, st + [hi, lo]);
  }

  lemma ReturnPops(m: Machine, base: u8, st: seq<u8>, hi: u8, lo: u8)
    requires Represents(m, base, st + [hi, lo])
    ensures Return(m).pc == lo + hi as int * 0x100 && Return(m).mem == m.mem
    ensures Represents(Return(m), base, st)
  {
    var full := st + [hi, lo];
    PopRefines(m, base, full);
    assert full[..|full| - 1] == st + [hi];
    PopRefines(Popped(m), base, st + [hi]);
    assert (st + [hi])[..|st|] == st;
    SameStack(Popped(Popped(m)), Return(m), base, st);
  }

  /** Two machines that agree on page 1 and the pointer hold the same stack. */
  lemma SameStack(m: Machine, w: Machine, base: u8, st: seq<u8>)
    requires Represents(m, base, st) && w.Valid() && m.sp == w.sp
    requires forall a: u16 :: InStackPage(a) ==> m.mem[a] == w.mem[a]
    ensures Represents(w, base, st)
  {
    forall k | 0 <= k < |st|
      ensures w.mem[STACK_PAGE + Place(base, k)] == st[k]
    {
      assert InStackPage(STACK_PAGE + Place(base, k));
    }
  }

  ghost predicate AllFit(s: Lifo, ops: seq<Op>)
    decreases |ops|
  {
    ops != [] ==> Harmless(ops[0]) && Fits(s, ops[0]) && AllFit(LifoStep(s, ops[0]), ops[1..])
  }

  ghost function Run(m: Machine, ops: seq<Op>): (r: Machine)
    requires m.Valid()
    ensures r.Valid()
    decreases |ops|
  {
    if ops == [] then m else Run(Step(m, ops[0]), ops[1..])
  }

  ghost function LifoRun(s: Lifo, ops: seq<Op>): Lifo
    requires AllFit(s, ops)
    decreases |ops|
  {
    if ops == [] then s else LifoRun(LifoStep(s, ops[0]), ops[1..])
  }

  /** The bytes popped, in order. */
  ghost function Outputs(m: Machine, ops: seq<Op>): seq<u8>
    requires m.Valid()
    decreases |ops|
  {
    if ops == [] then []
    else (if ops[0].PopOp? then [Top(m)] else []) + Outputs(Step(m, ops[0]), ops[1..])
  }

  ghost function LifoOutputs(s: Lifo, ops: seq<Op>): seq<u8>
    requires AllFit(s, ops)
    decreases |ops|
  {
    if ops == [] then []
    else (if ops[0].PopOp? then [s.st[|s.st| - 1]] else []) + LifoOutputs(LifoStep(s, ops[0]), ops[1..])
  }

  /** Any interleaving whose depth stays within the page behaves as the abstract stack,
      wherever the pointer starts and however often it wraps. */
  lemma {:induction false} RunRefines(m: Machine, base: u8, s: Lifo, ops: seq<Op>)
    requires Represents(m, base, s.st) && m.pc == s.pc && AllFit(s, ops)
    ensures Represents(Run(m, ops), base, LifoRun(s, ops).st) && Run(m, ops).pc == LifoRun(s, ops).pc
    ensures Outputs(m, ops) == LifoOutputs(s, ops)
    decreases |ops|
  {
    assert m.Valid();
    hide Represents, Step, LifoStep, Fits, Harmless;
    if ops != [] {
      StepRefines(m, base, s, ops[0]);
      if ops[0].PopOp? {
        PopShows(m, base, s, ops[0]);
      }
      RunRefines(Step(m, ops[0]), base, LifoStep(s, ops[0]), ops[1..]);
    }
  }

  lemma PopShows(m: Machine, base: u8, s: Lifo, op: Op)
    requires Represents(m, base, s.st) && m.pc == s.pc && Fits(s, op) && Harmless(op) && op.PopOp?
    ensures |s.st| >= 1 && Top(m) == s.st[|s.st| - 1]
  {
    PopRefines(m, base, s.st);
  }

  // ---- nested calls ----

  /** Code with properly nested subroutines: any instruction that leaves the stack alone
      and goes on at pc, or a call of a subroutine at addr that runs body and returns. */
  datatype Code = Done | Plain(pc: u16, a: u16, b: u8, next: Code) | Sub(addr: u16, body: Code, next: Code)

  /** How deep the calls nest. */
  function Depth(c: Code): nat
  {
    match c
    case Done => 0
    case Plain(_, _, _, next) => Depth(next)
    case Sub(_, body, next) => var d := 1 + Depth(body); if d > Depth(next) then d else Depth(next)
  }

  ghost predicate KeepsOffStack(c: Code)
  {
    match c
    case Done => true
    case Plain(_, a, _, next) => !InStackPage(a) && KeepsOffStack(next)
    case Sub(_, body, next) => KeepsOffStack(body) && KeepsOffStack(next)
  }

  ghost function Exec(m: Machine, c: Code): (r: Machine)
    requires m.Valid()
    ensures r.Valid()
    decreases c
  {
    match c
    case Done => m
    case Plain(pc, a, b, next) => Exec(m.(pc := pc, mem := m.mem[a := b]), next)
    case Sub(addr, body, next) => Exec(Return(Exec(Call(m, addr), body)), next)
  }

  /** Every subroutine of the code returns to the instruction after its call, with the
      stack pointer as the caller left it. */
  ghost predicate ReturnsHome(m: Machine, c: Code)
    requires m.Valid()
    decreases c
  {
    match c
    case Done => true
    case Plain(pc, a, b, next) => ReturnsHome(m.(pc := pc, mem := m.mem[a := b]), next)
    case Sub(addr, body, next) =>
      var back := Return(Exec(Call(m, addr), body));
      back.pc == m.pc && back.sp == m.sp && ReturnsHome(Call(m, addr), body) && ReturnsHome(back, next)
  }

  /** Calls nested up to 128 deep, counting the callers already on the stack, all return. */
  lemma {:induction false} NestedCallsReturn(m: Machine, base: u8, st: seq<u8>, c: Code)
    requires Represents(m, base, st) && KeepsOffStack(c) && |st| + 2 * Depth(c) <= CAPACITY
    ensures ReturnsHome(m, c)
    ensures Represents(Exec(m, c), base, st)
    decreases c
  {
    assert m.Valid();
    hide Represents;
    match c {
      case Done =>
      case Plain(pc, a, b, next) =>
        var r := m.(pc := pc, mem := m.mem[a := b]);
        SameStack(m, r, base, st);
        NestedCallsReturn(r, base, st, next);
      case Sub(addr, body, next) =>
        var inner := Call(m, addr);
        var frame := st + [m.pc / 0x100, m.pc % 0x100];
        CallPushes(m, base, st, addr);
        NestedCallsReturn(inner, base, frame, body);
        var out := Exec(inner, body);
        ReturnPops(out, base, st, m.pc / 0x100, m.pc % 0x100);
        var back := Return(out);
        SamePointer(m, back, base, st);
        NestedCallsReturn(back, base, st, next);
    }
  }

  lemma SamePointer(m: Machine, w: Machine, base: u8, st: seq<u8>)
    requires Represents(m, base, st) && Represents(w, base, st)
    ensures m.sp == w.sp
  {
  }
}
