/**
  Processes, their code sections, and the loading and reloading of programs. A code section is all that
  the memory block decodes to, so that what lies behind a program can be dispatched as well.
*/
module Process {

  const TIME_SLICE: u32 := 1000
  const MAX_TIME_MORE_PAGES: u32 := 1000
  const U32: nat := 0x1_0000_0000

  type u32 = n: nat | n < 0x1_0000_0000

  /** Semaphore names; the zero character marks an unused list entry. */
  type Name = c: char | c != '\0' witness 'a'

  datatype Instr =
    | SemP(sem: Name)
    | SemV(sem: Name)
    | ExecFor(time: u32)
    | DiskOp(track: u32)
    | PrintFor(time: u32)
    | Unknown

  /** What a program file parses to: the semaphores its header declares, and its commands. */
  datatype Program = Program(sems: seq<Name>, body: seq<Instr>)

  datatype Status = New | Running | Ready | Blocked | Kill | Waiting

  /**
    A process table entry. `code` is everything the address space decodes to: the parsed program
    in the first `last` slots and, after it, whatever the memory held before.
  */
  datatype Proc = Proc(
    pid: nat,
    status: Status,
    timeToRun: u32,
    hUsed: nat,
    rwCount: nat,
    code: seq<Instr>,
    pc: nat,
    last: nat,
    prog: Program)

  /** Table slots start out zeroed, and zero is the status code of RUNNING. */
  const ZERO_SLOT: Proc := Proc(0, Running, 0, 0, 0, [], 0, 0, Program([], []))

  /** Memory past the region decodes to no known command. */
  function Fetch(p: Proc): Instr {
    if p.pc < |p.code| then p.code[p.pc] else Unknown
  }

  /** A region after the commands have been written over its first slots. */
  function Loaded(body: seq<Instr>, region: seq<Instr>): seq<Instr>
    requires |body| <= |region|
  {
    body + region[|body|..]
  }

  method InitCodeSection(prog: Program, region: seq<Instr>) returns (code: seq<Instr>, last: nat)
    requires |prog.body| <= |region|
    ensures code == Loaded(prog.body, region) && last == |prog.body|
    ensures |code| == |region|
    ensures forall j :: 0 <= j < |region| ==> code[j] == if j < |prog.body| then prog.body[j] else region[j]
  {
    code := region;
    var i := 0;
    while i < |prog.body|
      invariant 0 <= i <= |prog.body|
      invariant code == prog.body[..i] + region[i..]
    {
      code := code[i := prog.body[i]];
      i := i + 1;
    }
    last := i;
  }

  function NewProc(pid: nat, prog: Program, region: seq<Instr>): Proc
    requires |prog.body| <= |region|
  {
    Proc(pid, New, TIME_SLICE, 0, 0, Loaded(prog.body, region), 0, |prog.body|, prog)
  }

  /** A block large enough for the program and for the slot the process is at. */
  ghost predicate Fits(p: Proc, region: seq<Instr>) {
    |p.prog.body| <= |region| && p.pc < |region|
  }

  /** The whole effect of `p_realloc` on its process: a fresh parse, and the saved fields put back. */
  function Reload(p: Proc, region: seq<Instr>): Proc
    requires Fits(p, region) && p.pc < |p.code|
  {
    p.(rwCount := 0, code := Loaded(p.prog.body, region)[p.pc := p.code[p.pc]])
  }

  /**
    `p_realloc`: saves PC, the instruction there and `last`, parses the file again into the new
    region, and puts the saved values back.
  */
  method Realloc(p: Proc, region: seq<Instr>) returns (r: Proc)
    requires Fits(p, region) && p.pc < |p.code|
    ensures r == Reload(p, region)
  {
    var pc, it, last := p.pc, p.code[p.pc], p.last;
    r := p.(rwCount := 0);
    var code, parsed := InitCodeSection(p.prog, region);
    r := r.(code := code, pc := 0, last := parsed);
    r := r.(pc := pc, code := r.code[pc := it], last := last);
  }

  /** How much of a slice the command at PC uses, given the time granted. */
  function Burst(p: Proc): u32
    requires Fetch(p).ExecFor?
  {
    if Fetch(p).time < TIME_SLICE then Fetch(p).time else p.timeToRun
  }

  /** Unsigned 32-bit subtraction. */
  function Sub32(a: u32, b: u32): u32 {
    if a >= b then a - b else a + U32 - b
  }

  /** The accounting for a burst: unsigned subtraction, and an 8-bit use counter. */
  function Charged(p: Proc): Proc
    requires Fetch(p).ExecFor?
  {
    p.(timeToRun := 0,
       hUsed := (p.hUsed + 1) % 256,
       code := p.code[p.pc := ExecFor(Sub32(Fetch(p).time, Burst(p)))])
  }

  /** One dispatch of an exec command, up to but not including the advance of PC. */
  function RunBurst(p: Proc, region: seq<Instr>): Proc
    requires Fetch(p).ExecFor? && Fits(p, region)
  {
    if Burst(p) >= MAX_TIME_MORE_PAGES then Reload(Charged(p), region) else Charged(p)
  }

  // What a run keeps true of every process

  /** The same command, up to the time an exec has already used. */
  predicate SameCommand(a: Instr, b: Instr) {
    a == b || (a.ExecFor? && b.ExecFor?)
  }

  /** The program is loaded: untouched after PC, and the same commands up to PC. */
  ghost predicate WellLoaded(p: Proc) {
    && p.last == |p.prog.body| <= |p.code|
    && (forall j :: 0 <= j < p.last ==> SameCommand(p.code[j], p.prog.body[j]))
    && (forall j :: p.pc < j < p.last ==> p.code[j] == p.prog.body[j])
  }

  /**
    Reloading preserves meaning: from PC on, the program that is left to run, including the partly
    used command at PC, is the one that was left before.
  */
  lemma ReloadKeepsTheRest(p: Proc, region: seq<Instr>)
    requires WellLoaded(p) && p.pc < p.last && Fits(p, region)
    ensures var r := Reload(p, region);
      && WellLoaded(r)
      && r.pc == p.pc && r.last == p.last
      && r.code[r.pc..r.last] == p.code[p.pc..p.last]
  {
    var r := Reload(p, region);
    forall j | p.pc <= j < p.last
      ensures r.code[j] == p.code[j]
    {
    }
  }

  /** The count of disk operations and what was already run are reset, so a reload is not the identity. */
  lemma ReloadResetsThePast(p: Proc, region: seq<Instr>, j: nat)
    requires WellLoaded(p) && Fits(p, region) && p.pc < |p.code|
    requires j < p.last && j != p.pc
    ensures Reload(p, region).code[j] == p.prog.body[j]
    ensures Reload(p, region).rwCount == 0
  {
  }
}
