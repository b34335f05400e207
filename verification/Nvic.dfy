/** Exception entry and return: the eight-word stack frame and the stack-pointer switch. */
module Nvic {
  import opened Words
  import opened Cpu
  import Bus

  const EXC_HARD_FAULT: u32 := 3
  const EXC_USAGE_FAULT: u32 := 6
  const EXC_SVC: u32 := 11
  const EXC_PENDSV: u32 := 14
  const EXC_SYSTICK: u32 := 15
  const EXC_IRQ0: u32 := 16

  /** Processor, memory and success flag after a step that may fault part way. */
  datatype Outcome = Outcome(c: CpuState, m: Bus.Memory, ok: bool)

  /** `v & ~1u` and `v & ~3u`. */
  function Even(v: u32): u32 { v - v % 2 }
  function Aligned(v: u32): u32 { v - v % 4 }

  /** `v | 1u` */
  function SetThumb(v: u32): u32 { if v % 2 == 1 then v else v + 1 }

  /** The stacked status word carries the number of the exception being entered. */
  function StackedPsr(c: CpuState, exc: u8): u32 {
    Or32(Or32(And32(c.apsr, 0xF800_0000), And32(c.epsr, 0x0600_FC00)), And32(exc, 0x1FF))
  }

  function Frame(c: CpuState, exc: u8): (f: seq<u32>)
    ensures |f| == 8
  {
    [c.r[0], c.r[1], c.r[2], c.r[3], c.r[12], c.r[REG_LR], c.r[REG_PC], StackedPsr(c, exc)]
  }

  predicate UsesPsp(c: CpuState) {
    c.mode.Thread? && c.SpSel()
  }

  /** The stack pointer in use, copied back to its bank. */
  function SyncSp(c: CpuState, sp: u32): CpuState {
    if UsesPsp(c) then c.(psp := sp) else c.(msp := sp)
  }

  function ExcReturnCode(c: CpuState): u32 {
    if UsesPsp(c) then 0xFFFF_FFFD else 0xFFFF_FFF9
  }

  /** In Handler mode, on the main stack, with EXC_RETURN in LR. */
  function Stacked(c: CpuState, sp: u32): CpuState {
    var c' := SyncSp(c, sp);
    c'.(mode := Handler, r := c.r[REG_SP := c'.msp][REG_LR := ExcReturnCode(c)])
  }

  function ExcEnter(c: CpuState, m: Bus.Memory, exc: u8): Outcome {
    var sp := Sub32(c.r[REG_SP], 32);
    var pushed := Bus.WriteWords(m, sp, Frame(c, exc));
    if !pushed.1 then Outcome(SyncSp(c, c.r[REG_SP]), pushed.0, false) else
    var c := Stacked(c, sp);
    match Bus.Read(pushed.0, 4 * exc, 4)
    case None => Outcome(c, pushed.0, false)
    case Some(handler) =>
      Outcome(c.(r := c.r[REG_PC := Even(handler)], ipsr := exc, itstate := 0), pushed.0, true)
  }

  /** EXC_RETURN[3:0]: 1101 returns to Thread mode on PSP, 0001 to Handler mode, else Thread on MSP. */
  predicate ToPsp(ret: u32) { ret % 16 == 0xD }
  predicate ToHandler(ret: u32) { ret % 16 == 0x1 }

  function PoppedRegs(r: Regs, f: seq<u32>): Regs
    requires |f| == 8
  {
    r[0 := f[0]][1 := f[1]][2 := f[2]][3 := f[3]][12 := f[4]][REG_LR := f[5]][REG_PC := Even(f[6])]
  }

  function Unstacked(c: CpuState, f: seq<u32>, sp: u32, ret: u32): CpuState
    requires |f| == 8
  {
    var r := PoppedRegs(c.r, f)[REG_SP := sp];
    var c := c.(r := r, apsr := And32(f[7], 0xF800_0000), ipsr := And32(f[7], 0x1FF), itstate := 0);
    var c := if ToPsp(ret) then c.(psp := sp) else c.(msp := sp);
    if ToHandler(ret) then c.(mode := Handler)
    else if ToPsp(ret) then c.(mode := Thread, control := WithSpSel(c.control))
    else c.(mode := Thread, control := WithoutSpSel(c.control))
  }

  function ExcReturn(c: CpuState, m: Bus.Memory, ret: u32): Outcome {
    var sp := if ToPsp(ret) then c.psp else c.msp;
    match Bus.ReadWords(m, sp, 8)
    case None => Outcome(c, m, false)
    case Some(f) => Outcome(Unstacked(c, f, Add32(sp, 32), ret), m, true)
  }

  /** `control | 2` and `control & ~2`. */
  function WithSpSel(control: u32): u32 {
    if control / 2 % 2 == 1 then control else control + 2
  }
  function WithoutSpSel(control: u32): u32 {
    if control / 2 % 2 == 1 then control - 2 else control
  }

  /** Undefined instruction: UsageFault, or HardFault when already handling an exception. */
  function RaiseUndefined(c: CpuState, m: Bus.Memory): Outcome {
    var c := c.(cfsr := Or32(c.cfsr, 0x1_0000));
    if c.mode.Handler? then ExcEnter(c.(hfsr := Or32(c.hfsr, 0x4000_0000)), m, EXC_HARD_FAULT)
    else ExcEnter(c, m, EXC_USAGE_FAULT)
  }
}
