/** Decoded instructions: opcode and normalised operands. */
module Insn {
  import opened Words
  import opened Cpu

  /** The opcodes this model gives meaning to; every other decoded opcode is outside it. */
  datatype Op =
    | Undefined
    // Thumb-1 data processing
    | MovImm | MovReg | AddReg | SubReg | AddImm3 | AddImm8 | SubImm3 | SubImm8
    | AndReg | OrrReg | EorReg | AdcReg | SbcReg | RsbImm
    | CmpImm | CmpReg | CmpRegT2 | CmnReg | TstReg | AddRegT2
    // Thumb-2 data processing
    | T32MovImm | T32Movw | T32AddImm | T32SubImm | T32AndImm | T32OrrImm | T32EorImm
    | T32Addw | T32Subw | T32CmpImm | T32CmpReg | T32CmnImm | T32CmnReg
    // memory
    | LdrImm | StrImm | LdrbImm | StrbImm | LdrhImm | StrhImm
    | LdrSp | StrSp | LdrLit | LdrReg | StrReg
    | T32LdrImm | T32StrImm | T32LdrbImm | T32StrbImm | T32LdrhImm | T32StrhImm
    | T32LdrLit | T32LdrReg | T32StrReg | T32LdrdImm | T32StrdImm
    // stack and multiple transfers
    | Push | Pop | Ldm | Stm | T32Ldm | T32Stm
    // branches and exceptions
    | BCond | T32BCond | BUncond | T32Bl | Bx | BlxReg | Cbz | Cbnz | Svc | Udf | Bkpt
    // hints, IT and special registers
    | Nop | T32Nop | It | Cps | T32Mrs | T32Msr

  type InsnSize = n: nat | n == 2 || n == 4 witness 2

  datatype Insn = Insn(
    op: Op,
    pc: u32,
    size: InsnSize,
    rd: Reg,
    rn: Reg,
    rm: Reg,
    rs: Reg,
    imm: u32,
    cond: nat,
    regs: set<Reg>,       // the register-list mask: the set of its one bits
    setFlags: bool,
    writeback: bool,
    add: bool,
    index: bool,
    shiftType: nat,
    shiftN: nat,
    itMask: nat,
    itFirst: nat)

  /** How many of the registers below k the list names. */
  function Count(regs: set<Reg>, k: nat): (n: nat)
    requires k <= 16
    ensures n <= k
    decreases regs, k
  {
    if k == 0 then 0
    else Count(regs, k - 1) + (if k - 1 in regs then 1 else 0)
  }
}
