/** The opcode table of the IL rewriter.  An opcode is the byte of a one-byte instruction, or 0x100 plus the
    second byte of an instruction led by CEE_PREFIX1.  The formats are those of ECMA-335, partition III. */
module Opcodes {

  const CEE_NOP := 0x00
  const CEE_LDC_I4_0 := 0x16
  const CEE_LDC_I4 := 0x20
  const CEE_LDC_I8 := 0x21
  const CEE_CALL := 0x28
  const CEE_CALLI := 0x29
  const CEE_RET := 0x2A
  const CEE_BR_S := 0x2B
  const CEE_BLT_UN_S := 0x37
  const CEE_BR := 0x38
  const CEE_BLT_UN := 0x44
  const CEE_SWITCH := 0x45
  const CEE_CALLVIRT := 0x6F
  const CEE_NEWOBJ := 0x73
  const CEE_THROW := 0x7A
  const CEE_STSFLD := 0x80
  const CEE_ENDFINALLY := 0xDC
  const CEE_LEAVE := 0xDD
  const CEE_LEAVE_S := 0xDE
  const CEE_PREFIX7 := 0xF8
  const CEE_PREFIX2 := 0xFD
  const CEE_PREFIX1 := 0xFE
  const CEE_ENDFILTER := 0x111
  const CEE_UNALIGNED := 0x112
  const CEE_VOLATILE := 0x113
  const CEE_TAILCALL := 0x114
  const CEE_CONSTRAINED := 0x116
  const CEE_RETHROW := 0x11A
  const CEE_READONLY := 0x11E

  /** One past the last opcode a body may contain. */
  const CEE_COUNT := 294
  /** The rewriter's own pseudo-instruction: one arm of the jump table of a preceding `switch`. */
  const CEE_SWITCH_ARG := 295

  predicate IsShortBranch(op: int) {
    CEE_BR_S <= op <= CEE_BLT_UN_S || op == CEE_LEAVE_S
  }

  predicate IsLongBranch(op: int) {
    CEE_BR <= op <= CEE_BLT_UN || op == CEE_LEAVE
  }

  /** The long opcode with the meaning of a short one. */
  function Widen(op: int): int {
    if op == CEE_LEAVE_S then CEE_LEAVE
    else if IsShortBranch(op) then op - CEE_BR_S + CEE_BR
    else op
  }

  /** Instructions whose operand is a branch target. */
  predicate HasTarget(op: int) {
    IsShortBranch(op) || IsLongBranch(op) || op == CEE_SWITCH_ARG
  }

  /** Everything the scan treats as a branch, `switch` included. */
  predicate OpcodeIsBranch(op: int) {
    CEE_BR_S <= op <= CEE_SWITCH || op == CEE_LEAVE || op == CEE_LEAVE_S
  }

  predicate IsCall(op: int) {
    op == CEE_CALL || op == CEE_CALLI || op == CEE_CALLVIRT || op == CEE_NEWOBJ
  }

  predicate IsPrefix(op: int) {
    op == CEE_TAILCALL || op == CEE_UNALIGNED || op == CEE_VOLATILE || op == CEE_READONLY || op == CEE_CONSTRAINED
  }

  /** The number of operand bytes that follow the opcode.  For `switch` these are the bytes of the arm count,
      since every arm is an instruction of its own in the rewriter's list. */
  function OperandSize(op: int): nat {
    if HasTarget(op) then if IsShortBranch(op) then 1 else 4
    else if 0x0E <= op <= 0x13 || op == 0x1F || op == CEE_UNALIGNED then 1
    else if 0x109 <= op <= 0x10E then 2
    else if op == 0x21 || op == 0x23 then 8
    else if op == CEE_SWITCH || HasFourByteOperand(op) then 4
    else 0
  }

  predicate HasFourByteOperand(op: int) {
    || op == 0x20 || op == 0x22 || 0x27 <= op <= 0x29 || 0x6F <= op <= 0x75 || op == 0x79
    || 0x7B <= op <= 0x81 || 0x8C <= op <= 0x8D || op == 0x8F || 0xA3 <= op <= 0xA5 || op == 0xC2 || op == 0xC6
    || op == 0xD0 || 0x106 <= op <= 0x107 || 0x115 <= op <= 0x116 || op == 0x11C
  }

  /** The number of bytes that hold the opcode itself; an arm of a `switch` has none. */
  function OpcodeSize(op: int): nat {
    if op >= CEE_COUNT then 0 else if op >= 0x100 then 2 else 1
  }

  function Size(op: int): nat {
    OpcodeSize(op) + OperandSize(op)
  }

  /** Opcodes that a method body read by the rewriter may contain. */
  predicate IsEncodable(op: int) {
    0 <= op < CEE_COUNT && !(CEE_PREFIX7 <= op <= CEE_PREFIX1)
  }

  /** The number of stack slots an opcode pushes, as charged to the maximal stack depth. */
  function Pushes(op: int): nat {
    if op == 0x25 then 2 else if PushesOne(op) then 1 else 0
  }

  predicate PushesOne(op: int) {
    || 0x02 <= op <= 0x09 || 0x0E <= op <= 0x0F || 0x11 <= op <= 0x12 || 0x14 <= op <= 0x23
    || CEE_CALL <= op <= CEE_CALLI || 0x46 <= op <= 0x50 || 0x58 <= op <= 0x6F || 0x71 <= op <= 0x76 || op == 0x79
    || 0x7B <= op <= 0x7C || 0x7E <= op <= 0x7F || 0x82 <= op <= 0x9A || op == 0xA3 || op == 0xA5
    || 0xB3 <= op <= 0xBA || 0xC2 <= op <= 0xC3 || op == 0xC6 || 0xD0 <= op <= 0xDB || op == 0xE0
    || 0x100 <= op <= 0x107 || 0x109 <= op <= 0x10A || 0x10C <= op <= 0x10D || op == 0x10F || 0x11C <= op <= 0x11D
  }
}
