/** Opcodes and their operands (pkg/il/opcode.go). */
module Opcodes {

  const HALT: nat := 0
  const NOP: nat := 1
  const ERR: nat := 2
  const ERRZ: nat := 3
  const ERRNZ: nat := 4
  const POP_S: nat := 10
  const POP_B: nat := 11
  const POP_I: nat := 12
  const POP_D: nat := 13
  const DUP_S: nat := 14
  const DUP_B: nat := 15
  const DUP_I: nat := 16
  const DUP_D: nat := 17
  const RLOAD_S: nat := 20
  const RLOAD_B: nat := 21
  const RLOAD_I: nat := 22
  const RLOAD_D: nat := 23
  const ALOAD_S: nat := 30
  const ALOAD_B: nat := 31
  const ALOAD_I: nat := 32
  const ALOAD_D: nat := 33
  const APUSH_S: nat := 40
  const APUSH_B: nat := 41
  const APUSH_I: nat := 42
  const APUSH_D: nat := 43
  const RPUSH_S: nat := 50
  const RPUSH_B: nat := 51
  const RPUSH_I: nat := 52
  const RPUSH_D: nat := 53
  const EQ_S: nat := 60
  const EQ_B: nat := 61
  const EQ_I: nat := 62
  const EQ_D: nat := 63
  const AEQ_S: nat := 70
  const AEQ_B: nat := 71
  const AEQ_I: nat := 72
  const AEQ_D: nat := 73
  const XOR: nat := 80
  const AND: nat := 81
  const OR_B: nat := 82
  const AXOR: nat := 83
  const AAND: nat := 84
  const AOR: nat := 85
  const NOT: nat := 86
  const RESOLVE_S: nat := 90
  const RESOLVE_B: nat := 91
  const RESOLVE_I: nat := 92
  const RESOLVE_F: nat := 94
  const TRESOLVE_S: nat := 100
  const TRESOLVE_B: nat := 101
  const TRESOLVE_I: nat := 102
  const TRESOLVE_F: nat := 104
  const ADD_I: nat := 110
  const SUB_I: nat := 112
  const AADD_I: nat := 114
  const ASUB_I: nat := 116
  const JMP: nat := 200
  const JZ: nat := 201
  const JNZ: nat := 202
  const RET: nat := 204
  const LOOKUP: nat := 210
  const TLOOKUP: nat := 211
  const ALOOKUP: nat := 212
  const NLOOKUP: nat := 213
  const ANLOOKUP: nat := 214

  datatype Arg =
    | ArgRegister
    | ArgString
    | ArgInt
    | ArgDouble
    | ArgBool
    | ArgFunction
    | ArgAddress

  function ArgSize(a: Arg): nat {
    match a
    case ArgInt => 2
    case ArgDouble => 2
    case _ => 1
  }

  /** The opcodes that opCodeInfos lists. */
  predicate Known(op: nat) {
    || op <= 4 || 10 <= op <= 17 || 20 <= op <= 23 || 30 <= op <= 33 || 40 <= op <= 43
    || 50 <= op <= 53 || 60 <= op <= 63 || 70 <= op <= 73 || 80 <= op <= 86 || 90 <= op <= 94
    || 100 <= op <= 104 || 110 <= op <= 117 || 200 <= op <= 204 || 210 <= op <= 214
  }

  /** The operands of an opcode; a word that is no opcode has none, as the table lookup misses. */
  function Args(op: nat): seq<Arg> {
    if 2 <= op <= 4 || op == 40 || op == 70 || 90 <= op <= 94 || 100 <= op <= 104 || op == 212 || op == 214
    then [ArgString]
    else if 20 <= op <= 23 || 50 <= op <= 53 then [ArgRegister]
    else if op == 30 then [ArgRegister, ArgString]
    else if op == 31 then [ArgRegister, ArgBool]
    else if op == 32 then [ArgRegister, ArgInt]
    else if op == 33 then [ArgRegister, ArgDouble]
    else if op == 41 || op == 71 || 83 <= op <= 85 then [ArgBool]
    else if op == 42 || op == 72 || op == 114 || op == 116 then [ArgInt]
    else if op == 43 || op == 73 || op == 115 || op == 117 then [ArgDouble]
    else if 200 <= op <= 202 then [ArgAddress]
    else if op == 203 then [ArgFunction]
    else []
  }

  function ArgsSize(args: seq<Arg>): nat {
    if args == [] then 0
    else if |args| == 1 then ArgSize(args[0])
    else ArgSize(args[0]) + ArgsSize(args[1..])
  }

  function OpSize(op: nat): (n: nat)
    ensures 1 <= n
  {
    1 + ArgsSize(Args(op))
  }

  lemma NoArgSize(op: nat)
    requires Args(op) == []
    ensures OpSize(op) == 1
  {
    hide Args;
  }

  lemma OneArgSize(op: nat, a: Arg)
    requires Args(op) == [a]
    ensures OpSize(op) == 1 + ArgSize(a)
  {
    hide Args, ArgSize;
  }

  lemma TwoArgsSize(op: nat, a: Arg, b: Arg)
    requires Args(op) == [a, b]
    ensures OpSize(op) == 1 + ArgSize(a) + ArgSize(b)
  {
    hide Args, ArgSize;
    assert [a, b][1..] == [b] && ArgsSize([b]) == ArgSize(b);
  }

  predicate IsJump(op: nat) {
    JMP <= op <= JNZ
  }

  /** Only the jumps have an address operand, and it is their only operand word. */
  lemma OnlyJumpsHoldAddresses(op: nat)
    ensures ArgAddress in Args(op) <==> IsJump(op)
    ensures IsJump(op) ==> Args(op) == [ArgAddress] && OpSize(op) == 2
  {
  }
}
