/** The keywords of the opcodes (pkg/il/opcode.go). */
module Keywords {
  import opened Values
  import opened Opcodes

  /** The keyword of a listed opcode. */
  function Keyword(op: nat): string
    requires Known(op)
  {
    if op <= 4 then ControlKeyword(op)
    else if op <= 33 then StackKeyword(op)
    else if op <= 53 then PushKeyword(op)
    else if op <= 86 then CompareKeyword(op)
    else if op <= 104 then ResolveKeyword(op)
    else if op <= 117 then ArithmeticKeyword(op)
    else FlowKeyword(op)
  }

  function ControlKeyword(op: nat): string {
    if op == 0 then "halt"
    else if op == 1 then "nop"
    else if op == 2 then "err"
    else if op == 3 then "errz"
    else "errnz"
  }

  function StackKeyword(op: nat): string {
    if op == 10 then "pop_s"
    else if op == 11 then "pop_b"
    else if op == 12 then "pop_i"
    else if op == 13 then "pop_d"
    else if op == 14 then "dup_s"
    else if op == 15 then "dup_b"
    else if op == 16 then "dup_i"
    else if op == 17 then "dup_d"
    else if op == 20 then "rload_s"
    else if op == 21 then "rload_b"
    else if op == 22 then "rload_i"
    else if op == 23 then "rload_d"
    else if op == 30 then "aload_s"
    else if op == 31 then "aload_b"
    else if op == 32 then "aload_i"
    else "aload_d"
  }

  function PushKeyword(op: nat): string {
    if op == 40 then "apush_s"
    else if op == 41 then "apush_b"
    else if op == 42 then "apush_i"
    else if op == 43 then "apush_d"
    else if op == 50 then "rpush_s"
    else if op == 51 then "rpush_b"
    else if op == 52 then "rpush_i"
    else "rpush_d"
  }

  function CompareKeyword(op: nat): string {
    if op == 60 then "eq_s"
    else if op == 61 then "eq_b"
    else if op == 62 then "eq_i"
    else if op == 63 then "eq_d"
    else if op == 70 then "aeq_s"
    else if op == 71 then "aeq_b"
    else if op == 72 then "aeq_i"
    else if op == 73 then "aeq_d"
    else if op == 80 then "xor"
    else if op == 81 then "and"
    else if op == 82 then "or"
    else if op == 83 then "axor"
    else if op == 84 then "aand"
    else if op == 85 then "aor"
    else "not"
  }

  function ResolveKeyword(op: nat): string {
    if op == 90 then "resolve_s"
    else if op == 91 then "resolve_b"
    else if op == 92 then "resolve_i"
    else if op == 93 then "resolve_d"
    else if op == 94 then "resolve_f"
    else if op == 100 then "tresolve_s"
    else if op == 101 then "tresolve_b"
    else if op == 102 then "tresolve_i"
    else if op == 103 then "tresolve_d"
    else "tresolve_f"
  }

  function ArithmeticKeyword(op: nat): string {
    if op == 110 then "add_i"
    else if op == 111 then "add_d"
    else if op == 112 then "sub_i"
    else if op == 113 then "sub_d"
    else if op == 114 then "aadd_i"
    else if op == 115 then "aadd_d"
    else if op == 116 then "asub_i"
    else "asub_d"
  }

  function FlowKeyword(op: nat): string {
    if op == 200 then "jmp"
    else if op == 201 then "jz"
    else if op == 202 then "jnz"
    else if op == 203 then "call"
    else if op == 204 then "ret"
    else if op == 210 then "lookup"
    else if op == 211 then "tlookup"
    else if op == 212 then "alookup"
    else if op == 213 then "nlookup"
    else "anlookup"
  }

  /** Length, first two letters and last letter tell the keywords apart. */
  function Recognize(n: nat, a: char, b: char, z: char): nat {
    if n == 2 then Recognize2(a, b, z)
    else if n == 3 then Recognize3(a, b, z)
    else if n == 4 then Recognize4(a, b, z)
    else if n == 5 then Recognize5(a, b, z)
    else if n == 6 then Recognize6(a, b, z)
    else if n == 7 then Recognize7(a, b, z)
    else if n == 8 then Recognize8(a, b, z)
    else if n == 9 then Recognize9(a, b, z)
    else if n == 10 then Recognize10(a, b, z)
    else 0
  }

  function Recognize2(a: char, b: char, z: char): nat {
    if a == 'o' && b == 'r' && z == 'r' then 82
    else 201
  }

  function Recognize3(a: char, b: char, z: char): nat {
    if a == 'n' && b == 'o' && z == 'p' then 1
    else if a == 'e' && b == 'r' && z == 'r' then 2
    else if a == 'x' && b == 'o' && z == 'r' then 80
    else if a == 'a' && b == 'n' && z == 'd' then 81
    else if a == 'a' && b == 'o' && z == 'r' then 85
    else if a == 'n' && b == 'o' && z == 't' then 86
    else if a == 'j' && b == 'm' && z == 'p' then 200
    else if a == 'j' && b == 'n' && z == 'z' then 202
    else 204
  }

  function Recognize4(a: char, b: char, z: char): nat {
    if a == 'h' && b == 'a' && z == 't' then 0
    else if a == 'e' && b == 'r' && z == 'z' then 3
    else if a == 'e' && b == 'q' && z == 's' then 60
    else if a == 'e' && b == 'q' && z == 'b' then 61
    else if a == 'e' && b == 'q' && z == 'i' then 62
    else if a == 'e' && b == 'q' && z == 'd' then 63
    else if a == 'a' && b == 'x' && z == 'r' then 83
    else if a == 'a' && b == 'a' && z == 'd' then 84
    else 203
  }

  function Recognize5(a: char, b: char, z: char): nat {
    if a == 'e' && b == 'r' && z == 'z' then 4
    else if a == 'p' && b == 'o' && z == 's' then 10
    else if a == 'p' && b == 'o' && z == 'b' then 11
    else if a == 'p' && b == 'o' && z == 'i' then 12
    else if a == 'p' && b == 'o' && z == 'd' then 13
    else if a == 'd' && b == 'u' && z == 's' then 14
    else if a == 'd' && b == 'u' && z == 'b' then 15
    else if a == 'd' && b == 'u' && z == 'i' then 16
    else if a == 'd' && b == 'u' && z == 'd' then 17
    else if a == 'a' && b == 'e' && z == 's' then 70
    else if a == 'a' && b == 'e' && z == 'b' then 71
    else if a == 'a' && b == 'e' && z == 'i' then 72
    else if a == 'a' && b == 'e' && z == 'd' then 73
    else if a == 'a' && b == 'd' && z == 'i' then 110
    else if a == 'a' && b == 'd' && z == 'd' then 111
    else if a == 's' && b == 'u' && z == 'i' then 112
    else 113
  }

  function Recognize6(a: char, b: char, z: char): nat {
    if a == 'a' && b == 'a' && z == 'i' then 114
    else if a == 'a' && b == 'a' && z == 'd' then 115
    else if a == 'a' && b == 's' && z == 'i' then 116
    else if a == 'a' && b == 's' && z == 'd' then 117
    else 210
  }

  function Recognize7(a: char, b: char, z: char): nat {
    if a == 'r' && b == 'l' && z == 's' then 20
    else if a == 'r' && b == 'l' && z == 'b' then 21
    else if a == 'r' && b == 'l' && z == 'i' then 22
    else if a == 'r' && b == 'l' && z == 'd' then 23
    else if a == 'a' && b == 'l' && z == 's' then 30
    else if a == 'a' && b == 'l' && z == 'b' then 31
    else if a == 'a' && b == 'l' && z == 'i' then 32
    else if a == 'a' && b == 'l' && z == 'd' then 33
    else if a == 'a' && b == 'p' && z == 's' then 40
    else if a == 'a' && b == 'p' && z == 'b' then 41
    else if a == 'a' && b == 'p' && z == 'i' then 42
    else if a == 'a' && b == 'p' && z == 'd' then 43
    else if a == 'r' && b == 'p' && z == 's' then 50
    else if a == 'r' && b == 'p' && z == 'b' then 51
    else if a == 'r' && b == 'p' && z == 'i' then 52
    else if a == 'r' && b == 'p' && z == 'd' then 53
    else if a == 't' && b == 'l' && z == 'p' then 211
    else if a == 'a' && b == 'l' && z == 'p' then 212
    else 213
  }

  function Recognize8(a: char, b: char, z: char): nat {
    214
  }

  function Recognize9(a: char, b: char, z: char): nat {
    if a == 'r' && b == 'e' && z == 's' then 90
    else if a == 'r' && b == 'e' && z == 'b' then 91
    else if a == 'r' && b == 'e' && z == 'i' then 92
    else if a == 'r' && b == 'e' && z == 'd' then 93
    else 94
  }

  function Recognize10(a: char, b: char, z: char): nat {
    if a == 't' && b == 'r' && z == 's' then 100
    else if a == 't' && b == 'r' && z == 'b' then 101
    else if a == 't' && b == 'r' && z == 'i' then 102
    else if a == 't' && b == 'r' && z == 'd' then 103
    else 104
  }

  function GetOpcode(text: string): Option<nat> {
    if |text| < 2 then None
    else
      var op := Recognize(|text|, text[0], text[1], text[|text| - 1]);
      if Known(op) && Keyword(op) == text then Some(op) else None
  }

  predicate Recognized(op: nat, k: string) {
    |k| >= 2 && Recognize(|k|, k[0], k[1], k[|k| - 1]) == op
  }

  lemma ControlRecognized(op: nat)
    requires Known(op) && 0 <= op <= 4
    ensures Recognized(op, ControlKeyword(op))
  {
  }

  lemma StackRecognized(op: nat)
    requires Known(op) && 10 <= op <= 33
    ensures Recognized(op, StackKeyword(op))
  {
  }

  lemma PushRecognized(op: nat)
    requires Known(op) && 40 <= op <= 53
    ensures Recognized(op, PushKeyword(op))
  {
  }

  lemma CompareRecognized(op: nat)
    requires Known(op) && 60 <= op <= 86
    ensures Recognized(op, CompareKeyword(op))
  {
  }

  lemma ResolveRecognized(op: nat)
    requires Known(op) && 90 <= op <= 104
    ensures Recognized(op, ResolveKeyword(op))
  {
  }

  lemma ArithmeticRecognized(op: nat)
    requires Known(op) && 110 <= op <= 117
    ensures Recognized(op, ArithmeticKeyword(op))
  {
  }

  lemma FlowRecognized(op: nat)
    requires Known(op) && 200 <= op <= 214
    ensures Recognized(op, FlowKeyword(op))
  {
  }

  /** Looking up a keyword gives the opcode that has it, and nothing else does. */
  lemma OpcodeOfKeyword(op: nat, text: string)
    ensures GetOpcode(text) == Some(op) <==> Known(op) && Keyword(op) == text
  {
    hide Recognize, ControlKeyword, StackKeyword, PushKeyword, CompareKeyword, ResolveKeyword, ArithmeticKeyword,
      FlowKeyword;
    if Known(op) && Keyword(op) == text {
      if op <= 4 { ControlRecognized(op); }
      else if op <= 33 { StackRecognized(op); }
      else if op <= 53 { PushRecognized(op); }
      else if op <= 86 { CompareRecognized(op); }
      else if op <= 104 { ResolveRecognized(op); }
      else if op <= 117 { ArithmeticRecognized(op); }
      else { FlowRecognized(op); }
    }
  }
}
