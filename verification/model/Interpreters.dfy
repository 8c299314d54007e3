/** The interpreter loop over its stack and heap arrays (pkg/il/interpreter/interpreterRun.go). */
module Interpreters {
  import opened Values
  import opened Words
  import opened StringTables
  import opened Opcodes
  import opened Expressions
  import opened CodeGen
  import opened Code
  import opened Machine
  import opened Termination
  import opened Correctness
  import opened Programs
  import opened Compilation

  /** Whether the loop goes on, returns, or leaves with an error. */
  datatype Status = GoOn | Done(r: Result) | Fault(f: Failure)

  function AsOutcome(o: Status, s: State): Outcome {
    match o
    case GoOn => Running(s)
    case Done(r) => Returned(r)
    case Fault(f) => Failed(f)
  }

  function Final(o: Status): Outcome
    requires !o.GoOn?
  {
    if o.Done? then Returned(o.r) else Failed(o.f)
  }

  function Stored(cells: seq<Option<Value>>): seq<Value>
    requires forall i :: 0 <= i < |cells| ==> cells[i].Some?
  {
    seq(|cells|, i requires 0 <= i < |cells| => cells[i].value)
  }

  class Activation {
    const env: Env
    const strings: StringTable
    const opstack: array<nat>
    const heap: array<Option<Value>>
    const registers: array<nat>
    var sp: nat
    var ip: nat
    var hp: nat

    ghost predicate Valid()
      reads this, strings, opstack, heap, registers
    {
      && strings.Valid() && registers.Length == REGISTER_COUNT && registers != opstack
      && opstack.Length == OP_STACK_SIZE && sp <= OP_STACK_SIZE
      && heap.Length == HEAP_SIZE && hp < HEAP_SIZE
      && (forall i :: 0 <= i < hp ==> heap[i].Some?) && (forall i :: hp <= i < HEAP_SIZE ==> heap[i].None?)
    }

    ghost function Now(): State
      requires Valid()
      reads this, strings, opstack, heap, registers
    {
      State(ip, opstack[..sp], Stored(heap[..hp]), strings.Contents(), registers[..])
    }

    constructor (env: Env, strings: StringTable, start: nat)
      requires strings.Valid()
      ensures Valid() && fresh(opstack) && fresh(heap) && fresh(registers) && this.env == env && this.strings == strings
      ensures Now() == State(start, [], [], strings.Contents())
    {
      this.env, this.strings := env, strings;
      opstack := new nat[OP_STACK_SIZE](_ => 0);
      heap := new Option<Value>[HEAP_SIZE](_ => None);
      registers := new nat[REGISTER_COUNT](_ => 0);
      sp, ip, hp := 0, start, 0;
      new;
      assert registers[..] == ZERO_REGISTERS;
    }

    // Elementary changes.

    method Move(to: nat)
      requires Valid()
      modifies this`ip
      ensures Valid() && Now() == old(Now()).(ip := to)
    {
      ip := to;
    }

    method Push(w: nat)
      requires Valid() && sp < OP_STACK_SIZE
      modifies this`sp, opstack
      ensures Valid() && Now() == old(Now()).(stack := old(Now()).stack + [w])
    {
      opstack[sp] := w;
      sp := sp + 1;
      assert opstack[..sp] == old(opstack[..sp]) + [w];
    }

    method Drop(n: nat)
      requires Valid() && n <= sp
      modifies this`sp
      ensures Valid() && |old(Now()).stack| == old(sp)
      ensures Now() == old(Now()).(stack := old(Now()).stack[..old(sp) - n])
    {
      sp := sp - n;
      assert opstack[..sp] == old(opstack[..sp])[..sp];
    }

    method Store(v: Value)
      requires Valid() && hp < HEAP_SIZE - 1
      modifies this`hp, heap
      ensures Valid() && Now() == old(Now()).(heap := old(Now()).heap + [v])
    {
      ghost var before := Stored(heap[..hp]);
      heap[hp] := Some(v);
      hp := hp + 1;
      assert heap[..hp] == old(heap[..hp]) + [Some(v)];
      assert Stored(heap[..hp]) == before + [v];
    }

    method Id(s: string) returns (id: nat)
      requires Valid()
      modifies strings
      ensures Valid() && Now() == old(Now()).(tab := Intern(old(Now()).tab, s))
      ensures id == IndexOf(Now().tab, s) && old(Now()).tab <= Now().tab
    {
      id := strings.GetID(s);
    }

    method Text(id: nat) returns (s: Option<string>)
      requires Valid()
      ensures s == GetString(Now().tab, id)
    {
      s := if id < |strings.idToString| then Some(strings.idToString[id]) else None;
    }

    method Top(k: nat) returns (w: nat)
      requires Valid() && 0 < k <= sp
      ensures k <= |Now().stack| && w == Now().stack[|Now().stack| - k]
    {
      w := opstack[sp - k];
    }

    lemma Sizes()
      requires Valid()
      ensures sp == |Now().stack| <= OP_STACK_SIZE && hp == |Now().heap| < HEAP_SIZE && ip == Now().ip
      ensures registers.Length == |Now().registers| == REGISTER_COUNT && registers != opstack
      ensures opstack.Length == OP_STACK_SIZE && heap.Length == HEAP_SIZE
    {
    }

    lemma TableIs()
      requires Valid()
      ensures strings.Valid() && Now().tab == strings.Contents()
    {
    }

    // The instructions.

    method DoPush(op: nat) returns (o: Status)
      requires Valid() && op in {APUSH_S, APUSH_B, APUSH_I}
      modifies this, opstack
      ensures Valid() && AsOutcome(o, Now()) == StepPush(env, old(Now()), op)
      ensures Now().tab == old(Now()).tab
    {
      hide Valid, Now;
      Sizes();
      var n := if op == APUSH_I then 2 else 1;
      if ip + n >= |env.code| { return Fault(Panic); }
      if sp > OP_STACK_SIZE - n { return Fault(StackOverflow); }
      if n == 2 { Push(env.code[ip + 2]); }
      Sizes();
      Push(env.code[ip + 1]);
      Sizes();
      Move(ip + 1 + n);
      o := GoOn;
    }

    /** Replaces the top `n` words by a truth value. */
    method Answer(n: nat, b: bool, to: nat)
      requires Valid() && 0 < n <= sp
      modifies this, opstack
      ensures Valid() && n <= |old(Now()).stack| && Running(Now()) == Replace(old(Now()), to, n, b)
      ensures Now().tab == old(Now()).tab
    {
      hide Valid, Now;
      Sizes();
      Drop(n);
      Sizes();
      Push(BoolToByteCode(b));
      Move(to);
    }

    method DoBool(op: nat) returns (o: Status)
      requires Valid() && op in {EQ_S, EQ_B, EQ_I, AND, NOT}
      modifies this, opstack
      ensures Valid() && AsOutcome(o, Now()) == StepBool(old(Now()), op)
      ensures Now().tab == old(Now()).tab
    {
      hide Valid, Now;
      Sizes();
      var n := if op == NOT then 1 else if op == EQ_I then 4 else 2;
      if sp < n { return Fault(StackUnderflow); }
      var t1 := Top(1);
      o := GoOn;
      if op == NOT {
        Answer(1, t1 == 0, ip + 1);
      } else {
        var t2 := Top(2);
        if op == AND {
          Answer(2, t1 != 0 && t2 != 0, ip + 1);
        } else if op == EQ_I {
          var t3 := Top(3);
          var t4 := Top(4);
          Answer(4, t1 == t3 && t2 == t4, ip + 1);
        } else {
          Answer(2, t1 == t2, ip + 1);
        }
      }
    }

    method DoAEq(op: nat) returns (o: Status)
      requires Valid() && op in {AEQ_S, AEQ_B, AEQ_I}
      modifies this, opstack
      ensures Valid() && AsOutcome(o, Now()) == StepAEq(env, old(Now()), op)
      ensures Now().tab == old(Now()).tab
    {
      hide Valid, Now;
      Sizes();
      var n := if op == AEQ_I then 2 else 1;
      if ip + n >= |env.code| { return Fault(Panic); }
      if sp < n { return Fault(StackUnderflow); }
      var t1 := Top(1);
      o := GoOn;
      if n == 2 {
        var t2 := Top(2);
        Answer(2, t1 == env.code[ip + 1] && t2 == env.code[ip + 2], ip + 3);
      } else {
        Answer(1, t1 == env.code[ip + 1], ip + 2);
      }
    }

    /** Loads an attribute value: its words on the stack, a map on the heap, a string in the table. */
    method LoadValue(op: nat, name: string, v: Value) returns (o: Status)
      requires Valid() && op in {RESOLVE_S, RESOLVE_B, RESOLVE_I, RESOLVE_F}
        && sp + (if op == RESOLVE_I then 2 else 1) <= OP_STACK_SIZE
      modifies this`sp, this`hp, opstack, heap, strings
      ensures Valid() && ip == old(ip) && old(Now()).tab <= Now().tab
      ensures match Load(op, v, old(Now()).heap, old(Now()).tab)
        case Mismatch => o == Fault(BadConversion(name))
        case HeapFull => o == Fault(HeapOverflow)
        case Loaded(ws, heap, tab) =>
          o == GoOn && Now() == old(Now()).(stack := old(Now()).stack + ws, heap := heap, tab := tab)
    {
      hide Valid, Now;
      Sizes();
      o := GoOn;
      if op == RESOLVE_S {
        if !v.Str? { return Fault(BadConversion(name)); }
        var id := Id(v.s);
        Push(id);
      } else if op == RESOLVE_B {
        if !v.Boolean? { return Fault(BadConversion(name)); }
        Push(BoolToByteCode(v.b));
      } else if op == RESOLVE_I {
        if !v.Int? && !v.Dur? { return Fault(BadConversion(name)); }
        var i := if v.Int? then v.i else v.d;
        Push(High(i));
        Sizes();
        Push(Low(i));
      } else {
        if hp == HEAP_SIZE - 1 { return Fault(HeapOverflow); }
        var t2 := hp;
        Store(v);
        Push(t2);
      }
      Sizes();
    }

    method DoResolve(op: nat) returns (o: Status)
      requires Valid() && op in {RESOLVE_S, RESOLVE_B, RESOLVE_I, RESOLVE_F}
      modifies this, opstack, heap, strings
      ensures Valid() && AsOutcome(o, Now()) == StepResolve(env, old(Now()), op)
      ensures old(Now()).tab <= Now().tab
    {
      hide Valid, Now, Load, GetString;
      Sizes();
      if sp > OP_STACK_SIZE - (if op == RESOLVE_I || op == RESOLVE_F then 2 else 1) { return Fault(StackOverflow); }
      if ip + 1 >= |env.code| { return Fault(Panic); }
      var t := Text(env.code[ip + 1]);
      if t.None? { return Fault(Panic); }
      if t.value !in env.bag { return Fault(LookupFailed(t.value)); }
      o := LoadValue(op, t.value, env.bag[t.value]);
      if o.GoOn? { Move(ip + 2); }
    }

    method DoTResolve(op: nat) returns (o: Status)
      requires Valid() && op in {TRESOLVE_S, TRESOLVE_B, TRESOLVE_I, TRESOLVE_F}
      modifies this, opstack, heap, strings
      ensures Valid() && AsOutcome(o, Now()) == StepTResolve(env, old(Now()), op)
      ensures old(Now()).tab <= Now().tab
    {
      hide Valid, Now, Load, GetString;
      Sizes();
      if sp > OP_STACK_SIZE - (if op == TRESOLVE_I then 3 else 2) { return Fault(StackOverflow); }
      if ip + 1 >= |env.code| { return Fault(Panic); }
      var t := Text(env.code[ip + 1]);
      if t.None? { return Fault(Panic); }
      o := GoOn;
      if t.value !in env.bag {
        Push(0);
        Sizes();
        Move(ip + 2);
      } else {
        ghost var s := Now();
        o := LoadValue(op - 10, t.value, env.bag[t.value]);
        if o.GoOn? {
          Sizes();
          LoadedWords(op - 10, env.bag[t.value], s.heap, s.tab);
          Push(1);
          Sizes();
          Move(ip + 2);
        }
      }
    }

    method DoJump(op: nat) returns (o: Status)
      requires Valid() && op in {JMP, JZ, JNZ}
      modifies this
      ensures Valid() && AsOutcome(o, Now()) == StepJump(env, old(Now()), op)
      ensures Now().tab == old(Now()).tab
    {
      hide Valid, Now;
      Sizes();
      if op != JMP && sp < 1 { return Fault(StackUnderflow); }
      if ip + 1 >= |env.code| { return Fault(Panic); }
      var t1 := env.code[ip + 1];
      o := GoOn;
      if op == JMP {
        Move(t1);
      } else {
        var t2 := Top(1);
        Drop(1);
        Sizes();
        if (op == JZ) == (t2 == 0) { Move(t1); } else { Move(ip + 2); }
      }
    }

    method DoRet() returns (o: Status)
      requires Valid()
      ensures AsOutcome(o, Now()) == StepRet(env.ret, Now())
    {
      hide GetString;
      if sp < 1 { return Fault(StackUnderflow); }
      var v1, t := opstack[sp - 1], env.ret;
      if t.BOOL? {
        o := Done(Result(t, v1, 0, "", None));
      } else if t.STRING? {
        var vs := Text(v1);
        o := if vs.None? then Fault(Panic) else Done(Result(t, v1, 0, vs.value, None));
      } else if t.STRING_MAP? {
        o := if v1 < HEAP_SIZE then Done(Result(t, v1, 0, "", heap[v1])) else Fault(Panic);
      } else {
        o := if sp < 2 then Fault(StackUnderflow) else Done(Result(t, v1, opstack[sp - 2], "", None));
      }
    }

    method Find(key: nat, ref: nat) returns (r: Found)
      requires Valid()
      ensures r == LookupIn(Now(), key, ref)
    {
      var k := Text(key);
      if k.None? { return Crash(Panic); }
      if ref >= hp { return Crash(InvalidHeapAccess); }
      var v := heap[ref].value;
      if !v.StrMap? { return Crash(Panic); }
      r := Found(if k.value in v.m then Some(v.m[k.value]) else None);
    }

    /** Replaces the top `n` words by the id of a string, and a 1 when it was tested for. */
    method Give(n: nat, v: string, tested: bool, to: nat)
      requires Valid() && 0 < n <= sp && (tested ==> n == 2)
      modifies this, opstack, strings
      ensures Valid() && n <= |old(Now()).stack|
      ensures var s := old(Now());
        Running(Now()) == PushString(s, to, s.stack[..|s.stack| - n], v, if tested then [1] else [])
            && s.tab <= Now().tab
    {
      hide Valid, Now, Intern;
      Sizes();
      Drop(n);
      Sizes();
      var id := Id(v);
      Sizes();
      Push(id);
      Sizes();
      if tested { Push(1); }
      Move(to);
    }

    method DoLookup(op: nat) returns (o: Status)
      requires Valid() && op in {TLOOKUP, NLOOKUP}
      modifies this, opstack, strings
      ensures Valid() && AsOutcome(o, Now()) == StepLookup(old(Now()), op)
      ensures old(Now()).tab <= Now().tab
    {
      hide Valid, Now, LookupIn, PushString;
      Sizes();
      if sp < 2 { return Fault(StackUnderflow); }
      var t1 := Top(1);
      var t2 := Top(2);
      var r := Find(t1, t2);
      if r.Crash? { return Fault(r.f); }
      o := GoOn;
      if r.v.Some? {
        Give(2, r.v.value, op == TLOOKUP, ip + 1);
      } else if op == NLOOKUP {
        Give(2, "", false, ip + 1);
      } else {
        Drop(2);
        Sizes();
        Push(0);
        Sizes();
        Move(ip + 1);
      }
    }

    method DoANLookup() returns (o: Status)
      requires Valid()
      modifies this, opstack, strings
      ensures Valid() && AsOutcome(o, Now()) == StepANLookup(env, old(Now()))
      ensures old(Now()).tab <= Now().tab
    {
      hide Valid, Now, LookupIn, PushString;
      Sizes();
      if sp < 1 { return Fault(StackUnderflow); }
      if ip + 1 >= |env.code| { return Fault(Panic); }
      var t2 := Top(1);
      var r := Find(env.code[ip + 1], t2);
      if r.Crash? { return Fault(r.f); }
      Give(1, if r.v.Some? then r.v.value else "", false, ip + 2);
      o := GoOn;
    }

    // The instructions that the compiler does not emit.

    method DoErr(op: nat) returns (o: Status)
      requires Valid() && ERR <= op <= ERRNZ
      modifies this
      ensures Valid() && AsOutcome(o, Now()) == StepErr(env, old(Now()), op)
      ensures Now().tab == old(Now()).tab
    {
      hide Valid, Now, GetString;
      Sizes();
      if op != ERR && sp < 1 { return Fault(StackUnderflow); }
      if ip + 1 >= |env.code| { return Fault(Panic); }
      var t1 := env.code[ip + 1];
      if op != ERR {
        var t2 := Top(1);
        if (op == ERRZ) != (t2 == 0) {
          Drop(1);
          Sizes();
          Move(ip + 2);
          return GoOn;
        }
      }
      var message := Text(t1);
      o := if message.None? then Fault(Panic) else Fault(Raised(message.value));
    }

    method DoStack(op: nat) returns (o: Status)
      requires Valid() && (op == NOP || POP_S <= op <= DUP_D)
      modifies this, opstack
      ensures Valid() && AsOutcome(o, Now()) == StepStack(old(Now()), op)
      ensures Now().tab == old(Now()).tab
    {
      hide Valid, Now;
      Sizes();
      o := GoOn;
      if op == NOP {
        Move(ip + 1);
        return;
      }
      var n := if op == POP_S || op == POP_B || op == DUP_S || op == DUP_B then 1 else 2;
      if sp < n { return Fault(StackUnderflow); }
      if op <= POP_D {
        Drop(n);
      } else {
        if sp > OP_STACK_SIZE - n { return Fault(StackOverflow); }
        ghost var stack := Now().stack;
        var t1 := Top(n);
        Push(t1);
        Sizes();
        if n == 2 {
          var t2 := Top(n);
          Push(t2);
        }
        LastOnes(stack, n, Now().stack);
      }
      Sizes();
      Move(ip + 1);
    }

    /** Stores one or two words in registers. */
    method Keep(r: nat, w: nat, w2: nat, n: nat) returns (ok: bool)
      requires Valid() && 1 <= n <= 2
      modifies registers
      ensures Valid() && ok == (r + n <= |old(Now()).registers|)
      ensures var s, ws := old(Now()), if n == 2 then [w, w2] else [w];
        Now() == if ok then s.(registers := s.registers[..r] + ws + s.registers[r + n..]) else s
    {
      if r + n > REGISTER_COUNT { return false; }
      registers[r] := w;
      if n == 2 { registers[r + 1] := w2; }
      var ws := if n == 2 then [w, w2] else [w];
      assert registers[..] == old(registers[..r]) + ws + old(registers[r + n..]);
      ok := true;
    }

    method DoRLoad(op: nat) returns (o: Status)
      requires Valid() && RLOAD_S <= op <= RLOAD_D
      modifies this, registers
      ensures Valid() && AsOutcome(o, Now()) == StepRLoad(env, old(Now()), op)
      ensures Now().tab == old(Now()).tab
    {
      hide Valid, Now, WidthOf;
      WidthIs(op);
      Sizes();
      var n := WidthOf(op);
      if sp < n { return Fault(StackUnderflow); }
      if ip + 1 >= |env.code| { return Fault(Panic); }
      var t1 := Top(1);
      var t2 := Top(n);
      var ok := Keep(env.code[ip + 1], t1, t2, n);
      if !ok { return Fault(Panic); }
      Sizes();
      Drop(n);
      Sizes();
      Move(ip + 2);
      o := GoOn;
    }

    method DoALoad(op: nat) returns (o: Status)
      requires Valid() && ALOAD_S <= op <= ALOAD_D
      modifies this, registers
      ensures Valid() && AsOutcome(o, Now()) == StepALoad(env, old(Now()), op)
      ensures Now().tab == old(Now()).tab
    {
      hide Valid, Now, WidthOf;
      WidthIs(op);
      Sizes();
      var n := WidthOf(op);
      if ip + 1 + n >= |env.code| { return Fault(Panic); }
      var ok := Keep(env.code[ip + 1], env.code[ip + 2], env.code[ip + 1 + n], n);
      if !ok { return Fault(Panic); }
      Sizes();
      Move(ip + 2 + n);
      o := GoOn;
    }

    method DoRPush(op: nat) returns (o: Status)
      requires Valid() && RPUSH_S <= op <= RPUSH_D
      modifies this, opstack
      ensures Valid() && AsOutcome(o, Now()) == StepRPush(env, old(Now()), op)
      ensures Now().tab == old(Now()).tab
    {
      hide Valid, Now, WidthOf;
      WidthIs(op);
      Sizes();
      var n := WidthOf(op);
      if ip + 1 >= |env.code| { return Fault(Panic); }
      if sp > OP_STACK_SIZE - 1 { return Fault(StackOverflow); }
      var r := env.code[ip + 1];
      if r + n > REGISTER_COUNT || sp + n > OP_STACK_SIZE { return Fault(Panic); }
      var t1 := Register(r);
      if n == 2 {
        var t2 := Register(r + 1);
        Push(t2);
        Sizes();
      }
      Push(t1);
      Sizes();
      Move(ip + 2);
      o := GoOn;
    }

    method Register(r: nat) returns (w: nat)
      requires Valid() && r < REGISTER_COUNT
      ensures r < |Now().registers| && w == Now().registers[r]
    {
      w := registers[r];
    }

    method DoLogic(op: nat) returns (o: Status)
      requires Valid() && (op == XOR || op == OR_B)
      modifies this, opstack
      ensures Valid() && AsOutcome(o, Now()) == StepLogic(old(Now()), op)
      ensures Now().tab == old(Now()).tab
    {
      hide Valid, Now, Logic;
      Sizes();
      if sp < 2 { return Fault(StackUnderflow); }
      var t1 := Top(1);
      var t2 := Top(2);
      Answer(2, Logic(op, t1, t2), ip + 1);
      o := GoOn;
    }

    method DoALogic(op: nat) returns (o: Status)
      requires Valid() && AXOR <= op <= AOR
      modifies this, opstack
      ensures Valid() && AsOutcome(o, Now()) == StepALogic(env, old(Now()), op)
      ensures Now().tab == old(Now()).tab
    {
      hide Valid, Now, Logic;
      Sizes();
      if ip + 1 >= |env.code| { return Fault(Panic); }
      var t1 := env.code[ip + 1];
      if sp < 1 { return Fault(StackUnderflow); }
      var t2 := Top(1);
      Answer(1, Logic(op, t1, t2), ip + 2);
      o := GoOn;
    }

    /** Replaces the top `n` words by the two words of an integer. */
    method PutInteger(n: nat, i: int64, to: nat)
      requires Valid() && 2 <= n <= sp
      modifies this, opstack
      ensures Valid() && n <= |old(Now()).stack| && Now().tab == old(Now()).tab
      ensures var s := old(Now()); Running(Now()) == PushInteger(s, to, s.stack[..|s.stack| - n], i)
    {
      hide Valid, Now, High, Low;
      Sizes();
      Drop(n);
      Sizes();
      Push(High(i));
      Sizes();
      Push(Low(i));
      Move(to);
    }

    method DoSum(op: nat) returns (o: Status)
      requires Valid() && (op == ADD_I || op == SUB_I)
      modifies this, opstack
      ensures Valid() && AsOutcome(o, Now()) == StepSum(old(Now()), op)
      ensures Now().tab == old(Now()).tab
    {
      hide Valid, Now, ByteCodeToInteger, Sum64, PushInteger;
      Sizes();
      if sp < 4 { return Fault(StackUnderflow); }
      var t1 := Top(1);
      var t2 := Top(2);
      var t3 := Top(3);
      var t4 := Top(4);
      PutInteger(4, Sum64(op, ByteCodeToInteger(t3, t4), ByteCodeToInteger(t1, t2)), ip + 1);
      o := GoOn;
    }

    method DoASum(op: nat) returns (o: Status)
      requires Valid() && (op == AADD_I || op == ASUB_I)
      modifies this, opstack
      ensures Valid() && AsOutcome(o, Now()) == StepASum(env, old(Now()), op)
      ensures Now().tab == old(Now()).tab
    {
      hide Valid, Now, ByteCodeToInteger, Sum64, PushInteger;
      Sizes();
      if sp < 2 { return Fault(StackUnderflow); }
      if ip + 2 >= |env.code| { return Fault(Panic); }
      var y := ByteCodeToInteger(env.code[ip + 1], env.code[ip + 2]);
      var t1 := Top(1);
      var t2 := Top(2);
      PutInteger(2, Sum64(op, ByteCodeToInteger(t1, t2), y), ip + 3);
      o := GoOn;
    }

    /** Replaces the top `n` words by the member that they name. */
    method GiveMember(n: nat, key: nat, ref: nat, to: nat) returns (o: Status)
      requires Valid() && 0 < n <= sp
      modifies this, opstack, strings
      ensures Valid() && n <= |old(Now()).stack| && old(Now()).tab <= Now().tab
      ensures var s := old(Now()); AsOutcome(o, Now()) == Member(s, to, s.stack[..|s.stack| - n], key, ref)
    {
      hide Valid, Now, LookupIn, PushString, GetString;
      Sizes();
      var r := Find(key, ref);
      if r.Crash? { return Fault(r.f); }
      if r.v.None? {
        var k := Text(key);
        return if k.None? then Fault(Panic) else Fault(MemberMissing(k.value));
      }
      Give(n, r.v.value, false, to);
      o := GoOn;
    }

    method DoMember() returns (o: Status)
      requires Valid()
      modifies this, opstack, strings
      ensures Valid() && AsOutcome(o, Now()) == StepMember(old(Now()))
      ensures old(Now()).tab <= Now().tab
    {
      hide Valid, Now, Member;
      Sizes();
      if sp < 2 { return Fault(StackUnderflow); }
      var t1 := Top(1);
      var t2 := Top(2);
      o := GiveMember(2, t1, t2, ip + 1);
    }

    method DoAMember() returns (o: Status)
      requires Valid()
      modifies this, opstack, strings
      ensures Valid() && AsOutcome(o, Now()) == StepAMember(env, old(Now()))
      ensures old(Now()).tab <= Now().tab
    {
      hide Valid, Now, Member;
      Sizes();
      if sp < 1 { return Fault(StackUnderflow); }
      if ip + 1 >= |env.code| { return Fault(Panic); }
      var t2 := Top(1);
      o := GiveMember(1, env.code[ip + 1], t2, ip + 2);
    }

    method DoOther(op: nat) returns (o: Status)
      requires Valid()
      modifies this, opstack, heap, strings, registers
      ensures Valid() && AsOutcome(o, Now()) == StepOther(env, old(Now()), op)
      ensures old(Now()).tab <= Now().tab
    {
      hide Valid, Now, StepPush, StepBool, StepAEq, StepErr, StepStack, StepRLoad, StepALoad, StepRPush, StepLogic,
        StepALogic, StepSum, StepASum, StepMember, StepAMember;
      if op == APUSH_D { o := DoPush(APUSH_I); }
      else if op == EQ_D { o := DoBool(EQ_I); }
      else if op == AEQ_D { o := DoAEq(AEQ_I); }
      else if ERR <= op <= ERRNZ { o := DoErr(op); }
      else if op == NOP || POP_S <= op <= DUP_D { o := DoStack(op); }
      else if RLOAD_S <= op <= RLOAD_D { o := DoRLoad(op); }
      else if ALOAD_S <= op <= ALOAD_D { o := DoALoad(op); }
      else if RPUSH_S <= op <= RPUSH_D { o := DoRPush(op); }
      else if op == XOR || op == OR_B { o := DoLogic(op); }
      else if AXOR <= op <= AOR { o := DoALogic(op); }
      else if op == ADD_I || op == SUB_I { o := DoSum(op); }
      else if op == AADD_I || op == ASUB_I { o := DoASum(op); }
      else if op == LOOKUP { o := DoMember(); }
      else if op == ALOOKUP { o := DoAMember(); }
      else { o := Fault(InvalidOpcode(op)); }
    }

    /** One turn of the loop. */
    method StepOnce() returns (o: Status)
      requires Valid()
      modifies this, opstack, heap, strings, registers
      ensures Valid() && AsOutcome(o, Now()) == Step(env, old(Now()))
      ensures old(Now()).tab <= Now().tab
    {
      hide Valid, Now, StepPush, StepBool, StepAEq, StepResolve, StepTResolve, StepJump, StepRet, StepLookup,
        StepANLookup, StepOther;
      Sizes();
      if ip >= |env.code| { return Fault(Panic); }
      var op := env.code[ip];
      if op == HALT { o := Fault(Halted); }
      else if op == APUSH_S || op == APUSH_B || op == APUSH_I { o := DoPush(op); }
      else if op == EQ_S || op == EQ_B || op == EQ_I || op == AND || op == NOT { o := DoBool(op); }
      else if op == AEQ_S || op == AEQ_B || op == AEQ_I { o := DoAEq(op); }
      else if op == RESOLVE_S || op == RESOLVE_B || op == RESOLVE_I || op == RESOLVE_F { o := DoResolve(op); }
      else if op == TRESOLVE_S || op == TRESOLVE_B || op == TRESOLVE_I || op == TRESOLVE_F { o := DoTResolve(op); }
      else if op == JMP || op == JZ || op == JNZ { o := DoJump(op); }
      else if op == RET { o := DoRet(); }
      else if op == TLOOKUP || op == NLOOKUP { o := DoLookup(op); }
      else if op == ANLOOKUP { o := DoANLookup(); }
      else { o := DoOther(op); }
    }

    /** The loop, on code that only moves forward: it ends as the machine does. */
    method Run(ghost e: Expr, ghost cx: Context, ghost base: nat) returns (o: Status)
      requires Valid() && EvalType(e, cx.types).Some? && Supported(e, cx.types)
      requires At(env.code, base, Body(e, cx)) && ip in Starts(Body(e, cx), base)
      modifies this, opstack, heap, strings, registers
      ensures !o.GoOn? && Final(o) == Exec(env, old(Now()), Size(Body(e, cx)))
      ensures Valid() && old(Now()).tab <= Now().tab
    {
      hide Valid, Now, At, Body, Starts, Step;
      ghost var s0, n, m := Now(), 0, Size(Body(e, cx));
      o := GoOn;
      Sizes();
      StartsBefore(Body(e, cx), base, ip);
      while o.GoOn?
        invariant Valid() && n <= m && s0.tab <= Now().tab
        invariant o.GoOn? ==>
          && Exec(env, s0, n) == Running(Now()) && ip == Now().ip && ip in Starts(Body(e, cx), base)
          && base + n <= ip
        invariant !o.GoOn? ==> Final(o) == Exec(env, s0, n)
        decreases m - n, o.GoOn?
      {
        ghost var s := Now();
        BodyStep(e, cx, base, env, s);
        ExecAdd(env, s0, n, 1);
        ExecStep(env, s);
        o := StepOnce();
        Sizes();
        n := n + 1;
      }
      ExecStops(env, s0, n, m - n);
    }
  }

  lemma WidthIs(op: nat)
    ensures 1 <= WidthOf(op) <= 2
  {
  }

  /** Pushing the words of a value again, lowest first. */
  lemma LastOnes(stack: seq<nat>, n: nat, after: seq<nat>)
    requires 1 <= n <= 2 && n <= |stack|
    requires after == stack + (if n == 1 then [stack[|stack| - 1]] else [stack[|stack| - 2], stack[|stack| - 1]])
    ensures after == stack + stack[|stack| - n..]
  {
  }

  lemma LoadedWords(op: nat, v: Value, heap: seq<Value>, tab: seq<string>)
    ensures Load(op, v, heap, tab).Loaded? ==> |Load(op, v, heap, tab).words| <= if op == RESOLVE_I then 2 else 1
  {
  }

  /** Evaluates a function by name against a bag. */
  class Interpreter {
    const program: Program
    const code: seq<nat>

    constructor (p: Program)
      ensures program == p && code == p.code
    {
      program, code := p, p.code;
    }

    /** A compiled function gives the outcome of the machine; an unknown name is an error. */
    method Eval(name: string, bag: Bag, ghost e: Expr, ghost types: Vocabulary, ghost tab: seq<string>)
      returns (o: Option<Status>)
      requires program.strings.Valid()
      requires var now := program.strings.Contents();
        var id := IndexOf(now, name);
        name in now && id in program.functions ==> Compiled(e, types, code, tab, program.functions[id])
      modifies program.strings
      ensures program.strings.Valid() && old(program.strings.Contents()) <= program.strings.Contents()
      ensures var now := old(program.strings.Contents());
        var id := IndexOf(now, name);
        if name !in now || id == 0 || id !in program.functions then o == None
        else o.Some? && !o.value.GoOn? && var f := program.functions[id];
          Final(o.value) == Evaluate(Env(code, bag, f.ret), f.address, now)
    {
      hide Evaluate, Body, At, Exec, Starts, Size, Compiled, EvalType, Supported, IndexOf;
      var id := program.strings.TryGetID(name);
      if id == 0 || id !in program.functions { return None; }
      var f := program.functions[id];
      var env := Env(code, bag, f.ret);
      ghost var cx := Context(types, tab);
      var run := new Activation(env, program.strings, f.address);
      Launch(e, types, code, tab, f);
      ghost var s := run.Now();
      var status := run.Run(e, cx, f.address);
      EvaluateCompiled(e, cx, f.address, env, s);
      run.TableIs();
      o := Some(status);
    }
  }

  lemma Launch(e: Expr, types: Vocabulary, code: seq<nat>, tab: seq<string>, f: Function)
    requires Compiled(e, types, code, tab, f)
    ensures EvalType(e, types).Some? && Supported(e, types)
    ensures At(code, f.address, Body(e, Context(types, tab)))
      && f.address in Starts(Body(e, Context(types, tab)), f.address)
  {
    hide Body, At, Starts, Size;
    BodyForward(e, Context(types, tab), f.address);
  }

  lemma EvaluateCompiled(e: Expr, cx: Context, base: nat, env: Env, s: State)
    requires EvalType(e, cx.types).Some? && Supported(e, cx.types) && At(env.code, base, Body(e, cx))
    requires s == State(base, [], [], s.tab)
    ensures Evaluate(env, base, s.tab) == Exec(env, s, Size(Body(e, cx)))
  {
    hide Exec, Body, At, Starts, Size;
    BodyForward(e, cx, base);
    BodyInCode(env.code, base, Body(e, cx));
    CompiledCodeTerminates(e, cx, base, env, s, Size(Body(e, cx)));
    ExecStops(env, s, Size(Body(e, cx)), |env.code| - Size(Body(e, cx)));
  }
}
