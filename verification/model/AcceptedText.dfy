/** Whatever text the parser accepts, the code that it builds is well formed. */
module AcceptedText {
  import opened Values
  import opened StringTables
  import opened Opcodes
  import opened Keywords
  import opened Scanners
  import opened Assembly
  import opened Parsing
  import opened Machine
  import opened Programs

  // ----- appending an instruction -----

  /** One instruction more: the body stays complete, and gains one boundary. */
  lemma {:induction false} WholeAppend(body: seq<nat>, ws: seq<nat>, i: nat)
    requires Whole(body, i) && i <= |body| && |ws| > 0 && |ws| == OpSize(ws[0])
    ensures Whole(body + ws, i) && Boundaries(body + ws, i) == Boundaries(body, i) + {|body|}
    decreases |body| - i
  {
    hide OpSize;
    var all := body + ws;
    if i < |body| {
      assert all[i] == body[i];
      WholeAppend(body, ws, i + OpSize(body[i]));
    } else {
      assert all[i] == ws[0];
      assert Boundaries(all, |all|) == {} && Boundaries(body, i) == {};
    }
  }

  lemma {:induction false} BoundariesWithin(body: seq<nat>, i: nat, b: nat)
    requires b in Boundaries(body, i) && Whole(body, i)
    ensures i <= b < |body| && b + OpSize(body[b]) <= |body|
    decreases |body| - i
  {
    hide OpSize;
    if b != i { BoundariesWithin(body, i + OpSize(body[i]), b); }
  }

  /** No instruction starts inside another. */
  lemma {:induction false} NotInside(body: seq<nat>, i: nat, b: nat, c: nat)
    requires Whole(body, i) && b in Boundaries(body, i) && c in Boundaries(body, i) && b < c
    ensures b < |body| && b + OpSize(body[b]) <= c
    decreases |body| - i
  {
    hide OpSize;
    if b == i {
      BoundariesWithin(body, i + OpSize(body[i]), c);
    } else {
      BoundariesWithin(body, i + OpSize(body[i]), b);
      NotInside(body, i + OpSize(body[i]), b, c);
    }
  }

  // ----- what the parser keeps -----

  /** A hole is the operand of a jump. */
  predicate HoleOK(body: seq<nat>, i: nat) {
    0 < i < |body| && i - 1 in Boundaries(body, 0) && IsJump(body[i - 1])
  }

  predicate TargetOK(body: seq<nat>, t: nat) {
    t in Boundaries(body, 0) || t == |body|
  }

  /**
   Complete instructions, a hole for every jump and nothing else, and labels in front of instructions or at the end.
   */
  ghost predicate Sound(p: Partial) {
    && Whole(p.body, 0)
    && (forall i :: i in p.fixups ==> HoleOK(p.body, i))
    && (forall b :: b in Boundaries(p.body, 0) && b < |p.body| && IsJump(p.body[b]) ==> b + 1 in p.fixups)
    && (forall l :: l in p.labels ==> TargetOK(p.body, p.labels[l]))
  }

  /** The words added for operands, and the hole if there is one. */
  lemma {:induction false} OperandsAdded(args: seq<Arg>, cur: Scanned, p: Partial) returns (ws: seq<nat>)
    requires ParseOperands(args, cur, p).Some?
    ensures var q := ParseOperands(args, cur, p).value.1;
      && q.body == p.body + ws && |ws| == ArgsSize(args) && q.labels == p.labels
      && (ArgAddress !in args ==> q.fixups == p.fixups)
      && (args == [ArgAddress] ==> q.fixups.Keys == p.fixups.Keys + {|p.body|})
    decreases |args|
  {
    hide ParseOperand, NextOrFail;
    if args == [] {
      ws := [];
      assert p.body + ws == p.body;
    } else {
      var r := NextOrFail(cur).value;
      var w := OperandAdded(args[0], r, p);
      var p' := ParseOperand(args[0], r, p).value;
      var rest := OperandsAdded(args[1..], r, p');
      ws := w + rest;
      assert p.body + w + rest == p.body + ws;
      ArgsSizeStep(args);
      assert forall a :: a in args[1..] ==> a in args;
    }
  }

  lemma ArgsSizeStep(args: seq<Arg>)
    requires args != []
    ensures ArgsSize(args) == ArgSize(args[0]) + ArgsSize(args[1..])
  {
  }

  lemma OperandAdded(a: Arg, r: Scanned, p: Partial) returns (ws: seq<nat>)
    requires ParseOperand(a, r, p).Some?
    ensures var q := ParseOperand(a, r, p).value;
      && q.body == p.body + ws && |ws| == ArgSize(a) && q.labels == p.labels
      && (!a.ArgAddress? ==> q.fixups == p.fixups) && (a.ArgAddress? ==> q.fixups.Keys == p.fixups.Keys + {|p.body|})
  {
    hide AsStringLiteral, AsIntegerLiteral, Register, Intern, IndexOf;
    var q := ParseOperand(a, r, p).value;
    ws := q.body[|p.body|..];
  }

  /** An instruction line keeps the code sound. */
  lemma InstructionSound(op: nat, cur: Scanned, p: Partial)
    requires Sound(p) && ParseOperands(Args(op), cur, p.(body := p.body + [op])).Some?
    ensures Sound(ParseOperands(Args(op), cur, p.(body := p.body + [op])).value.1)
  {
    hide ParseOperands, Args, ArgsSize;
    var s := p.(body := p.body + [op]);
    var q := ParseOperands(Args(op), cur, s).value.1;
    var ws := OperandsAdded(Args(op), cur, s);
    var ins := [op] + ws;
    assert q.body == p.body + ins;
    OnlyJumpsHoldAddresses(op);
    WholeAppend(p.body, ins, 0);
    GrownSound(p, q, ins);
  }

  lemma GrownSound(p: Partial, q: Partial, ins: seq<nat>)
    requires Sound(p) && |ins| > 0 && q.body == p.body + ins && q.labels == p.labels && Whole(q.body, 0)
    requires Boundaries(q.body, 0) == Boundaries(p.body, 0) + {|p.body|}
    requires IsJump(ins[0]) ==> |ins| == 2 && q.fixups.Keys == p.fixups.Keys + {|p.body| + 1}
    requires !IsJump(ins[0]) ==> q.fixups == p.fixups
    ensures Sound(q)
  {
    hide Boundaries, Whole;
    forall i | i in q.fixups ensures HoleOK(q.body, i) {
      if i in p.fixups { assert HoleOK(p.body, i); }
    }
    forall b | b in Boundaries(q.body, 0) && b < |q.body| && IsJump(q.body[b]) ensures b + 1 in q.fixups {
      if b in Boundaries(p.body, 0) { BoundariesWithin(p.body, 0, b); }
    }
    forall l | l in q.labels ensures TargetOK(q.body, q.labels[l]) {
      assert TargetOK(p.body, p.labels[l]);
    }
  }

  lemma {:induction false} LinesSound(cur: Scanned, p: Partial)
    requires Sound(p) && ParseLines(cur, p).Some?
    ensures Sound(ParseLines(cur, p).value.1)
    decreases |cur.rest|
  {
    hide Sound, SkipNewlines, GetOpcode, NextOrFail, NextToken, ParseOperands, Args;
    var c := SkipNewlines(cur);
    if c.token == TkLabel && AsLabel(c).Some? {
      LabelSound(p, AsLabel(c).value);
      LinesSound(NextOrFail(c).value, p.(labels := p.labels[AsLabel(c).value := |p.body|]));
    } else if c.raw != "end" {
      var op := GetOpcode(c.raw).value;
      InstructionSound(op, c, p);
      var (c2, p2) := ParseOperands(Args(op), c, p.(body := p.body + [op])).value;
      LinesSound(NextToken(c2, TkNewLine).value, p2);
    }
  }

  lemma LabelSound(p: Partial, l: string)
    requires Sound(p)
    ensures Sound(p.(labels := p.labels[l := |p.body|]))
  {
    hide Boundaries, Whole;
  }

  // ----- filling the holes -----

  /** Words at boundaries are not holes, so the boundaries stay. */
  lemma {:induction false} FilledBoundaries(p: Partial, body: seq<nat>, i: nat)
    requires Sound(p) && Resolve(p) == Some(body) && i <= |p.body| && Whole(p.body, i)
    requires forall b :: b in Boundaries(p.body, i) ==> b in Boundaries(p.body, 0)
    ensures |body| == |p.body| && Whole(body, i) && Boundaries(body, i) == Boundaries(p.body, i)
    decreases |p.body| - i
  {
    hide OpSize;
    if i < |p.body| {
      assert i in Boundaries(p.body, i);
      BoundaryNoHole(p, i);
      assert body[i] == p.body[i];
      FilledBoundaries(p, body, i + OpSize(p.body[i]));
    }
  }

  lemma BoundaryNoHole(p: Partial, i: nat)
    requires Sound(p) && i in Boundaries(p.body, 0)
    ensures i !in p.fixups
  {
    hide Boundaries, Whole, OpSize;
    if i in p.fixups {
      assert HoleOK(p.body, i);
      NotInside(p.body, 0, i - 1, i);
      JumpTakesTwo(p.body[i - 1]);
    }
  }

  lemma JumpTakesTwo(op: nat)
    requires IsJump(op)
    ensures OpSize(op) == 2
  {
    OnlyJumpsHoldAddresses(op);
  }

  /** Filled in, every jump leads to an instruction or to the end. */
  lemma FilledLands(p: Partial, body: seq<nat>)
    requires Sound(p) && Resolve(p) == Some(body)
    ensures Whole(body, 0) && JumpsStay(body)
  {
    hide Boundaries, Whole, OpSize;
    FilledBoundaries(p, body, 0);
    forall b | b in Boundaries(body, 0) && b + 1 < |body| && IsJump(body[b])
      ensures body[b + 1] in Boundaries(body, 0) || body[b + 1] == |body|
    {
      BoundaryNoHole(p, b);
      assert b + 1 in p.fixups && p.fixups[b + 1] in p.labels;
      assert TargetOK(p.body, p.labels[p.fixups[b + 1]]);
    }
  }

  lemma EmptySound(tab: seq<string>)
    ensures Sound(Partial([], map[], map[], tab))
  {
  }

  /** Every accepted body consists of complete instructions, and its jumps lead to instructions or to its end. */
  lemma AcceptedIsWellFormed(cur: Scanned, tab: seq<string>)
    requires ParseFunctionDef(cur, tab).Some?
    ensures var body := ParseFunctionDef(cur, tab).value.1.body; Whole(body, 0) && JumpsStay(body)
  {
    hide Sound, ParseLines, Resolve, Whole, JumpsStay, ParseTypes, NextToken, SkipNewlines, GetType;
    EmptySound(tab);
    forall n: Scanned, p: Partial | p == Partial([], map[], map[], tab) && ParseLines(n, p).Some?
        && Resolve(ParseLines(n, p).value.1).Some?
      ensures var body := Resolve(ParseLines(n, p).value.1).value; Whole(body, 0) && JumpsStay(body)
    {
      LinesSound(n, p);
      FilledLands(ParseLines(n, p).value.1, Resolve(ParseLines(n, p).value.1).value);
    }
  }

  lemma StayIsLand(body: seq<nat>)
    requires JumpsStay(body)
    ensures JumpsLand(body)
  {
    hide Boundaries;
  }

  /**
   So adding an accepted function to a program never fails. Its run there is the run of its body,
   crashes included, exactly if it does not run past its end into the HALT before another function.
   */
  lemma AcceptedRunsAnywhere(cur: Scanned, strings: seq<string>, env: Env, start: nat, s: State, n: nat)
    requires ParseFunctionDef(cur, strings).Some?
    requires var body := ParseFunctionDef(cur, strings).value.1.body;
      PlacedAt(env.code, start, body) && (s.ip in Boundaries(body, 0) || s.ip == |body|)
    ensures var body := ParseFunctionDef(cur, strings).value.1.body;
      var alone, end := env.(code := body), start + |body|;
      var mirrored := Exec(env, ShiftState(s, start), n) == ShiftOutcome(Exec(alone, s, n), start);
      && (!RunsPast(alone, s, n) ==> mirrored)
      && (end == |env.code| ==> mirrored)
      && (end < |env.code| && env.code[end] == HALT ==> (mirrored <==> !RunsPast(alone, s, n)))
  {
    hide ParseFunctionDef, PlacedAt, JumpsLand, JumpsStay, Boundaries, Exec, Whole, RunsPast;
    AcceptedIsWellFormed(cur, strings);
    var body := ParseFunctionDef(cur, strings).value.1.body;
    StayIsLand(body);
    InCode(env.code, start, body, 0);
    RunMirrors(env, body, start, s, n);
    if start + |body| < |env.code| ==> env.code[start + |body|] == HALT { MirrorsExactly(env, body, start, s, n); }
  }
}
