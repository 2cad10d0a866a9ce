/** Stack typing of runs: wherever a run of a linked program is, in the function it
    is in and in every suspended caller, the address is an instruction and the
    stacks have the height that the layout gives that instruction. */
module StackTyping {
  import opened Basics
  import opened Values
  import opened Syntax
  import opened Semantics
  import opened Machine
  import opened Layout
  import opened Simulation
  import opened Correctness
  import opened Heights
  import opened Typing

  /** The height at an address of function `f`; after its body comes the return. */
  function Static(p: Program, f: nat, i: nat): Option<Stack> {
    if f >= |p.bodies| then None
    else if i < Len(p.bodies[f], []) then HeightAt(p.bodies[f], [], Stack(0, []), 0, i)
    else Own(i, Len(p.bodies[f], []), Stack(1, []))
  }

  function StaticMap(p: Program, f: nat): Map { (i: nat) => Static(p, f, i) }

  /** An instruction of function `f` starts at the address. */
  predicate Boundary(p: Program, f: nat, i: nat) { Static(p, f, i).Some? }

  /** Linked code passes the check of its heights: each word is an instruction or
      the argument of one, each instruction finds its operands, each jump goes to
      an instruction of the same height, and each return has given back the marks
      of all loops around it. */
  lemma LinkedChecks(p: Program, m: Image, f: nat)
    requires Linked(p, m) && f < |p.bodies|
    ensures Static(p, f, 0) == Some(Stack(0, []))
    ensures Checked(m.codes[f], StaticMap(p, f), 0, Len(p.bodies[f], []) + 1)
  {
    hide HeightAt, Emitted, WellFormed, Len, Follows, CheckedAt;
    var body, c := p.bodies[f], m.codes[f];
    var H := StaticMap(p, f);
    assert LinkedBody(body, c);
    SomeCode(body, []);
    StartsAt(body, [], Stack(0, []), 0);
    TypeExpr(body, [], [], c, H, Stack(0, []), 0);
    AtReturn(c, H, Len(body, []), Stack(1, []));
  }

  /** Every jump emitted for a well-formed body lands on an instruction. */
  lemma JumpsLand(p: Program, m: Image, f: nat, i: nat)
    requires Linked(p, m) && f < |p.bodies| && Boundary(p, f, i)
    requires i < |m.codes[f].words| && Branches(m.codes[f].words[i])
    ensures i + 1 < |m.codes[f].words| && Boundary(p, f, m.codes[f].words[i + 1]) && !Boundary(p, f, i + 1)
    ensures Static(p, f, m.codes[f].words[i + 1]).value.marks == Static(p, f, i).value.marks
  {
    hide HeightAt, Len, LinkedBody;
    LinkedChecks(p, m, f);
    assert CheckedAt(m.codes[f], StaticMap(p, f), i);
  }

  // ----- the stacks of a state -----

  /** The marks of a call that began at height `bp` are on top, and those of the
      calls it suspends are below. */
  ghost predicate MarksHold(p: Program, callers: seq<Frame>, bp: nat, marks: seq<nat>, own: seq<nat>)
    decreases |callers|, 1
  {
    && |own| <= |marks|
    && (forall k :: 0 <= k < |own| ==> marks[|marks| - |own| + k] == bp + own[k])
    && FramesHold(p, callers, bp, marks[..|marks| - |own|])
  }

  /** Every suspended caller resumes at an instruction whose height counts the value
      that the call will leave where the callee's operands begin. */
  ghost predicate FramesHold(p: Program, callers: seq<Frame>, bp: nat, marks: seq<nat>)
    decreases |callers|, 0
  {
    if callers == [] then bp == 0 && marks == []
    else
      var f := callers[|callers| - 1];
      && Boundary(p, f.code, f.ip)
      && var st := Static(p, f.code, f.ip).value;
         bp + 1 == f.bp + st.ops && MarksHold(p, callers[..|callers| - 1], f.bp, marks, st.marks)
  }

  ghost predicate Holds(p: Program, s: State) {
    && Boundary(p, s.code, s.ip)
    && var st := Static(p, s.code, s.ip).value;
       |s.ops| == s.bp + st.ops && MarksHold(p, s.callers, s.bp, s.marks, st.marks)
  }

  // ----- steps -----

  ghost predicate SameCall(s: State, t: State) {
    t.code == s.code && t.bp == s.bp && t.callers == s.callers && t.marks == s.marks
  }

  /** A step within a call, to an instruction of the height it leaves. */
  lemma StaysTyped(p: Program, s: State, t: State)
    requires Holds(p, s) && SameCall(s, t)
    requires Is(Static(p, s.code, t.ip), |t.ops| - s.bp, Static(p, s.code, s.ip).value.marks)
    ensures Holds(p, t)
  {
    hide Static, MarksHold;
  }

  /** The instruction a state is at, as the check of its code knows it. */
  lemma AtInstruction(p: Program, m: Image, s: State)
    requires Linked(p, m) && Holds(p, s)
    ensures s.code < |p.bodies| == |m.codes| && s.ip < |m.codes[s.code].words|
    ensures Follows(m.codes[s.code], StaticMap(p, s.code), s.ip, Static(p, s.code, s.ip).value)
  {
    hide HeightAt, Len, LinkedBody, MarksHold, Follows;
    LinkedChecks(p, m, s.code);
    assert CheckedAt(m.codes[s.code], StaticMap(p, s.code), s.ip);
    assert s.ip < |m.codes[s.code].words| by { InCode(m.codes[s.code], p, s.code, s.ip); }
  }

  lemma InCode(c: CodeObj, p: Program, f: nat, i: nat)
    requires Boundary(p, f, i) && CheckedAt(c, StaticMap(p, f), i)
    ensures i < |c.words|
  {
    hide Static;
  }

  lemma BinaryMoves(m: Image, op: BinOp, s: State, t: State)
    requires |s.ops| >= 2 && StepBinary(m, op, s) == Running(t)
    ensures SameCall(s, t) && t.ip == s.ip && |t.ops| == |s.ops| - 1
  {
    hide ApplyBinary;
  }

  lemma ConstMoves(m: Image, op: nat, c: Value, s: State, t: State)
    requires |s.ops| >= Needs(op, 0) && (op == OP_PUSHCONST || op == OP_LOCAL || op == OP_MEMBER)
    requires StepConst(m, op, c, s) == Running(t)
    ensures SameCall(s, t) && t.ip == s.ip && |t.ops| == |s.ops| + (if op == OP_MEMBER then 0 else 1)
  {
    hide GetLocal, GetMember;
  }

  lemma StoreMoves(m: Image, op: nat, s: State, t: State)
    requires |s.ops| >= Needs(op, 0) && op in {OP_SETSYM, OP_SETLOCAL, OP_SETMEMBER, OP_INSERT, OP_HAPPEND}
    requires StepStore(m, op, s) == Running(t)
    ensures SameCall(s, t) && t.ip == s.ip && |t.ops| == |s.ops| + Net(op, 0)
  {
    hide SetSymbol, HashSet, PutField, SetMember, ContainerSet;
  }

  lemma StackMoves(m: Image, op: nat, arg: nat, s: State, t: State)
    requires |s.ops| >= Needs(op, arg) && StepStack(m, op, arg, s) == Running(t)
    requires BinaryOf(op).None? && !Branches(op) && !Loops(op) && op !in {OP_SETSYM, OP_SETLOCAL, OP_SETMEMBER,
        OP_INSERT, OP_HAPPEND, OP_FCALL, OP_MCALL, OP_FCALLH, OP_MCALLH, OP_RETURN}
    ensures SameCall(s, t) && t.ip == s.ip && |t.ops| == |s.ops| + Net(op, arg)
  {
    hide EachItem, ApplyUnary;
  }

  /** The instructions that only work on operands. */
  lemma PlainHolds(p: Program, m: Image, s: State, t: State)
    requires Linked(p, m) && Holds(p, s) && Step(m, s) == Running(t)
    requires s.code < |m.codes| && s.ip < |m.codes[s.code].words|
    requires var op := m.codes[s.code].words[s.ip];
             !Branches(op) && !Loops(op) && op !in {OP_FCALL, OP_MCALL, OP_FCALLH, OP_MCALLH, OP_RETURN}
    ensures Holds(p, t)
  {
    hide HeightAt, Len, LinkedBody, MarksHold, StepBinary, StepConst, StepStore, StepStack, Static;
    AtInstruction(p, m, s);
    var c := m.codes[s.code];
    var op, arg := c.words[s.ip], Arg(c, s.ip);
    var s1 := s.(ip := NextIP(c, s.ip));
    if BinaryOf(op).Some? {
      BinaryMoves(m, BinaryOf(op).value, s1, t);
    } else if op == OP_PUSHCONST || op == OP_LOCAL || op == OP_MEMBER {
      ConstMoves(m, op, c.consts[arg], s1, t);
    } else if op in {OP_SETSYM, OP_SETLOCAL, OP_SETMEMBER, OP_INSERT, OP_HAPPEND} {
      StoreMoves(m, op, s1, t);
    } else {
      StackMoves(m, op, arg, s1, t);
    }
    StaysTyped(p, s, t);
  }

  lemma JumpHolds(p: Program, m: Image, s: State, t: State)
    requires Linked(p, m) && Holds(p, s) && Step(m, s) == Running(t)
    requires s.code < |m.codes| && s.ip < |m.codes[s.code].words| && Branches(m.codes[s.code].words[s.ip])
    ensures Holds(p, t)
  {
    hide HeightAt, Len, LinkedBody, MarksHold, StepJump, Static;
    AtInstruction(p, m, s);
    var c := m.codes[s.code];
    JumpMoves(m, c.words[s.ip], Arg(c, s.ip), s.(ip := NextIP(c, s.ip)), t);
    StaysTyped(p, s, t);
  }

  lemma JumpMoves(m: Image, op: nat, target: nat, s: State, t: State)
    requires Branches(op) && |s.ops| >= Needs(op, target) && StepJump(m, op, target, s) == Running(t)
    ensures SameCall(s, t) && (t.ip == target || t.ip == s.ip)
    ensures op == OP_JMP || op == OP_JMPLOOP ==> t.ip == target && |t.ops| == |s.ops|
    ensures op == OP_JIFTRUE || op == OP_JIFNOT ==> |t.ops| == |s.ops|
    ensures op == OP_JIFNOTPOP ==> |t.ops| == |s.ops| - 1
    ensures op == OP_JIFEND ==> (t.ip == target && |t.ops| == |s.ops| - 1) || (t.ip == s.ip && |t.ops| == |s.ops|)
  {
    hide Boolify;
  }

  /** The marks a call has made follow the heights of its instructions. */
  lemma MarkHolds(p: Program, m: Image, s: State, t: State)
    requires Linked(p, m) && Holds(p, s) && Step(m, s) == Running(t)
    requires s.code < |m.codes| && s.ip < |m.codes[s.code].words| && Loops(m.codes[s.code].words[s.ip])
    ensures Holds(p, t)
  {
    hide HeightAt, Len, LinkedBody, FramesHold, StepMark, Static;
    AtInstruction(p, m, s);
    var c := m.codes[s.code];
    var op, next, own := c.words[s.ip], NextIP(c, s.ip), Static(p, s.code, s.ip).value.marks;
    MarkMoves(op, s.(ip := next), t);
    var base := |s.marks| - |own|;
    if op == OP_MARK {
      assert t.marks[..|t.marks| - (|own| + 1)] == s.marks[..base];
    } else {
      assert s.marks[base + (|own| - 1)] == s.bp + own[|own| - 1];
      assert t.marks[..base] == s.marks[..base];
      assert op == OP_BREAK || |t.marks| == |s.marks| - 1;
    }
  }

  lemma MarkMoves(op: nat, s: State, t: State)
    requires Loops(op) && StepMark(op, s) == Running(t)
    ensures t == s.(ops := t.ops, marks := t.marks)
    ensures op == OP_MARK ==> t.ops == s.ops && t.marks == s.marks + [|s.ops|]
    ensures op != OP_MARK ==> s.marks != []
    ensures op == OP_UNMARK ==> t.ops == s.ops && t.marks == s.marks[..|s.marks| - 1]
    ensures op == OP_BREAK ==> |t.ops| == s.marks[|s.marks| - 1] && t.marks == s.marks
    ensures op == OP_BREAK2 ==> |t.ops| == s.marks[|s.marks| - 1] && t.marks == s.marks[..|s.marks| - 1]
  {
  }

  // ----- calls -----

  predicate Enters(op: nat) { op in {OP_FCALL, OP_MCALL, OP_FCALLH, OP_MCALLH} }

  lemma EnterMoves(m: Image, op: nat, arg: nat, s: State, t: State)
    requires Enters(op) && |s.ops| >= Needs(op, arg) && StepCall(m, op, arg, s) == Running(t)
    ensures t.code < |m.params| && t.ip == 0 && t.marks == s.marks
    ensures t.callers == s.callers + [Frame(s.ip, s.code, s.env, s.bp)]
    ensures t.bp == |t.ops| == |s.ops| + Net(op, arg) - 1
  {
    hide EnterCall, EnterNamed;
  }

  lemma EnterHolds(p: Program, m: Image, s: State, t: State)
    requires Linked(p, m) && Holds(p, s) && Step(m, s) == Running(t)
    requires s.code < |m.codes| && s.ip < |m.codes[s.code].words| && Enters(m.codes[s.code].words[s.ip])
    ensures Holds(p, t)
  {
    hide HeightAt, Len, LinkedBody, StepCall, Static;
    AtInstruction(p, m, s);
    var c := m.codes[s.code];
    EnterMoves(m, c.words[s.ip], Arg(c, s.ip), s.(ip := NextIP(c, s.ip)), t);
    LinkedChecks(p, m, t.code);
    var f := t.callers[|t.callers| - 1];
    assert t.callers[..|t.callers| - 1] == s.callers;
    assert t.marks[..|t.marks| - 0] == t.marks;
    assert Static(p, f.code, f.ip) == StaticMap(p, s.code)(f.ip);
    assert FramesHold(p, t.callers, t.bp, t.marks);
  }

  lemma ReturnHolds(p: Program, m: Image, s: State, t: State)
    requires Linked(p, m) && Holds(p, s) && Step(m, s) == Running(t)
    requires s.code < |m.codes| && s.ip < |m.codes[s.code].words| && m.codes[s.code].words[s.ip] == OP_RETURN
    ensures Holds(p, t)
  {
    hide HeightAt, Len, LinkedBody, Static, StepCall;
    AtInstruction(p, m, s);
    assert Static(p, s.code, s.ip).value.marks == [];
    assert s.marks[..|s.marks| - 0] == s.marks;
    assert FramesHold(p, s.callers, s.bp, s.marks);
    ReturnMoves(m, s.(ip := s.ip + 1), t);
  }

  lemma ReturnMoves(m: Image, s: State, t: State)
    requires |s.ops| >= 1 && StepCall(m, OP_RETURN, 0, s) == Running(t)
    ensures s.callers != [] && s.bp < |s.ops|
    ensures var f := s.callers[|s.callers| - 1];
            && t.ip == f.ip && t.code == f.code && t.bp == f.bp && t.callers == s.callers[..|s.callers| - 1]
            && |t.ops| == s.bp + 1 && t.marks == s.marks
  {
  }

  /** Every step keeps the heights, in the running call and in all suspended ones. */
  lemma StepHolds(p: Program, m: Image, s: State, t: State)
    requires Linked(p, m) && Holds(p, s) && Step(m, s) == Running(t)
    ensures Holds(p, t)
  {
    hide HeightAt, Len, LinkedBody, Static, Follows, MarksHold, Step;
    AtInstruction(p, m, s);
    var op := m.codes[s.code].words[s.ip];
    if Branches(op) {
      JumpHolds(p, m, s, t);
    } else if Loops(op) {
      MarkHolds(p, m, s, t);
    } else if Enters(op) {
      EnterHolds(p, m, s, t);
    } else if op == OP_RETURN {
      ReturnHolds(p, m, s, t);
    } else {
      PlainHolds(p, m, s, t);
    }
  }

  lemma {:induction false} RunHolds(p: Program, m: Image, n: nat, s: State, t: State)
    requires Linked(p, m) && Holds(p, s) && Steps(m, n, s) == Running(t)
    ensures Holds(p, t)
    decreases n
  {
    hide Linked, Holds, Step;
    if n > 0 {
      StepHolds(p, m, s, Step(m, s).s);
      RunHolds(p, m, n - 1, Step(m, s).s, t);
    }
  }

  /** The marks of all suspended callers together. */
  ghost function CallerMarks(p: Program, callers: seq<Frame>): nat {
    if callers == [] then 0
    else
      var f := callers[|callers| - 1];
      (if Boundary(p, f.code, f.ip) then |Static(p, f.code, f.ip).value.marks| else 0)
      + CallerMarks(p, callers[..|callers| - 1])
  }

  lemma {:induction false} FramesTogether(p: Program, callers: seq<Frame>, bp: nat, marks: seq<nat>)
    requires FramesHold(p, callers, bp, marks)
    ensures |marks| == CallerMarks(p, callers)
    ensures forall k :: 0 <= k < |callers| ==> Boundary(p, callers[k].code, callers[k].ip)
  {
    hide Static;
    if callers != [] {
      var n := |callers| - 1;
      var f := callers[n];
      var own := Static(p, f.code, f.ip).value.marks;
      FramesTogether(p, callers[..n], f.bp, marks[..|marks| - |own|]);
      forall k | 0 <= k < |callers|
        ensures Boundary(p, callers[k].code, callers[k].ip)
      {
        assert k < n ==> callers[k] == callers[..n][k];
      }
    }
  }

  /** Stack typing: in every state of every run of a compiled program, the address
      is an instruction, and so is the address each suspended caller resumes at;
      the operands of the running call are as many as the layout gives the
      instruction, at least as many as it needs; the marks are those of the loops
      around it, at their static heights, above those of the suspended callers; and
      at a return all marks of the call are gone. */
  lemma StacksAreTyped(p: Program, m: Image, f: nat, env: Env, h: Heap, n: nat, t: State)
    requires Linked(p, m) && f < |p.bodies| && Steps(m, n, Start(f, env, h)) == Running(t)
    ensures Boundary(p, t.code, t.ip) && t.code < |m.codes| && t.ip < |m.codes[t.code].words|
    ensures forall k :: 0 <= k < |t.callers| ==> Boundary(p, t.callers[k].code, t.callers[k].ip)
    ensures var st, c := Static(p, t.code, t.ip).value, m.codes[t.code];
            && |t.ops| - t.bp == st.ops >= Needs(c.words[t.ip], Arg(c, t.ip))
            && |t.marks| == |st.marks| + CallerMarks(p, t.callers)
            && (forall k :: 0 <= k < |st.marks| ==>
                  t.marks[CallerMarks(p, t.callers) + k] == t.bp + st.marks[k])
            && (c.words[t.ip] == OP_RETURN ==> st.marks == [])
  {
    hide HeightAt, Len, LinkedBody, Step;
    var s := Start(f, env, h);
    LinkedChecks(p, m, f);
    assert Holds(p, s);
    hide Static;
    RunHolds(p, m, n, s, t);
    AtInstruction(p, m, t);
    var own := Static(p, t.code, t.ip).value.marks;
    FramesTogether(p, t.callers, t.bp, t.marks[..|t.marks| - |own|]);
  }
}
