/** The module factory as an object: every method against the function that specifies it. */
module MirModuleFactories {
  import opened Ast
  import opened Scopes
  import opened Mir
  import opened MirFactory

  class MirModuleFactory {
    var functions: seq<MirFunction>
    var globals: set<string>
    var fnEnv: Stack<Status>
    var varEnv: Stack<Site>
    var blockId: nat
    var instrId: nat
    var varId: nat

    constructor ()
      ensures View() == INITIAL
    {
      functions, globals, fnEnv, varEnv := [], {}, [map[]], [map[]];
      blockId, instrId, varId := 0, 0, 0;
    }

    function View(): State
      reads this
    {
      State(functions, globals, fnEnv, varEnv, blockId, instrId, varId)
    }

    // ---- Environments ---------------------------------------------------------------------

    method PushEnv()
      modifies this
      ensures View() == MirFactory.PushEnv(old(View()))
    {
      varEnv := varEnv + [map[]];
      fnEnv := fnEnv + [map[]];
    }

    /** Fails on the global scope. */
    method PopEnv() returns (ok: bool)
      modifies this
      ensures ok == MirFactory.PopEnv(old(View())).Some?
      ensures ok ==> View() == MirFactory.PopEnv(old(View())).value
    {
      if |varEnv| <= 1 || |fnEnv| <= 1 { return false; }
      varEnv := varEnv[..|varEnv| - 1];
      fnEnv := fnEnv[..|fnEnv| - 1];
      return true;
    }

    method SetVarEnv(env: Stack<Site>)
      modifies this
      ensures View() == old(View()).(varEnv := env)
    {
      varEnv := env;
    }

    // ---- Instructions ---------------------------------------------------------------------

    method CreateVar() returns (v: VarId)
      modifies this
      ensures v == old(varId) && View() == MirFactory.CreateVar(old(View()))
    {
      v := varId;
      varId := varId + 1;
    }

    /** The position of the last block, and the place behind its last instruction. */
    method Position() returns (r: BlockRef, i: nat)
      requires HasBlock(View())
      ensures r == LastRef(View()) && i == |Instructions(View(), r)|
    {
      var blocks := functions[|functions| - 1].blocks;
      r := BlockRef(|functions| - 1, |blocks| - 1);
      i := |blocks[|blocks| - 1].instructions|;
    }

    method SetBlock(r: BlockRef, instructions: seq<Instruction>)
      requires IsBlock(View(), r)
      modifies this`functions
      ensures View() == SetInstructions(old(View()), r, instructions)
    {
      var f := functions[r.fn];
      var b := f.blocks[r.block].(instructions := instructions);
      functions := functions[r.fn := f.(blocks := f.blocks[r.block := b])];
    }

    /** An instruction number that no other instruction gets. */
    method CreateInstruction() returns (id: nat)
      modifies this
      ensures id == old(instrId) && View() == ReserveInstr(old(View()))
    {
      id := instrId;
      instrId := instrId + 1;
    }

    method AddInstruction(op: Opcode)
      requires HasBlock(View())
      modifies this
      ensures View() == Emit(old(View()), op, [], None)
    {
      var r, i := Position();
      var id := CreateInstruction();
      SetBlock(r, functions[r.fn].blocks[r.block].instructions + [Instruction(id, op, [], None)]);
    }

    method AddOperand(r: BlockRef, i: nat, o: Operand)
      requires IsPlace(View(), r, i)
      modifies this
      ensures View() == MirFactory.AddOperands(old(View()), r, i, [o])
    {
      var instructions := functions[r.fn].blocks[r.block].instructions;
      var x := instructions[i];
      SetBlock(r, instructions[i := x.(operands := x.operands + [o])]);
    }

    /** A new variable as result of the last instruction. */
    method AddResultVar() returns (v: VarId)
      requires HasBlock(View()) && LastBlock(View()).instructions != []
      modifies this
      ensures v == old(varId)
      ensures View() == WithResult(MirFactory.CreateVar(old(View())), v)
    {
      v := CreateVar();
      SetResult(v);
    }

    method SetResult(v: VarId)
      requires HasBlock(View()) && LastBlock(View()).instructions != []
      modifies this
      ensures View() == WithResult(old(View()), v)
    {
      var r, i := Position();
      var instructions := functions[r.fn].blocks[r.block].instructions;
      SetBlock(r, instructions[i - 1 := instructions[i - 1].(result := Some(v))]);
    }

    /** The variable of the last instruction; fails when there is none. */
    method RequireLastVar() returns (v: Option<VarId>)
      ensures v == MirFactory.RequireLastVar(View())
    {
      if functions == [] || functions[|functions| - 1].blocks == [] { return None; }
      var blocks := functions[|functions| - 1].blocks;
      var instructions := blocks[|blocks| - 1].instructions;
      if instructions == [] { return None; }
      return instructions[|instructions| - 1].result;
    }

    /** An instruction, its operands one by one, and its result. */
    method AddWith(op: Opcode, operands: seq<Operand>, result: Option<VarId>)
      requires HasBlock(View())
      modifies this
      ensures View() == Emit(old(View()), op, operands, result)
    {
      ghost var st := View();
      var r, i := Position();
      AddInstruction(op);
      EmitAgain(st, op, [], None);
      for k := 0 to |operands|
        invariant View() == Emit(st, op, operands[..k], None)
      {
        EmitAgain(st, op, operands[..k], None);
        AddOperand(r, i, operands[k]);
        OperandAgain(st, op, operands[..k], operands[k]);
        assert operands[..k] + [operands[k]] == operands[..k + 1];
      }
      assert operands[..|operands|] == operands;
      if result.Some? {
        EmitAgain(st, op, operands, None);
        SetResult(result.value);
        ResultAgain(st, op, operands, result.value);
      }
    }

    method AddWithResult(op: Opcode, operands: seq<Operand>) returns (v: VarId)
      requires HasBlock(View())
      modifies this
      ensures v == old(varId) && View() == EmitResult(old(View()), op, operands)
    {
      v := CreateVar();
      AddWith(op, operands, Some(v));
    }

    predicate ValidBlock(r: BlockRef)
      reads this
      ensures ValidBlock(r) == IsBlock(View(), r)
    {
      r.fn < |functions| && r.block < |functions[r.fn].blocks|
    }

    /** Operands for an instruction that is there already. */
    method AddOperands(r: BlockRef, i: nat, operands: seq<Operand>)
      modifies this
      ensures View() == MirFactory.AddOperands(old(View()), r, i, operands)
    {
      if !ValidBlock(r) || i >= |functions[r.fn].blocks[r.block].instructions| { return; }
      ghost var st := View();
      NoOperands(st, r, i);
      for k := 0 to |operands|
        invariant IsPlace(View(), r, i) && View() == MirFactory.AddOperands(st, r, i, operands[..k])
      {
        AddOperand(r, i, operands[k]);
        OneMoreOperand(st, r, i, operands[..k], operands[k]);
        assert operands[..k] + [operands[k]] == operands[..k + 1];
      }
      assert operands[..|operands|] == operands;
    }

    /** Puts the jump that got its number earlier at the end of block `r`. */
    method InsertJump(id: nat, r: BlockRef, target: BlockRef)
      modifies this
      ensures View() == MirFactory.InsertJump(old(View()), id, r, target)
    {
      if !ValidBlock(r) { return; }
      SetBlock(r, functions[r.fn].blocks[r.block].instructions + [Instruction(id, Jump, [Label(target)], None)]);
    }

    // ---- Blocks ---------------------------------------------------------------------------

    method AddBlock(prefix: string) returns (r: BlockRef)
      requires HasFunction(View())
      modifies this
      ensures View() == MirFactory.AddBlock(old(View()), prefix) && HasBlock(View()) && r == LastRef(View())
    {
      var f := functions[|functions| - 1];
      r := BlockRef(|functions| - 1, |f.blocks|);
      functions := functions[|functions| - 1 := f.(blocks := f.blocks + [Block(MakeLabel(prefix, blockId), [])])];
      blockId := blockId + 1;
    }

    method FindBlock(name: string) returns (k: Option<nat>)
      requires HasFunction(View())
      ensures k == FindBlockIn(LastFunction(View()).blocks, name)
    {
      var blocks := functions[|functions| - 1].blocks;
      for i := 0 to |blocks|
        invariant FindBlockIn(blocks, name) ==
          if FindBlockIn(blocks[i..], name).None? then None else Some(FindBlockIn(blocks[i..], name).value + i)
      {
        if blocks[i].name == name { return Some(i); }
        assert blocks[i..][1..] == blocks[i + 1..];
      }
      return None;
    }

    // ---- Names ----------------------------------------------------------------------------

    method VarBind(name: string, v: VarId) returns (ok: bool)
      requires HasBlock(View()) && varEnv != []
      modifies this
      ensures ok == MirFactory.VarBind(old(View()), name, v).Some?
      ensures ok ==> View() == MirFactory.VarBind(old(View()), name, v).value
    {
      var r, _ := Position();
      var bound := AddWithResult(Bind, [Local(v)]);
      EmitAgain(MirFactory.CreateVar(old(View())), Bind, [Local(v)], Some(bound));
      var f := functions[|functions| - 1];
      functions := functions[|functions| - 1 := f.(locals := f.locals + [bound])];
      if name in varEnv[|varEnv| - 1] { return false; }
      varEnv := Scopes.Insert(varEnv, name, Site(r, bound));
      return true;
    }

    method AddUpdate(name: string, v: VarId) returns (ok: bool)
      requires HasBlock(View())
      modifies this
      ensures ok == MirFactory.AddUpdate(old(View()), name, v).Some?
      ensures ok ==> View() == MirFactory.AddUpdate(old(View()), name, v).value
    {
      var r, _ := Position();
      var result := AddWithResult(Opcode.Update, [Local(v)]);
      if Find(varEnv, name).None? { return false; }
      varEnv := Scopes.Update(varEnv, name, Site(r, result));
      return true;
    }

    method AddVariableRef(name: string) returns (ok: bool)
      requires HasBlock(View())
      modifies this
      ensures ok == MirFactory.AddVariableRef(old(View()), name).Some?
      ensures ok ==> View() == MirFactory.AddVariableRef(old(View()), name).value
    {
      if name in globals {
        var _ := AddWithResult(Load, [Global(name)]);
        return true;
      }
      var site := Find(varEnv, name);
      if site.None? { return false; }
      ok := AddUpdate(name, site.value.v);
    }

    method AddCall(name: string, args: seq<VarId>) returns (ok: bool)
      requires HasBlock(View())
      modifies this
      ensures ok == MirFactory.AddCall(old(View()), name, args).Some?
      ensures ok ==> View() == MirFactory.AddCall(old(View()), name, args).value
    {
      if Find(fnEnv, name).None? { return false; }
      AddWith(CallOp, CallOperands(name, args), None);
      return true;
    }

    // ---- Functions ------------------------------------------------------------------------

    method AddFunctionDeclaration(name: string)
      requires fnEnv != []
      modifies this
      ensures View() == MirFactory.AddFunctionDeclaration(old(View()), name)
    {
      if Find(fnEnv, name).None? { fnEnv := Scopes.Insert(fnEnv, name, Declared); }
    }

    method AddFunctionDefinition(name: string)
      requires fnEnv != []
      modifies this
      ensures View() == MirFactory.AddFunctionDefinition(old(View()), name)
    {
      if Find(fnEnv, name).Some? {
        fnEnv := Scopes.Update(fnEnv, name, Defined);
      } else {
        fnEnv := Scopes.Insert(fnEnv, name, Defined);
      }
      functions := functions + [MirFunction(name, [], [], [])];
    }

    method AddParam() returns (v: VarId)
      requires HasFunction(View())
      modifies this
      ensures v == old(varId) && View() == MirFactory.AddParam(old(View()))
    {
      v := CreateVar();
      var f := functions[|functions| - 1];
      functions := functions[|functions| - 1 := f.(params := f.params + [v])];
    }

    method AddGlobalDeclaration(name: string)
      modifies this
      ensures View() == old(View()).(globals := old(globals) + {name})
    {
      globals := globals + {name};
    }

    // ---- Merging --------------------------------------------------------------------------

    method MergeLayer(first: Layer<Site>, second: Layer<Site>, keys: seq<string>) returns (layer: Layer<Site>)
      requires HasBlock(View()) && forall k <- keys :: k in first
      modifies this
      ensures MirFactory.MergeLayer(old(View()), first, second, keys) == (View(), layer)
    {
      ghost var st := View();
      layer := first;
      assert keys[0..] == keys;
      for i := 0 to |keys|
        invariant HasBlock(View()) && layer.Keys == first.Keys
        invariant MirFactory.MergeLayer(st, first, second, keys) == MirFactory.MergeLayer(View(), layer, second, keys[i..])
      {
        var k := keys[i];
        assert keys[i..][0] == k && keys[i..][1..] == keys[i + 1..];
        if k !in second { return; }
        var a, b := layer[k], second[k];
        if a.v != b.v {
          var result := AddWithResult(Phi, [PhiArg(a.block, a.v), PhiArg(b.block, b.v)]);
          layer := layer[k := a.(v := result)];
        }
      }
    }

    method MergeEnvs(order: Order, e1: Stack<Site>, e2: Stack<Site>) returns (merged: Stack<Site>)
      requires HasBlock(View()) && IsOrder(order)
      modifies this
      ensures MirFactory.MergeEnvs(order, old(View()), e1, e2) == (View(), merged)
    {
      hide Going, MirFactory.MergeLayer, MirFactory.MergeEnvs;
      ghost var st := View();
      merged := e1;
      var i := 0;
      MergeStart(order, st, e1, e2);
      while i < |merged| && i < |e2|
        invariant HasBlock(View()) && i <= |merged| == |e1| && i <= |e2| && merged[i..] == e1[i..]
        invariant Going(order, st, e1, e2, View(), merged, i)
      {
        ghost var before := View();
        assert merged[i] == e1[i] by { assert merged[i..][0] == e1[i..][0]; }
        var layer := MergeLayer(merged[i], e2[i], order(View(), |merged| - i, merged[i].Keys));
        MergeStep(order, st, e1, e2, before, merged, i, View(), layer);
        assert merged[i := layer][i + 1..] == merged[i..][1..] && e1[i + 1..] == e1[i..][1..];
        merged := merged[i := layer];
        i := i + 1;
      }
      MergeEnd(order, st, e1, e2, View(), merged, i);
    }
  }

  // ---- Merging layer by layer -------------------------------------------------------------

  /** The first `i` layers are merged, and the rest remains to be. */
  ghost predicate Going(order: Order, st: State, e1: Stack<Site>, e2: Stack<Site>, now: State, merged: Stack<Site>, i: nat)
    requires HasBlock(st) && HasBlock(now) && IsOrder(order) && i <= |merged| == |e1| && i <= |e2|
  {
    var r := MirFactory.MergeEnvs(order, now, e1[i..], e2[i..]);
    MirFactory.MergeEnvs(order, st, e1, e2) == (r.0, merged[..i] + r.1)
  }

  lemma MergeStart(order: Order, st: State, e1: Stack<Site>, e2: Stack<Site>)
    requires HasBlock(st) && IsOrder(order)
    ensures Going(order, st, e1, e2, st, e1, 0) && e1[0..] == e1
  {
    hide MirFactory.MergeEnvs;
    assert e1[0..] == e1 && e2[0..] == e2 && e1[..0] == [];
    var r := MirFactory.MergeEnvs(order, st, e1, e2);
    assert [] + r.1 == r.1;
  }

  lemma MergeStep(order: Order, st: State, e1: Stack<Site>, e2: Stack<Site>, now: State, merged: Stack<Site>, i: nat, next: State, layer: Layer<Site>)
    requires HasBlock(st) && HasBlock(now) && HasBlock(next) && IsOrder(order) && i < |merged| == |e1| && i < |e2|
    requires Going(order, st, e1, e2, now, merged, i)
    requires MirFactory.MergeLayer(now, e1[i], e2[i], order(now, |e1| - i, e1[i].Keys)) == (next, layer)
    ensures Going(order, st, e1, e2, next, merged[i := layer], i + 1)
  {
    hide MirFactory.MergeEnvs, MirFactory.MergeLayer, IsOrder, Enumerates, HasBlock;
    var f1, f2 := e1[i..], e2[i..];
    MergeOnce(order, now, f1, f2, next, layer);
    assert f1[1..] == e1[i + 1..] && f2[1..] == e2[i + 1..];
    GoingOn(merged, i, layer, MirFactory.MergeEnvs(order, next, f1[1..], f2[1..]).1);
  }

  lemma GoingOn<T>(s: seq<T>, i: nat, x: T, rest: seq<T>)
    requires i < |s|
    ensures s[..i] + ([x] + rest) == s[i := x][..i + 1] + rest
  {}

  lemma MergeOnce(order: Order, st: State, e1: Stack<Site>, e2: Stack<Site>, next: State, layer: Layer<Site>)
    requires HasBlock(st) && HasBlock(next) && IsOrder(order) && e1 != [] && e2 != []
    requires MirFactory.MergeLayer(st, e1[0], e2[0], order(st, |e1|, e1[0].Keys)) == (next, layer)
    ensures var r := MirFactory.MergeEnvs(order, next, e1[1..], e2[1..]);
      MirFactory.MergeEnvs(order, st, e1, e2) == (r.0, [layer] + r.1)
  {
    hide MirFactory.MergeLayer;
  }

  lemma MergeEnd(order: Order, st: State, e1: Stack<Site>, e2: Stack<Site>, now: State, merged: Stack<Site>, i: nat)
    requires HasBlock(st) && HasBlock(now) && IsOrder(order) && i <= |merged| == |e1| && i <= |e2| && merged[i..] == e1[i..]
    requires Going(order, st, e1, e2, now, merged, i) && (i == |e1| || i == |e2|)
    ensures MirFactory.MergeEnvs(order, st, e1, e2) == (now, merged)
  {
    hide MirFactory.MergeLayer;
    assert merged[..i] + merged[i..] == merged;
    assert e1[i..] == [] || e2[i..] == [];
  }

  // ---- Building an instruction step by step -----------------------------------------------

  /** The last instruction gets this result. */
  function WithResult(st: State, v: VarId): State
    requires HasBlock(st) && LastBlock(st).instructions != []
  {
    var ins := LastBlock(st).instructions;
    var n := |ins| - 1;
    SetInstructions(st, LastRef(st), ins[n := ins[n].(result := Some(v))])
  }

  lemma EmitAgain(st: State, op: Opcode, operands: seq<Operand>, result: Option<VarId>)
    requires HasBlock(st)
    ensures var st' := Emit(st, op, operands, result); var r := LastRef(st); var i := |Instructions(st, r)|;
      && HasBlock(st') && LastRef(st') == r && IsPlace(st', r, i) && LastBlock(st').instructions != []
      && Instructions(st', r) == Instructions(st, r) + [Instruction(st.instrId, op, operands, result)]
  {}

  lemma OperandAgain(st: State, op: Opcode, operands: seq<Operand>, o: Operand)
    requires HasBlock(st)
    ensures MirFactory.AddOperands(Emit(st, op, operands, None), LastRef(st), |Instructions(st, LastRef(st))|, [o])
         == Emit(st, op, operands + [o], None)
  {
    var r, i := LastRef(st), |Instructions(st, LastRef(st))|;
    var x := Instruction(st.instrId, op, operands, None);
    EmitAgain(st, op, operands, None);
    SetTwice(ReserveInstr(st), r, Instructions(st, r) + [x], Instructions(st, r) + [x.(operands := operands + [o])]);
    assert (Instructions(st, r) + [x])[i := x.(operands := operands + [o])] == Instructions(st, r) + [x.(operands := operands + [o])];
  }

  lemma ResultAgain(st: State, op: Opcode, operands: seq<Operand>, v: VarId)
    requires HasBlock(st)
    ensures var st' := Emit(st, op, operands, None);
      HasBlock(st') && LastBlock(st').instructions != [] && WithResult(st', v) == Emit(st, op, operands, Some(v))
  {
    var r := LastRef(st);
    var x := Instruction(st.instrId, op, operands, None);
    EmitAgain(st, op, operands, None);
    SetTwice(ReserveInstr(st), r, Instructions(st, r) + [x], Instructions(st, r) + [x.(result := Some(v))]);
    assert (Instructions(st, r) + [x])[|Instructions(st, r)| := x.(result := Some(v))] == Instructions(st, r) + [x.(result := Some(v))];
  }

  lemma NoOperands(st: State, r: BlockRef, i: nat)
    requires IsPlace(st, r, i)
    ensures MirFactory.AddOperands(st, r, i, []) == st
  {
    var x := Get(st, r, i);
    assert x.operands + [] == x.operands;
    assert Instructions(st, r)[i := x] == Instructions(st, r);
    SetSame(st, r);
  }

  lemma SetSame(st: State, r: BlockRef)
    requires IsBlock(st, r)
    ensures SetInstructions(st, r, Instructions(st, r)) == st
  {
    var st' := SetInstructions(st, r, Instructions(st, r));
    assert st'.functions[r.fn].blocks == st.functions[r.fn].blocks;
    assert st'.functions == st.functions;
  }

  lemma OneMoreOperand(st: State, r: BlockRef, i: nat, os: seq<Operand>, o: Operand)
    requires IsPlace(st, r, i)
    ensures var st' := MirFactory.AddOperands(st, r, i, os);
      IsPlace(st', r, i) && MirFactory.AddOperands(st', r, i, [o]) == MirFactory.AddOperands(st, r, i, os + [o])
  {
    var x := Get(st, r, i);
    var ins := Instructions(st, r)[i := x.(operands := x.operands + os)];
    var ins' := Instructions(st, r)[i := x.(operands := x.operands + (os + [o]))];
    SetTwice(st, r, ins, ins');
    assert Instructions(SetInstructions(st, r, ins), r) == ins;
    assert x.operands + os + [o] == x.operands + (os + [o]);
    assert ins[i := x.(operands := x.operands + os + [o])] == ins';
  }

  lemma SetTwice(st: State, r: BlockRef, ins: seq<Instruction>, ins': seq<Instruction>)
    requires IsBlock(st, r)
    ensures IsBlock(SetInstructions(st, r, ins), r)
    ensures SetInstructions(SetInstructions(st, r, ins), r, ins') == SetInstructions(st, r, ins')
  {
    var a, b := SetInstructions(SetInstructions(st, r, ins), r, ins'), SetInstructions(st, r, ins');
    assert a.functions[r.fn].blocks == b.functions[r.fn].blocks;
    assert a.functions == b.functions;
  }
}
