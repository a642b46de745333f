/** What the emitted code means.  Running the instructions the reference
    compiler produces for a tree leaves the tree's value in the result name,
    provided no variable of the tree is itself named like a temporary the
    code writes; `generate_tac` on a printed tree therefore computes the
    tree's value.  The proviso is needed: `t1 + a * b` on a fresh
    object overwrites the variable `t1` before reading it. */
module SemanticsLaws {
  import opened Tokens
  import opened Tac
  import opened TacLaws
  import opened Expressions
  import opened ExpressionLaws

  // ---------------------------------------------------------------------
  // Running instruction lists

  lemma {:induction false} ExecAppend<V>(a: seq<Instr>, b: seq<Instr>, env: string -> V, apply: (string, V, V) -> V)
    ensures Exec(a + b, env, apply) == Exec(b, Exec(a, env, apply), apply)
    decreases |a|
  {
    if a == [] {
      assert a + b == b;
    } else {
      assert (a + b)[0] == a[0];
      assert (a + b)[1..] == a[1..] + b;
      ExecAppend(a[1..], b, ExecOne(a[0], env, apply), apply);
    }
  }

  lemma ExecOneInstr<V>(i: Instr, env: string -> V, apply: (string, V, V) -> V)
    ensures Exec([i], env, apply) == ExecOne(i, env, apply)
  {
    assert [i][1..] == [];
  }

  /** A name no instruction writes keeps its value. */
  lemma {:induction false} ExecFrame<V>(instrs: seq<Instr>, env: string -> V, apply: (string, V, V) -> V, x: string)
    requires forall i :: 0 <= i < |instrs| ==> instrs[i].target != x
    ensures Exec(instrs, env, apply)(x) == env(x)
    decreases |instrs|
  {
    if instrs != [] {
      var env' := ExecOne(instrs[0], env, apply);
      assert instrs[0].target != x;
      assert env'(x) == env(x);
      ExecFrame(instrs[1..], env', apply, x);
    }
  }

  /** A tree's value depends only on the values of its variables. */
  lemma {:induction false} EvalAgree<V>(e: Expr, env1: string -> V, env2: string -> V, apply: (string, V, V) -> V)
    requires forall x :: x in Vars(e) ==> env1(x) == env2(x)
    ensures Eval(e, env1, apply) == Eval(e, env2, apply)
  {
    match e {
      case Var(_) =>
      case Bin(_, l, r) =>
        EvalAgree(l, env1, env2, apply);
        EvalAgree(r, env1, env2, apply);
      case Group(i) =>
        EvalAgree(i, env1, env2, apply);
    }
  }

  // ---------------------------------------------------------------------
  // What the reference compiler writes

  /** `name` is a temporary numbered above `lo` and at most `hi`. */
  ghost predicate TempBetween(name: string, lo: nat, hi: nat) {
    exists k :: lo < k <= hi && name == TempName(k)
  }

  /** Every instruction writes a temporary numbered above `lo` and at most
      `hi`. */
  ghost predicate WritesBetween(instrs: seq<Instr>, lo: nat, hi: nat) {
    forall i :: 0 <= i < |instrs| ==> TempBetween(instrs[i].target, lo, hi)
  }

  /** `x` is not the name of any temporary numbered above `lo`. */
  ghost predicate NotTempAbove(x: string, lo: nat) {
    forall k :: k > lo ==> x != TempName(k)
  }

  lemma WritesAppend(a: seq<Instr>, b: seq<Instr>, lo: nat, hi: nat)
    requires WritesBetween(a, lo, hi) && WritesBetween(b, lo, hi)
    ensures WritesBetween(a + b, lo, hi)
  {
    forall i | 0 <= i < |a + b| ensures TempBetween((a + b)[i].target, lo, hi) {
      if i < |a| {
        assert (a + b)[i] == a[i];
      } else {
        assert (a + b)[i] == b[i - |a|];
      }
    }
  }

  lemma WritesWiden(instrs: seq<Instr>, lo: nat, hi: nat, lo': nat, hi': nat)
    requires WritesBetween(instrs, lo, hi) && lo' <= lo && hi <= hi'
    ensures WritesBetween(instrs, lo', hi')
  {
    forall i | 0 <= i < |instrs| ensures TempBetween(instrs[i].target, lo', hi') {
      assert TempBetween(instrs[i].target, lo, hi);
      var k :| lo < k <= hi && instrs[i].target == TempName(k);
      assert lo' < k <= hi';
    }
  }

  /** A name that is no temporary above `lo` is not written. */
  lemma NotWritten(instrs: seq<Instr>, lo: nat, hi: nat, x: string)
    requires WritesBetween(instrs, lo, hi) && NotTempAbove(x, lo)
    ensures forall i :: 0 <= i < |instrs| ==> instrs[i].target != x
  {
    forall i | 0 <= i < |instrs| ensures instrs[i].target != x {
      assert TempBetween(instrs[i].target, lo, hi);
      var k :| lo < k <= hi && instrs[i].target == TempName(k);
      assert x != TempName(k);
    }
  }

  /** The reference compiler writes only fresh temporaries, each once, in
      the range the counter passes over. */
  lemma {:induction false} CompileWrites(e: Expr, count: nat)
    ensures WritesBetween(Compile(e, count).instrs, count, Compile(e, count).count)
  {
    match e {
      case Var(_) =>
      case Bin(op, l, r) =>
        var cl := Compile(l, count);
        var cr := Compile(r, cl.count);
        var n := cr.count + 1;
        var instr := Binary(TempName(n), cl.result, Spell(OpToken(op)), cr.result);
        CompileWrites(l, count);
        CompileWrites(r, cl.count);
        WritesWiden(cl.instrs, count, cl.count, count, n);
        WritesWiden(cr.instrs, cl.count, cr.count, count, n);
        assert WritesBetween([instr], count, n) by {
          assert [instr][0].target == TempName(n);
          assert TempBetween(TempName(n), count, n);
        }
        WritesAppend(cl.instrs, cr.instrs, count, n);
        WritesAppend(cl.instrs + cr.instrs, [instr], count, n);
      case Group(i) =>
        CompileWrites(i, count);
    }
  }

  /** The result of a tree is one of its variables, and then no
      temporary is used, or the last temporary its code names. */
  lemma {:induction false} CompileResult(e: Expr, count: nat)
    ensures var code := Compile(e, count);
            e.Var? ==> code.result == e.name && code.count == count
    ensures var code := Compile(e, count);
            e.Bin? ==> code.result == TempName(code.count) && code.count > count
    ensures var code := Compile(e, count);
            || (code.result in Vars(e) && code.count == count)
            || (code.result == TempName(code.count) && code.count > count)
  {
    match e {
      case Var(_) =>
      case Bin(_, _, _) =>
      case Group(i) =>
        CompileResult(i, count);
    }
  }

  lemma NoTempAboveParts(op: Op, l: Expr, r: Expr, count: nat, count': nat)
    requires NoTempAbove(Bin(op, l, r), count) && count <= count'
    ensures NoTempAbove(l, count) && NoTempAbove(r, count) && NoTempAbove(r, count')
  {
    forall x, k | x in Vars(l) && k > count ensures x != TempName(k) {
      assert x in Vars(Bin(op, l, r));
    }
    forall x, k | x in Vars(r) && k > count ensures x != TempName(k) {
      assert x in Vars(Bin(op, l, r));
    }
  }

  /** The left operand's result survives the right operand's code. */
  lemma LeftSurvives(l: Expr, count: nat, right: seq<Instr>, hi: nat)
    requires NoTempAbove(l, count)
    requires WritesBetween(right, Compile(l, count).count, hi)
    ensures NotTempAbove(Compile(l, count).result, Compile(l, count).count)
  {
    var cl := Compile(l, count);
    CompileResult(l, count);
    if cl.count > count {
      forall k | k > cl.count ensures cl.result != TempName(k) {
        TempNameInjective(cl.count, k);
      }
    } else {
      assert cl.result in Vars(l);
    }
  }

  /** The right operand's code leaves the left operand's result alone. */
  lemma LeftKept<V>(l: Expr, r: Expr, count: nat, env: string -> V, apply: (string, V, V) -> V)
    requires NoTempAbove(l, count)
    ensures var cl := Compile(l, count);
            var env1 := Exec(cl.instrs, env, apply);
            Exec(Compile(r, cl.count).instrs, env1, apply)(cl.result) == env1(cl.result)
  {
    var cl := Compile(l, count);
    var cr := Compile(r, cl.count);
    CompileWrites(r, cl.count);
    LeftSurvives(l, count, cr.instrs, cr.count);
    NotWritten(cr.instrs, cl.count, cr.count, cl.result);
    ExecFrame(cr.instrs, Exec(cl.instrs, env, apply), apply, cl.result);
  }

  /** The left operand's code leaves the right operand's variables alone. */
  lemma RightUnaffected<V>(l: Expr, r: Expr, count: nat, env: string -> V, apply: (string, V, V) -> V)
    requires NoTempAbove(r, count)
    ensures Eval(r, Exec(Compile(l, count).instrs, env, apply), apply) == Eval(r, env, apply)
  {
    var cl := Compile(l, count);
    var env1 := Exec(cl.instrs, env, apply);
    CompileWrites(l, count);
    forall x | x in Vars(r) ensures env1(x) == env(x) {
      assert NotTempAbove(x, count);
      NotWritten(cl.instrs, count, cl.count, x);
      ExecFrame(cl.instrs, env, apply, x);
    }
    EvalAgree(r, env1, env, apply);
  }

  /** The root instruction reads both operands' results after both
      operands' code has run. */
  lemma RootValue<V>(op: Op, l: Expr, r: Expr, count: nat, env: string -> V, apply: (string, V, V) -> V)
    ensures var cl := Compile(l, count);
            var cr := Compile(r, cl.count);
            var code := Compile(Bin(op, l, r), count);
            var env2 := Exec(cr.instrs, Exec(cl.instrs, env, apply), apply);
            Exec(code.instrs, env, apply)(code.result) == apply(Spell(OpToken(op)), env2(cl.result), env2(cr.result))
  {
    var cl := Compile(l, count);
    var cr := Compile(r, cl.count);
    var n := cr.count + 1;
    var instr := Binary(TempName(n), cl.result, Spell(OpToken(op)), cr.result);
    var env2 := Exec(cr.instrs, Exec(cl.instrs, env, apply), apply);
    ExecAppend(cl.instrs, cr.instrs, env, apply);
    ExecAppend(cl.instrs + cr.instrs, [instr], env, apply);
    ExecOneInstr(instr, env2, apply);
    assert Compile(Bin(op, l, r), count).instrs == cl.instrs + cr.instrs + [instr];
  }

  /** Running the reference compiler's code of a tree leaves the tree's
      value in the result name, whatever the operators mean. */
  lemma {:induction false} ExecCompiled<V>(e: Expr, count: nat, env: string -> V, apply: (string, V, V) -> V)
    requires NoTempAbove(e, count)
    ensures var code := Compile(e, count);
            Exec(code.instrs, env, apply)(code.result) == Eval(e, env, apply)
  {
    match e {
      case Var(_) =>
      case Bin(op, l, r) =>
        var cl := Compile(l, count);
        var env1 := Exec(cl.instrs, env, apply);
        NoTempAboveParts(op, l, r, count, cl.count);
        ExecCompiled(l, count, env, apply);
        ExecCompiled(r, cl.count, env1, apply);
        LeftKept(l, r, count, env, apply);
        RightUnaffected(l, r, count, env, apply);
        RootValue(op, l, r, count, env, apply);
      case Group(i) =>
        assert Vars(i) == Vars(e);
        ExecCompiled(i, count, env, apply);
    }
  }

  // ---------------------------------------------------------------------
  // End to end

  /** `generate_tac` on the printed form of a tree succeeds, and running
      the instructions it appends leaves the tree's value in the name it
      returns. */
  lemma GenerateTacMeaning<V>(s: Session, e: Expr, env: string -> V, apply: (string, V, V) -> V)
    requires ValidNames(e) && NoTempAbove(e, s.tempCount)
    ensures var out := GenerateTac(s, Line(Print(e)));
            && out.result.Ok?
            && s.instructions <= out.session.instructions
            && Exec(out.session.instructions[|s.instructions|..], env, apply)(out.result.value) == Eval(e, env, apply)
  {
    var code := Compile(e, s.tempCount);
    GenerateTacOnTree(s, e);
    var added := s.instructions + code.instrs;
    assert added[|s.instructions|..] == code.instrs;
    ExecCompiled(e, s.tempCount, env, apply);
  }
}
