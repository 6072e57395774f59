/** Properties of the statement text built by RestServiceProvider/CodeGen.cs
    CreateMethodSource: its layout, how the argument list splits back into
    the per-parameter expressions, and how its parentheses balance. */
module RestStatementText {
  import opened Wrappers
  import opened Reflection
  import opened Text
  import opened WrapperText
  import opened RestCodeGen

  // ---------------------------------------------------------------------
  // Argument list
  // ---------------------------------------------------------------------

  lemma ConvertSelectPlain(typeName: string)
    requires Plain(typeName)
    ensures Plain(ConvertSelect(typeName))
  {
    if IsPrimitiveName(typeName) {
      ConverterNamesPlain(typeName);
    } else {
      JsonConverterPlain(typeName);
    }
  }

  lemma JsonConverterPlain(typeName: string)
    requires Plain(typeName)
    ensures Plain("JsonConvert.DerializeObject<" + typeName + ">")
  {
    assert Plain("JsonConvert.DerializeObject<") && Plain(">");
  }

  lemma ArgTextsPlain(ps: seq<ParamInfo>)
    requires PlainParams(ps)
    ensures forall k :: 0 <= k < |ps| ==> ',' !in ArgTexts(ps)[k] && CloseSurplus(ArgTexts(ps)[k]) == 0
  {
    forall k | 0 <= k < |ps|
      ensures ',' !in ArgTexts(ps)[k] && CloseSurplus(ArgTexts(ps)[k]) == 0
    {
      ConvertSelectPlain(ps[k].typeName);
      ArgTextPlain(ps[k], ConvertSelect(ps[k].typeName));
    }
  }

  lemma ArgumentListBalanced(ps: seq<ParamInfo>)
    requires PlainParams(ps)
    ensures CloseSurplus(Join(ArgTexts(ps), ",")) == 0
  {
    ArgTextsPlain(ps);
    JoinBalanced(ArgTexts(ps));
  }

  /** The generated argument list splits at its commas back into exactly
      one converted expression per parameter, in declaration order: the
      trailing comma has been cut off; no parameter gives the empty list. */
  lemma ArgumentList(ps: seq<ParamInfo>)
    requires PlainParams(ps)
    ensures |ps| >= 1 ==> Split(Join(ArgTexts(ps), ","), ',') == ArgTexts(ps)
    ensures |ps| == 0 ==> Join(ArgTexts(ps), ",") == ""
  {
    ArgTextsPlain(ps);
    if |ps| >= 1 {
      SplitJoin(ArgTexts(ps), ',');
    }
  }

  // ---------------------------------------------------------------------
  // Parentheses of the statement
  // ---------------------------------------------------------------------

  /** The query call closes one parenthesis more than it opens exactly
      when the called method is void: the closer "));" is fixed while a
      void call lacks the SerializeObject( it would close. */
  lemma SimpleCallSurplus(name: string, m1: MethodInfo)
    requires Plain(name) && PlainParams(m1.params)
    ensures CloseSurplus(SimpleCall(name, m1)) == if IsVoid(m1) then 1 else 0
  {
    var prefix, args := CallPrefix(m1), Join(ArgTexts(m1.params), ",");
    var tail := if IsVoid(m1) then SuccessReturn else "";
    assert SimpleCall(name, m1) == prefix + name + "(" + args + "));" + tail;
    CallPrefixSurplus(m1);
    ArgumentListBalanced(m1.params);
    CloserSurplus();
    SurplusOpen();
    Parenless(name);
    if IsVoid(m1) {
      SentinelBalanced();
    } else {
      Parenless(tail);
    }
    SurplusSum(prefix, name, "(", args, "));", tail);
  }

  lemma BodyGuardBalanced()
    ensures CloseSurplus(BodyGuard) == 0
  {
    SurplusOpen();
    SurplusClose();
    Parenless("if ");
    Parenless("!String.IsNullOrEmpty");
    Parenless("body");
    Surplus7("if ", "(", "!String.IsNullOrEmpty", "(", "body", ")", ")");
  }

  lemma DeserializeOpenSurplus()
    ensures CloseSurplus(DeserializeOpen) == -1
  {
    SurplusOpen();
    Parenless("JsonConvert.DeserializeObject<");
    SurplusConcat("(", "JsonConvert.DeserializeObject<");
  }

  lemma BodyCloseSurplus()
    ensures CloseSurplus(BodyClose) == 2
  {
    SurplusOpen();
    SurplusClose();
    Parenless(">");
    Parenless("body");
    Parenless("; else");
    Surplus7(">", "(", "body", ")", ")", ")", "; else");
  }

  /** The same holds for the body branch: it is balanced for a method that
      returns a value and closes one parenthesis too many for a void one. */
  lemma BodyBranchSurplus(name: string, m2: MethodInfo)
    requires |m2.params| >= 1
    requires Plain(name) && Plain(m2.params[0].typeName)
    ensures CloseSurplus(BodyBranch(name, m2)) == if IsVoid(m2) then 1 else 0
  {
    var prefix, tn := CallPrefix(m2), m2.params[0].typeName;
    BodyGuardBalanced();
    CallPrefixSurplus(m2);
    DeserializeOpenSurplus();
    BodyCloseSurplus();
    Parenless(name);
    Parenless(tn);
    SurplusSum(BodyGuard, prefix, name, DeserializeOpen, tn, BodyClose);
  }

  /** The generated statement's parentheses: it closes exactly as many more
      than it opens as there are void methods among the overloads it calls,
      so it is balanced only when every called method returns a value. */
  lemma StatementParens(plan: Plan)
    requires WellFormed(plan)
    requires Plain(plan.name) && PlainParams(plan.simple.params)
    requires plan.bodyOverload.Some? ==> Plain(plan.bodyOverload.value.params[0].typeName)
    ensures CloseSurplus(Statement(plan)) ==
      (if IsVoid(plan.simple) then 1 else 0)
      + (if plan.bodyOverload.Some? && IsVoid(plan.bodyOverload.value) then 1 else 0)
  {
    var branch := if plan.bodyOverload.Some? then BodyBranch(plan.name, plan.bodyOverload.value) else "";
    if plan.bodyOverload.Some? {
      BodyBranchSurplus(plan.name, plan.bodyOverload.value);
    } else {
      Parenless(branch);
    }
    SimpleCallSurplus(plan.name, plan.simple);
    SurplusConcat(branch, SimpleCall(plan.name, plan.simple));
  }

  // ---------------------------------------------------------------------
  // Layout of the statement
  // ---------------------------------------------------------------------

  /** The query call opens with its call prefix and ends with the fixed
      closer, then the sentinel when the method is void. */
  lemma SimpleCallLayout(name: string, m1: MethodInfo)
    ensures StartsWith(SimpleCall(name, m1), CallPrefix(m1) + name + "(")
    ensures EndsWith(SimpleCall(name, m1), "));" + (if IsVoid(m1) then SuccessReturn else ""))
  {
    Framed(CallPrefix(m1), name, "(", Join(ArgTexts(m1.params), ","), "));",
      if IsVoid(m1) then SuccessReturn else "");
  }

  lemma BodyBranchLayout(name: string, m2: MethodInfo)
    requires |m2.params| >= 1
    ensures StartsWith(BodyBranch(name, m2), BodyGuard)
  {
    Framed(BodyGuard, CallPrefix(m2), name, DeserializeOpen, m2.params[0].typeName, BodyClose);
  }

  /** How the statement opens: with the body guard exactly when the group
      is overloaded, and the body branch then precedes the query call. */
  lemma StatementOpening(plan: Plan)
    requires WellFormed(plan)
    ensures var s, call := Statement(plan), CallPrefix(plan.simple) + plan.name + "(";
      && (StartsWith(s, BodyGuard) <==> plan.bodyOverload.Some?)
      && (plan.bodyOverload.None? ==> StartsWith(s, call))
      && (plan.bodyOverload.Some? ==> StartsWith(s, BodyBranch(plan.name, plan.bodyOverload.value) + call))
  {
    var s, call := Statement(plan), CallPrefix(plan.simple) + plan.name + "(";
    var branch := if plan.bodyOverload.Some? then BodyBranch(plan.name, plan.bodyOverload.value) else "";
    var simple := SimpleCall(plan.name, plan.simple);
    assert s == branch + simple;
    SimpleCallLayout(plan.name, plan.simple);
    StartsWithBoth(simple, call, branch);
    if plan.bodyOverload.Some? {
      BodyBranchLayout(plan.name, plan.bodyOverload.value);
      StartsWithBoth(branch, BodyGuard, simple);
    } else {
      assert s == simple;
      assert s[0] == call[0] != BodyGuard[0];
    }
  }

  /** How the statement ends: with the success sentinel exactly when the
      query overload is void, otherwise with the closer of the serialized
      call. */
  lemma StatementEnding(plan: Plan)
    requires WellFormed(plan)
    ensures var s := Statement(plan);
      && (EndsWith(s, SuccessReturn) <==> IsVoid(plan.simple))
      && (IsVoid(plan.simple) ==> EndsWith(s, "));" + SuccessReturn))
      && (!IsVoid(plan.simple) ==> EndsWith(s, "));"))
  {
    var s := Statement(plan);
    var branch := if plan.bodyOverload.Some? then BodyBranch(plan.name, plan.bodyOverload.value) else "";
    var simple := SimpleCall(plan.name, plan.simple);
    var closer := "));" + (if IsVoid(plan.simple) then SuccessReturn else "");
    assert s == branch + simple;
    SimpleCallLayout(plan.name, plan.simple);
    EndsWithFront(simple, closer, branch);
    if IsVoid(plan.simple) {
      EndsWithTrans(s, closer, "));", SuccessReturn);
    } else {
      assert closer == "));";
      EndsDiffer(s, SuccessReturn, closer, 2);
    }
  }
}
