/**
  * The pass driver of WIFuncResolution.cpp: visitCallInst rewrites one call
  * site, runOnFunction visits every instruction in order and then folds a
  * known work-group size into the enqueued-local-size argument.
  */
module WIFuncResolution {
  import opened Wrappers
  import opened WorkItemIR
  import opened BuiltinResolver

  /** A direct call to one of the recognised builtin names. */
  predicate IsWICall(inst: Inst)
  {
    inst.Call? && inst.callee.Direct? && BuiltinOf(inst.callee.name).Some?
  }

  /** An instruction is rewritten exactly when it is a direct call to one of the builtin names. */
  lemma WICallByName(inst: Inst)
    ensures IsWICall(inst) <==> inst.Call? && inst.callee.Direct? && exists b :: BuiltinName(b) == inst.callee.name
  {
    if inst.Call? && inst.callee.Direct? && BuiltinOf(inst.callee.name).None? {
      forall b ensures BuiltinName(b) != inst.callee.name {
        BuiltinNameRoundTrip(b);
      }
    }
  }

  function CallBuiltin(inst: Inst): Builtin
    requires IsWICall(inst)
  {
    BuiltinOf(inst.callee.name).value
  }

  /** A call to a builtin that takes a dimension has that operand. */
  predicate WellFormedInst(inst: Inst)
  {
    IsWICall(inst) && TakesDim(CallBuiltin(inst)) ==> |inst.args| >= 1
  }

  predicate WellFormedBody(body: seq<Inst>)
  {
    forall k :: 0 <= k < |body| ==> WellFormedInst(body[k])
  }

  lemma ReplaceKeepsCallShape(inst: Inst, from: Value, to: Value)
    ensures IsWICall(ReplaceInInst(inst, from, to)) == IsWICall(inst)
    ensures WellFormedInst(inst) ==> WellFormedInst(ReplaceInInst(inst, from, to))
  {
  }

  /** The value that replaces a recognised call: the builtin's value, zero-extended to the call's width when narrower. */
  function ResolvedValue(f: FnInfo, inst: Inst): (r: Result<Value, ResolveError>)
    requires ValidFn(f) && IsWICall(inst) && WellFormedInst(inst)
    ensures r.Err? <==> !Resolvable(f, CallBuiltin(inst))
    ensures r.Ok? ==> Width(r.value, f) >= inst.bits
  {
    ResolveFails(f, CallBuiltin(inst), inst.args, inst.bits);
    match ResolveBuiltin(f, CallBuiltin(inst), inst.args, inst.bits)
    case Ok(v) => Ok(Widen(v, f, inst.bits))
    case Err(e) => Err(e)
  }

  /**
    * visitCallInst on the instruction at `pos`: Ok(None) leaves the body as
    * it is (not a call to a recognised name, or an indirect call),
    * Ok(Some(b)) is the body with every use of the call redirected to its
    * resolved value and the call erased, Err is the fatal case.
    */
  function Step(f: FnInfo, body: seq<Inst>, pos: nat): (r: Result<Option<seq<Inst>>, ResolveError>)
    requires ValidFn(f) && pos < |body| && WellFormedBody(body)
    ensures r == Ok(None) <==> !IsWICall(body[pos])
    ensures r.Ok? && r.value.Some? ==> |r.value.value| == |body| - 1 && WellFormedBody(r.value.value)
  {
    var inst := body[pos];
    if !IsWICall(inst) then Ok(None)
    else match ResolvedValue(f, inst)
      case Err(e) => Err(e)
      case Ok(w) =>
        var replaced := ReplaceInBody(body, CallResult(inst.id), w);
        assert forall k :: 0 <= k < |body| ==> WellFormedInst(replaced[k]) by {
          forall k | 0 <= k < |body| ensures WellFormedInst(replaced[k]) {
            ReplaceKeepsCallShape(body[k], CallResult(inst.id), w);
          }
        }
        Ok(Some(EraseAt(replaced, pos)))
  }

  /** The instruction walk of runOnFunction from position `i` on; `changed` is m_changed. */
  function RewriteFrom(f: FnInfo, body: seq<Inst>, i: nat, changed: bool): (r: Result<(seq<Inst>, bool), ResolveError>)
    requires ValidFn(f) && i <= |body| && WellFormedBody(body)
    ensures r.Ok? ==> |r.value.0| <= |body| && WellFormedBody(r.value.0)
    ensures r.Ok? ==> (r.value.1 <==> changed || |r.value.0| < |body|)
    decreases |body| - i
  {
    if i == |body| then Ok((body, changed))
    else match Step(f, body, i)
      case Err(e) => Err(e)
      case Ok(None) => RewriteFrom(f, body, i + 1, changed)
      case Ok(Some(b)) => RewriteFrom(f, b, i, true)
  }

  /** One step of the walk: past an instruction that is left alone, into the rewritten body, or to the error. */
  lemma RewriteStep(f: FnInfo, body: seq<Inst>, i: nat, changed: bool)
    requires ValidFn(f) && i < |body| && WellFormedBody(body)
    ensures Step(f, body, i) == Ok(None) ==> RewriteFrom(f, body, i, changed) == RewriteFrom(f, body, i + 1, changed)
    ensures Step(f, body, i).Ok? && Step(f, body, i).value.Some? ==>
      RewriteFrom(f, body, i, changed) == RewriteFrom(f, Step(f, body, i).value.value, i, true)
    ensures Step(f, body, i).Err? ==> RewriteFrom(f, body, i, changed) == Err(Step(f, body, i).error)
  {
  }

  /** After the walk no call to a recognised builtin remains. */
  lemma {:induction false} RewriteRemovesWICalls(f: FnInfo, body: seq<Inst>, i: nat, changed: bool)
    requires ValidFn(f) && i <= |body| && WellFormedBody(body)
    requires forall k :: 0 <= k < i ==> !IsWICall(body[k])
    requires RewriteFrom(f, body, i, changed).Ok?
    ensures forall k :: 0 <= k < |RewriteFrom(f, body, i, changed).value.0| ==> !IsWICall(RewriteFrom(f, body, i, changed).value.0[k])
    decreases |body| - i
  {
    if i < |body| {
      match Step(f, body, i)
      case Ok(None) => RewriteRemovesWICalls(f, body, i + 1, changed);
      case Ok(Some(b)) =>
        var inst := body[i];
        var w := ResolvedValue(f, inst).value;
        forall k | 0 <= k < i ensures !IsWICall(b[k]) {
          ReplaceKeepsCallShape(body[k], CallResult(inst.id), w);
        }
        RewriteRemovesWICalls(f, b, i, true);
    }
  }

  /** The changed flag ends true exactly when some instruction from `i` on was a recognised call (or it was already true). */
  lemma {:induction false} RewriteChanged(f: FnInfo, body: seq<Inst>, i: nat, changed: bool)
    requires ValidFn(f) && i <= |body| && WellFormedBody(body)
    requires RewriteFrom(f, body, i, changed).Ok?
    ensures RewriteFrom(f, body, i, changed).value.1
        <==> changed || exists k :: i <= k < |body| && IsWICall(body[k])
    decreases |body| - i
  {
    if i < |body| {
      RewriteStep(f, body, i, changed);
      match Step(f, body, i)
      case Ok(None) =>
        RewriteChanged(f, body, i + 1, changed);
        assert !IsWICall(body[i]);
        assert (exists k :: i <= k < |body| && IsWICall(body[k]))
           <==> (exists k :: i + 1 <= k < |body| && IsWICall(body[k]));
      case Ok(Some(b)) =>
        RewriteChanged(f, b, i, true);
        assert IsWICall(body[i]);
    }
  }

  /** Without any recognised direct call from `i` on, the walk changes nothing: indirect and unknown calls are left alone. */
  lemma {:induction false} RewriteWithoutWICalls(f: FnInfo, body: seq<Inst>, i: nat, changed: bool)
    requires ValidFn(f) && i <= |body| && WellFormedBody(body)
    requires forall k :: i <= k < |body| ==> !IsWICall(body[k])
    ensures RewriteFrom(f, body, i, changed) == Ok((body, changed))
    decreases |body| - i
  {
    if i < |body| {
      RewriteWithoutWICalls(f, body, i + 1, changed);
    }
  }

  /** A step leaves no use of the erased call, provided the call does not consume its own result. */
  lemma StepRedirectsAllUses(f: FnInfo, body: seq<Inst>, pos: nat)
    requires ValidFn(f) && pos < |body| && WellFormedBody(body)
    requires Step(f, body, pos).Ok? && Step(f, body, pos).value.Some?
    requires forall j :: 0 <= j < |body[pos].args| ==> !Occurs(CallResult(body[pos].id), body[pos].args[j])
    ensures !UsedIn(CallResult(body[pos].id), Step(f, body, pos).value.value)
  {
    var inst := body[pos];
    var x := CallResult(inst.id);
    var v := ResolveBuiltin(f, CallBuiltin(inst), inst.args, inst.bits).value;
    ResolvedUsesOnlyDim(f, CallBuiltin(inst), inst.args, inst.bits, inst.id);
    var w := Widen(v, f, inst.bits);
    assert !Occurs(x, w);
    var replaced := ReplaceInBody(body, x, w);
    ReplaceInBodyRemovesUses(body, x, w);
    var b := Step(f, body, pos).value.value;
    assert b == EraseAt(replaced, pos);
    forall k, j | 0 <= k < |b| && 0 <= j < |Operands(b[k])|
      ensures !Occurs(x, Operands(b[k])[j])
    {
      var k' := if k < pos then k else k + 1;
      assert b[k] == replaced[k'];
    }
  }

  /**
    * A step preserves what every remaining instruction reads: when the
    * call's result is its reference value, each instruction of the new body
    * reads the same values as the corresponding instruction of the old body.
    */
  lemma StepPreservesMeaning(f: FnInfo, body: seq<Inst>, pos: nat, d: nat, st: DispatchState, env: map<nat, seq<nat>>)
    requires ValidFn(f) && pos < |body| && WellFormedBody(body) && ValidState(f, st) && d < 3
    requires IsWICall(body[pos]) && Resolvable(f, CallBuiltin(body[pos]))
    requires TakesDim(CallBuiltin(body[pos])) ==> Eval(body[pos].args[0], st, env) == Some([d])
    requires body[pos].id in env
    requires env[body[pos].id] == [Reference(f, CallBuiltin(body[pos]), d, body[pos].bits, st)]
    ensures Step(f, body, pos).Ok? && Step(f, body, pos).value.Some?
    ensures var b := Step(f, body, pos).value.value;
      forall k :: 0 <= k < |b| ==> OperandValues(b[k], st, env) == OperandValues(EraseAt(body, pos)[k], st, env)
  {
    var inst := body[pos];
    var bi := CallBuiltin(inst);
    if f.stackCall {
      ResolveStackCall(f, bi, inst.args, d, inst.bits, st, env);
    } else {
      ResolveStandardKernel(f, bi, inst.args, d, inst.bits, st, env);
    }
    var v := ResolveBuiltin(f, bi, inst.args, inst.bits).value;
    var w := Widen(v, f, inst.bits);
    assert Eval(w, st, env) == Eval(CallResult(inst.id), st, env);
    assert Step(f, body, pos) == Ok(Some(EraseAt(ReplaceInBody(body, CallResult(inst.id), w), pos)));
    RedirectThenErase(body, pos, CallResult(inst.id), w, st, env);
  }

  /** Redirecting the uses of `x` to an equal-valued `w` and erasing position `pos` changes no value the other instructions read. */
  lemma RedirectThenErase(body: seq<Inst>, pos: nat, x: Value, w: Value, st: DispatchState, env: map<nat, seq<nat>>)
    requires pos < |body| && Eval(w, st, env) == Eval(x, st, env)
    ensures var b := EraseAt(ReplaceInBody(body, x, w), pos);
      |b| == |body| - 1 &&
      forall k :: 0 <= k < |b| ==> OperandValues(b[k], st, env) == OperandValues(EraseAt(body, pos)[k], st, env)
  {
    var replaced := ReplaceInBody(body, x, w);
    var b := EraseAt(replaced, pos);
    forall k | 0 <= k < |b|
      ensures OperandValues(b[k], st, env) == OperandValues(EraseAt(body, pos)[k], st, env)
    {
      var k' := if k < pos then k else k + 1;
      assert b[k] == replaced[k'] && EraseAt(body, pos)[k] == body[k'];
      ReplaceInInstPreservesMeaning(body[k'], x, w, st, env);
    }
  }

  /** `(uint32_t)` applied to a metadata dimension. */
  function AsU32(x: int): (r: nat)
    ensures r < 0x1_0000_0000
    ensures 0 <= x < 0x1_0000_0000 ==> r == x
    ensures (r - x) % 0x1_0000_0000 == 0
  {
    x % 0x1_0000_0000
  }

  /** getKnownWorkGroupSize: the thread-group size from metadata, as a constant three-lane vector. */
  function KnownWorkGroupSize(threadGroupSize: Option<(int, int, int)>): (r: Option<Value>)
    ensures r.Some? <==> threadGroupSize.Some?
    ensures r.Some? ==> r.value.ConstVector? && |r.value.lanes| == 3
  {
    match threadGroupSize
    case None => None
    case Some((x, y, z)) => Some(ConstVector([AsU32(x), AsU32(y), AsU32(z)]))
  }

  /** The folding step of runOnFunction: every use of the ENQUEUED_LOCAL_WORK_SIZE argument becomes the known size. */
  function FoldGroupSize(f: FnInfo, body: seq<Inst>, threadGroupSize: Option<(int, int, int)>): (r: seq<Inst>)
    requires ValidFn(f)
    ensures |r| == |body|
  {
    match KnownWorkGroupSize(threadGroupSize)
    case None => body
    case Some(known) =>
      if EnqueuedLocalWorkSize in f.catalog
      then ReplaceInBody(body, Param(ArgIndex(f, EnqueuedLocalWorkSize)), known)
      else body
  }

  /** Without metadata, or without the argument, nothing is folded. */
  lemma FoldWithoutSize(f: FnInfo, body: seq<Inst>, threadGroupSize: Option<(int, int, int)>)
    requires ValidFn(f)
    requires threadGroupSize.None? || EnqueuedLocalWorkSize !in f.catalog
    ensures FoldGroupSize(f, body, threadGroupSize) == body
  {
  }

  /** With metadata (x, y, z), no use of the argument remains and each of its uses reads [x, y, z]. */
  lemma FoldReplacesArgument(f: FnInfo, body: seq<Inst>, x: int, y: int, z: int)
    requires ValidFn(f) && EnqueuedLocalWorkSize in f.catalog
    ensures !UsedIn(Param(ArgIndex(f, EnqueuedLocalWorkSize)), FoldGroupSize(f, body, Some((x, y, z))))
    ensures FoldGroupSize(f, body, Some((x, y, z)))
         == ReplaceInBody(body, Param(ArgIndex(f, EnqueuedLocalWorkSize)), ConstVector([AsU32(x), AsU32(y), AsU32(z)]))
  {
    ReplaceInBodyRemovesUses(body, Param(ArgIndex(f, EnqueuedLocalWorkSize)), ConstVector([AsU32(x), AsU32(y), AsU32(z)]));
  }

  /** When the argument does carry the known size at run time, folding changes no value any instruction reads. */
  lemma FoldPreservesMeaning(f: FnInfo, body: seq<Inst>, x: int, y: int, z: int, st: DispatchState, env: map<nat, seq<nat>>)
    requires ValidFn(f) && EnqueuedLocalWorkSize in f.catalog && ValidState(f, st)
    requires st.params[ArgIndex(f, EnqueuedLocalWorkSize)] == [AsU32(x), AsU32(y), AsU32(z)]
    ensures var folded := FoldGroupSize(f, body, Some((x, y, z)));
      |folded| == |body| &&
      forall k :: 0 <= k < |body| ==> OperandValues(folded[k], st, env) == OperandValues(body[k], st, env)
  {
    var from := Param(ArgIndex(f, EnqueuedLocalWorkSize));
    var to := ConstVector([AsU32(x), AsU32(y), AsU32(z)]);
    forall k | 0 <= k < |body|
      ensures OperandValues(ReplaceInBody(body, from, to)[k], st, env) == OperandValues(body[k], st, env)
    {
      ReplaceInInstPreservesMeaning(body[k], from, to, st, env);
    }
  }

  /** runOnFunction: the walk, then the folding; the flag returned is the walk's alone. */
  function RunOnFunctionSpec(f: FnInfo, body: seq<Inst>, threadGroupSize: Option<(int, int, int)>): (r: Result<(seq<Inst>, bool), ResolveError>)
    requires ValidFn(f) && WellFormedBody(body)
    ensures r.Ok? ==> |r.value.0| <= |body|
    ensures r.Ok? ==> (r.value.1 <==> |r.value.0| < |body|)
  {
    match RewriteFrom(f, body, 0, false)
    case Err(e) => Err(e)
    case Ok((b, changed)) => Ok((FoldGroupSize(f, b, threadGroupSize), changed))
  }

  /**
    * End to end: a successful runOnFunction leaves no call to a recognised
    * builtin, and reports a change exactly when the body had one.
    */
  lemma RunOnFunctionResult(f: FnInfo, body: seq<Inst>, threadGroupSize: Option<(int, int, int)>)
    requires ValidFn(f) && WellFormedBody(body)
    requires RunOnFunctionSpec(f, body, threadGroupSize).Ok?
    ensures var (b, changed) := RunOnFunctionSpec(f, body, threadGroupSize).value;
      (forall k :: 0 <= k < |b| ==> !IsWICall(b[k])) &&
      (changed <==> exists k :: 0 <= k < |body| && IsWICall(body[k]))
  {
    RewriteRemovesWICalls(f, body, 0, false);
    RewriteChanged(f, body, 0, false);
    var walked := RewriteFrom(f, body, 0, false).value.0;
    match KnownWorkGroupSize(threadGroupSize)
    case None =>
    case Some(known) =>
      if EnqueuedLocalWorkSize in f.catalog {
        forall k | 0 <= k < |walked|
          ensures !IsWICall(ReplaceInBody(walked, Param(ArgIndex(f, EnqueuedLocalWorkSize)), known)[k])
        {
          ReplaceKeepsCallShape(walked[k], Param(ArgIndex(f, EnqueuedLocalWorkSize)), known);
        }
      }
  }

  /** A body without recognised calls is returned as it is, up to the folding, with no change reported. */
  lemma RunOnFunctionWithoutWICalls(f: FnInfo, body: seq<Inst>, threadGroupSize: Option<(int, int, int)>)
    requires ValidFn(f) && WellFormedBody(body)
    requires forall k :: 0 <= k < |body| ==> !IsWICall(body[k])
    ensures RunOnFunctionSpec(f, body, threadGroupSize) == Ok((FoldGroupSize(f, body, threadGroupSize), false))
  {
    RewriteWithoutWICalls(f, body, 0, false);
  }

  /** The function being compiled: parameter widths, the visaStackCall attribute, and its instructions. */
  class IRFunction {
    const paramBits: seq<nat>
    const stackCall: bool
    var body: seq<Inst>

    constructor (paramBits: seq<nat>, stackCall: bool, body: seq<Inst>)
      ensures this.paramBits == paramBits && this.stackCall == stackCall && this.body == body
    {
      this.paramBits := paramBits;
      this.stackCall := stackCall;
      this.body := body;
    }
  }

  /** The pass object: m_changed and m_implicitArgs. */
  class WIFuncResolutionPass {
    var changed: bool
    var implicitArgs: seq<ImplicitArg>

    /** The constructor leaves m_changed unset; runOnFunction assigns it before reading it. */
    constructor ()
      ensures implicitArgs == []
    {
      implicitArgs := [];
    }

    function Info(F: IRFunction): FnInfo
      reads this
    {
      FnInfo(F.paramBits, implicitArgs, F.stackCall)
    }

    method VisitCallInst(F: IRFunction, pos: nat) returns (err: Option<ResolveError>)
      requires ValidFn(Info(F)) && pos < |F.body| && F.body[pos].Call? && WellFormedBody(F.body)
      modifies this`changed, F`body
      ensures var s := Step(Info(F), old(F.body), pos);
        (s == Ok(None) ==> err == None && F.body == old(F.body) && changed == old(changed)) &&
        (s.Ok? && s.value.Some? ==> err == None && F.body == s.value.value && changed) &&
        (s.Err? ==> err == Some(s.error) && F.body == old(F.body) && changed == old(changed))
    {
      var inst := F.body[pos];
      if inst.callee.Indirect? {
        return None;
      }
      var builtin := BuiltinOf(inst.callee.name);
      if builtin.None? {
        // Not a work-item function.
        return None;
      }
      var wiRes := ResolveBuiltin(Info(F), builtin.value, inst.args, inst.bits);
      if wiRes.Err? {
        return Some(wiRes.error);
      }
      var v := Widen(wiRes.value, Info(F), inst.bits);
      F.body := EraseAt(ReplaceInBody(F.body, CallResult(inst.id), v), pos);
      changed := true;
      return None;
    }

    /** One visit of the instruction visitor: the instruction at `i`, and the position the walk goes on from. */
    method VisitAt(F: IRFunction, i: nat) returns (err: Option<ResolveError>, next: nat)
      requires ValidFn(Info(F)) && WellFormedBody(F.body) && i < |F.body|
      modifies this`changed, F`body
      ensures WellFormedBody(F.body) && next <= |F.body| && |F.body| - next < |old(F.body)| - i
      ensures err.None? ==> RewriteFrom(Info(F), F.body, next, changed) == RewriteFrom(Info(F), old(F.body), i, old(changed))
      ensures err.Some? ==> RewriteFrom(Info(F), old(F.body), i, old(changed)) == Err(err.value)
    {
      ghost var body0, changed0 := F.body, changed;
      ghost var step := Step(Info(F), body0, i);
      RewriteStep(Info(F), body0, i, changed0);
      // The visitor has already moved its iterator past the instruction it visits.
      var remaining := |F.body| - i - 1;
      err := None;
      if F.body[i].Call? {
        err := VisitCallInst(F, i);
      }
      next := |F.body| - remaining;
      if step == Ok(None) {
        assert F.body == body0 && changed == changed0 && next == i + 1;
      } else if step.Ok? {
        assert F.body == step.value.value && changed && next == i;
      }
    }

    /** The instruction visitor: every instruction in order, calls through VisitCallInst. */
    method Visit(F: IRFunction) returns (err: Option<ResolveError>)
      requires ValidFn(Info(F)) && WellFormedBody(F.body)
      modifies this`changed, F`body
      ensures var spec := RewriteFrom(Info(F), old(F.body), 0, old(changed));
        (spec.Ok? ==> err == None && F.body == spec.value.0 && changed == spec.value.1) &&
        (spec.Err? ==> err == Some(spec.error))
    {
      var i: nat := 0;
      while i < |F.body|
        invariant i <= |F.body| && WellFormedBody(F.body)
        invariant RewriteFrom(Info(F), F.body, i, changed) == RewriteFrom(Info(F), old(F.body), 0, old(changed))
        decreases |F.body| - i
      {
        var next;
        err, next := VisitAt(F, i);
        if err.Some? {
          return;
        }
        i := next;
      }
      return None;
    }

    method RunOnFunction(F: IRFunction, catalog: seq<ImplicitArg>, threadGroupSize: Option<(int, int, int)>)
      returns (r: Result<bool, ResolveError>)
      requires |catalog| <= |F.paramBits| && WellFormedBody(F.body)
      modifies this, F`body
      ensures implicitArgs == catalog
      ensures var spec := RunOnFunctionSpec(FnInfo(F.paramBits, catalog, F.stackCall), old(F.body), threadGroupSize);
        (spec.Ok? ==> r == Ok(spec.value.1) && F.body == spec.value.0 && changed == spec.value.1) &&
        (spec.Err? ==> r == Err(spec.error))
    {
      changed := false;
      implicitArgs := catalog;
      var err := Visit(F);
      if err.Some? {
        return Err(err.value);
      }
      var known := KnownWorkGroupSize(threadGroupSize);
      if known.Some? && EnqueuedLocalWorkSize in implicitArgs {
        F.body := ReplaceInBody(F.body, Param(ArgIndex(Info(F), EnqueuedLocalWorkSize)), known.value);
      }
      return Ok(changed);
    }
  }

  /**
    * A kernel with two explicit parameters and the catalog
    * [LOCAL_ID_X, LOCAL_ID_Y, LOCAL_ID_Z, GLOBAL_SIZE]: a 64-bit
    * get_local_id_x resolves to parameter 2 + 4 - 4 + 0 = 2, zero-extended.
    */
  lemma LocalIdExample()
    ensures var f := FnInfo([32, 32, 16, 16, 16, 32], [LocalIdX, LocalIdY, LocalIdZ, GlobalSize], false);
      ResolvedValue(f, Call(7, Direct("__builtin_IB_get_local_id_x"), [], 64)) == Ok(ZExt(Param(2), 64))
  {
  }
}
