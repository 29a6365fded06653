/**
  * The abstract program the work-item resolution pass rewrites: a function's
  * parameters and implicit-argument catalog, its instructions, the values
  * those instructions consume, and the run-time meaning of those values over
  * a dispatch state.
  */
module WorkItemIR {
  import opened Wrappers
  import opened FieldReader
  import opened PayloadLayout

  /** The implicit-argument kinds the pass queries (ImplicitArg::ArgType). */
  datatype ImplicitArg =
    | LocalIdX | LocalIdY | LocalIdZ
    | R0
    | GlobalSize | LocalSize | EnqueuedLocalWorkSize
    | PayloadHeader
    | WorkDim | NumGroups
    | StageInGridOrigin | StageInGridSize
    | SyncBuffer

  /** Lanes of the vector an implicit argument of each kind carries (1 for a scalar). */
  function LaneCount(kind: ImplicitArg): nat
  {
    match kind
    case LocalIdX | LocalIdY | LocalIdZ | WorkDim | SyncBuffer => 1
    case R0 => R0_LANES
    case PayloadHeader => PAYLOAD_HEADER_LANES
    case GlobalSize | LocalSize | EnqueuedLocalWorkSize | NumGroups
       | StageInGridOrigin | StageInGridSize => 3
  }

  /**
    * What the pass knows of a function: the scalar bit width of each
    * parameter (explicit ones first, implicit ones trailing), the ordered
    * implicit-argument catalog, and whether it carries `visaStackCall`.
    */
  datatype FnInfo = FnInfo(paramBits: seq<nat>, catalog: seq<ImplicitArg>, stackCall: bool)

  /** The catalog describes the trailing parameters of the function. */
  predicate ValidFn(f: FnInfo)
  {
    |f.catalog| <= |f.paramBits|
  }

  /** Position of the first parameter the catalog describes. */
  function FirstImplicit(f: FnInfo): nat
    requires ValidFn(f)
  {
    |f.paramBits| - |f.catalog|
  }

  /** Position of `kind` in the catalog (ImplicitArgs::getArgIndex). */
  function IndexOf(catalog: seq<ImplicitArg>, kind: ImplicitArg): (k: nat)
    requires kind in catalog
    ensures k < |catalog| && catalog[k] == kind
    ensures forall j :: 0 <= j < k ==> catalog[j] != kind
  {
    if catalog[0] == kind then 0 else 1 + IndexOf(catalog[1..], kind)
  }

  /** The function's arguments in order (arg_begin .. arg_end). */
  function Arguments(f: FnInfo): (args: seq<Value>)
    ensures |args| == |f.paramBits|
    ensures forall i :: 0 <= i < |args| ==> args[i] == Param(i)
  {
    seq(|f.paramBits|, i requires 0 <= i < |f.paramBits| => Param(i))
  }

  /** `arg_size - numImplicitArgs + implicitArgIndex`: the parameter carrying `kind`. */
  function ArgIndex(f: FnInfo, kind: ImplicitArg): (index: nat)
    requires ValidFn(f) && kind in f.catalog
    ensures FirstImplicit(f) <= index < |f.paramBits|
    ensures f.catalog[index - FirstImplicit(f)] == kind
  {
    |f.paramBits| - |f.catalog| + IndexOf(f.catalog, kind)
  }

  /**
    * A value an instruction consumes. The nodes stand for the instruction
    * sequences the pass emits, folded into one tree.
    */
  datatype Value =
    | Param(index: nat)                               // a parameter (llvm::Argument)
    | R0Register                                      // the GenISA_getR0 intrinsic
    | SideLoad(offset: nat, count: nat, elemBytes: nat) // BuildLoadInst: count lanes of elemBytes bytes at offset
    | TruncLanes(vec: Value, bits: nat)               // extract, trunc, insert for every lane
    | Extract(vec: Value, lane: Value)                // extractelement
    | GroupIdIndex(dim: Value)                        // icmp eq dim 0; select 1, 5; add dim
    | ZExt(scalar: Value, bits: nat)                  // zext to an integer of `bits` bits
    | ConstVector(lanes: seq<nat>)                    // a constant (ConstantDataVector, ConstantInt)
    | CallResult(id: nat)                             // the result of call instruction `id`

  /** The scalar bit width of a value (getScalarSizeInBits). */
  function Width(v: Value, f: FnInfo): nat
  {
    match v
    case Param(i) => if i < |f.paramBits| then f.paramBits[i] else 0
    case R0Register => 32
    case SideLoad(_, _, elemBytes) => 8 * elemBytes
    case TruncLanes(_, bits) => bits
    case Extract(vec, _) => Width(vec, f)
    case GroupIdIndex(_) => 32
    case ZExt(_, bits) => bits
    case ConstVector(_) => 32
    case CallResult(_) => 0
  }

  /**
    * The run-time values one work-item sees: every parameter as a lane
    * vector (a scalar is one lane), the R0 register, and the side buffer.
    */
  datatype DispatchState = DispatchState(params: seq<seq<nat>>, r0: seq<nat>, sideBuffer: seq<Byte>)

  /** The state fits the function: implicit arguments have their lane counts, R0 and the side buffer are large enough. */
  predicate ValidState(f: FnInfo, st: DispatchState)
    requires ValidFn(f)
  {
    |st.params| == |f.paramBits| &&
    (forall j :: 0 <= j < |f.catalog| ==> |st.params[FirstImplicit(f) + j]| == LaneCount(f.catalog[j])) &&
    |st.r0| >= R0_LANES &&
    |st.sideBuffer| >= SIDE_BUFFER_READ_EXTENT
  }

  lemma CatalogArgLanes(f: FnInfo, st: DispatchState, kind: ImplicitArg)
    requires ValidFn(f) && ValidState(f, st) && kind in f.catalog
    ensures |st.params[ArgIndex(f, kind)]| == LaneCount(kind)
  {
    var j := ArgIndex(f, kind) - FirstImplicit(f);
    assert FirstImplicit(f) + j == ArgIndex(f, kind);
  }

  /**
    * The run-time lanes of `v`; `env` gives the results of the calls still
    * present. None is an undefined value (a missing parameter or call
    * result, an out-of-range lane, a read outside the side buffer).
    */
  function Eval(v: Value, st: DispatchState, env: map<nat, seq<nat>>): (r: Option<seq<nat>>)
    ensures r.Some? && (v.Extract? || v.GroupIdIndex?) ==> |r.value| == 1
    ensures r.Some? && v.TruncLanes? ==> Eval(v.vec, st, env).Some? && |r.value| == |Eval(v.vec, st, env).value|
    ensures v.ZExt? ==> r == Eval(v.scalar, st, env)
  {
    match v
    case Param(i) => if i < |st.params| then Some(st.params[i]) else None
    case R0Register => Some(st.r0)
    case SideLoad(offset, count, elemBytes) =>
      if offset + count * elemBytes <= |st.sideBuffer|
      then Some(Lanes(st.sideBuffer[offset .. offset + count * elemBytes], count, elemBytes))
      else None
    case TruncLanes(vec, bits) =>
      (match Eval(vec, st, env)
       case Some(lanes) => Some(TruncatedLanes(lanes, bits))
       case None => None)
    case Extract(vec, lane) =>
      (match (Eval(vec, st, env), Eval(lane, st, env))
       case (Some(lanes), Some(index)) =>
         if |index| == 1 && index[0] < |lanes| then Some([lanes[index[0]]]) else None
       case _ => None)
    case GroupIdIndex(dim) =>
      (match Eval(dim, st, env)
       case Some(d) => if |d| == 1 then Some([GroupIdLane(d[0])]) else None
       case None => None)
    case ZExt(scalar, _) => Eval(scalar, st, env)
    case ConstVector(lanes) => Some(lanes)
    case CallResult(id) => if id in env then Some(env[id]) else None
  }

  lemma EvalExtract(vec: Value, lane: Value, st: DispatchState, env: map<nat, seq<nat>>, lanes: seq<nat>, i: nat)
    requires Eval(vec, st, env) == Some(lanes) && Eval(lane, st, env) == Some([i]) && i < |lanes|
    ensures Eval(Extract(vec, lane), st, env) == Some([lanes[i]])
  {
  }

  lemma EvalTruncLanes(vec: Value, bits: nat, st: DispatchState, env: map<nat, seq<nat>>, lanes: seq<nat>)
    requires Eval(vec, st, env) == Some(lanes)
    ensures Eval(TruncLanes(vec, bits), st, env) == Some(TruncatedLanes(lanes, bits))
  {
  }

  /** The cmp/select/add sequence on dimension d < 3 selects the R0 lane holding that dimension's group number. */
  lemma EvalGroupIdIndex(dim: Value, st: DispatchState, env: map<nat, seq<nat>>, d: nat)
    requires Eval(dim, st, env) == Some([d]) && d < 3
    ensures Eval(GroupIdIndex(dim), st, env) == Some([R0_GROUP_NUMBER_LANES[d]])
  {
    assert GroupIdLane(d) == R0_GROUP_NUMBER_LANES[d];
  }

  /** `x` is `v` or one of its operands, transitively. */
  predicate Occurs(x: Value, v: Value)
  {
    v == x ||
    match v
    case TruncLanes(vec, _) => Occurs(x, vec)
    case Extract(vec, lane) => Occurs(x, vec) || Occurs(x, lane)
    case GroupIdIndex(dim) => Occurs(x, dim)
    case ZExt(scalar, _) => Occurs(x, scalar)
    case _ => false
  }

  /** replaceAllUsesWith inside one operand tree; a tree in which `from` does not occur is left as it is. */
  function ReplaceUses(v: Value, from: Value, to: Value): (r: Value)
    ensures !Occurs(from, v) ==> r == v
  {
    if v == from then to
    else match v
      case TruncLanes(vec, bits) => TruncLanes(ReplaceUses(vec, from, to), bits)
      case Extract(vec, lane) => Extract(ReplaceUses(vec, from, to), ReplaceUses(lane, from, to))
      case GroupIdIndex(dim) => GroupIdIndex(ReplaceUses(dim, from, to))
      case ZExt(scalar, bits) => ZExt(ReplaceUses(scalar, from, to), bits)
      case _ => v
  }

  /** The values the pass replaces: a call result, or a parameter. */
  predicate IsLeaf(v: Value)
  {
    v.CallResult? || v.Param?
  }

  /** After the replacement `from` no longer occurs, unless the replacement itself holds it. */
  lemma {:induction false} ReplaceRemovesUses(v: Value, from: Value, to: Value)
    requires IsLeaf(from) && !Occurs(from, to)
    ensures !Occurs(from, ReplaceUses(v, from, to))
  {
    if v != from {
      match v
      case TruncLanes(vec, _) => ReplaceRemovesUses(vec, from, to);
      case Extract(vec, lane) => ReplaceRemovesUses(vec, from, to); ReplaceRemovesUses(lane, from, to);
      case GroupIdIndex(dim) => ReplaceRemovesUses(dim, from, to);
      case ZExt(scalar, _) => ReplaceRemovesUses(scalar, from, to);
      case _ =>
    }
  }

  /** Replacing a value by one with the same run-time lanes changes no run-time value. */
  lemma {:induction false} ReplacePreservesMeaning(v: Value, from: Value, to: Value, st: DispatchState, env: map<nat, seq<nat>>)
    requires Eval(from, st, env) == Eval(to, st, env)
    ensures Eval(ReplaceUses(v, from, to), st, env) == Eval(v, st, env)
  {
    if v != from {
      match v
      case TruncLanes(vec, _) => ReplacePreservesMeaning(vec, from, to, st, env);
      case Extract(vec, lane) =>
        ReplacePreservesMeaning(vec, from, to, st, env);
        ReplacePreservesMeaning(lane, from, to, st, env);
      case GroupIdIndex(dim) => ReplacePreservesMeaning(dim, from, to, st, env);
      case ZExt(scalar, _) => ReplacePreservesMeaning(scalar, from, to, st, env);
      case _ =>
    }
  }

  /** The callee of a call: a named function, or none for an indirect call. */
  datatype Callee = Direct(name: string) | Indirect

  /** An instruction: a call (its result is CallResult(id), `bits` its scalar result width) or any other instruction. */
  datatype Inst =
    | Call(id: nat, callee: Callee, args: seq<Value>, bits: nat)
    | Other(id: nat, operands: seq<Value>)

  /** The values an instruction consumes. */
  function Operands(inst: Inst): seq<Value>
  {
    match inst
    case Call(_, _, args, _) => args
    case Other(_, operands) => operands
  }

  function ReplaceInOperands(vs: seq<Value>, from: Value, to: Value): (r: seq<Value>)
    ensures |r| == |vs|
    ensures forall k :: 0 <= k < |vs| ==> r[k] == ReplaceUses(vs[k], from, to)
  {
    seq(|vs|, k requires 0 <= k < |vs| => ReplaceUses(vs[k], from, to))
  }

  /** replaceAllUsesWith in one instruction: its operands change, nothing else. */
  function ReplaceInInst(inst: Inst, from: Value, to: Value): (r: Inst)
    ensures r.Call? == inst.Call? && r.id == inst.id
    ensures r.Call? ==> r.callee == inst.callee && r.bits == inst.bits
    ensures Operands(r) == ReplaceInOperands(Operands(inst), from, to)
  {
    match inst
    case Call(id, callee, args, bits) => Call(id, callee, ReplaceInOperands(args, from, to), bits)
    case Other(id, operands) => Other(id, ReplaceInOperands(operands, from, to))
  }

  /** replaceAllUsesWith over a whole function body. */
  function ReplaceInBody(body: seq<Inst>, from: Value, to: Value): (r: seq<Inst>)
    ensures |r| == |body|
    ensures forall k :: 0 <= k < |body| ==> r[k] == ReplaceInInst(body[k], from, to)
  {
    seq(|body|, k requires 0 <= k < |body| => ReplaceInInst(body[k], from, to))
  }

  /** Some operand of some instruction of `body` uses `x`. */
  predicate UsedIn(x: Value, body: seq<Inst>)
  {
    exists k, j :: 0 <= k < |body| && 0 <= j < |Operands(body[k])| && Occurs(x, Operands(body[k])[j])
  }

  /** After replaceAllUsesWith(from, to) no instruction uses `from` any more. */
  lemma ReplaceInBodyRemovesUses(body: seq<Inst>, from: Value, to: Value)
    requires IsLeaf(from) && !Occurs(from, to)
    ensures !UsedIn(from, ReplaceInBody(body, from, to))
  {
    var r := ReplaceInBody(body, from, to);
    forall k, j | 0 <= k < |r| && 0 <= j < |Operands(r[k])|
      ensures !Occurs(from, Operands(r[k])[j])
    {
      ReplaceRemovesUses(Operands(body[k])[j], from, to);
    }
  }

  /** The run-time values an instruction consumes. */
  function OperandValues(inst: Inst, st: DispatchState, env: map<nat, seq<nat>>): seq<Option<seq<nat>>>
  {
    var ops := Operands(inst);
    seq(|ops|, j requires 0 <= j < |ops| => Eval(ops[j], st, env))
  }

  /** replaceAllUsesWith by a value with the same run-time lanes leaves every instruction reading the same values. */
  lemma ReplaceInInstPreservesMeaning(inst: Inst, from: Value, to: Value, st: DispatchState, env: map<nat, seq<nat>>)
    requires Eval(from, st, env) == Eval(to, st, env)
    ensures OperandValues(ReplaceInInst(inst, from, to), st, env) == OperandValues(inst, st, env)
  {
    var ops := Operands(inst);
    forall j | 0 <= j < |ops|
      ensures Eval(Operands(ReplaceInInst(inst, from, to))[j], st, env) == Eval(ops[j], st, env)
    {
      ReplacePreservesMeaning(ops[j], from, to, st, env);
    }
  }

  /** eraseFromParent: the instruction at `pos` removed, the others kept in order. */
  function EraseAt(body: seq<Inst>, pos: nat): (r: seq<Inst>)
    requires pos < |body|
    ensures |r| == |body| - 1
    ensures forall k :: 0 <= k < pos ==> r[k] == body[k]
    ensures forall k :: pos <= k < |r| ==> r[k] == body[k + 1]
  {
    body[..pos] + body[pos + 1..]
  }
}
