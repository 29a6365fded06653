/**
  * The per-builtin resolvers of WIFuncResolution.cpp (getLocalId through
  * getSyncBufferPtr): for each recognised work-item builtin, the value that
  * replaces the call, taken from the implicit-argument catalog of an ordinary
  * kernel or from the side buffer / R0 register of a stack-call function.
  */
module BuiltinResolver {
  import opened Wrappers
  import opened FieldReader
  import opened PayloadLayout
  import opened WorkItemIR

  /** The recognised builtins (WIFuncsAnalysis::GET_*). */
  datatype Builtin =
    | GetLocalIdX | GetLocalIdY | GetLocalIdZ
    | GetGroupId
    | GetGlobalSize | GetLocalSize | GetEnqueuedLocalSize
    | GetGlobalOffset
    | GetWorkDim | GetNumGroups
    | GetStageInGridOrigin | GetStageInGridSize
    | GetSyncBuffer

  function BuiltinName(b: Builtin): (name: string)
  {
    match b
    case GetLocalIdX => "__builtin_IB_get_local_id_x"
    case GetLocalIdY => "__builtin_IB_get_local_id_y"
    case GetLocalIdZ => "__builtin_IB_get_local_id_z"
    case GetGroupId => "__builtin_IB_get_group_id"
    case GetGlobalSize => "__builtin_IB_get_global_size"
    case GetLocalSize => "__builtin_IB_get_local_size"
    case GetEnqueuedLocalSize => "__builtin_IB_get_enqueued_local_size"
    case GetGlobalOffset => "__builtin_IB_get_global_offset"
    case GetWorkDim => "__builtin_IB_get_work_dim"
    case GetNumGroups => "__builtin_IB_get_num_groups"
    case GetStageInGridOrigin => "__builtin_IB_get_grid_origin"
    case GetStageInGridSize => "__builtin_IB_get_grid_size"
    case GetSyncBuffer => "__builtin_IB_get_sync_buffer"
  }

  /** The name comparison chain of visitCallInst; None is "not a work-item function". */
  function BuiltinOf(name: string): (r: Option<Builtin>)
    ensures r.Some? ==> BuiltinName(r.value) == name
  {
    if name == BuiltinName(GetLocalIdX) then Some(GetLocalIdX)
    else if name == BuiltinName(GetLocalIdY) then Some(GetLocalIdY)
    else if name == BuiltinName(GetLocalIdZ) then Some(GetLocalIdZ)
    else if name == BuiltinName(GetGroupId) then Some(GetGroupId)
    else if name == BuiltinName(GetGlobalSize) then Some(GetGlobalSize)
    else if name == BuiltinName(GetLocalSize) then Some(GetLocalSize)
    else if name == BuiltinName(GetEnqueuedLocalSize) then Some(GetEnqueuedLocalSize)
    else if name == BuiltinName(GetGlobalOffset) then Some(GetGlobalOffset)
    else if name == BuiltinName(GetWorkDim) then Some(GetWorkDim)
    else if name == BuiltinName(GetNumGroups) then Some(GetNumGroups)
    else if name == BuiltinName(GetStageInGridOrigin) then Some(GetStageInGridOrigin)
    else if name == BuiltinName(GetStageInGridSize) then Some(GetStageInGridSize)
    else if name == BuiltinName(GetSyncBuffer) then Some(GetSyncBuffer)
    else None
  }

  /** No two builtins share a name, so the comparison chain can match at most one. */
  lemma BuiltinNamesDistinct(b: Builtin, c: Builtin)
    ensures BuiltinName(b) == BuiltinName(c) ==> b == c
  {
    BuiltinNameRoundTrip(b);
    BuiltinNameRoundTrip(c);
  }

  /** Every builtin is recognised by its own name, and by no other. */
  lemma BuiltinNameRoundTrip(b: Builtin)
    ensures BuiltinOf(BuiltinName(b)) == Some(b)
  {
    match b
    case GetLocalIdX | GetLocalIdY | GetLocalIdZ | GetGroupId | GetGlobalSize | GetLocalSize | GetEnqueuedLocalSize | GetGlobalOffset | GetWorkDim | GetNumGroups | GetStageInGridOrigin | GetStageInGridSize | GetSyncBuffer =>
  }

  predicate IsLocalId(b: Builtin)
  {
    b == GetLocalIdX || b == GetLocalIdY || b == GetLocalIdZ
  }

  /** The builtins whose operand 0 is a dimension. */
  predicate TakesDim(b: Builtin)
  {
    !IsLocalId(b) && b != GetWorkDim && b != GetSyncBuffer
  }

  datatype ResolveError =
    | MissingImplicitArg(kind: ImplicitArg) // the catalog lacks the kind: a fatal assertion in the pass
    | StackCallLocalId                      // a local id queried under the stack-call convention: no value is produced

  /** getImplicitArg: the parameter carrying `kind`, or the fatal error when the catalog lacks it. */
  function ImplicitArgValue(f: FnInfo, kind: ImplicitArg): (r: Result<Value, ResolveError>)
    requires ValidFn(f)
    ensures r.Ok? <==> kind in f.catalog
    ensures r.Err? ==> r.error == MissingImplicitArg(kind)
    ensures r.Ok? ==> r.value.Param? && FirstImplicit(f) <= r.value.index < |f.paramBits|
                      && f.catalog[r.value.index - FirstImplicit(f)] == kind
  {
    if kind in f.catalog then Ok(Param(ArgIndex(f, kind))) else Err(MissingImplicitArg(kind))
  }

  /**
    * getImplicitArg as the pass runs it: the catalog yields the kind's
    * position, and an argument iterator is advanced to that parameter.
    */
  method GetImplicitArg(f: FnInfo, kind: ImplicitArg) returns (r: Result<Value, ResolveError>)
    requires ValidFn(f)
    ensures r == ImplicitArgValue(f, kind)
  {
    if kind !in f.catalog {
      return Err(MissingImplicitArg(kind));
    }
    var numImplicitArgs := |f.catalog|;
    var implicitArgIndex := IndexOf(f.catalog, kind);
    var implicitArgIndexInFunc := |f.paramBits| - numImplicitArgs + implicitArgIndex;
    var args := Arguments(f);
    var i := 0;
    var arg := args[0];
    while i < implicitArgIndexInFunc
      invariant i <= implicitArgIndexInFunc
      invariant arg == args[i]
    {
      i := i + 1;
      arg := args[i];
    }
    return Ok(arg);
  }

  /** `extractelement vec, dim` applied to a successful source. */
  function ExtractDim(src: Result<Value, ResolveError>, dim: Value): Result<Value, ResolveError>
  {
    match src
    case Ok(vec) => Ok(Extract(vec, dim))
    case Err(e) => Err(e)
  }

  /** A value built by a resolver from parameters, R0 and the side buffer alone. */
  predicate CallFree(v: Value)
  {
    v.Param? || v.R0Register? || v.SideLoad? || (v.TruncLanes? && v.vec.SideLoad?)
  }

  function ResolveLocalId(f: FnInfo, kind: ImplicitArg): (r: Result<Value, ResolveError>)
    requires ValidFn(f)
    ensures r.Ok? ==> CallFree(r.value)
    ensures f.stackCall ==> r == Err(StackCallLocalId)
    ensures !f.stackCall ==> (r.Ok? <==> kind in f.catalog)
    ensures !f.stackCall && kind !in f.catalog ==> r == Err(MissingImplicitArg(kind))
    ensures r.Ok? ==> r.value == Param(ArgIndex(f, kind))
  {
    if f.stackCall then Err(StackCallLocalId) else ImplicitArgValue(f, kind)
  }

  function ResolveGroupId(f: FnInfo, dim: Value): (r: Result<Value, ResolveError>)
    requires ValidFn(f)
    ensures r.Ok? ==> r.value.Extract? && CallFree(r.value.vec) && r.value.lane == GroupIdIndex(dim)
    ensures r.Err? <==> !f.stackCall && R0 !in f.catalog
    ensures r.Err? ==> r.error == MissingImplicitArg(R0)
    ensures r.Ok? && !f.stackCall ==> r.value.vec == Param(ArgIndex(f, R0))
    ensures r.Ok? && f.stackCall ==> r.value.vec == R0Register
  {
    var r0 := if f.stackCall then Ok(R0Register) else ImplicitArgValue(f, R0);
    match r0
    case Ok(v) => Ok(Extract(v, GroupIdIndex(dim)))
    case Err(e) => Err(e)
  }

  function ResolveGlobalSize(f: FnInfo, dim: Value, bits: nat): (r: Result<Value, ResolveError>)
    requires ValidFn(f)
    ensures r.Ok? ==> r.value.Extract? && CallFree(r.value.vec) && r.value.lane == dim
    ensures r.Err? <==> !f.stackCall && GlobalSize !in f.catalog
    ensures r.Err? ==> r.error == MissingImplicitArg(GlobalSize)
    ensures r.Ok? && !f.stackCall ==> r.value.vec == Param(ArgIndex(f, GlobalSize))
  {
    if f.stackCall then Ok(Extract(TruncLanes(SideLoad(GLOBAL_SIZE_X, 3, SIZEOF_U64), bits), dim))
    else ExtractDim(ImplicitArgValue(f, GlobalSize), dim)
  }

  function ResolveLocalSize(f: FnInfo, dim: Value): (r: Result<Value, ResolveError>)
    requires ValidFn(f)
    ensures r.Ok? ==> r.value.Extract? && CallFree(r.value.vec) && r.value.lane == dim
    ensures r.Err? <==> !f.stackCall && LocalSize !in f.catalog
    ensures r.Err? ==> r.error == MissingImplicitArg(LocalSize)
    ensures r.Ok? && !f.stackCall ==> r.value.vec == Param(ArgIndex(f, LocalSize))
  {
    if f.stackCall then Ok(Extract(SideLoad(LOCAL_SIZE_X, 3, SIZEOF_U32), dim))
    else ExtractDim(ImplicitArgValue(f, LocalSize), dim)
  }

  function ResolveEnqueuedLocalSize(f: FnInfo, dim: Value): (r: Result<Value, ResolveError>)
    requires ValidFn(f)
    ensures r.Ok? ==> r.value.Extract? && CallFree(r.value.vec) && r.value.lane == dim
    ensures r.Err? <==> !f.stackCall && EnqueuedLocalWorkSize !in f.catalog
    ensures r.Err? ==> r.error == MissingImplicitArg(EnqueuedLocalWorkSize)
    ensures r.Ok? && !f.stackCall ==> r.value.vec == Param(ArgIndex(f, EnqueuedLocalWorkSize))
  {
    // Under the stack call the enqueued local size is taken to be the local size.
    if f.stackCall then Ok(Extract(SideLoad(LOCAL_SIZE_X, 3, SIZEOF_U32), dim))
    else ExtractDim(ImplicitArgValue(f, EnqueuedLocalWorkSize), dim)
  }

  function ResolveGlobalOffset(f: FnInfo, dim: Value, bits: nat): (r: Result<Value, ResolveError>)
    requires ValidFn(f)
    ensures r.Ok? ==> r.value.Extract? && CallFree(r.value.vec) && r.value.lane == dim
    ensures r.Err? <==> !f.stackCall && PayloadHeader !in f.catalog
    ensures r.Err? ==> r.error == MissingImplicitArg(PayloadHeader)
    ensures r.Ok? && !f.stackCall ==> r.value.vec == Param(ArgIndex(f, PayloadHeader))
  {
    if f.stackCall then Ok(Extract(TruncLanes(SideLoad(GLOBAL_OFFSET_X, 3, SIZEOF_U64), bits), dim))
    else ExtractDim(ImplicitArgValue(f, PayloadHeader), dim)
  }

  function ResolveWorkDim(f: FnInfo): (r: Result<Value, ResolveError>)
    requires ValidFn(f)
    ensures r.Ok? ==> CallFree(r.value)
    ensures r.Err? <==> !f.stackCall && WorkDim !in f.catalog
    ensures r.Err? ==> r.error == MissingImplicitArg(WorkDim)
    ensures r.Ok? && !f.stackCall ==> r.value == Param(ArgIndex(f, WorkDim))
  {
    if f.stackCall then Ok(SideLoad(NUM_WORK_DIM, 1, WORK_DIM_LOAD_SIZE))
    else ImplicitArgValue(f, WorkDim)
  }

  function ResolveNumGroups(f: FnInfo, dim: Value): (r: Result<Value, ResolveError>)
    requires ValidFn(f)
    ensures r.Ok? ==> r.value.Extract? && CallFree(r.value.vec) && r.value.lane == dim
    ensures r.Err? <==> !f.stackCall && NumGroups !in f.catalog
    ensures r.Err? ==> r.error == MissingImplicitArg(NumGroups)
    ensures r.Ok? && !f.stackCall ==> r.value.vec == Param(ArgIndex(f, NumGroups))
  {
    if f.stackCall then Ok(Extract(SideLoad(GROUP_COUNT_X, 3, SIZEOF_U32), dim))
    else ExtractDim(ImplicitArgValue(f, NumGroups), dim)
  }

  function ResolveStageInGridOrigin(f: FnInfo, dim: Value): (r: Result<Value, ResolveError>)
    requires ValidFn(f)
    ensures r.Ok? ==> r.value.Extract? && CallFree(r.value.vec) && r.value.lane == dim
    ensures r.Err? <==> StageInGridOrigin !in f.catalog
    ensures r.Err? ==> r.error == MissingImplicitArg(StageInGridOrigin)
    ensures r.Ok? ==> r.value.vec == Param(ArgIndex(f, StageInGridOrigin))
  {
    ExtractDim(ImplicitArgValue(f, StageInGridOrigin), dim)
  }

  function ResolveStageInGridSize(f: FnInfo, dim: Value): (r: Result<Value, ResolveError>)
    requires ValidFn(f)
    ensures r.Ok? ==> r.value.Extract? && CallFree(r.value.vec) && r.value.lane == dim
    ensures r.Err? <==> !f.stackCall && StageInGridSize !in f.catalog
    ensures r.Err? ==> r.error == MissingImplicitArg(StageInGridSize)
    ensures r.Ok? && !f.stackCall ==> r.value.vec == Param(ArgIndex(f, StageInGridSize))
  {
    if f.stackCall then Ok(Extract(TruncLanes(SideLoad(GLOBAL_SIZE_X, 3, SIZEOF_U64), 32), dim))
    else ExtractDim(ImplicitArgValue(f, StageInGridSize), dim)
  }

  function ResolveSyncBufferPtr(f: FnInfo): (r: Result<Value, ResolveError>)
    requires ValidFn(f)
    ensures r.Ok? ==> CallFree(r.value)
    ensures r.Err? <==> SyncBuffer !in f.catalog
    ensures r.Err? ==> r.error == MissingImplicitArg(SyncBuffer)
    ensures r.Ok? ==> r.value == Param(ArgIndex(f, SyncBuffer))
  {
    ImplicitArgValue(f, SyncBuffer)
  }

  /** The value a call to builtin `b` with operands `args` and result width `bits` resolves to, before widening. */
  function ResolveBuiltin(f: FnInfo, b: Builtin, args: seq<Value>, bits: nat): (r: Result<Value, ResolveError>)
    requires ValidFn(f)
    requires TakesDim(b) ==> |args| >= 1
    ensures r.Ok? && !TakesDim(b) ==> CallFree(r.value)
    ensures r.Ok? && TakesDim(b) ==>
      r.value.Extract? && CallFree(r.value.vec) && (r.value.lane == args[0] || r.value.lane == GroupIdIndex(args[0]))
    ensures r.Ok? && b == GetGroupId ==> r.value.lane == GroupIdIndex(args[0])
    ensures r.Ok? && TakesDim(b) && b != GetGroupId ==> r.value.lane == args[0]
  {
    match b
    case GetLocalIdX => ResolveLocalId(f, LocalIdX)
    case GetLocalIdY => ResolveLocalId(f, LocalIdY)
    case GetLocalIdZ => ResolveLocalId(f, LocalIdZ)
    case GetGroupId => ResolveGroupId(f, args[0])
    case GetGlobalSize => ResolveGlobalSize(f, args[0], bits)
    case GetLocalSize => ResolveLocalSize(f, args[0])
    case GetEnqueuedLocalSize => ResolveEnqueuedLocalSize(f, args[0])
    case GetGlobalOffset => ResolveGlobalOffset(f, args[0], bits)
    case GetWorkDim => ResolveWorkDim(f)
    case GetNumGroups => ResolveNumGroups(f, args[0])
    case GetStageInGridOrigin => ResolveStageInGridOrigin(f, args[0])
    case GetStageInGridSize => ResolveStageInGridSize(f, args[0])
    case GetSyncBuffer => ResolveSyncBufferPtr(f)
  }

  /** Zero-extension to the call's width when the resolved value is narrower. */
  function Widen(v: Value, f: FnInfo, bits: nat): (r: Value)
    ensures Width(r, f) >= bits && Width(r, f) >= Width(v, f)
    ensures Width(v, f) >= bits ==> r == v
    ensures Width(v, f) < bits ==> Width(r, f) == bits
    ensures forall st, env :: Eval(r, st, env) == Eval(v, st, env)
  {
    if Width(v, f) < bits then ZExt(v, bits) else v
  }

  /**
    * getScalarSizeInBits of a resolved value: a catalog value has its
    * parameter's width, and the stack-call reads have their field width or the
    * width they truncate to. With Widen this decides when the zext happens.
    */
  lemma {:induction false} ResolvedWidth(f: FnInfo, b: Builtin, args: seq<Value>, bits: nat)
    requires ValidFn(f) && (TakesDim(b) ==> |args| >= 1)
    requires ResolveBuiltin(f, b, args, bits).Ok?
    ensures RequiredArg(f, b).Some? ==> (RequiredArg(f, b).value in f.catalog &&
      Width(ResolveBuiltin(f, b, args, bits).value, f) == f.paramBits[ArgIndex(f, RequiredArg(f, b).value)])
    ensures f.stackCall && (b == GetGlobalSize || b == GetGlobalOffset) ==> Width(ResolveBuiltin(f, b, args, bits).value, f) == bits
    ensures f.stackCall && !IsLocalId(b) && RequiredArg(f, b).None? && b != GetGlobalSize && b != GetGlobalOffset
      ==> Width(ResolveBuiltin(f, b, args, bits).value, f) == 32
  {
    ResolveFails(f, b, args, bits);
  }

  /** The catalog argument a builtin reads under the function's convention (None: it reads R0 or the side buffer). */
  function RequiredArg(f: FnInfo, b: Builtin): Option<ImplicitArg>
  {
    match b
    case GetLocalIdX => Some(LocalIdX)
    case GetLocalIdY => Some(LocalIdY)
    case GetLocalIdZ => Some(LocalIdZ)
    case GetStageInGridOrigin => Some(StageInGridOrigin)
    case GetSyncBuffer => Some(SyncBuffer)
    case _ =>
      if f.stackCall then None
      else Some(match b
                case GetGroupId => R0
                case GetGlobalSize => GlobalSize
                case GetLocalSize => LocalSize
                case GetEnqueuedLocalSize => EnqueuedLocalWorkSize
                case GetGlobalOffset => PayloadHeader
                case GetWorkDim => WorkDim
                case GetNumGroups => NumGroups
                case _ => StageInGridSize)
  }

  /** A call to `b` in `f` has a defined replacement. */
  predicate Resolvable(f: FnInfo, b: Builtin)
  {
    !(f.stackCall && IsLocalId(b)) &&
    (RequiredArg(f, b).Some? ==> RequiredArg(f, b).value in f.catalog)
  }

  /** Resolution fails exactly for a stack-call local id and for a catalog that lacks the argument read. */
  lemma ResolveFails(f: FnInfo, b: Builtin, args: seq<Value>, bits: nat)
    requires ValidFn(f)
    requires TakesDim(b) ==> |args| >= 1
    ensures ResolveBuiltin(f, b, args, bits).Err? <==> !Resolvable(f, b)
    ensures f.stackCall && IsLocalId(b) ==> ResolveBuiltin(f, b, args, bits) == Err(StackCallLocalId)
    ensures !(f.stackCall && IsLocalId(b)) && RequiredArg(f, b).Some? && RequiredArg(f, b).value !in f.catalog
            ==> ResolveBuiltin(f, b, args, bits) == Err(MissingImplicitArg(RequiredArg(f, b).value))
  {
  }

  /** A field of the side buffer, little-endian. */
  function SideField(side: seq<Byte>, offset: nat, size: nat): (n: nat)
    requires offset + size <= |side|
    ensures n < Pow256(size)
  {
    var field := side[offset .. offset + size];
    assert |field| == size;
    LittleEndian(field)
  }

  /** Lane `lane` of the catalog argument of kind `kind`. */
  function CatalogLane(f: FnInfo, st: DispatchState, kind: ImplicitArg, lane: nat): nat
    requires ValidFn(f) && ValidState(f, st) && kind in f.catalog && lane < LaneCount(kind)
  {
    CatalogArgLanes(f, st, kind);
    st.params[ArgIndex(f, kind)][lane]
  }

  /**
    * What a call to `b` with dimension `d` returns at run time, by the
    * dispatch conventions: the named lane of the named catalog argument for
    * an ordinary kernel; the named side-buffer field or R0 lane for a
    * stack-call function.
    */
  function Reference(f: FnInfo, b: Builtin, d: nat, bits: nat, st: DispatchState): nat
    requires ValidFn(f) && ValidState(f, st) && Resolvable(f, b) && d < 3
  {
    var side := st.sideBuffer;
    match b
    case GetLocalIdX => CatalogLane(f, st, LocalIdX, 0)
    case GetLocalIdY => CatalogLane(f, st, LocalIdY, 0)
    case GetLocalIdZ => CatalogLane(f, st, LocalIdZ, 0)
    case GetGroupId =>
      if f.stackCall then st.r0[R0_GROUP_NUMBER_LANES[d]]
      else CatalogLane(f, st, R0, R0_GROUP_NUMBER_LANES[d])
    case GetGlobalSize =>
      if f.stackCall then Truncate(SideField(side, GLOBAL_SIZE_FIELDS[d], SIZEOF_U64), bits)
      else CatalogLane(f, st, GlobalSize, d)
    case GetLocalSize =>
      if f.stackCall then SideField(side, LOCAL_SIZE_FIELDS[d], SIZEOF_U32)
      else CatalogLane(f, st, LocalSize, d)
    case GetEnqueuedLocalSize =>
      if f.stackCall then SideField(side, LOCAL_SIZE_FIELDS[d], SIZEOF_U32)
      else CatalogLane(f, st, EnqueuedLocalWorkSize, d)
    case GetGlobalOffset =>
      if f.stackCall then Truncate(SideField(side, GLOBAL_OFFSET_FIELDS[d], SIZEOF_U64), bits)
      else CatalogLane(f, st, PayloadHeader, PAYLOAD_GLOBAL_OFFSET_LANES[d])
    case GetWorkDim =>
      if f.stackCall then SideField(side, NUM_WORK_DIM, WORK_DIM_LOAD_SIZE)
      else CatalogLane(f, st, WorkDim, 0)
    case GetNumGroups =>
      if f.stackCall then SideField(side, GROUP_COUNT_FIELDS[d], SIZEOF_U32)
      else CatalogLane(f, st, NumGroups, d)
    case GetStageInGridOrigin => CatalogLane(f, st, StageInGridOrigin, d)
    case GetStageInGridSize =>
      if f.stackCall then Truncate(SideField(side, GLOBAL_SIZE_FIELDS[d], SIZEOF_U64), 32)
      else CatalogLane(f, st, StageInGridSize, d)
    case GetSyncBuffer => CatalogLane(f, st, SyncBuffer, 0)
  }

  /** Under the stack call global size and global offset fit the call width they are truncated to. */
  lemma ReferenceFitsWideField(f: FnInfo, d: nat, bits: nat, st: DispatchState)
    requires ValidFn(f) && ValidState(f, st) && d < 3 && f.stackCall
    ensures Reference(f, GetGlobalSize, d, bits, st) < Pow2(bits)
    ensures Reference(f, GetGlobalOffset, d, bits, st) < Pow2(bits)
  {
  }

  /** Under the stack call get_grid_size's meaning fits in 32 bits. */
  lemma ReferenceFitsGridSize(f: FnInfo, d: nat, bits: nat, st: DispatchState)
    requires ValidFn(f) && ValidState(f, st) && d < 3 && f.stackCall
    ensures Reference(f, GetStageInGridSize, d, bits, st) < Pow2(32)
  {
  }

  /** Under the stack call the 32-bit side-buffer meanings and the work-dim word fit in four bytes. */
  lemma ReferenceFitsNarrowField(f: FnInfo, d: nat, bits: nat, st: DispatchState)
    requires ValidFn(f) && ValidState(f, st) && d < 3 && f.stackCall
    ensures Reference(f, GetLocalSize, d, bits, st) < Pow256(SIZEOF_U32)
    ensures Reference(f, GetEnqueuedLocalSize, d, bits, st) < Pow256(SIZEOF_U32)
    ensures Reference(f, GetNumGroups, d, bits, st) < Pow256(SIZEOF_U32)
    ensures Reference(f, GetWorkDim, d, bits, st) < Pow256(WORK_DIM_LOAD_SIZE)
  {
  }

  /** The per-dimension field tables are strided by the field size. */
  lemma FieldTables(d: nat)
    requires d < 3
    ensures GLOBAL_SIZE_FIELDS[d] == GLOBAL_SIZE_X + d * SIZEOF_U64
    ensures GLOBAL_OFFSET_FIELDS[d] == GLOBAL_OFFSET_X + d * SIZEOF_U64
    ensures LOCAL_SIZE_FIELDS[d] == LOCAL_SIZE_X + d * SIZEOF_U32
    ensures GROUP_COUNT_FIELDS[d] == GROUP_COUNT_X + d * SIZEOF_U32
    ensures PAYLOAD_GLOBAL_OFFSET_LANES[d] == d
  {
  }

  /** Lane `dim` of a three-lane side-buffer load is the field at offset + d * elemBytes. */
  lemma SideLoadLane(st: DispatchState, env: map<nat, seq<nat>>, offset: nat, elemBytes: nat, dim: Value, d: nat)
    requires offset + 3 * elemBytes <= |st.sideBuffer|
    requires Eval(dim, st, env) == Some([d]) && d < 3
    ensures offset + d * elemBytes + elemBytes <= |st.sideBuffer|
    ensures Eval(Extract(SideLoad(offset, 3, elemBytes), dim), st, env)
         == Some([SideField(st.sideBuffer, offset + d * elemBytes, elemBytes)])
  {
    var side := st.sideBuffer;
    FieldLane(side, offset, 3, elemBytes, d);
    var lanes := Lanes(side[offset .. offset + 3 * elemBytes], 3, elemBytes);
    EvalExtract(SideLoad(offset, 3, elemBytes), dim, st, env, lanes, d);
  }

  /** The same, with every lane truncated to `bits` bits first. */
  lemma TruncSideLoadLane(st: DispatchState, env: map<nat, seq<nat>>, offset: nat, elemBytes: nat, bits: nat, dim: Value, d: nat)
    requires offset + 3 * elemBytes <= |st.sideBuffer|
    requires Eval(dim, st, env) == Some([d]) && d < 3
    ensures offset + d * elemBytes + elemBytes <= |st.sideBuffer|
    ensures Eval(Extract(TruncLanes(SideLoad(offset, 3, elemBytes), bits), dim), st, env)
         == Some([Truncate(SideField(st.sideBuffer, offset + d * elemBytes, elemBytes), bits)])
  {
    var side := st.sideBuffer;
    FieldLane(side, offset, 3, elemBytes, d);
    var lanes := Lanes(side[offset .. offset + 3 * elemBytes], 3, elemBytes);
    EvalTruncLanes(SideLoad(offset, 3, elemBytes), bits, st, env, lanes);
    var truncated := TruncatedLanes(lanes, bits);
    EvalExtract(TruncLanes(SideLoad(offset, 3, elemBytes), bits), dim, st, env, truncated, d);
  }

  /** Lane `dim` of the catalog argument of `kind`. */
  lemma CatalogArgLane(f: FnInfo, st: DispatchState, env: map<nat, seq<nat>>, kind: ImplicitArg, dim: Value, d: nat)
    requires ValidFn(f) && ValidState(f, st) && kind in f.catalog
    requires Eval(dim, st, env) == Some([d]) && d < LaneCount(kind)
    ensures Eval(Extract(Param(ArgIndex(f, kind)), dim), st, env) == Some([CatalogLane(f, st, kind, d)])
  {
    CatalogArgLanes(f, st, kind);
    EvalExtract(Param(ArgIndex(f, kind)), dim, st, env, st.params[ArgIndex(f, kind)], d);
  }

  /** A scalar catalog argument evaluates to its single lane. */
  lemma CatalogScalar(f: FnInfo, st: DispatchState, env: map<nat, seq<nat>>, kind: ImplicitArg)
    requires ValidFn(f) && ValidState(f, st) && kind in f.catalog && LaneCount(kind) == 1
    ensures Eval(Param(ArgIndex(f, kind)), st, env) == Some([CatalogLane(f, st, kind, 0)])
  {
    CatalogArgLanes(f, st, kind);
    var lanes := st.params[ArgIndex(f, kind)];
    assert lanes == [lanes[0]];
  }

  /** Ordinary kernel: the resolved value is the reference lane of the catalog argument. */
  lemma ResolveStandardKernel(f: FnInfo, b: Builtin, args: seq<Value>, d: nat, bits: nat, st: DispatchState, env: map<nat, seq<nat>>)
    requires ValidFn(f) && !f.stackCall && ValidState(f, st) && Resolvable(f, b) && d < 3
    requires TakesDim(b) ==> |args| >= 1 && Eval(args[0], st, env) == Some([d])
    ensures ResolveBuiltin(f, b, args, bits).Ok?
    ensures Eval(ResolveBuiltin(f, b, args, bits).value, st, env) == Some([Reference(f, b, d, bits, st)])
  {
    FieldTables(d);
    match b
    case GetLocalIdX => CatalogScalar(f, st, env, LocalIdX);
    case GetLocalIdY => CatalogScalar(f, st, env, LocalIdY);
    case GetLocalIdZ => CatalogScalar(f, st, env, LocalIdZ);
    case GetGroupId =>
      EvalGroupIdIndex(args[0], st, env, d);
      CatalogArgLane(f, st, env, R0, GroupIdIndex(args[0]), R0_GROUP_NUMBER_LANES[d]);
    case GetGlobalSize => CatalogArgLane(f, st, env, GlobalSize, args[0], d);
    case GetLocalSize => CatalogArgLane(f, st, env, LocalSize, args[0], d);
    case GetEnqueuedLocalSize => CatalogArgLane(f, st, env, EnqueuedLocalWorkSize, args[0], d);
    case GetGlobalOffset => CatalogArgLane(f, st, env, PayloadHeader, args[0], d);
    case GetWorkDim => CatalogScalar(f, st, env, WorkDim);
    case GetNumGroups => CatalogArgLane(f, st, env, NumGroups, args[0], d);
    case GetStageInGridOrigin => CatalogArgLane(f, st, env, StageInGridOrigin, args[0], d);
    case GetStageInGridSize => CatalogArgLane(f, st, env, StageInGridSize, args[0], d);
    case GetSyncBuffer => CatalogScalar(f, st, env, SyncBuffer);
  }

  /** Stack call: the resolved value is the reference R0 lane or side-buffer field. */
  lemma ResolveStackCall(f: FnInfo, b: Builtin, args: seq<Value>, d: nat, bits: nat, st: DispatchState, env: map<nat, seq<nat>>)
    requires ValidFn(f) && f.stackCall && ValidState(f, st) && Resolvable(f, b) && d < 3
    requires TakesDim(b) ==> |args| >= 1 && Eval(args[0], st, env) == Some([d])
    ensures ResolveBuiltin(f, b, args, bits).Ok?
    ensures Eval(ResolveBuiltin(f, b, args, bits).value, st, env) == Some([Reference(f, b, d, bits, st)])
  {
    match b
    case GetGroupId =>
      EvalGroupIdIndex(args[0], st, env, d);
      EvalExtract(R0Register, GroupIdIndex(args[0]), st, env, st.r0, R0_GROUP_NUMBER_LANES[d]);
    case GetGlobalSize | GetGlobalOffset | GetStageInGridSize => StackCallWideField(f, b, args, d, bits, st, env);
    case GetLocalSize | GetEnqueuedLocalSize | GetNumGroups => StackCallNarrowField(f, b, args, d, bits, st, env);
    case GetWorkDim => StackCallWorkDim(f, args, bits, st, env);
    case GetStageInGridOrigin => CatalogArgLane(f, st, env, StageInGridOrigin, args[0], d);
    case GetSyncBuffer => CatalogScalar(f, st, env, SyncBuffer);
  }

  /** Stack call, the three queries that read 64-bit side-buffer fields and truncate them. */
  lemma StackCallWideField(f: FnInfo, b: Builtin, args: seq<Value>, d: nat, bits: nat, st: DispatchState, env: map<nat, seq<nat>>)
    requires ValidFn(f) && f.stackCall && ValidState(f, st) && d < 3
    requires b == GetGlobalSize || b == GetGlobalOffset || b == GetStageInGridSize
    requires |args| >= 1 && Eval(args[0], st, env) == Some([d])
    ensures Resolvable(f, b) && ResolveBuiltin(f, b, args, bits).Ok?
    ensures Eval(ResolveBuiltin(f, b, args, bits).value, st, env) == Some([Reference(f, b, d, bits, st)])
  {
    if b == GetGlobalSize {
      StackCallGlobalSize(f, args, d, bits, st, env);
    } else if b == GetGlobalOffset {
      StackCallGlobalOffset(f, args, d, bits, st, env);
    } else {
      StackCallGridSize(f, args, d, bits, st, env);
    }
  }

  /** get_global_size: the global-size field of lane d, truncated to the call width. */
  lemma StackCallGlobalSize(f: FnInfo, args: seq<Value>, d: nat, bits: nat, st: DispatchState, env: map<nat, seq<nat>>)
    requires ValidFn(f) && f.stackCall && ValidState(f, st) && d < 3
    requires |args| >= 1 && Eval(args[0], st, env) == Some([d])
    ensures Resolvable(f, GetGlobalSize) && ResolveBuiltin(f, GetGlobalSize, args, bits).Ok?
    ensures Eval(ResolveBuiltin(f, GetGlobalSize, args, bits).value, st, env) == Some([Reference(f, GetGlobalSize, d, bits, st)])
  {
    FieldTables(d);
    assert ResolveBuiltin(f, GetGlobalSize, args, bits) == Ok(Extract(TruncLanes(SideLoad(GLOBAL_SIZE_X, 3, SIZEOF_U64), bits), args[0]));
    assert Reference(f, GetGlobalSize, d, bits, st) == Truncate(SideField(st.sideBuffer, GLOBAL_SIZE_X + d * SIZEOF_U64, SIZEOF_U64), bits);
    StackCallWideLane(f, GetGlobalSize, args, d, bits, bits, GLOBAL_SIZE_X, st, env);
  }

  /** get_global_offset: the global-offset field of lane d, truncated to the call width. */
  lemma StackCallGlobalOffset(f: FnInfo, args: seq<Value>, d: nat, bits: nat, st: DispatchState, env: map<nat, seq<nat>>)
    requires ValidFn(f) && f.stackCall && ValidState(f, st) && d < 3
    requires |args| >= 1 && Eval(args[0], st, env) == Some([d])
    ensures Resolvable(f, GetGlobalOffset) && ResolveBuiltin(f, GetGlobalOffset, args, bits).Ok?
    ensures Eval(ResolveBuiltin(f, GetGlobalOffset, args, bits).value, st, env) == Some([Reference(f, GetGlobalOffset, d, bits, st)])
  {
    FieldTables(d);
    assert ResolveBuiltin(f, GetGlobalOffset, args, bits) == Ok(Extract(TruncLanes(SideLoad(GLOBAL_OFFSET_X, 3, SIZEOF_U64), bits), args[0]));
    assert Reference(f, GetGlobalOffset, d, bits, st) == Truncate(SideField(st.sideBuffer, GLOBAL_OFFSET_X + d * SIZEOF_U64, SIZEOF_U64), bits);
    StackCallWideLane(f, GetGlobalOffset, args, d, bits, bits, GLOBAL_OFFSET_X, st, env);
  }

  /** get_grid_size: the global-size field of lane d, truncated to 32 bits. */
  lemma StackCallGridSize(f: FnInfo, args: seq<Value>, d: nat, bits: nat, st: DispatchState, env: map<nat, seq<nat>>)
    requires ValidFn(f) && f.stackCall && ValidState(f, st) && d < 3
    requires |args| >= 1 && Eval(args[0], st, env) == Some([d])
    ensures Resolvable(f, GetStageInGridSize) && ResolveBuiltin(f, GetStageInGridSize, args, bits).Ok?
    ensures Eval(ResolveBuiltin(f, GetStageInGridSize, args, bits).value, st, env) == Some([Reference(f, GetStageInGridSize, d, bits, st)])
  {
    FieldTables(d);
    assert ResolveBuiltin(f, GetStageInGridSize, args, bits) == Ok(Extract(TruncLanes(SideLoad(GLOBAL_SIZE_X, 3, SIZEOF_U64), 32), args[0]));
    assert Reference(f, GetStageInGridSize, d, bits, st) == Truncate(SideField(st.sideBuffer, GLOBAL_SIZE_X + d * SIZEOF_U64, SIZEOF_U64), 32);
    StackCallWideLane(f, GetStageInGridSize, args, d, bits, 32, GLOBAL_SIZE_X, st, env);
  }

  /** A query resolved to lane `dim` of a truncated three-lane 64-bit load at `offset` gives that field truncated. */
  lemma StackCallWideLane(f: FnInfo, b: Builtin, args: seq<Value>, d: nat, bits: nat, tbits: nat, offset: nat, st: DispatchState, env: map<nat, seq<nat>>)
    requires ValidFn(f) && ValidState(f, st) && Resolvable(f, b) && d < 3
    requires |args| >= 1 && Eval(args[0], st, env) == Some([d])
    requires offset + 3 * SIZEOF_U64 <= |st.sideBuffer|
    requires ResolveBuiltin(f, b, args, bits) == Ok(Extract(TruncLanes(SideLoad(offset, 3, SIZEOF_U64), tbits), args[0]))
    requires offset + d * SIZEOF_U64 + SIZEOF_U64 <= |st.sideBuffer|
    requires Reference(f, b, d, bits, st) == Truncate(SideField(st.sideBuffer, offset + d * SIZEOF_U64, SIZEOF_U64), tbits)
    ensures Eval(ResolveBuiltin(f, b, args, bits).value, st, env) == Some([Reference(f, b, d, bits, st)])
  {
    TruncSideLoadLane(st, env, offset, SIZEOF_U64, tbits, args[0], d);
  }

  /** Stack call, the three queries that read 32-bit side-buffer fields. */
  lemma StackCallNarrowField(f: FnInfo, b: Builtin, args: seq<Value>, d: nat, bits: nat, st: DispatchState, env: map<nat, seq<nat>>)
    requires ValidFn(f) && f.stackCall && ValidState(f, st) && d < 3
    requires b == GetLocalSize || b == GetEnqueuedLocalSize || b == GetNumGroups
    requires |args| >= 1 && Eval(args[0], st, env) == Some([d])
    ensures Resolvable(f, b) && ResolveBuiltin(f, b, args, bits).Ok?
    ensures Eval(ResolveBuiltin(f, b, args, bits).value, st, env) == Some([Reference(f, b, d, bits, st)])
  {
    if b == GetLocalSize {
      StackCallLocalSize(f, args, d, bits, st, env);
    } else if b == GetEnqueuedLocalSize {
      StackCallEnqueuedLocalSize(f, args, d, bits, st, env);
    } else {
      StackCallNumGroups(f, args, d, bits, st, env);
    }
  }

  /** get_local_size: the local-size field of lane d. */
  lemma StackCallLocalSize(f: FnInfo, args: seq<Value>, d: nat, bits: nat, st: DispatchState, env: map<nat, seq<nat>>)
    requires ValidFn(f) && f.stackCall && ValidState(f, st) && d < 3
    requires |args| >= 1 && Eval(args[0], st, env) == Some([d])
    ensures Resolvable(f, GetLocalSize) && ResolveBuiltin(f, GetLocalSize, args, bits).Ok?
    ensures Eval(ResolveBuiltin(f, GetLocalSize, args, bits).value, st, env) == Some([Reference(f, GetLocalSize, d, bits, st)])
  {
    FieldTables(d);
    assert ResolveBuiltin(f, GetLocalSize, args, bits) == Ok(Extract(SideLoad(LOCAL_SIZE_X, 3, SIZEOF_U32), args[0]));
    assert Reference(f, GetLocalSize, d, bits, st) == SideField(st.sideBuffer, LOCAL_SIZE_X + d * SIZEOF_U32, SIZEOF_U32);
    SideLoadLane(st, env, LOCAL_SIZE_X, SIZEOF_U32, args[0], d);
  }

  /** get_enqueued_local_size: the local-size field of lane d as well. */
  lemma StackCallEnqueuedLocalSize(f: FnInfo, args: seq<Value>, d: nat, bits: nat, st: DispatchState, env: map<nat, seq<nat>>)
    requires ValidFn(f) && f.stackCall && ValidState(f, st) && d < 3
    requires |args| >= 1 && Eval(args[0], st, env) == Some([d])
    ensures Resolvable(f, GetEnqueuedLocalSize) && ResolveBuiltin(f, GetEnqueuedLocalSize, args, bits).Ok?
    ensures Eval(ResolveBuiltin(f, GetEnqueuedLocalSize, args, bits).value, st, env) == Some([Reference(f, GetEnqueuedLocalSize, d, bits, st)])
  {
    FieldTables(d);
    assert ResolveBuiltin(f, GetEnqueuedLocalSize, args, bits) == Ok(Extract(SideLoad(LOCAL_SIZE_X, 3, SIZEOF_U32), args[0]));
    assert Reference(f, GetEnqueuedLocalSize, d, bits, st) == SideField(st.sideBuffer, LOCAL_SIZE_X + d * SIZEOF_U32, SIZEOF_U32);
    SideLoadLane(st, env, LOCAL_SIZE_X, SIZEOF_U32, args[0], d);
  }

  /** get_num_groups: the group-count field of lane d. */
  lemma StackCallNumGroups(f: FnInfo, args: seq<Value>, d: nat, bits: nat, st: DispatchState, env: map<nat, seq<nat>>)
    requires ValidFn(f) && f.stackCall && ValidState(f, st) && d < 3
    requires |args| >= 1 && Eval(args[0], st, env) == Some([d])
    ensures Resolvable(f, GetNumGroups) && ResolveBuiltin(f, GetNumGroups, args, bits).Ok?
    ensures Eval(ResolveBuiltin(f, GetNumGroups, args, bits).value, st, env) == Some([Reference(f, GetNumGroups, d, bits, st)])
  {
    FieldTables(d);
    assert ResolveBuiltin(f, GetNumGroups, args, bits) == Ok(Extract(SideLoad(GROUP_COUNT_X, 3, SIZEOF_U32), args[0]));
    assert Reference(f, GetNumGroups, d, bits, st) == SideField(st.sideBuffer, GROUP_COUNT_X + d * SIZEOF_U32, SIZEOF_U32);
    SideLoadLane(st, env, GROUP_COUNT_X, SIZEOF_U32, args[0], d);
  }

  /** Stack call, get_work_dim: the 32-bit word loaded at NUM_WORK_DIM. */
  lemma StackCallWorkDim(f: FnInfo, args: seq<Value>, bits: nat, st: DispatchState, env: map<nat, seq<nat>>)
    requires ValidFn(f) && f.stackCall && ValidState(f, st)
    ensures Resolvable(f, GetWorkDim) && ResolveBuiltin(f, GetWorkDim, args, bits).Ok?
    ensures Eval(ResolveBuiltin(f, GetWorkDim, args, bits).value, st, env) == Some([Reference(f, GetWorkDim, 0, bits, st)])
  {
    var word := st.sideBuffer[NUM_WORK_DIM .. NUM_WORK_DIM + WORK_DIM_LOAD_SIZE];
    assert word[..WORK_DIM_LOAD_SIZE] == word;
    assert Lanes(word, 1, WORK_DIM_LOAD_SIZE) == [LittleEndian(word)];
    assert Eval(SideLoad(NUM_WORK_DIM, 1, WORK_DIM_LOAD_SIZE), st, env) == Some(Lanes(word, 1, WORK_DIM_LOAD_SIZE));
  }

  /**
    * Under the stack call, get_work_dim is the 32-bit word at NUM_WORK_DIM;
    * it equals the num_work_dim byte exactly when the three bytes after it
    * (the STRUCT_SIZE byte and two more) are zero.
    */
  lemma WorkDimWordIsByte(f: FnInfo, st: DispatchState)
    requires ValidFn(f) && f.stackCall && ValidState(f, st)
    ensures Resolvable(f, GetWorkDim)
    ensures Reference(f, GetWorkDim, 0, 32, st) == st.sideBuffer[NUM_WORK_DIM]
        <==> st.sideBuffer[STRUCT_SIZE] == 0 && st.sideBuffer[STRUCT_SIZE + 1] == 0 && st.sideBuffer[STRUCT_SIZE + 2] == 0
  {
    var word := st.sideBuffer[NUM_WORK_DIM .. NUM_WORK_DIM + WORK_DIM_LOAD_SIZE];
    LittleEndianIsFirstByte(word);
    assert word[1] == st.sideBuffer[STRUCT_SIZE];
    assert word[2] == st.sideBuffer[STRUCT_SIZE + 1];
    assert word[3] == st.sideBuffer[STRUCT_SIZE + 2];
  }

  lemma CallFreeHasNoCall(v: Value, id: nat)
    requires CallFree(v)
    ensures !Occurs(CallResult(id), v)
  {
  }

  /** The resolved value holds no call result other than those its dimension operand holds. */
  lemma ResolvedUsesOnlyDim(f: FnInfo, b: Builtin, args: seq<Value>, bits: nat, id: nat)
    requires ValidFn(f)
    requires TakesDim(b) ==> |args| >= 1
    requires ResolveBuiltin(f, b, args, bits).Ok?
    requires !TakesDim(b) || !Occurs(CallResult(id), args[0])
    ensures !Occurs(CallResult(id), ResolveBuiltin(f, b, args, bits).value)
  {
    var v := ResolveBuiltin(f, b, args, bits).value;
    if TakesDim(b) {
      CallFreeHasNoCall(v.vec, id);
    } else {
      CallFreeHasNoCall(v, id);
    }
  }
}
