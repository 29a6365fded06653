/**
  * The vISA attribute table of visa/Attributes.cpp: the name and default
  * value of every attribute, the name lookup, and the per-kernel attribute
  * slots with their set flags.
  */
module VisaAttributes {
  import opened Wrappers

  /** m_defaultVal / m_val: an integer, a possibly null string, or the target enum's VISA_CM. */
  datatype AttrValue = IntVal(i: int) | StringVal(s: Option<string>) | TargetCM

  datatype AttrInfo = AttrInfo(name: string, defaultVal: AttrValue)

  /** A C `int`. */
  type Int32 = x: int | -0x8000_0000 <= x < 0x8000_0000

  const ATTR_TOTAL_NUM: nat := 19
  const ATTR_NUM_KERNEL_ATTRS: nat := 15
  const ATTR_OUTPUT_ASM_PATH: nat := 10

  /** AttrsInfo, in enum order: fifteen kernel attributes, then four non-kernel ones. */
  const ATTRS_INFO: seq<AttrInfo> := [
    AttrInfo("Target", TargetCM),
    AttrInfo("SLMSIZE", IntVal(0)),
    AttrInfo("SurfaceUsage", IntVal(0)),
    AttrInfo("SpillMemOffset", IntVal(0)),
    AttrInfo("Scope", IntVal(0)),
    AttrInfo("ArgSize", IntVal(0)),
    AttrInfo("RetValSize", IntVal(0)),
    AttrInfo("FESPSize", IntVal(0)),
    AttrInfo("perThreadInputSize", IntVal(0)),
    AttrInfo("Extern", IntVal(0)),
    AttrInfo("OutputAsmPath", StringVal(None)),
    AttrInfo("Entry", StringVal(None)),
    AttrInfo("Callable", StringVal(None)),
    AttrInfo("Caller", StringVal(None)),
    AttrInfo("Composable", StringVal(None)),
    AttrInfo("Input", StringVal(None)),
    AttrInfo("Output", StringVal(None)),
    AttrInfo("Input_Output", StringVal(None)),
    AttrInfo("NoWidening", StringVal(None))
  ]

  /** The alias getAttributeID accepts for OutputAsmPath. */
  const ASM_NAME_ALIAS: string := "AsmName"

  /** Attributes::ID: an index into the table, or ATTR_INVALID. */
  datatype AttrID = Attr(index: nat) | Invalid

  lemma TableShape()
    ensures |ATTRS_INFO| == ATTR_TOTAL_NUM
    ensures ATTR_NUM_KERNEL_ATTRS <= ATTR_TOTAL_NUM
    ensures ATTRS_INFO[ATTR_OUTPUT_ASM_PATH].name == "OutputAsmPath"
  {
  }

  /** The first entry of `table` in [i, end) whose name is `name`. */
  function SearchFrom(table: seq<AttrInfo>, end: nat, name: string, i: nat): (r: Option<nat>)
    requires i <= end <= |table|
    ensures r.Some? ==> i <= r.value < end && table[r.value].name == name
    ensures r.Some? ==> forall j :: i <= j < r.value ==> table[j].name != name
    ensures r.None? <==> forall j :: i <= j < end ==> table[j].name != name
    decreases end - i
  {
    if i == end then None
    else if table[i].name == name then Some(i)
    else SearchFrom(table, end, name, i + 1)
  }

  /** getAttributeID: kernel attributes by exact name, then the alias, otherwise ATTR_INVALID. */
  function AttributeID(name: string): (r: AttrID)
    ensures r.Attr? ==> r.index < ATTR_NUM_KERNEL_ATTRS
  {
    match SearchFrom(ATTRS_INFO, ATTR_NUM_KERNEL_ATTRS, name, 0)
    case Some(i) => Attr(i)
    case None => if name == ASM_NAME_ALIAS then Attr(ATTR_OUTPUT_ASM_PATH) else Invalid
  }

  lemma KernelNamesDistinct()
    ensures forall i, j :: 0 <= i < j < ATTR_NUM_KERNEL_ATTRS ==> ATTRS_INFO[i].name != ATTRS_INFO[j].name
  {
  }

  /** Looking up a kernel attribute's own name gives back that attribute. */
  lemma AttributeIDRoundTrip(k: nat)
    requires k < ATTR_NUM_KERNEL_ATTRS
    ensures AttributeID(ATTRS_INFO[k].name) == Attr(k)
  {
    KernelNamesDistinct();
  }

  /** A name that resolves names the attribute it resolves to, or is the alias of OutputAsmPath. */
  lemma AttributeIDSound(name: string)
    requires AttributeID(name).Attr?
    ensures ATTRS_INFO[AttributeID(name).index].name == name
         || (name == ASM_NAME_ALIAS && AttributeID(name) == Attr(ATTR_OUTPUT_ASM_PATH))
  {
  }

  lemma AsmNameAlias()
    ensures AttributeID(ASM_NAME_ALIAS) == Attr(ATTR_OUTPUT_ASM_PATH)
  {
    assert ATTRS_INFO[ATTR_OUTPUT_ASM_PATH].name == "OutputAsmPath";
    assert forall j :: 0 <= j < ATTR_NUM_KERNEL_ATTRS ==> ATTRS_INFO[j].name != ASM_NAME_ALIAS;
  }

  /** ATTR_INVALID exactly for names that are neither a kernel attribute nor the alias. */
  lemma InvalidIff(name: string)
    ensures AttributeID(name) == Invalid
        <==> name != ASM_NAME_ALIAS && forall k :: 0 <= k < ATTR_NUM_KERNEL_ATTRS ==> ATTRS_INFO[k].name != name
  {
  }

  /** The non-kernel attributes cannot be looked up by name. */
  lemma NonKernelNamesInvalid(k: nat)
    requires ATTR_NUM_KERNEL_ATTRS <= k < ATTR_TOTAL_NUM
    ensures AttributeID(ATTRS_INFO[k].name) == Invalid
  {
    assert forall j :: 0 <= j < ATTR_NUM_KERNEL_ATTRS ==> ATTRS_INFO[j].name != ATTRS_INFO[k].name;
  }

  /** m_kernelAttrs[i]: the value and whether it was set explicitly. */
  datatype KernelAttr = KernelAttr(isSet: bool, val: AttrValue)

  class Attributes {
    const kernelAttrs: array<KernelAttr>

    predicate Valid()
      reads this
    {
      kernelAttrs.Length == ATTR_NUM_KERNEL_ATTRS
    }

    /** Every kernel attribute starts unset, at its default. */
    constructor ()
      ensures Valid() && fresh(kernelAttrs)
      ensures forall i :: 0 <= i < ATTR_NUM_KERNEL_ATTRS ==> kernelAttrs[i] == KernelAttr(false, ATTRS_INFO[i].defaultVal)
    {
      kernelAttrs := new KernelAttr[ATTR_NUM_KERNEL_ATTRS];
      new;
      var i := 0;
      while i < ATTR_NUM_KERNEL_ATTRS
        invariant 0 <= i <= ATTR_NUM_KERNEL_ATTRS
        invariant forall j :: 0 <= j < i ==> kernelAttrs[j] == KernelAttr(false, ATTRS_INFO[j].defaultVal)
      {
        kernelAttrs[i] := KernelAttr(false, ATTRS_INFO[i].defaultVal);
        i := i + 1;
      }
    }

    static method GetAttributeID(name: string) returns (id: AttrID)
      ensures id == AttributeID(name)
    {
      var i := 0;
      while i < ATTR_NUM_KERNEL_ATTRS
        invariant 0 <= i <= ATTR_NUM_KERNEL_ATTRS
        invariant SearchFrom(ATTRS_INFO, ATTR_NUM_KERNEL_ATTRS, name, i) == SearchFrom(ATTRS_INFO, ATTR_NUM_KERNEL_ATTRS, name, 0)
      {
        if name == ATTRS_INFO[i].name {
          return Attr(i);
        }
        i := i + 1;
      }
      if name == ASM_NAME_ALIAS {
        return Attr(ATTR_OUTPUT_ASM_PATH);
      }
      return Invalid;
    }

    method SetIntKernelAttribute(kID: nat, val: Int32)
      requires Valid() && kID < ATTR_NUM_KERNEL_ATTRS
      modifies kernelAttrs
      ensures kernelAttrs[kID] == KernelAttr(true, IntVal(val))
      ensures forall j :: 0 <= j < kernelAttrs.Length && j != kID ==> kernelAttrs[j] == old(kernelAttrs[j])
    {
      kernelAttrs[kID] := KernelAttr(true, IntVal(val));
    }

    method SetStringKernelAttribute(kID: nat, val: Option<string>)
      requires Valid() && kID < ATTR_NUM_KERNEL_ATTRS
      modifies kernelAttrs
      ensures kernelAttrs[kID] == KernelAttr(true, StringVal(val))
      ensures forall j :: 0 <= j < kernelAttrs.Length && j != kID ==> kernelAttrs[j] == old(kernelAttrs[j])
    {
      kernelAttrs[kID] := KernelAttr(true, StringVal(val));
    }
  }
}
