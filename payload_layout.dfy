/**
  * The fixed layouts the work-item resolution pass reads: the lanes of the
  * dispatch descriptor register R0, the lanes of the payload header, and the
  * byte offsets of the side buffer used under the stack-call convention
  * (class GLOBAL_STATE_FIELD_OFFSETS of WIFuncResolution.cpp).
  */
module PayloadLayout {

  const SIZEOF_U8: nat := 1
  const SIZEOF_U32: nat := 4
  const SIZEOF_U64: nat := 8

  // Side buffer: each offset is the previous one plus the size of the previous field.
  const GLOBAL_SIZES: nat := 0
  const GLOBAL_SIZE_X: nat := GLOBAL_SIZES
  const GLOBAL_SIZE_Y: nat := GLOBAL_SIZE_X + SIZEOF_U64
  const GLOBAL_SIZE_Z: nat := GLOBAL_SIZE_Y + SIZEOF_U64

  const PRINTF_BUFFER: nat := GLOBAL_SIZE_Z + SIZEOF_U64

  const GLOBAL_OFFSETS: nat := PRINTF_BUFFER + SIZEOF_U64
  const GLOBAL_OFFSET_X: nat := GLOBAL_OFFSETS
  const GLOBAL_OFFSET_Y: nat := GLOBAL_OFFSET_X + SIZEOF_U64
  const GLOBAL_OFFSET_Z: nat := GLOBAL_OFFSET_Y + SIZEOF_U64

  const LOCAL_SIZES: nat := GLOBAL_OFFSET_Z + SIZEOF_U64
  const LOCAL_SIZE_X: nat := LOCAL_SIZES
  const LOCAL_SIZE_Y: nat := LOCAL_SIZE_X + SIZEOF_U32
  const LOCAL_SIZE_Z: nat := LOCAL_SIZE_Y + SIZEOF_U32

  const GROUP_COUNTS: nat := LOCAL_SIZE_Z + SIZEOF_U32
  const GROUP_COUNT_X: nat := GROUP_COUNTS
  const GROUP_COUNT_Y: nat := GROUP_COUNT_X + SIZEOF_U32
  const GROUP_COUNT_Z: nat := GROUP_COUNT_Y + SIZEOF_U32

  const LOCAL_IDS: nat := GROUP_COUNT_Z + SIZEOF_U32

  const NUM_WORK_DIM: nat := LOCAL_IDS + SIZEOF_U64

  const STRUCT_SIZE: nat := NUM_WORK_DIM + SIZEOF_U8

  /** Per-dimension field offsets, indexed by dim 0, 1, 2. */
  const GLOBAL_SIZE_FIELDS: seq<nat> := [GLOBAL_SIZE_X, GLOBAL_SIZE_Y, GLOBAL_SIZE_Z]
  const GLOBAL_OFFSET_FIELDS: seq<nat> := [GLOBAL_OFFSET_X, GLOBAL_OFFSET_Y, GLOBAL_OFFSET_Z]
  const LOCAL_SIZE_FIELDS: seq<nat> := [LOCAL_SIZE_X, LOCAL_SIZE_Y, LOCAL_SIZE_Z]
  const GROUP_COUNT_FIELDS: seq<nat> := [GROUP_COUNT_X, GROUP_COUNT_Y, GROUP_COUNT_Z]

  /** The work-dim query loads a 4-byte word at NUM_WORK_DIM: the furthest byte the pass reads. */
  const WORK_DIM_LOAD_SIZE: nat := 4
  const SIDE_BUFFER_READ_EXTENT: nat := NUM_WORK_DIM + WORK_DIM_LOAD_SIZE

  // R0, the dispatch descriptor: eight 32-bit lanes.
  const R0_LANES: nat := 8
  const R0_GROUP_NUMBER_X_LANE: nat := 1
  const R0_GROUP_NUMBER_Y_LANE: nat := 6
  const R0_GROUP_NUMBER_Z_LANE: nat := 7
  const R0_GROUP_NUMBER_LANES: seq<nat> :=
    [R0_GROUP_NUMBER_X_LANE, R0_GROUP_NUMBER_Y_LANE, R0_GROUP_NUMBER_Z_LANE]

  // Payload header: eight 32-bit lanes, global offset X/Y/Z first.
  const PAYLOAD_HEADER_LANES: nat := 8
  const PAYLOAD_GLOBAL_OFFSET_LANES: seq<nat> := [0, 1, 2]

  /** The side-buffer offsets, written out. */
  lemma SideBufferOffsets()
    ensures GLOBAL_SIZE_X == 0 && GLOBAL_SIZE_Y == 8 && GLOBAL_SIZE_Z == 16
    ensures PRINTF_BUFFER == 24
    ensures GLOBAL_OFFSET_X == 32 && GLOBAL_OFFSET_Y == 40 && GLOBAL_OFFSET_Z == 48
    ensures LOCAL_SIZE_X == 56 && LOCAL_SIZE_Y == 60 && LOCAL_SIZE_Z == 64
    ensures GROUP_COUNT_X == 68 && GROUP_COUNT_Y == 72 && GROUP_COUNT_Z == 76
    ensures LOCAL_IDS == 80 && NUM_WORK_DIM == 88 && STRUCT_SIZE == 89
  {
  }

  /**
    * The lane of R0 holding the group number of dimension `dim`, computed as
    * the pass computes it: `dim + (dim == 0 ? 1 : 5)`.
    */
  function GroupIdLane(dim: nat): (lane: nat)
    ensures dim < 3 ==> lane == R0_GROUP_NUMBER_LANES[dim]
    ensures dim < 3 ==> lane < R0_LANES
  {
    dim + (if dim == 0 then 1 else 5)
  }
}
