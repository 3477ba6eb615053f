/**
 * Types and constants of the low-level-discovery (LLD) object records kept by the
 * server while it processes one discovery rule: the discovery record itself, the
 * bitmask of pending updates and the lifetime settings of lost objects.
 *
 * The numeric values of the flags, statuses and ZBX_JAN_2038 are defined in headers
 * that are not part of this model. The source only sets, clears and tests named
 * bits of its 64-bit flag mask, so a mask is modelled as the set of its bits.
 */
module LldTypes {
  import opened Numbers

  /** A C `int`. */
  type Int32 = x: int | INT32_MIN <= x <= INT32_MAX

  /** A Unix timestamp or a duration in seconds held in a C `int`. */
  type Timestamp = x: int | 0 <= x <= INT32_MAX

  /** A C `unsigned char`. */
  type UChar = x: int | 0 <= x < 256

  /** A `zbx_uint64_t` object id. */
  type Id = x: int | 0 <= x < 0x1_0000_0000_0000_0000

  /** 2038-01-01 00:00:00 UTC, the latest timestamp the server schedules. */
  const JAN_2038: Timestamp := 2145916800

  /** The named bits of the `zbx_uint64_t` mask of pending updates. */
  datatype Flag =
    | UpdateObjectStatus     // the object's own status column
    | UpdateDisableSource
    | UpdateTsDelete
    | UpdateTsDisable
    | UpdateDiscoveryStatus
    | UpdateLastcheck
    | UpdateObjectExists     // set while the flush finds the object in the database
    | DeleteObject

  /** A mask of update flags, as the set of its bits that are 1; the empty set is
      ZBX_LLD_DISCOVERY_UPDATE_NONE. */
  type Flags = set<Flag>

  /** The flags whose columns live in the discovery table (lastcheck, status,
      disable_source, ts_delete, ts_disable). */
  const UPDATE: Flags := {UpdateDisableSource, UpdateTsDelete, UpdateTsDisable,
                          UpdateDiscoveryStatus, UpdateLastcheck}

  // Discovery status of an object.
  const DISCOVERY_STATUS_NORMAL: UChar := 0
  const DISCOVERY_STATUS_LOST: UChar := 1

  // Status of the discovered object itself.
  const OBJECT_STATUS_ENABLED: UChar := 0
  const OBJECT_STATUS_DISABLED: UChar := 1

  // Who disabled the object.
  const DISABLE_SOURCE_DEFAULT: UChar := 0
  const DISABLE_SOURCE_LLD_LOST: UChar := 1

  /** How long a lost object is kept (or kept enabled). */
  datatype LifetimeType = After | Immediately | Never

  datatype Lifetime = Lifetime(kind: LifetimeType, duration: Timestamp)

  /**
   * One discovery record: the object id and name, the pending-update bitmask and
   * the new values of the discovery columns that the flags mark for writing.
   */
  datatype Discovery = Discovery(
    id: Id,
    name: string,
    flags: Flags,
    discoveryStatus: UChar,
    objectStatus: UChar,
    disableSource: UChar,
    tsDelete: Timestamp,
    tsDisable: Timestamp)

  /** The record a fresh insertion creates: every field not named is zero. */
  function NewDiscovery(id: Id, name: string): (d: Discovery)
    ensures d.id == id && d.name == name && d.flags == {}
  {
    Discovery(id, name, {}, 0, 0, 0, 0, 0)
  }
}
