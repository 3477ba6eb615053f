/**
 * The lifecycle transitions of one LLD discovery record. Each function takes the
 * record and the object's current values as read from the database, and gives the
 * record after the transition: the new column values and the update flags that
 * tell the flush which columns to write. Flags are only ever added.
 */
module LldTransitions {
  import opened Options
  import opened LldTypes
  import opened LldLifetime

  /** An object found again by discovery: refresh lastcheck, return it to NORMAL
      and cancel a scheduled deletion. */
  function AfterDiscovered(d: Discovery, discoveryStatus: UChar, tsDelete: Timestamp): (r: Discovery)
    ensures UpdateLastcheck in r.flags
    ensures d.flags <= r.flags <= d.flags + {UpdateLastcheck, UpdateDiscoveryStatus, UpdateTsDelete}
    ensures UpdateDiscoveryStatus in r.flags <==>
      UpdateDiscoveryStatus in d.flags || discoveryStatus != DISCOVERY_STATUS_NORMAL
    ensures UpdateTsDelete in r.flags <==> UpdateTsDelete in d.flags || tsDelete != 0
    ensures r.discoveryStatus == if discoveryStatus != DISCOVERY_STATUS_NORMAL then DISCOVERY_STATUS_NORMAL
                                 else d.discoveryStatus
    ensures r.tsDelete == if tsDelete != 0 then 0 else d.tsDelete
    ensures r == d.(flags := r.flags, discoveryStatus := r.discoveryStatus, tsDelete := r.tsDelete)
  {
    var checked := d.(flags := d.flags + {UpdateLastcheck});
    var normal := if discoveryStatus != DISCOVERY_STATUS_NORMAL
                  then checked.(flags := checked.flags + {UpdateDiscoveryStatus},
                                discoveryStatus := DISCOVERY_STATUS_NORMAL)
                  else checked;
    if tsDelete != 0 then normal.(flags := normal.flags + {UpdateTsDelete}, tsDelete := 0)
    else normal
  }

  /** Whether an object was disabled by LLD because it had been lost. */
  predicate DisabledAsLost(objectStatus: UChar, disableSource: UChar)
  {
    objectStatus == OBJECT_STATUS_DISABLED && disableSource == DISABLE_SOURCE_LLD_LOST
  }

  /** A discovered object that LLD had disabled while it was lost is enabled again;
      a pending disable time is cleared. */
  function AfterEnableDiscovered(d: Discovery, objectStatus: UChar, disableSource: UChar,
                                 tsDisable: Timestamp): (r: Discovery)
    ensures d.flags <= r.flags <= d.flags + {UpdateDisableSource, UpdateObjectStatus, UpdateTsDisable}
    ensures DisabledAsLost(objectStatus, disableSource) ==>
      UpdateDisableSource in r.flags && UpdateObjectStatus in r.flags
      && r.disableSource == DISABLE_SOURCE_DEFAULT && r.objectStatus == OBJECT_STATUS_ENABLED
    ensures !DisabledAsLost(objectStatus, disableSource) ==>
      r.flags <= d.flags + {UpdateTsDisable}
      && r.disableSource == d.disableSource && r.objectStatus == d.objectStatus
    ensures UpdateTsDisable in r.flags <==> UpdateTsDisable in d.flags || tsDisable != 0
    ensures r.tsDisable == if tsDisable != 0 then 0 else d.tsDisable
    ensures r == d.(flags := r.flags, objectStatus := r.objectStatus, disableSource := r.disableSource,
                    tsDisable := r.tsDisable)
  {
    var enabled := if DisabledAsLost(objectStatus, disableSource)
                   then d.(flags := d.flags + {UpdateDisableSource, UpdateObjectStatus},
                           disableSource := DISABLE_SOURCE_DEFAULT,
                           objectStatus := OBJECT_STATUS_ENABLED)
                   else d;
    if tsDisable != 0 then enabled.(flags := enabled.flags + {UpdateTsDisable}, tsDisable := 0)
    else enabled
  }

  /** Whether a lost object whose lifetime is over may be deleted: it is enabled, or
      LLD itself disabled it. An object disabled by other means is kept. */
  predicate Deletable(objectStatus: UChar, disableSource: int)
  {
    objectStatus == OBJECT_STATUS_ENABLED || disableSource == DISABLE_SOURCE_LLD_LOST as int
  }

  /** An object that discovery did not return: schedule its deletion, mark it LOST
      and, once its lifetime is over, mark it for deletion. */
  function AfterLost(d: Discovery, objectStatus: UChar, lastcheck: Timestamp, now: Timestamp,
                     lifetime: Lifetime, discoveryStatus: UChar, disableSource: int,
                     tsDelete: Timestamp): (r: Discovery)
    ensures d.flags <= r.flags <= d.flags + {UpdateTsDelete, UpdateDiscoveryStatus, DeleteObject}
    ensures UpdateTsDelete in r.flags <==>
      UpdateTsDelete in d.flags || LifetimeTs(lastcheck, lifetime) != tsDelete
    ensures r.tsDelete == if LifetimeTs(lastcheck, lifetime) != tsDelete then LifetimeTs(lastcheck, lifetime)
                          else d.tsDelete
    ensures UpdateDiscoveryStatus in r.flags <==>
      UpdateDiscoveryStatus in d.flags || discoveryStatus != DISCOVERY_STATUS_LOST
    ensures r.discoveryStatus == if discoveryStatus != DISCOVERY_STATUS_LOST then DISCOVERY_STATUS_LOST
                                 else d.discoveryStatus
    ensures DeleteObject in r.flags <==>
      DeleteObject in d.flags
      || (LifetimeElapsed(now, LifetimeTs(lastcheck, lifetime)) && Deletable(objectStatus, disableSource))
    ensures r == d.(flags := r.flags, discoveryStatus := r.discoveryStatus, tsDelete := r.tsDelete)
  {
    var ts := LifetimeTs(lastcheck, lifetime);
    var scheduled := if ts != tsDelete then d.(flags := d.flags + {UpdateTsDelete}, tsDelete := ts) else d;
    var lost := if discoveryStatus != DISCOVERY_STATUS_LOST
                then scheduled.(flags := scheduled.flags + {UpdateDiscoveryStatus},
                                discoveryStatus := DISCOVERY_STATUS_LOST)
                else scheduled;
    if LifetimeElapsed(now, ts) && Deletable(objectStatus, disableSource)
    then lost.(flags := lost.flags + {DeleteObject})
    else lost
  }

  /** A lost object that must be disabled: schedule the disabling and, once that
      lifetime is over, disable an enabled object on behalf of LLD. */
  function AfterDisableLost(d: Discovery, objectStatus: UChar, lastcheck: Timestamp, now: Timestamp,
                            lifetime: Lifetime, tsDisable: Timestamp): (r: Discovery)
    ensures d.flags <= r.flags <= d.flags + {UpdateTsDisable, UpdateDisableSource, UpdateObjectStatus}
    ensures UpdateTsDisable in r.flags <==>
      UpdateTsDisable in d.flags || LifetimeTs(lastcheck, lifetime) != tsDisable
    ensures r.tsDisable == if LifetimeTs(lastcheck, lifetime) != tsDisable then LifetimeTs(lastcheck, lifetime)
                           else d.tsDisable
    ensures !LifetimeElapsed(now, LifetimeTs(lastcheck, lifetime)) || objectStatus != OBJECT_STATUS_ENABLED ==>
      r == d.(flags := r.flags, tsDisable := r.tsDisable) && r.flags <= d.flags + {UpdateTsDisable}
    ensures LifetimeElapsed(now, LifetimeTs(lastcheck, lifetime)) && objectStatus == OBJECT_STATUS_ENABLED ==>
      UpdateDisableSource in r.flags && UpdateObjectStatus in r.flags
      && r.objectStatus == OBJECT_STATUS_DISABLED && r.disableSource == DISABLE_SOURCE_LLD_LOST
    ensures r == d.(flags := r.flags, objectStatus := r.objectStatus, disableSource := r.disableSource,
                    tsDisable := r.tsDisable)
  {
    var ts := LifetimeTs(lastcheck, lifetime);
    var scheduled := if ts != tsDisable then d.(flags := d.flags + {UpdateTsDisable}, tsDisable := ts) else d;
    if !LifetimeElapsed(now, ts) then scheduled
    else if objectStatus == OBJECT_STATUS_ENABLED
    then scheduled.(flags := scheduled.flags + {UpdateDisableSource, UpdateObjectStatus},
                    disableSource := DISABLE_SOURCE_LLD_LOST,
                    objectStatus := OBJECT_STATUS_DISABLED)
    else scheduled
  }

  /** A string field of an LLD object together with its original value and the
      object's update flags (of whatever flag type that object uses). */
  datatype StrField<F> = StrField(field: Option<string>, orig: Option<string>, flags: set<F>)

  /** Undo a pending change of a string field: when a bit of `flag` is pending, put
      the original value back, forget the original and clear the bits of `flag`. */
  function StrRollback<F>(s: StrField<F>, flag: set<F>): (r: StrField<F>)
    ensures s.flags * flag == {} ==> r == s
    ensures s.flags * flag != {} ==> r.field == s.orig && r.orig == None
    ensures s.flags * flag != {} ==> r.flags * flag == {} && r.flags - flag == s.flags - flag
  {
    if s.flags * flag == {} then s
    else StrField(s.orig, None, s.flags - flag)
  }

  /** Rolling back twice is rolling back once. */
  lemma StrRollbackIdempotent<F>(s: StrField<F>, flag: set<F>)
    ensures StrRollback(StrRollback(s, flag), flag) == StrRollback(s, flag)
  {
  }

  /** Rediscovering an object that the lost-object step disabled enables it again
      with the default disable source: the two transitions undo each other on the
      object's status columns. */
  lemma EnableUndoesDisableLost(d: Discovery, lastcheck: Timestamp, now: Timestamp, lifetime: Lifetime,
                                tsDisable: Timestamp, later: Discovery)
    requires LifetimeElapsed(now, LifetimeTs(lastcheck, lifetime))
    ensures var lost := AfterDisableLost(d, OBJECT_STATUS_ENABLED, lastcheck, now, lifetime, tsDisable);
            var back := AfterEnableDiscovered(later, lost.objectStatus, lost.disableSource, lost.tsDisable);
            back.objectStatus == OBJECT_STATUS_ENABLED && back.disableSource == DISABLE_SOURCE_DEFAULT
  {
  }

  /** Rediscovering a lost object returns it to NORMAL and cancels its deletion. */
  lemma DiscoveredUndoesLost(d: Discovery, objectStatus: UChar, lastcheck: Timestamp, now: Timestamp,
                             lifetime: Lifetime, discoveryStatus: UChar, disableSource: int,
                             tsDelete: Timestamp, later: Discovery)
    requires LifetimeTs(lastcheck, lifetime) != tsDelete
    ensures var lost := AfterLost(d, objectStatus, lastcheck, now, lifetime, discoveryStatus, disableSource, tsDelete);
            var lostStatus := if UpdateDiscoveryStatus in lost.flags then lost.discoveryStatus else discoveryStatus;
            var back := AfterDiscovered(later, lostStatus, lost.tsDelete);
            (UpdateDiscoveryStatus !in d.flags ==> lostStatus == DISCOVERY_STATUS_LOST)
            && (lostStatus != DISCOVERY_STATUS_NORMAL ==> back.discoveryStatus == DISCOVERY_STATUS_NORMAL)
            && (back.tsDelete == 0 || (lost.tsDelete == 0 && back.tsDelete == later.tsDelete))
  {
  }

  /** An object whose lifetime never ends is never deleted; one disabled by other
      means than LLD is never deleted either, however long it has been lost. */
  lemma LostObjectKept(d: Discovery, objectStatus: UChar, lastcheck: Timestamp, now: Timestamp,
                       lifetime: Lifetime, discoveryStatus: UChar, disableSource: int, tsDelete: Timestamp)
    requires DeleteObject !in d.flags
    requires lifetime.kind == Never
             || (objectStatus != OBJECT_STATUS_ENABLED && disableSource != DISABLE_SOURCE_LLD_LOST as int)
    ensures DeleteObject !in AfterLost(d, objectStatus, lastcheck, now, lifetime, discoveryStatus,
                                       disableSource, tsDelete).flags
  {
  }
}
