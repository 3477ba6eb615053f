/**
 * The discovery records of one LLD rule, updated in place: insertion, the four
 * lifecycle transitions applied to the record of one object, the double-check of
 * pending status updates against the object table and the flush that turns the
 * records into a plan of database writes. A C reference to a record is modelled by
 * the record's id, which is also its key in the hashset.
 */
module LldDiscoveries {
  import opened Options
  import opened LldTypes
  import opened LldLifetime
  import opened LldTransitions
  import opened LldFlush

  class DiscoverySet {
    var records: map<Id, Discovery>

    /** Every record is stored under its own id. */
    ghost predicate Valid()
      reads this
    {
      forall id | id in records :: records[id].id == id
    }

    constructor ()
      ensures Valid() && records == map[]
    {
      records := map[];
    }

    /** Insert a record for `id` with no pending updates; an id already present keeps
        its record, which is returned. */
    method AddDiscovery(id: Id, name: string) returns (d: Discovery)
      requires Valid()
      modifies this
      ensures Valid() && d.id == id
      ensures id in old(records) ==> records == old(records) && d == old(records)[id]
      ensures id !in old(records) ==> records == old(records)[id := d] && d == NewDiscovery(id, name)
    {
      if id in records {
        d := records[id];
      } else {
        d := NewDiscovery(id, name);
        records := records[id := d];
      }
    }

    method ProcessDiscoveredObject(id: Id, discoveryStatus: UChar, tsDelete: Timestamp)
      requires Valid() && id in records
      modifies this
      ensures Valid()
      ensures records == old(records)[id := AfterDiscovered(old(records)[id], discoveryStatus, tsDelete)]
    {
      var d := records[id];
      d := d.(flags := d.flags + {UpdateLastcheck});
      if discoveryStatus != DISCOVERY_STATUS_NORMAL {
        d := d.(flags := d.flags + {UpdateDiscoveryStatus}, discoveryStatus := DISCOVERY_STATUS_NORMAL);
      }
      if tsDelete != 0 {
        d := d.(flags := d.flags + {UpdateTsDelete}, tsDelete := 0);
      }
      records := records[id := d];
    }

    method EnableDiscoveredObject(id: Id, objectStatus: UChar, disableSource: UChar, tsDisable: Timestamp)
      requires Valid() && id in records
      modifies this
      ensures Valid()
      ensures records == old(records)[id := AfterEnableDiscovered(old(records)[id], objectStatus, disableSource,
                                                                  tsDisable)]
    {
      var d := records[id];
      if objectStatus == OBJECT_STATUS_DISABLED && disableSource == DISABLE_SOURCE_LLD_LOST {
        d := d.(flags := d.flags + {UpdateDisableSource, UpdateObjectStatus},
                disableSource := DISABLE_SOURCE_DEFAULT, objectStatus := OBJECT_STATUS_ENABLED);
      }
      if tsDisable != 0 {
        d := d.(flags := d.flags + {UpdateTsDisable}, tsDisable := 0);
      }
      records := records[id := d];
    }

    method ProcessLostObject(id: Id, objectStatus: UChar, lastcheck: Timestamp, now: Timestamp,
                             lifetime: Lifetime, discoveryStatus: UChar, disableSource: int, tsDelete: Timestamp)
      requires Valid() && id in records
      modifies this
      ensures Valid()
      ensures records == old(records)[id := AfterLost(old(records)[id], objectStatus, lastcheck, now, lifetime,
                                                      discoveryStatus, disableSource, tsDelete)]
    {
      var d := records[id];
      var ts := LifetimeTs(lastcheck, lifetime);
      if ts != tsDelete {
        d := d.(flags := d.flags + {UpdateTsDelete}, tsDelete := ts);
      }
      if discoveryStatus != DISCOVERY_STATUS_LOST {
        d := d.(flags := d.flags + {UpdateDiscoveryStatus}, discoveryStatus := DISCOVERY_STATUS_LOST);
      }
      if LifetimeElapsed(now, ts) {
        if objectStatus == OBJECT_STATUS_ENABLED || disableSource == DISABLE_SOURCE_LLD_LOST as int {
          d := d.(flags := d.flags + {DeleteObject});
        }
      }
      records := records[id := d];
    }

    method DisableLostObject(id: Id, objectStatus: UChar, lastcheck: Timestamp, now: Timestamp,
                             lifetime: Lifetime, tsDisable: Timestamp)
      requires Valid() && id in records
      modifies this
      ensures Valid()
      ensures records == old(records)[id := AfterDisableLost(old(records)[id], objectStatus, lastcheck, now,
                                                             lifetime, tsDisable)]
    {
      var d := records[id];
      var ts := LifetimeTs(lastcheck, lifetime);
      if ts != tsDisable {
        d := d.(flags := d.flags + {UpdateTsDisable}, tsDisable := ts);
      }
      if !LifetimeElapsed(now, ts) {
        records := records[id := d];
        return;
      }
      if objectStatus == OBJECT_STATUS_ENABLED {
        d := d.(flags := d.flags + {UpdateDisableSource, UpdateObjectStatus},
                disableSource := DISABLE_SOURCE_LLD_LOST, objectStatus := OBJECT_STATUS_DISABLED);
      }
      records := records[id := d];
    }

    /** Lock the objects in `updIds` and compare their status in the object table
        `table` with the pending one: drop a status update the table already has,
        and reset the flags of records whose object is gone. */
    method CheckObjectsInDb(updIds: set<Id>, table: map<Id, UChar>)
      requires Valid()
      modifies this
      ensures Valid()
      ensures records == CheckedInDb(old(records), updIds, table)
    {
      ghost var m0 := records;
      // the rows the select returns: the ids that are still in the object table
      var rows := updIds * table.Keys;
      ghost var fetched: set<Id> := {};
      while rows != {}
        invariant Valid()
        invariant fetched !! rows && fetched + rows == updIds * table.Keys
        invariant records == map id | id in m0 :: if id in fetched then MarkExisting(m0[id], table[id]) else m0[id]
        decreases rows
      {
        var id :| id in rows;
        rows, fetched := rows - {id}, fetched + {id};
        if id !in records {
          continue;
        }
        var d := records[id];
        d := d.(flags := d.flags + {UpdateObjectExists});
        if UpdateObjectStatus in d.flags && table[id] == d.objectStatus {
          d := d.(flags := d.flags - {UpdateObjectStatus});
        }
        records := records[id := d];
      }
      ghost var m1 := records;
      // reset the records of objects that are already removed
      var ids := updIds;
      ghost var reset: set<Id> := {};
      while ids != {}
        invariant Valid()
        invariant reset !! ids && reset + ids == updIds
        invariant records == map id | id in m1 :: if id in reset then ResetIfRemoved(m1[id]) else m1[id]
        decreases ids
      {
        var id :| id in ids;
        ids, reset := ids - {id}, reset + {id};
        if id !in records {
          continue;
        }
        if UpdateObjectExists !in records[id].flags {
          records := records[id := records[id].(flags := {})];
        }
      }
    }

    /** Flush the pending updates: when some record counts as an update, double-check
        the pending status updates and return the plan of writes; otherwise leave the
        records alone and write nothing. */
    method FlushDiscoveries(now: Timestamp, table: map<Id, UChar>) returns (plan: Option<FlushPlan>)
      requires Valid()
      modifies this
      ensures Valid()
      ensures PendingIds(old(records)) == {} ==> records == old(records) && plan == None
      ensures PendingIds(old(records)) != {} ==>
        records == CheckedInDb(old(records), StatusCheckIds(old(records)), table)
        && plan == Some(PlanOf(records, now))
    {
      var updatesNum, updIds := CountUpdates(records);
      if updatesNum == 0 {
        return None;
      }
      if updIds != {} {
        CheckObjectsInDb(updIds, table);
      } else {
        CheckedInDbNothing(records, table);
      }
      var p := PrepareUpdates(records, now);
      plan := Some(p);
    }
  }

  /** A string field of an LLD object with its original value and the object's flags. */
  class ObjectStrField<F(==)> {
    var field: Option<string>
    var fieldOrig: Option<string>
    var flags: set<F>

    function State(): StrField<F>
      reads this
    {
      StrField(field, fieldOrig, flags)
    }

    /** Roll back a pending change of the field marked by `flag`. */
    method Rollback(flag: set<F>)
      modifies this
      ensures State() == StrRollback(old(State()), flag)
    {
      if flags * flag == {} {
        return;
      }
      field := fieldOrig;
      fieldOrig := None;
      flags := flags - flag;
    }
  }
}
