/** The AuditLog model: one record per order mutation, created and never updated. */
module AuditLogModel {
  import opened Common
  import opened OrderStatusEnum
  import opened OrderModel

  /** The action column's fixed tags. */
  datatype Action = Created | StatusChanged | Deleted {
    function Tag(): (r: string)
      ensures this == Created <==> r == "created"
      ensures this == StatusChanged <==> r == "status_changed"
      ensures this == Deleted <==> r == "deleted"
    {
      match this
      case Created => "created"
      case StatusChanged => "status_changed"
      case Deleted => "deleted"
    }
  }

  /** What `getStatusValue` may be handed: a string, a backed enum (an object with
      a `value` property), or any other value, carried with its string cast. */
  datatype StatusArg = StringArg(s: string) | EnumArg(status: Status) | OtherArg(cast: string)

  /** `getStatusValue`: a string as it is, an enum's backing value, otherwise the cast. */
  function GetStatusValue(arg: StatusArg): (r: string)
    ensures arg.StringArg? ==> r == arg.s
    ensures arg.EnumArg? ==> r == arg.status.Value() && TryFrom(r) == Some(arg.status)
    ensures arg.OtherArg? ==> r == arg.cast
  {
    match arg
    case StringArg(s) =>
      s
    case EnumArg(status) =>
      TryFromValue(status);
      status.Value()
    case OtherArg(cast) =>
      cast
  }

  /** A status given as an enum or as its token yields the same stored value. */
  lemma GetStatusValueAgrees(s: Status)
    ensures GetStatusValue(EnumArg(s)) == GetStatusValue(StringArg(s.Value()))
  {
  }

  /** A row of the audit_logs table. */
  datatype AuditRecord = AuditRecord(
    id: nat,
    orderId: string,
    action: Action,
    oldValue: Option<string>,
    newValue: Option<string>,
    changes: Option<OrderView>,
    ipAddress: Option<string>,
    userAgent: Option<string>,
    createdAt: int)

  /** The record `logCreation` writes: the new status, a snapshot of the order and
      no old value. */
  function CreationRecord(id: nat, order: OrderView, ip: Option<string>, ua: Option<string>, now: int): (r: AuditRecord)
    ensures r.id == id && r.orderId == order.order.id && r.action.Tag() == "created"
    ensures r.oldValue == None && r.newValue == Some(order.order.status.Value())
    ensures r.changes == Some(order)
    ensures r.ipAddress == ip && r.userAgent == ua && r.createdAt == now
  {
    AuditRecord(id, order.order.id, Created, None, Some(GetStatusValue(EnumArg(order.order.status))),
                Some(order), ip, ua, now)
  }

  /** The record `logStatusChange` writes: both values as given, no snapshot. */
  function StatusChangeRecord(id: nat, order: OrderRow, oldStatus: string, newStatus: string,
                              ip: Option<string>, ua: Option<string>, now: int): (r: AuditRecord)
    ensures r.id == id && r.orderId == order.id && r.action.Tag() == "status_changed"
    ensures r.oldValue == Some(oldStatus) && r.newValue == Some(newStatus)
    ensures r.changes == None
    ensures r.ipAddress == ip && r.userAgent == ua && r.createdAt == now
  {
    AuditRecord(id, order.id, StatusChanged, Some(oldStatus), Some(newStatus), None, ip, ua, now)
  }

  /** The record `logDeletion` writes: the current status as the old value, no new
      value and no snapshot. */
  function DeletionRecord(id: nat, order: OrderRow, ip: Option<string>, ua: Option<string>, now: int): (r: AuditRecord)
    ensures r.id == id && r.orderId == order.id && r.action.Tag() == "deleted"
    ensures r.oldValue == Some(order.status.Value()) && r.newValue == None
    ensures r.changes == None
    ensures r.ipAddress == ip && r.userAgent == ua && r.createdAt == now
  {
    AuditRecord(id, order.id, Deleted, Some(GetStatusValue(EnumArg(order.status))), None, None, ip, ua, now)
  }

  /** A status change logged with enum tokens can be read back as the two statuses. */
  lemma StatusChangeRecordReadsBack(id: nat, order: OrderRow, from: Status, to: Status,
                                    ip: Option<string>, ua: Option<string>, now: int)
    ensures var r := StatusChangeRecord(id, order, from.Value(), to.Value(), ip, ua, now);
            TryFrom(r.oldValue.value) == Some(from) && TryFrom(r.newValue.value) == Some(to)
  {
    TryFromValue(from);
    TryFromValue(to);
  }

  /** The audit_logs table: records in insertion order with auto-increment ids. */
  class AuditLogTable {
    var records: seq<AuditRecord>

    predicate Valid()
      reads this
    {
      forall i :: 0 <= i < |records| ==> records[i].id == i + 1
    }

    constructor ()
      ensures Valid() && records == []
    {
      records := [];
    }

    /** The id the next insert receives. */
    function NextId(): nat
      reads this
    {
      |records| + 1
    }

    /** `logCreation`: appends exactly the creation record. */
    method LogCreation(order: OrderView, ip: Option<string>, ua: Option<string>, now: int) returns (r: AuditRecord)
      requires Valid()
      modifies this
      ensures Valid()
      ensures r == CreationRecord(old(NextId()), order, ip, ua, now)
      ensures records == old(records) + [r]
    {
      r := CreationRecord(NextId(), order, ip, ua, now);
      records := records + [r];
    }

    /** `logStatusChange`: appends exactly the status-change record. */
    method LogStatusChange(order: OrderRow, oldStatus: string, newStatus: string,
                           ip: Option<string>, ua: Option<string>, now: int) returns (r: AuditRecord)
      requires Valid()
      modifies this
      ensures Valid()
      ensures r == StatusChangeRecord(old(NextId()), order, oldStatus, newStatus, ip, ua, now)
      ensures records == old(records) + [r]
    {
      r := StatusChangeRecord(NextId(), order, oldStatus, newStatus, ip, ua, now);
      records := records + [r];
    }

    /** `logDeletion`: appends exactly the deletion record. */
    method LogDeletion(order: OrderRow, ip: Option<string>, ua: Option<string>, now: int) returns (r: AuditRecord)
      requires Valid()
      modifies this
      ensures Valid()
      ensures r == DeletionRecord(old(NextId()), order, ip, ua, now)
      ensures records == old(records) + [r]
    {
      r := DeletionRecord(NextId(), order, ip, ua, now);
      records := records + [r];
    }
  }
}
