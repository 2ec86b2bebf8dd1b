/**
 * The audit trail helper `logAction`: a best-effort append of one `AuditLog`
 * row. The row's id and creation time are assigned by the database and are
 * not part of this model.
 */
module Audit {
  import opened Wrappers
  import opened JsStrings
  import opened Json

  datatype AuditRecord = AuditRecord(
    userId: int,
    action: string,
    entity: string,
    entityId: string,
    details: Json)

  /** The `details` column: an omitted argument defaults to `null`; anything
      whose `typeof` is 'object' (so `null`, arrays and objects) is stored as its
      `JSON.stringify` text, and any other value is stored as it is. */
  function DetailsColumn(details: Json): (d: Json)
    ensures TypeOf(details) == "object" || details.JUndefined? ==> d.JString?
    ensures details.JNull? || details.JUndefined? ==> d == JString("null")
    ensures details.JObject? ==> d.JString? && "{" <= d.s
    ensures details.JArray? ==> d.JString? && "[" <= d.s
    ensures details.JObject? || details.JArray? ==> d == JString(Stringify(details))
    ensures details.JBool? || details.JNumber? || details.JString? ==> d == details
  {
    var given := if details.JUndefined? then JNull else details;
    if TypeOf(given) == "object" then JString(Stringify(given)) else given
  }

  /** The `entityId` column: `String(entityId)` */
  function EntityIdColumn(entityId: Json): (id: string)
    ensures entityId.JString? ==> id == entityId.s
  {
    ToJsString(entityId)
  }

  /** Numeric entity ids keep their identity in the text column: two different
      ids are never logged under the same `entityId`. */
  lemma NumericEntityIdsDistinct(a: int, b: int)
    requires a != b
    ensures EntityIdColumn(JNumber(a)) != EntityIdColumn(JNumber(b))
  {
    if EntityIdColumn(JNumber(a)) == EntityIdColumn(JNumber(b)) {
      IntToStringInjective(a, b);
    }
  }

  /** The row `logAction(userId, action, entity, entityId, details)` asks to create */
  function NewRecord(userId: int, action: string, entity: string, entityId: Json, details: Json): (r: AuditRecord)
    ensures r.userId == userId && r.action == action && r.entity == entity
    ensures TypeOf(details) == "object" || details.JUndefined? ==> r.details.JString?
  {
    AuditRecord(userId, action, entity, EntityIdColumn(entityId), DetailsColumn(details))
  }

  /** The `AuditLog` table; the application only ever appends to it. */
  class AuditLog {
    var entries: seq<AuditRecord>

    constructor ()
      ensures entries == []
    {
      entries := [];
    }

    /** `logAction`: attempts exactly one insert; when the insert fails
        (`writeFails`) the error is swallowed and the log is unchanged. Nothing
        is reported back to the caller in either case. Existing rows are never
        changed or removed. */
    method LogAction(userId: int, action: string, entity: string, entityId: Json, details: Json, writeFails: bool)
      modifies this
      ensures old(entries) <= entries && |entries| <= |old(entries)| + 1
      ensures entries == if writeFails then old(entries)
                         else old(entries) + [NewRecord(userId, action, entity, entityId, details)]
    {
      var record := NewRecord(userId, action, entity, entityId, details);
      if !writeFails {
        entries := entries + [record];
      }
    }
  }
}
