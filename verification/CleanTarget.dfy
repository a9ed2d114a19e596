/** What a target has to look like to be reconciled, row by row (the hard gates of reconcileWhitelistTx in
    cmd/aicrm-whitelist-import/reconcile.go). */
module CleanTarget {
  import opened Snapshot
  import opened Target

  /** The row names a customer of the target. */
  predicate CustomerNamed(db: Database, c: Columns) {
    exists k :: k in db.customers && Col(c, "customer_id") == Num(k.id)
  }

  predicate NoKeys(j: Json, keys: set<string>) {
    j.Obj? ==> forall k :: k in keys ==> k !in j.fields
  }

  /** The field is missing or JSON null. */
  predicate Empty(j: Json, key: string) {
    j.Obj? && key in j.fields ==> j.fields[key] == Null
  }

  predicate CleanProduct(c: Columns) {
    var j := Col(c, "legacy_admin_projection");
    && NoKeys(j, {"image_ids", "material_ids"})
    && Empty(j, "lead_program_id") && Empty(j, "lead_channel_id") && Empty(j, "completion_target")
    && (j.Obj? && "wecom_tagging" in j.fields ==>
          j.fields["wecom_tagging"] == Null || j.fields["wecom_tagging"] == Obj(map[]) || j.fields["wecom_tagging"] == Arr([]))
  }

  predicate CleanChannel(c: Columns) {
    NoKeys(Col(c, "config"), {"staff_id", "staff_ids", "employee_id", "employee_ids", "tag_id", "tag_ids", "welcome_material_id",
                              "welcome_material_ids", "welcome_message", "material_id", "material_ids"})
  }

  predicate CleanRadar(c: Columns) {
    Col(c, "cover_image_id") == Null && Col(c, "attachment_id") == Null
  }

  /** The field is missing or an empty list. */
  predicate EmptyList(j: Json, key: string) {
    j.Obj? && key in j.fields ==> j.fields[key] == Arr([])
  }

  predicate CleanContent(j: Json) {
    && EmptyList(j, "image_library_ids") && EmptyList(j, "miniprogram_library_ids")
    && EmptyList(j, "attachment_library_ids") && EmptyList(j, "group_invite_library_ids")
    && NoKeys(j, {"dynamic_miniprogram_card"})
  }

  /** An agent is paused, not enabled, and without material. */
  predicate CleanAgent(c: Columns) {
    && (Col(c, "status") == Null || Col(c, "status") == Text("paused")) && Col(c, "execution_enabled") != Bool(true)
    && CleanContent(Col(c, "fixed_content_package_json"))
  }

  predicate CleanPackage(c: Columns) {
    Col(c, "lifecycle") == Null || Col(c, "lifecycle") == Text("paused")
  }

  /** No reference belongs to two customers. */
  predicate OneOwner(refs: seq<SubjectRef>) {
    forall i, j :: 0 <= i < j < |refs| && refs[i].entity == refs[j].entity && refs[i].digest == refs[j].digest ==> refs[i].customer == refs[j].customer
  }

  predicate Untouched(db: Database) {
    forall k :: k in {"external_effects", "provider_receipts", "product_images", "campaigns", "messages", "radar_events", "channel_events"} && k in db.other
                ==> db.other[k] == 0
  }

  predicate CustomersThere(db: Database) {
    forall e, c :: e in {Orders, Submissions, Entitlements, Members, SegmentMembers} && c in TableOf(db, e) ==> CustomerNamed(db, c)
  }

  predicate ContentClean(db: Database) {
    && (forall c :: c in TableOf(db, Products) ==> CleanProduct(c))
    && (forall c :: c in TableOf(db, Channels) ==> CleanChannel(c))
    && (forall c :: c in TableOf(db, RadarLinks) ==> CleanRadar(c))
    && (forall c :: c in TableOf(db, AgentConfigurations) ==> CleanAgent(c))
    && (forall c :: c in TableOf(db, PackageMetadata) ==> CleanPackage(c))
  }

  predicate Clean(db: Database) {
    CustomersThere(db) && ContentClean(db) && OneOwner(db.refs) && Untouched(db)
  }
}
