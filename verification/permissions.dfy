/** Role-based permissions (src/lib/permissions.ts): a per-role table of
    resource permissions, a per-role feature list, and the `canX` shortcuts
    the pages use. */
module Permissions {

  datatype Role = Admin | Analyst | Viewer

  datatype Action = View | Create | Edit | Delete | Export

  /** One row of the table; `exports` is the source's `export` flag (a Dafny keyword). */
  datatype Permission = Permission(view: bool, create: bool, edit: bool, delete: bool, exports: bool) {
    function Allows(a: Action): bool {
      match a
      case View => view
      case Create => create
      case Edit => edit
      case Delete => delete
      case Export => exports
    }
  }

  /** The resources every role's table lists. */
  const Resources: set<string> := {"dashboard", "reports", "settings", "users", "auditLogs"}

  /** Roles ordered by privilege: viewer below analyst below admin. */
  function Rank(role: Role): nat {
    match role
    case Viewer => 0
    case Analyst => 1
    case Admin => 2
  }

  /** `PERMISSIONS[role]`. */
  function Table(role: Role): (t: map<string, Permission>)
    ensures t.Keys == Resources
  {
    match role
    case Viewer =>
      map[
        "dashboard" := Permission(true, false, false, false, false),
        "reports" := Permission(true, false, false, false, false),
        "settings" := Permission(true, false, false, false, false),
        "users" := Permission(false, false, false, false, false),
        "auditLogs" := Permission(false, false, false, false, false)
      ]
    case Analyst =>
      map[
        "dashboard" := Permission(true, false, false, false, true),
        "reports" := Permission(true, true, true, false, true),
        "settings" := Permission(true, false, true, false, false),
        "users" := Permission(false, false, false, false, false),
        "auditLogs" := Permission(false, false, false, false, false)
      ]
    case Admin =>
      map[
        "dashboard" := Permission(true, true, true, true, true),
        "reports" := Permission(true, true, true, true, true),
        "settings" := Permission(true, true, true, true, true),
        "users" := Permission(true, true, true, true, true),
        "auditLogs" := Permission(true, false, false, false, true)
      ]
  }

  /** What the `?.[resource]?.[action]` lookup finds for a resource the table
      does not list. Each role's table is a plain object, so the lookup
      continues along the prototype chain. Only `constructor` (the `Object`
      function) has a member named after an action: `Object.create`. That
      value is a function, so it is truthy, and `?? false` does not replace it.
      No other inherited member has a property named view, create, edit,
      delete or export, so those lookups end in `undefined` and give false. */
  function Inherited(resource: string, action: Action): bool {
    resource == "constructor" && action == Create
  }

  /** `hasPermission`: the table entry's flag for a listed resource; for any
      other resource, what the prototype chain supplies (see `Inherited`). */
  function HasPermission(role: Role, resource: string, action: Action): (b: bool)
    ensures resource in Resources ==> (b <==> Table(role)[resource].Allows(action))
    ensures resource !in Resources && resource != "constructor" ==> !b
    ensures resource == "constructor" ==> (b <==> action == Create)
  {
    if resource in Table(role) then Table(role)[resource].Allows(action)
    else Inherited(resource, action)
  }

  /** Every role, a viewer included, is granted `create` on the resource
      name `constructor`, which the table never lists. */
  lemma ConstructorCreateGranted(role: Role)
    ensures "constructor" !in Table(role)
    ensures HasPermission(role, "constructor", Create)
    ensures !HasPermission(role, "constructor", View)
  {
  }

  /** `FEATURES[role]`: five features for a viewer, ten for an analyst and
      sixteen for an admin, none listed twice. */
  function Features(role: Role): (fs: seq<string>)
    ensures |fs| == (match role case Viewer => 5 case Analyst => 10 case Admin => 16)
    ensures forall i, j :: 0 <= i < j < |fs| ==> fs[i] != fs[j]
  {
    var viewer := ["view_dashboards", "view_reports", "apply_filters", "view_notifications", "edit_own_profile"];
    var analyst := viewer + ["export_data", "create_reports", "save_filters", "schedule_reports", "advanced_filters"];
    match role
    case Viewer => viewer
    case Analyst => analyst
    case Admin => analyst + ["manage_users", "system_settings", "audit_logs", "api_keys", "integrations", "delete_data"]
  }

  /** `hasFeature`: a viewer has the five viewing features; an analyst adds
      exporting and report features; an admin adds the administrative ones. */
  function HasFeature(role: Role, feature: string): (b: bool)
    ensures role == Viewer ==>
              (b <==> feature in {"view_dashboards", "view_reports", "apply_filters", "view_notifications",
                                  "edit_own_profile"})
    ensures role == Analyst ==>
              (b <==> feature in Features(Viewer)
                      || feature in {"export_data", "create_reports", "save_filters", "schedule_reports",
                                     "advanced_filters"})
    ensures role == Admin ==>
              (b <==> feature in Features(Analyst)
                      || feature in {"manage_users", "system_settings", "audit_logs", "api_keys", "integrations",
                                     "delete_data"})
  {
    feature in Features(role)
  }

  function CanExport(role: Role): (b: bool)
    ensures b <==> HasFeature(role, "export_data")
    ensures b <==> HasPermission(role, "dashboard", Export)
  {
    role == Admin || role == Analyst
  }

  function CanManageUsers(role: Role): (b: bool)
    ensures b <==> HasPermission(role, "users", Create)
    ensures b <==> HasFeature(role, "manage_users")
  {
    role == Admin
  }

  function CanAccessAuditLogs(role: Role): (b: bool)
    ensures b <==> HasPermission(role, "auditLogs", View)
    ensures b <==> HasFeature(role, "audit_logs")
  {
    role == Admin
  }

  function CanModifySystemSettings(role: Role): (b: bool)
    ensures b <==> HasFeature(role, "system_settings")
    ensures b <==> HasPermission(role, "settings", Delete)
  {
    role == Admin
  }

  function CanCreateReports(role: Role): (b: bool)
    ensures b <==> HasPermission(role, "reports", Create)
    ensures b <==> HasFeature(role, "create_reports")
  {
    role == Admin || role == Analyst
  }

  function CanDeleteData(role: Role): (b: bool)
    ensures b <==> HasFeature(role, "delete_data")
    ensures b <==> HasPermission(role, "reports", Delete)
  {
    role == Admin
  }

  /** Permissions grow with privilege: whatever a role may do, every role
      ranked above it may do as well. */
  lemma PermissionsMonotone(lower: Role, higher: Role, resource: string, action: Action)
    requires Rank(lower) <= Rank(higher)
    ensures HasPermission(lower, resource, action) ==> HasPermission(higher, resource, action)
  {
  }

  /** No role may create, edit or delete audit logs. */
  lemma AuditLogsReadOnly(role: Role, action: Action)
    requires action in {Create, Edit, Delete}
    ensures !HasPermission(role, "auditLogs", action)
  {
  }

  /** A viewer may only view, and only the dashboard, reports and settings,
      apart from the inherited `constructor`/`create` entry. */
  lemma ViewerOnlyViews(resource: string, action: Action)
    ensures HasPermission(Viewer, resource, action) <==>
              (action == View && resource in {"dashboard", "reports", "settings"})
              || (resource == "constructor" && action == Create)
  {
  }

  /** Feature lists are nested: viewer within analyst within admin. */
  lemma FeaturesNested(lower: Role, higher: Role, feature: string)
    requires Rank(lower) <= Rank(higher)
    ensures HasFeature(lower, feature) ==> HasFeature(higher, feature)
  {
  }

  /** Only the admin may delete data, or manage users. */
  lemma AdminOnlyFeatures(role: Role)
    ensures HasFeature(role, "delete_data") <==> role == Admin
    ensures HasFeature(role, "manage_users") <==> role == Admin
  {
  }
}
