// The audit log as an append-only sink: which user, which action, and
// whether it succeeded. IP address, user agent, details and error text
// are left out.

module AuditTrail {
  import opened Common

  datatype Action =
    | LOGIN | LOGIN_FAILED | LOGOUT | LOGOUT_ALL
    | REGISTER | PASSWORD_CHANGE | PASSWORD_RESET
    | TOKEN_REFRESH | TOKEN_REVOKE
    | ROLE_ASSIGN | ROLE_REVOKE
    | USER_LOCK | USER_UNLOCK | USER_DISABLE
    | PERMISSION_GRANT | PERMISSION_REVOKE

  /** `logSuccess`, `logFailure` and `logAdminAction` (an admin entry names
    * the admin as its user and the account acted on as its target). */
  datatype Outcome = Succeeded | Failed | ByAdmin(targetUserId: nat)

  datatype AuditEntry = AuditEntry(userId: Option<nat>, action: Action, outcome: Outcome)

  class AuditLog {
    var entries: seq<AuditEntry>

    constructor ()
      ensures entries == []
    {
      entries := [];
    }

    method Append(e: AuditEntry)
      modifies this
      ensures entries == old(entries) + [e]
    {
      entries := entries + [e];
    }
  }
}
