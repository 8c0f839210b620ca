// The tables the authentication flows write, as one value, and how a
// transactional flow ends. Every flow runs in one transaction that the
// helpers it calls join; a failure that escapes the flow rolls back every
// row it wrote, and a failure that a joined helper threw marks the whole
// transaction rollback-only even when the flow catches it, so the commit
// then fails. Identity counters are not transactional and keep advancing.

module AuthStore {
  import opened Common
  import opened ServiceErrors
  import opened AuditTrail
  import UserRepository
  import RoleRepository
  import PermissionRepository
  import RefreshTokenRepository
  import TokenBlacklistRepository
  import UserSessionRepository

  datatype Store = Store(
    users: UserRepository.Rows,
    userNext: nat,
    roles: RoleRepository.Rows,
    roleNext: nat,
    perms: PermissionRepository.Rows,
    tokens: RefreshTokenRepository.Rows,
    tokenNext: nat,
    blacklist: TokenBlacklistRepository.Rows,
    blacklistNext: nat,
    sessions: UserSessionRepository.Rows,
    sessionNext: nat,
    audit: seq<AuditEntry>)

  /** Every table's constraints, and every id already handed out. */
  predicate StoreValid(s: Store)
  {
    && UserRepository.Unique(s.users) && (forall k :: k in s.users ==> k < s.userNext)
    && RoleRepository.NamesUnique(s.roles) && (forall k :: k in s.roles ==> k < s.roleNext)
    && PermissionRepository.NamesUnique(s.perms)
    && RefreshTokenRepository.TokensUnique(s.tokens) && (forall k :: k in s.tokens ==> k < s.tokenNext)
    && TokenBlacklistRepository.JtisUnique(s.blacklist) && (forall k :: k in s.blacklist ==> k < s.blacklistNext)
    && (forall k :: k in s.sessions ==> k < s.sessionNext)
  }

  /** Every session is bound to a refresh token id handed out already. */
  predicate SessionsBound(s: Store)
  {
    forall k :: k in s.sessions ==> s.sessions[k].refreshTokenId < s.tokenNext
  }

  /** No counter went back. */
  predicate CountersAdvanced(before: Store, after: Store)
  {
    && before.userNext <= after.userNext && before.roleNext <= after.roleNext
    && before.tokenNext <= after.tokenNext && before.blacklistNext <= after.blacklistNext
    && before.sessionNext <= after.sessionNext
  }

  /** The rows as they were before the transaction, with the counters as
    * the transaction left them. */
  function RolledBack(before: Store, after: Store): (r: Store)
    ensures r.audit == before.audit && r.users == before.users && r.tokens == before.tokens
    ensures r.tokenNext == after.tokenNext && r.userNext == after.userNext
  {
    after.(users := before.users, roles := before.roles, tokens := before.tokens,
           blacklist := before.blacklist, sessions := before.sessions, audit := before.audit)
  }

  /** What a flow did before it ended: its result, the rows it wrote, and
    * whether a joined helper's failure marked the transaction. */
  datatype Outcome<T> = Outcome(result: Result<T, Failure>, store: Store, rollbackOnly: bool)

  /** The end of the transaction. A failure rolls back unless it is a
    * BadRequest and the flow is declared not to roll back for those; a
    * flow that completes normally but was marked rollback-only fails at
    * commit with UnexpectedRollback and is rolled back. */
  function EndTransaction<T>(before: Store, o: Outcome<T>, commitOnBadRequest: bool): (r: (Result<T, Failure>, Store))
    ensures r.0.Ok? ==> r == (o.result, o.store) && !o.rollbackOnly
    ensures o.result.Err? && !(commitOnBadRequest && o.result.error.BadRequest?) ==>
      r == (o.result, RolledBack(before, o.store))
    ensures o.result.Ok? && o.rollbackOnly ==> r == (Err(UnexpectedRollback), RolledBack(before, o.store))
    ensures o.result.Err? && commitOnBadRequest && o.result.error.BadRequest? && !o.rollbackOnly ==>
      r == (o.result, o.store)
  {
    if o.result.Err? && !(commitOnBadRequest && o.result.error.BadRequest?) then (o.result, RolledBack(before, o.store))
    else if o.rollbackOnly then (Err(UnexpectedRollback), RolledBack(before, o.store))
    else (o.result, o.store)
  }

  /** Rolling back to a valid state keeps the store valid, and keeps every
    * session bound, since the counters only advanced. */
  lemma RolledBackValid(before: Store, after: Store)
    requires StoreValid(before)
    requires CountersAdvanced(before, after)
    requires PermissionRepository.NamesUnique(after.perms)
    ensures StoreValid(RolledBack(before, after))
    ensures SessionsBound(before) ==> SessionsBound(RolledBack(before, after))
  {
  }
}
