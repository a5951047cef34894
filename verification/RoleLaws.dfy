/**
 What each event of a context's own members does, in terms of the roles its author
 and its member have: exactly when it counts, and what changes then.
 */
module RoleLaws {
  import opened Options
  import opened ContextRoles

  predicate IsOwner(t: Registry, m: Member) {
    RoleOf(t, m) == Some(OWNER)
  }

  predicate IsAdmin(t: Registry, m: Member) {
    RoleOf(t, m) == Some("admin")
  }

  /** Owners and admins change who writes, and index. */
  lemma WritesByRole(t: Registry, m: Member)
    requires TableOk(t)
    ensures Can(Some(t), m, "context.write") <==> IsOwner(t, m) || IsAdmin(t, m)
    ensures Can(Some(t), m, INDEX) <==> IsOwner(t, m) || IsAdmin(t, m)
  {
    CanByRole(t, m);
    assert t.roles["admin"] == ["mod.add", "mod.remove", "content.remove", "content.hide", "content.reveal",
      "context.write", "context.index"];
    assert t.roles["admin"][5] == "context.write" && t.roles["owner"] == ["*"] && t.roles["owner"][0] == "*";
    assert t.roles["mod"] == ["content.hide", "content.remove", "content.flag"] && t.roles["member"] == [];
    assert "content.hide"[8] == 'h' && "content.remove"[8] == 'r' && "content.flag"[8] == 'f' &&
      "context.write"[5] == 'x' && "content.hide"[5] == 'n' && "content.remove"[5] == 'n' && "content.flag"[5] == 'n';
    assert "*"[0] == '*' && "content.hide"[0] == 'c' && "content.remove"[0] == 'c' && "content.flag"[0] == 'c';
  }

  /** Who may set a member's role: owners, but not away from their own ownership, and admins below their rank. */
  predicate MayGive(t: Registry, author: Member, m: Member, role: string) {
    || (IsOwner(t, author) && !(author == m && role != OWNER))
    || (IsAdmin(t, author) && RoleOf(t, m) in {None, Some("mod"), Some("member")} && role in {"", "mod", "member"})
  }

  lemma AssignsByRole(t: Registry, author: Member, m: Member, role: string)
    requires TableOk(t)
    ensures MayAssign(Some(t), author, m, role) <==> MayGive(t, author, m, role)
  {
    CanByRole(t, author);
    hide Can;
  }

  /**
   Whoever has no role has the rights of the role "member", whatever the table gives
   it; nobody has any without a name.
   */
  lemma NoRoleIsMember(t: Registry, m: Member, other: Member, action: string)
    requires m != "" && other != "" && RoleOf(t, m).None? && RoleOf(t, other) == Some("member")
    ensures Can(Some(t), m, action) == Can(Some(t), other, action)
    ensures !Can(Some(t), "", action) && !Can(None, m, action)
  {
  }

  /** An event of version 3 that this peer applies. */
  ghost predicate Applies(env: Env, s: State, optimistic: bool) {
    Inv(s) && s.table.Some? && !Refused(env, RecordOf(s)) && !optimistic
  }

  /** The member indexes now and would not, and one of its writers is the only indexer. */
  predicate LastIndexerOf(s: State, t: Registry, m: Member, role: string) {
    && (IsOwner(t, m) || IsAdmin(t, m)) && role != OWNER && role != "admin"
    && exists k | k in WritersOf(s, m) :: Indexers(s.host) == {k}
  }

  /**
   A role is given exactly when the event is signed by one who may and no writer of
   the member is then the last indexer lost. Then that member's role changes, and no
   other's, and its writers index if the new role does.
   */
  lemma RoleGiven(env: Env, s: State, e: Event)
    requires Applies(env, s, false) && e.Role?
    ensures
      var t, next := s.table.value, Step(env, s, e, false);
      if e.signed && e.member != "" && MayGive(t, e.author, e.member, e.role) && !LastIndexerOf(s, t, e.member, e.role)
      then
        && next.table.Some?
        && RoleOf(next.table.value, e.member) == (if e.role == "" then None else Some(e.role))
        && (forall m :: m != e.member ==> RoleOf(next.table.value, m) == RoleOf(t, m))
        && forall k :: Indexes(next, k) <==>
             if k in WritersOf(s, e.member) &&
               (IsOwner(t, e.member) || IsAdmin(t, e.member)) != (e.role == OWNER || e.role == "admin")
             then e.role == OWNER || e.role == "admin"
             else Indexes(s, k)
      else next == s
  {
    AppliesTable(env, s);
    hide Inv, Can, Refused, MayAssign, MayGive, TableOk, Applies, LastIndexerOf, ApplyRole, Indexes;
    var t := s.table.value;
    AssignsByRole(t, e.author, e.member, e.role);
    if Assigns(s, e) {
      AssignedRoles(t, e.author, e.member, e.role);
      RoleApplied(s, e);
      if !LastIndexerOf(s, t, e.member, e.role) {
        WritersIndex(s, e);
      }
    } else {
      NotAssigned(s, e);
    }
  }

  lemma NotAssigned(s: State, e: Event)
    requires e.Role? && !Assigns(s, e)
    ensures ApplyRole(s, e) == s
  {
    hide Assigns;
  }

  /** The table once the role is given. */
  lemma AssignedRoles(t: Registry, author: Member, m: Member, role: string)
    requires TableOk(t) && m != "" && MayAssign(Some(t), author, m, role)
    ensures
      var next := Assigned(t, m, role);
      && RoleOf(next, m) == (if role == "" then None else Some(role))
      && (forall m' :: m' != m ==> RoleOf(next, m') == RoleOf(t, m'))
      && (Can(Some(t), m, INDEX) <==> IsOwner(t, m) || IsAdmin(t, m))
      && (Can(Some(next), m, INDEX) <==> role == OWNER || role == "admin")
  {
    hide Can, MayAssign, TableOk;
    AssignedOk(t, author, m, role);
    WritesByRole(t, m);
    WritesByRole(Assigned(t, m, role), m);
  }

  lemma RoleApplied(s: State, e: Event)
    requires e.Role? && s.table.Some? && Assigns(s, e)
    requires Can(s.table, e.member, INDEX) <==> IsOwner(s.table.value, e.member) || IsAdmin(s.table.value, e.member)
    requires Can(Some(Assigned(s.table.value, e.member, e.role)), e.member, INDEX) <==>
             e.role == OWNER || e.role == "admin"
    ensures
      var t := s.table.value;
      if LastIndexerOf(s, t, e.member, e.role) then ApplyRole(s, e) == s
      else ApplyRole(s, e) == s.(table := Some(Assigned(t, e.member, e.role)), host := NextHost(s, e))
  {
    hide Can, Assigns, Assigned, AllAdded, RoleOf, WritersOf;
    if LastIndexerOf(s, s.table.value, e.member, e.role) {
      var k :| k in WritersOf(s, e.member) && Indexers(s.host) == {k};
      assert !Removeable(s.host, k);
    }
  }

  function NextHost(s: State, e: Event): Host
    requires e.Role? && s.table.Some?
  {
    var before := IsOwner(s.table.value, e.member) || IsAdmin(s.table.value, e.member);
    var after := e.role == OWNER || e.role == "admin";
    AllAdded(s.host, if before == after then {} else WritersOf(s, e.member), after)
  }

  lemma WritersIndex(s: State, e: Event)
    requires e.Role? && s.table.Some?
    ensures
      var t, next := s.table.value, s.(table := Some(Assigned(s.table.value, e.member, e.role)),
        host := NextHost(s, e));
      forall k :: Indexes(next, k) <==>
        if k in WritersOf(s, e.member) &&
          (IsOwner(t, e.member) || IsAdmin(t, e.member)) != (e.role == OWNER || e.role == "admin")
        then e.role == OWNER || e.role == "admin"
        else Indexes(s, k)
  {
    hide RoleOf, WritersOf, Assigned;
  }

  lemma AppliesTable(env: Env, s: State)
    requires Applies(env, s, false)
    ensures TableOk(s.table.value) && RecordOf(s).version == 3
    ensures s.invites != map[] ==> s.table.Some?
  {
  }

  // --- invites ---

  /** The role an invite asks for. */
  function InvitedRole(e: Event): string
    requires e.Mint?
  {
    if e.role == "" then "member" else e.role
  }

  /** An invite's key, and a signature on it. */
  predicate Invites(e: Event) {
    e.Mint? && |e.inviteKey| == 64 && e.signed
  }

  /**
   An invite is minted exactly when it is signed by one who may give its role, is no
   owner's, is not there yet and asks for no scope or a proper one; then it is as
   asked, and nothing else changes.
   */
  lemma InviteMinted(env: Env, s: State, e: Event)
    requires Applies(env, s, false) && e.Mint? && e.uses != 0
    ensures
      var role, next := InvitedRole(e), Step(env, s, e, false);
      if Invites(e) && e.inviteKey !in s.invites && role != OWNER && !e.asked.BadScope? &&
        (IsOwner(s.table.value, e.author) || (IsAdmin(s.table.value, e.author) && role in {"mod", "member"}))
      then
        next == s.(invites := s.invites[e.inviteKey :=
          Invite(role, e.uses, 0, false, e.author, if e.asked.Asks? then Some(e.asked.scope) else None)])
      else next == s
  {
    AppliesTable(env, s);
    hide Inv, Can, Refused, MayAssign, TableOk, Applies;
    AssignsByRole(s.table.value, e.author, "", InvitedRole(e));
    NobodyHasARole(env, s);
  }

  lemma NobodyHasARole(env: Env, s: State)
    requires Applies(env, s, false)
    ensures RoleOf(s.table.value, "").None? && !IsOwner(s.table.value, "")
  {
  }

  /**
   It is revoked exactly by its minter, an owner, or an admin where its role is
   minor; and stays so, the rest as it was.
   */
  lemma InviteRevoked(env: Env, s: State, e: Event)
    requires Applies(env, s, false) && e.Mint? && e.uses == 0
    ensures
      var next := Step(env, s, e, false);
      if Invites(e) && e.inviteKey in s.invites &&
        (s.invites[e.inviteKey].author == e.author || IsOwner(s.table.value, e.author) ||
         (IsAdmin(s.table.value, e.author) && s.invites[e.inviteKey].role in {"mod", "member"}))
      then next == s.(invites := s.invites[e.inviteKey := s.invites[e.inviteKey].(revoked := true)])
      else next == s
  {
    AppliesTable(env, s);
    InvitesOk(env, s);
    if e.inviteKey in s.invites {
      AssignsByRole(s.table.value, e.author, "", s.invites[e.inviteKey].role);
    }
    NobodyHasARole(env, s);
    hide Inv, Can, Refused, MayAssign, TableOk, Applies;
  }

  lemma InvitesOk(env: Env, s: State)
    requires Applies(env, s, false)
    ensures forall k :: k in s.invites ==> s.invites[k].role != OWNER && s.invites[k].role != ""
  {
  }

  /** The role a member has once it redeemed: the one it had, or the invite's. */
  function RoleAfter(s: State, e: Event): string
    requires e.Redeem? && s.table.Some? && e.inviteKey in s.invites
  {
    var before := RoleOf(s.table.value, e.member);
    if before.Some? then before.value else s.invites[e.inviteKey].role
  }

  /**
   A redemption counts exactly for the writer that sent it, of a member who proved
   the invite's secret, while the invite is not revoked and has uses left: then one
   more use, the role if it had none, the writer linked and indexing as the role
   says, and the scope asked for. Nobody else's role, link or writer changes.
   */
  lemma InviteRedeemed(env: Env, s: State, e: Event, optimistic: bool)
    requires Applies(env, s, false) && e.Redeem?
    ensures
      var next := Step(env, s, e, optimistic);
      if e.key == e.sender && e.member != "" && e.proven && e.inviteKey in s.invites &&
        !s.invites[e.inviteKey].revoked && s.invites[e.inviteKey].used < s.invites[e.inviteKey].uses
      then
        var invite := s.invites[e.inviteKey];
        var role := RoleAfter(s, e);
        && next.invites == s.invites[e.inviteKey := invite.(used := invite.used + 1)]
        && next.table.Some? && RoleOf(next.table.value, e.member) == Some(role)
        && (forall m :: m != e.member ==> RoleOf(next.table.value, m) == RoleOf(s.table.value, m))
        && next.memberOf == s.memberOf[e.key := e.member]
        && next.writersOf == s.writersOf[e.member := WritersOf(s, e.member) + {e.key}]
        && next.host.writers == s.host.writers[e.key := role == OWNER || role == "admin"]
        && next.host.acked == s.host.acked + (if optimistic then {e.key} else {})
        && next.requests ==
           (if invite.scope.Some? && e.encryptionKey.Some? then
              s.requests[(e.member, invite.scope.value.scope) :=
                Request(invite.scope.value, e.encryptionKey.value, invite.author)]
            else s.requests)
        && next.record == s.record && next.host.interrupted == s.host.interrupted
      else next == s
  {
    AppliesTable(env, s);
    InvitesOk(env, s);
    if Redeems(s, e) {
      JoinedRoles(s.table.value, e.member, s.invites[e.inviteKey].role);
    }
    hide Inv, Can, Refused, TableOk, Applies, JoinedTable, RoleOf;
  }

  lemma JoinedRoles(t: Registry, m: Member, role: string)
    requires TableOk(t) && m != "" && role != ""
    ensures
      var next, now := JoinedTable(t, m, role), if RoleOf(t, m).Some? then RoleOf(t, m).value else role;
      && RoleOf(next, m) == Some(now)
      && (forall m' :: m' != m ==> RoleOf(next, m') == RoleOf(t, m'))
      && (Can(Some(next), m, INDEX) <==> now == OWNER || now == "admin")
  {
    hide Can, TableOk;
    JoinedOk(t, m, role);
    WritesByRole(JoinedTable(t, m, role), m);
  }

  // --- writers ---

  /** In a closed context only owners and admins change who writes; in an open one anybody. */
  ghost predicate MayWrite(env: Env, s: State, author: Member, signed: bool)
    requires s.table.Some?
  {
    env.closed ==> signed && (IsOwner(s.table.value, author) || IsAdmin(s.table.value, author))
  }

  /** A writer added for a member is linked to it and indexes as its role says; one of nobody does not index. */
  lemma WriterAdded(env: Env, s: State, e: Event)
    requires Applies(env, s, false) && e.Writer?
    ensures
      var t, next := s.table.value, Step(env, s, e, false);
      if e.key != "" && e.signed && MayWrite(env, s, e.author, true) then
        && next.host ==
           s.host.(writers := s.host.writers[e.key := e.member != "" && (IsOwner(t, e.member) || IsAdmin(t, e.member))])
        && (if e.member == "" then next == s.(host := next.host)
            else next == Linked(s, e.key, e.member).(host := next.host))
        && (forall m, k :: k in WritersOf(next, m) <==>
             k in WritersOf(s, m) || (e.member != "" && m == e.member && k == e.key))
      else next == s
  {
    AppliesTable(env, s);
    WritesByRole(s.table.value, e.author);
    WritesByRole(s.table.value, e.member);
    hide Inv, Can, Refused, TableOk, Applies, RoleOf;
  }

  /** Writers added by other events never index in version 3; a removal goes through but for the last indexer. */
  lemma WritersChanged(env: Env, s: State, e: Event)
    requires Applies(env, s, false) && (e.AddWriter? || e.RolesAdd? || e.RolesRemove?)
    ensures
      var next := Step(env, s, e, false);
      if e.AddWriter? then
        next == if env.closed then s else s.(host := s.host.(writers := s.host.writers[e.key := false]))
      else if !MayWrite(env, s, e.author, e.signed) then next == s
      else if e.RolesAdd? then next == s.(host := s.host.(writers := s.host.writers[e.key := false]))
      else if Indexers(s.host) == {e.key} then next == s
      else next == s.(host := s.host.(writers := s.host.writers - {e.key}))
  {
    AppliesTable(env, s);
    if !e.AddWriter? {
      WritesByRole(s.table.value, e.author);
    }
    hide Inv, Can, Refused, TableOk, Applies, RoleOf;
  }

  /** Before version 3 the library's other registry answers, and a writer added in version 1 indexes. */
  lemma WritersChangedBefore(env: Env, s: State, e: Event)
    requires Inv(s) && !Refused(env, RecordOf(s)) && RecordOf(s).version != 3
    requires e.RolesAdd? || e.RolesRemove?
    ensures s.invites == map[]
    ensures
      var next := Step(env, s, e, false);
      if env.closed && !(e.signed && e.granted) then next == s
      else if e.RolesAdd? then
        next == s.(host := s.host.(writers := s.host.writers[e.key := RecordOf(s).version == 1]))
      else if Indexers(s.host) == {e.key} then next == s
      else next == s.(host := s.host.(writers := s.host.writers - {e.key}))
  {
    hide Refused;
  }

  // --- opening and converting ---

  /** The creator's first record counts and no other; it opens a role table if it is one this peer can apply. */
  lemma Opened(env: Env, s: State, e: Event, optimistic: bool)
    requires Inv(s) && e.Init?
    ensures s.invites != map[] ==> s.table.Some?
    ensures
      var next := Step(env, s, e, optimistic);
      if e.opener == env.creator && s.record.None? then
        var refused := e.version !in {1, 2, 3} || e.rules != env.rules ||
          (e.layout.Some? && e.layout.value > 2);
        && next.record == Some(Record(e.version, e.rules, if e.owner == "" then None else Some(e.owner),
             if e.layout == Some(2) || (e.layout.Some? && e.layout.value > 2) then e.layout.value else 1))
        && next.host == s.host.(interrupted := s.host.interrupted || refused)
        && next.invites == s.invites && next.requests == s.requests
        && (if refused || e.version != 3 || e.owner == "" then
              next.table == s.table && next.memberOf == s.memberOf && next.writersOf == s.writersOf
            else
              && next.table.Some?
              && (forall m :: RoleOf(next.table.value, m) == if m == e.owner then Some(OWNER) else None)
              && next.memberOf == s.memberOf[env.creator := e.owner]
              && next.writersOf == s.writersOf[e.owner := WritersOf(s, e.owner) + {env.creator}])
      else next == s
  {
  }

  /** The creator converts an older context: it is its one member, and no other writer indexes any more. */
  lemma Converted(env: Env, s: State, e: Event, optimistic: bool)
    requires Inv(s) && e.Upgrade?
    ensures s.invites != map[] ==> s.table.Some?
    ensures
      var next := Step(env, s, e, optimistic);
      if e.opener == env.creator && e.version == 3 && e.owner != "" && RecordOf(s).version in {1, 2} then
        && next.record == Some(RecordOf(s).(version := 3, owner := Some(e.owner)))
        && next.table.Some? && (forall m :: RoleOf(next.table.value, m) == if m == e.owner then Some(OWNER) else None)
        && next.memberOf == map[env.creator := e.owner] && next.writersOf == map[e.owner := {env.creator}]
        && next.host.writers.Keys == s.host.writers.Keys
        && (forall k :: Indexes(next, k) <==> k == env.creator && Indexes(s, k))
        && next.invites == s.invites && next.requests == s.requests
        && next.host.acked == s.host.acked && next.host.interrupted == s.host.interrupted
      else next == s
  {
    hide Refused;
    if e.opener == env.creator && e.version == 3 && e.owner != "" && RecordOf(s).version in {1, 2} {
      var next := Step(env, s, e, optimistic);
      assert WritersOf(s, e.owner) == {} && {} + {env.creator} == {env.creator};
      assert next.writersOf == s.writersOf[e.owner := {env.creator}];
    }
  }
}
