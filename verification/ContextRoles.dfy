/**
 A version 3 context's own members (src/context-base.js, src/roles-registry.js):
 the role table, the writers linked to members, and role invites, as every peer
 applies them from the context's log. Signatures are verified elsewhere: an
 event says whether its own held.
 */
module ContextRoles {
  import opened Options

  type Key = string
  type Member = string

  datatype Registry = Registry(roles: map<string, seq<string>>, members: map<Member, string>)

  datatype Record = Record(version: int, rules: string, owner: Option<Member>, layout: nat)

  datatype Scope = Scope(scope: string, scopeBase: string, roleBase: string)

  datatype Invite = Invite(role: string, uses: int, used: nat, revoked: bool, author: Member, scope: Option<Scope>)

  /** What a redemption leaves for a holder of the scope's key. */
  datatype Request = Request(scope: Scope, encryptionKey: string, minter: Member)

  /** The library's side: the writers, each an indexer or not, those acknowledged, and whether apply was stopped. */
  datatype Host = Host(writers: map<Key, bool>, acked: set<Key>, interrupted: bool)

  datatype State = State(
    record: Option<Record>, table: Option<Registry>, memberOf: map<Key, Member>, writersOf: map<Member, set<Key>>,
    invites: map<string, Invite>, requests: map<(Member, string), Request>, host: Host)

  datatype Asked = NoScope | BadScope | Asks(scope: Scope)

  datatype Event =
    | Init(opener: Key, version: int, rules: string, owner: Member, layout: Option<nat>)
    | Upgrade(opener: Key, version: int, owner: Member)
    | AddWriter(key: Key)
    | Writer(key: Key, member: Member, author: Member, signed: bool)
    | Role(member: Member, role: string, author: Member, signed: bool)
    | RolesAdd(key: Key, author: Member, signed: bool, granted: bool)
    | RolesRemove(key: Key, author: Member, signed: bool, granted: bool)
    | Mint(inviteKey: string, uses: int, role: string, author: Member, signed: bool, asked: Asked)
    | Redeem(inviteKey: string, sender: Key, key: Key, member: Member, proven: bool, encryptionKey: Option<string>)

  /** What this peer runs with: writeMode, its rules, the context's key (its creator's writer). */
  datatype Env = Env(closed: bool, rules: string, creator: Key)

  // --- the role registry ---

  const OWNER := "owner"
  const INDEX := "context.index"

  const DEFAULT_ROLES: map<string, seq<string>> := map[
    "owner" := ["*"],
    "admin" := ["mod.add", "mod.remove", "content.remove", "content.hide", "content.reveal", "context.write",
      "context.index"],
    "mod" := ["content.hide", "content.remove", "content.flag"],
    "member" := []
  ]

  function DefaultTable(owner: Member): Registry {
    Registry(DEFAULT_ROLES, map[owner := OWNER])
  }

  function RoleOf(t: Registry, m: Member): Option<string> {
    if m in t.members && t.members[m] != "" then Some(t.members[m]) else None
  }

  predicate Can(table: Option<Registry>, m: Member, action: string) {
    table.Some? && m != "" &&
    var role := RoleOf(table.value, m);
    (role.Some? || "member" in table.value.roles) &&
    var name := if role.Some? then role.value else "member";
    name in table.value.roles && ("*" in table.value.roles[name] || action in table.value.roles[name])
  }

  function WithRole(t: Registry, m: Member, role: string): Registry {
    t.(members := t.members[m := role])
  }

  function WithoutMember(t: Registry, m: Member): Registry {
    t.(members := t.members - {m})
  }

  predicate Minor(role: string) {
    role == "mod" || role == "member"
  }

  /** Whether `author` may set `m`'s role to `role` ("": remove it). */
  predicate MayAssign(table: Option<Registry>, author: Member, m: Member, role: string) {
    table.Some? &&
    var current := RoleOf(table.value, m);
    if Can(table, author, "*") then !(m == author && current == Some(OWNER) && role != OWNER)
    else if role == "" then (current.None? || Minor(current.value)) && Can(table, author, "mod.remove")
    else Minor(role) && (current.None? || Minor(current.value)) && Can(table, author, "mod.add")
  }

  // --- the library's side ---

  function Indexers(h: Host): set<Key> {
    set k | k in h.writers && h.writers[k]
  }

  /** Whether a writer can go: not the last indexer. */
  predicate Removeable(h: Host, k: Key) {
    Indexers(h) != {k}
  }

  function Added(h: Host, k: Key, indexer: bool): Host {
    h.(writers := h.writers[k := indexer])
  }

  function AllAdded(h: Host, keys: set<Key>, indexer: bool): Host {
    h.(writers := map k | k in h.writers.Keys + keys :: if k in keys then indexer else h.writers[k])
  }

  function Removed(h: Host, k: Key): Host {
    if Removeable(h, k) then h.(writers := h.writers - {k}) else h
  }

  // --- one event ---

  predicate Refused(env: Env, r: Record) {
    r.version !in {1, 2, 3} || r.layout !in {1, 2} || r.rules != env.rules
  }

  function RecordOf(s: State): Record {
    if s.record.Some? then s.record.value else Record(1, "", None, 1)
  }

  function WritersOf(s: State, m: Member): set<Key> {
    if m in s.writersOf then s.writersOf[m] else {}
  }

  function Linked(s: State, k: Key, m: Member): State {
    s.(memberOf := s.memberOf[k := m], writersOf := s.writersOf[m := WritersOf(s, m) + {k}])
  }

  function RolesStarted(s: State, owner: Member, creator: Key): State {
    Linked(s.(table := Some(DefaultTable(owner))), creator, owner)
  }

  function InitRecord(e: Event): Record
    requires e.Init?
  {
    Record(e.version, e.rules, if e.owner == "" then None else Some(e.owner),
      if e.layout.Some? && e.layout.value != 0 then e.layout.value else 1)
  }

  function ApplyInit(env: Env, s: State, e: Event): State
    requires e.Init?
  {
    var record := InitRecord(e);
    if e.opener != env.creator || s.record.Some? then s
    else if Refused(env, record) then s.(record := Some(record), host := s.host.(interrupted := true))
    else if record.version == 3 && record.owner.Some? then
      RolesStarted(s.(record := Some(record)), record.owner.value, env.creator)
    else s.(record := Some(record))
  }

  predicate Upgrades(env: Env, s: State, e: Event)
    requires e.Upgrade?
  {
    e.opener == env.creator && e.version == 3 && e.owner != "" && RecordOf(s).version in {1, 2}
  }

  function ApplyUpgrade(env: Env, s: State, e: Event): State
    requires e.Upgrade?
  {
    if !Upgrades(env, s, e) then s
    else
      var started := RolesStarted(s.(record := Some(RecordOf(s).(version := 3, owner := Some(e.owner)))), e.owner,
        env.creator);
      started.(host := AllAdded(s.host, Indexers(s.host) - {env.creator}, false))
  }

  predicate AddsWriter(env: Env, s: State, e: Event)
    requires e.Writer?
  {
    RecordOf(s).version == 3 && e.key != "" && e.signed && (env.closed ==> Can(s.table, e.author, "context.write"))
  }

  function ApplyWriter(env: Env, s: State, e: Event): State
    requires e.Writer?
  {
    if !AddsWriter(env, s, e) then s
    else if e.member == "" then s.(host := Added(s.host, e.key, false))
    else Linked(s, e.key, e.member).(host := Added(s.host, e.key, Can(s.table, e.member, INDEX)))
  }

  predicate Assigns(s: State, e: Event)
    requires e.Role?
  {
    RecordOf(s).version == 3 && e.member != "" && e.signed && MayAssign(s.table, e.author, e.member, e.role)
  }

  function Assigned(t: Registry, m: Member, role: string): Registry {
    if role == "" then WithoutMember(t, m) else WithRole(t, m, role)
  }

  function ApplyRole(s: State, e: Event): State
    requires e.Role?
  {
    if !Assigns(s, e) then s
    else
      var next := Some(Assigned(s.table.value, e.member, e.role));
      var before, after := Can(s.table, e.member, INDEX), Can(next, e.member, INDEX);
      var writers := if before == after then {} else WritersOf(s, e.member);
      if before && !after && exists k | k in writers :: !Removeable(s.host, k) then s
      else s.(table := next, host := AllAdded(s.host, writers, after))
  }

  function ApplyMint(s: State, e: Event): State
    requires e.Mint?
  {
    if RecordOf(s).version != 3 || |e.inviteKey| != 64 || !e.signed then s
    else if e.uses == 0 then
      if e.inviteKey !in s.invites then s
      else
        var invite := s.invites[e.inviteKey];
        if invite.author != e.author && !MayAssign(s.table, e.author, "", invite.role) then s
        else s.(invites := s.invites[e.inviteKey := invite.(revoked := true)])
    else
      var role := if e.role == "" then "member" else e.role;
      if e.inviteKey in s.invites || role == OWNER || !MayAssign(s.table, e.author, "", role) ||
        e.asked.BadScope? then s
      else
        var scope := if e.asked.Asks? then Some(e.asked.scope) else None;
        s.(invites := s.invites[e.inviteKey := Invite(role, e.uses, 0, false, e.author, scope)])
  }

  predicate Redeems(s: State, e: Event)
    requires e.Redeem?
  {
    && RecordOf(s).version == 3 && e.key == e.sender && e.member != "" && e.inviteKey in s.invites
    && !s.invites[e.inviteKey].revoked && s.invites[e.inviteKey].used < s.invites[e.inviteKey].uses && e.proven
  }

  /** The table a redemption leaves: an invite never changes a role one already has. */
  function JoinedTable(t: Registry, m: Member, role: string): Registry {
    if RoleOf(t, m).Some? then t else WithRole(t, m, role)
  }

  function ApplyRedeem(s: State, e: Event, optimistic: bool): State
    requires e.Redeem?
    requires s.invites != map[] ==> s.table.Some?
  {
    if !Redeems(s, e) then s
    else
      var invite := s.invites[e.inviteKey];
      var table := Some(JoinedTable(s.table.value, e.member, invite.role));
      var linked := Linked(s.(invites := s.invites[e.inviteKey := invite.(used := invite.used + 1)], table := table),
        e.key, e.member);
      var acked := if optimistic then s.host.(acked := s.host.acked + {e.key}) else s.host;
      var asks := invite.scope.Some? && e.encryptionKey.Some?;
      linked.(
        requests :=
          if asks then
            s.requests[(e.member, invite.scope.value.scope) :=
              Request(invite.scope.value, e.encryptionKey.value, invite.author)]
          else s.requests,
        host := Added(acked, e.key, Can(table, e.member, INDEX)))
  }

  /**
   Whether a writer added or removed outside the role table counts: open contexts
   need no right; before version 3 another registry answers.
   */
  predicate MayChangeWriters(env: Env, s: State, author: Member, signed: bool, granted: bool) {
    env.closed ==> signed && if RecordOf(s).version == 3 then Can(s.table, author, "context.write") else granted
  }

  function AddedByRoles(env: Env, s: State, e: Event): State
    requires e.RolesAdd?
  {
    if MayChangeWriters(env, s, e.author, e.signed, e.granted) then
      s.(host := Added(s.host, e.key, RecordOf(s).version == 1)) else s
  }

  function RemovedByRoles(env: Env, s: State, e: Event): State
    requires e.RolesRemove?
  {
    if MayChangeWriters(env, s, e.author, e.signed, e.granted) then s.(host := Removed(s.host, e.key)) else s
  }

  function Step(env: Env, s: State, e: Event, optimistic: bool): State
    requires s.invites != map[] ==> s.table.Some?
  {
    if e.Init? then ApplyInit(env, s, e)
    else if e.Upgrade? then ApplyUpgrade(env, s, e)
    else if Refused(env, RecordOf(s)) then s.(host := s.host.(interrupted := true))
    else if optimistic && !e.Redeem? then s
    else match e
      case Mint(_, _, _, _, _, _) => ApplyMint(s, e)
      case Redeem(_, _, _, _, _, _) => ApplyRedeem(s, e, optimistic)
      case AddWriter(key) => if env.closed then s else s.(host := Added(s.host, key, RecordOf(s).version == 1))
      case Writer(_, _, _, _) => ApplyWriter(env, s, e)
      case Role(_, _, _, _) => ApplyRole(s, e)
      case RolesAdd(_, _, _, _) => AddedByRoles(env, s, e)
      case RolesRemove(_, _, _, _) => RemovedByRoles(env, s, e)
  }

  // --- applying it in place ---

  class Context {
    const env: Env
    var record: Option<Record>
    var table: Option<Registry>
    var memberOf: map<Key, Member>
    var writersOf: map<Member, set<Key>>
    var invites: map<string, Invite>
    var requests: map<(Member, string), Request>
    var host: Host

    ghost function Now(): State
      reads this
    {
      State(record, table, memberOf, writersOf, invites, requests, host)
    }

    constructor (env: Env, host: Host)
      ensures this.env == env && Now() == Start(host)
    {
      this.env, this.host, record, table := env, host, None, None;
      memberOf, writersOf, invites, requests := map[], map[], map[], map[];
    }

    // The record, or a version 1 context's if there is none.
    method CurrentRecord() returns (r: Record)
      ensures r == RecordOf(Now())
    {
      r := if record.Some? then record.value else Record(1, "", None, 1);
    }

    method LinkWriter(key: Key, member: Member)
      modifies this`memberOf, this`writersOf
      ensures Now() == Linked(old(Now()), key, member)
    {
      memberOf := memberOf[key := member];
      var keys := if member in writersOf then writersOf[member] else {};
      writersOf := writersOf[member := keys + {key}];
    }

    method StartRoleTable(owner: Member)
      modifies this`table, this`memberOf, this`writersOf
      ensures Now() == RolesStarted(old(Now()), owner, env.creator)
    {
      table := Some(DefaultTable(owner));
      LinkWriter(env.creator, owner);
    }

    method AddWriter(key: Key, indexer: bool)
      modifies this`host
      ensures Now() == old(Now()).(host := Added(old(host), key, indexer))
    {
      host := host.(writers := host.writers[key := indexer]);
    }

    // host.addWriter for each of them.
    method AddWriters(keys: set<Key>, indexer: bool)
      modifies this`host
      ensures Now() == old(Now()).(host := AllAdded(old(host), keys, indexer))
    {
      hide Added;
      var todo := keys;
      ghost var was := host;
      EachAdded(was, keys, {}, indexer);
      while todo != {}
        invariant todo <= keys
        invariant host == AllAdded(was, keys - todo, indexer)
        invariant Now() == old(Now()).(host := host)
      {
        var key :| key in todo;
        EachAdded(was, keys, keys - todo, indexer);
        assert keys - (todo - {key}) == (keys - todo) + {key};
        AddWriter(key, indexer);
        todo := todo - {key};
      }
      assert keys - todo == keys;
    }

    method ApplyContextInit(e: Event)
      requires e.Init?
      modifies this
      ensures Now() == ApplyInit(env, old(Now()), e)
    {
      if e.opener != env.creator || record.Some? {
        return;
      }
      var r := InitRecord(e);
      record := Some(r);
      if Refused(env, r) {
        host := host.(interrupted := true);
        return;
      }
      if r.version == 3 && r.owner.Some? {
        StartRoleTable(r.owner.value);
      }
    }

    method ApplyContextUpgrade(e: Event)
      requires e.Upgrade?
      modifies this
      ensures Now() == ApplyUpgrade(env, old(Now()), e)
    {
      var current := CurrentRecord();
      if e.opener != env.creator || e.version != 3 || e.owner == "" || current.version !in {1, 2} {
        return;
      }
      record := Some(current.(version := 3, owner := Some(e.owner)));
      StartRoleTable(e.owner);
      AddWriters((set k | k in host.writers && host.writers[k] && k != env.creator), false);
      assert Indexers(old(host)) - {env.creator} == set k | k in old(host).writers && old(host).writers[k] &&
        k != env.creator;
    }

    method ApplyContextWriter(e: Event)
      requires e.Writer?
      modifies this
      ensures Now() == ApplyWriter(env, old(Now()), e)
    {
      var current := CurrentRecord();
      if current.version != 3 || e.key == "" || !e.signed || (env.closed && !Can(table, e.author, "context.write")) {
        return;
      }
      if e.member != "" {
        LinkWriter(e.key, e.member);
      }
      AddWriter(e.key, e.member != "" && Can(table, e.member, INDEX));
    }

    // Changes a member's role, then promotes or demotes their writers to match;
    // nothing if one of them is the last indexer.
    method ApplyContextRole(e: Event)
      requires e.Role?
      modifies this
      ensures Now() == ApplyRole(old(Now()), e)
    {
      hide MayAssign, Can, AllAdded, Removeable, Assigned;
      var current := CurrentRecord();
      if current.version != 3 || e.member == "" || !e.signed || !MayAssign(table, e.author, e.member, e.role) {
        return;
      }
      AssigningNeedsTable(table, e.author, e.member, e.role);
      var next := Some(Assigned(table.value, e.member, e.role));
      var before, after := Can(table, e.member, INDEX), Can(next, e.member, INDEX);
      var writers := {};
      if before != after {
        writers := if e.member in writersOf then writersOf[e.member] else {};
      }
      if before && !after {
        var todo := writers;
        while todo != {}
          invariant todo <= writers
          invariant forall k :: k in writers && k !in todo ==> Removeable(host, k)
        {
          var key :| key in todo;
          if !Removeable(host, key) {
            return;
          }
          todo := todo - {key};
        }
      }
      table := next;
      AddWriters(writers, after);
    }

    method ApplyContextInvite(e: Event)
      requires e.Mint?
      modifies this
      ensures Now() == ApplyMint(old(Now()), e)
    {
      var current := CurrentRecord();
      if current.version != 3 || |e.inviteKey| != 64 || !e.signed {
        return;
      }
      if e.uses == 0 {
        if e.inviteKey in invites {
          var invite := invites[e.inviteKey];
          if invite.author == e.author || MayAssign(table, e.author, "", invite.role) {
            invites := invites[e.inviteKey := invite.(revoked := true)];
          }
        }
        return;
      }
      var role := if e.role == "" then "member" else e.role;
      if e.inviteKey in invites || role == OWNER || !MayAssign(table, e.author, "", role) || e.asked.BadScope? {
        return;
      }
      invites := invites[e.inviteKey := Invite(role, e.uses, 0, false, e.author,
        if e.asked.Asks? then Some(e.asked.scope) else None)];
    }

    method ApplyContextRedeem(e: Event, optimistic: bool)
      requires e.Redeem? && (invites != map[] ==> table.Some?)
      modifies this
      ensures Now() == ApplyRedeem(old(Now()), e, optimistic)
    {
      hide Can, RoleOf, WithRole, Added, Linked;
      var current := CurrentRecord();
      if current.version != 3 || e.key != e.sender || e.member == "" || e.inviteKey !in invites {
        return;
      }
      var invite := invites[e.inviteKey];
      if invite.revoked || invite.used >= invite.uses || !e.proven {
        return;
      }
      invites := invites[e.inviteKey := invite.(used := invite.used + 1)];
      if RoleOf(table.value, e.member).None? {
        table := Some(WithRole(table.value, e.member, invite.role));
      }
      LinkWriter(e.key, e.member);
      if invite.scope.Some? && e.encryptionKey.Some? {
        requests := requests[(e.member, invite.scope.value.scope) :=
          Request(invite.scope.value, e.encryptionKey.value, invite.author)];
      }
      if optimistic {
        host := host.(acked := host.acked + {e.key});
      }
      AddWriter(e.key, Can(table, e.member, INDEX));
    }

    method ApplyRolesAdd(e: Event)
      requires e.RolesAdd?
      modifies this
      ensures Now() == AddedByRoles(env, old(Now()), e)
    {
      hide Can, Added;
      var current := CurrentRecord();
      if !env.closed || (e.signed && if current.version == 3 then Can(table, e.author, "context.write")
        else e.granted) {
        AddWriter(e.key, current.version == 1);
      }
    }

    method ApplyRolesRemove(e: Event)
      requires e.RolesRemove?
      modifies this
      ensures Now() == RemovedByRoles(env, old(Now()), e)
    {
      hide Can, Removed;
      var current := CurrentRecord();
      if !env.closed || (e.signed && if current.version == 3 then Can(table, e.author, "context.write")
        else e.granted) {
        host := Removed(host, e.key);
      }
    }

    // One event of the log.
    method Apply(e: Event, optimistic: bool)
      requires Inv(Now())
      modifies this
      ensures Now() == Step(env, old(Now()), e, optimistic) && Inv(Now())
    {
      hide ApplyInit, ApplyUpgrade, ApplyWriter, ApplyRole, ApplyMint, ApplyRedeem, AddedByRoles, RemovedByRoles,
        Can, Refused, Added, Inv;
      NeedsTable(Now());
      StepKeepsInv(env, Now(), e, optimistic);
      if e.Init? {
        ApplyContextInit(e);
        return;
      }
      if e.Upgrade? {
        ApplyContextUpgrade(e);
        return;
      }
      var current := CurrentRecord();
      if Refused(env, current) {
        host := host.(interrupted := true);
        return;
      }
      if optimistic && !e.Redeem? {
        return;
      }
      match e {
        case Mint(_, _, _, _, _, _) => ApplyContextInvite(e);
        case Redeem(_, _, _, _, _, _) => ApplyContextRedeem(e, optimistic);
        case AddWriter(key) =>
          if !env.closed {
            AddWriter(key, current.version == 1);
          }
        case Writer(_, _, _, _) => ApplyContextWriter(e);
        case Role(_, _, _, _) => ApplyContextRole(e);
        case RolesAdd(_, _, _, _) => ApplyRolesAdd(e);
        case RolesRemove(_, _, _, _) => ApplyRolesRemove(e);
      }
    }
  }

  function Start(host: Host): State {
    State(None, None, map[], map[], map[], map[], host)
  }

  lemma EachAdded(h: Host, keys: set<Key>, done: set<Key>, indexer: bool)
    requires done <= keys
    ensures AllAdded(h, {}, indexer) == h
    ensures forall k :: k in keys ==> Added(AllAdded(h, done, indexer), k, indexer) == AllAdded(h, done + {k}, indexer)
  {
    hide AllAdded, Added;
    NoneAdded(h, indexer);
    forall k | k in keys
      ensures Added(AllAdded(h, done, indexer), k, indexer) == AllAdded(h, done + {k}, indexer)
    {
      OneAdded(h, done, k, indexer);
    }
  }

  lemma NoneAdded(h: Host, indexer: bool)
    ensures AllAdded(h, {}, indexer) == h
  {
    assert AllAdded(h, {}, indexer).writers == h.writers;
  }

  lemma OneAdded(h: Host, done: set<Key>, k: Key, indexer: bool)
    ensures Added(AllAdded(h, done, indexer), k, indexer) == AllAdded(h, done + {k}, indexer)
  {
    assert Added(AllAdded(h, done, indexer), k, indexer).writers == AllAdded(h, done + {k}, indexer).writers;
  }

  lemma AssigningNeedsTable(table: Option<Registry>, author: Member, m: Member, role: string)
    requires MayAssign(table, author, m, role)
    ensures table.Some?
  {
  }

  // --- what every run keeps ---

  /** A table has the default roles, each member has one, and one of them is an owner. */
  ghost predicate TableOk(t: Registry) {
    && t.roles == DEFAULT_ROLES
    && (forall m :: m in t.members ==> m != "" && t.members[m] != "")
    && exists m :: m in t.members && t.members[m] == OWNER
  }

  ghost predicate InviteOk(i: Invite) {
    i.role != OWNER && i.role != "" && (i.used == 0 || i.used <= i.uses)
  }

  ghost predicate Inv(s: State) {
    && (s.table.Some? ==> RecordOf(s).version == 3 && TableOk(s.table.value))
    && (s.invites != map[] ==> s.table.Some?)
    && (RecordOf(s).version != 3 ==> s.memberOf == map[] && s.writersOf == map[])
    && forall k :: k in s.invites ==> InviteOk(s.invites[k])
  }

  lemma NeedsTable(s: State)
    requires Inv(s)
    ensures s.invites != map[] ==> s.table.Some?
  {
  }

  /** With the default roles only owners hold "*", and what else they may do follows from the role. */
  lemma CanByRole(t: Registry, m: Member)
    requires TableOk(t)
    ensures Can(Some(t), m, "*") <==> RoleOf(t, m) == Some(OWNER)
    ensures Can(Some(t), m, INDEX) <==> RoleOf(t, m) in {Some(OWNER), Some("admin")}
    ensures Can(Some(t), m, "mod.add") <==> RoleOf(t, m) in {Some(OWNER), Some("admin")}
    ensures Can(Some(t), m, "mod.remove") <==> RoleOf(t, m) in {Some(OWNER), Some("admin")}
  {
    assert t.roles["owner"] == ["*"] && t.roles["member"] == [];
    assert t.roles["mod"] == ["content.hide", "content.remove", "content.flag"];
    assert t.roles["admin"] == ["mod.add", "mod.remove", "content.remove", "content.hide", "content.reveal",
      "context.write", "context.index"];
    assert t.roles["admin"][0] == "mod.add" && t.roles["admin"][1] == "mod.remove" && t.roles["admin"][6] == INDEX;
    assert t.roles["owner"][0] == "*";
    assert "*"[0] == '*' && "mod.add"[0] == 'm' && "mod.remove"[0] == 'm' && "content.remove"[0] == 'c' &&
      "content.hide"[0] == 'c';
  }

  lemma StepKeepsInv(env: Env, s: State, e: Event, optimistic: bool)
    requires Inv(s)
    ensures Inv(Step(env, s, e, optimistic))
  {
    hide Inv, ApplyInit, ApplyUpgrade, ApplyWriter, ApplyRole, ApplyMint, ApplyRedeem, Can, Refused;
    NeedsTable(s);
    HostKeepsInv(s);
    match e
    case Init(_, _, _, _, _) => InitKeepsInv(env, s, e);
    case Upgrade(_, _, _) => UpgradeKeepsInv(env, s, e);
    case Mint(_, _, _, _, _, _) => MintKeepsInv(s, e);
    case Redeem(_, _, _, _, _, _) => RedeemKeepsInv(s, e, optimistic);
    case Writer(_, _, _, _) => WriterKeepsInv(env, s, e);
    case Role(_, _, _, _) => RoleKeepsInv(s, e);
    case AddWriter(_) =>
    case RolesAdd(_, _, _, _) =>
    case RolesRemove(_, _, _, _) =>
  }

  /** Only opening and upgrading write the record. */
  lemma RecordStays(env: Env, s: State, e: Event, optimistic: bool)
    requires (s.invites != map[] ==> s.table.Some?) && !e.Init? && !e.Upgrade?
    ensures Step(env, s, e, optimistic).record == s.record
  {
    hide Can, MayAssign, Refused, AllAdded, WritersOf, JoinedTable, Assigned;
  }

  lemma HostKeepsInv(s: State)
    requires Inv(s)
    ensures forall h: Host :: Inv(s.(host := h))
  {
    forall h: Host
      ensures Inv(s.(host := h))
    {
      assert RecordOf(s.(host := h)) == RecordOf(s);
    }
  }

  lemma InitKeepsInv(env: Env, s: State, e: Event)
    requires Inv(s) && e.Init?
    ensures Inv(ApplyInit(env, s, e))
  {
    hide Refused;
    if e.owner != "" {
      DefaultOk(e.owner);
    }
  }

  lemma UpgradeKeepsInv(env: Env, s: State, e: Event)
    requires Inv(s) && e.Upgrade?
    ensures Inv(ApplyUpgrade(env, s, e))
  {
    hide AllAdded, Indexers, DefaultTable, TableOk;
    if e.owner != "" {
      DefaultOk(e.owner);
    }
  }

  lemma WriterKeepsInv(env: Env, s: State, e: Event)
    requires Inv(s) && e.Writer?
    ensures Inv(ApplyWriter(env, s, e))
  {
    hide Can, TableOk;
  }

  lemma RoleKeepsInv(s: State, e: Event)
    requires Inv(s) && e.Role?
    ensures Inv(ApplyRole(s, e))
  {
    hide Can, TableOk, MayAssign, Assigned, AllAdded;
    if Assigns(s, e) {
      AssigningNeedsTable(s.table, e.author, e.member, e.role);
      AssignedOk(s.table.value, e.author, e.member, e.role);
    }
  }

  lemma MintKeepsInv(s: State, e: Event)
    requires Inv(s) && e.Mint?
    ensures Inv(ApplyMint(s, e))
  {
    hide Can, TableOk;
  }

  lemma RedeemKeepsInv(s: State, e: Event, optimistic: bool)
    requires Inv(s) && e.Redeem?
    ensures s.invites != map[] ==> s.table.Some?
    ensures Inv(ApplyRedeem(s, e, optimistic))
  {
    hide Can, TableOk, JoinedTable;
    if Redeems(s, e) {
      JoinedOk(s.table.value, e.member, s.invites[e.inviteKey].role);
    }
  }

  lemma DefaultOk(owner: Member)
    requires owner != ""
    ensures TableOk(DefaultTable(owner))
  {
    assert DefaultTable(owner).members[owner] == OWNER;
  }

  lemma AssignedOk(t: Registry, author: Member, m: Member, role: string)
    requires TableOk(t) && m != "" && MayAssign(Some(t), author, m, role)
    ensures TableOk(Assigned(t, m, role))
  {
    hide Can;
    CanByRole(t, author);
    var owner :| owner in t.members && t.members[owner] == OWNER;
    var next := Assigned(t, m, role);
    if owner == m && owner != author && RoleOf(t, author) == Some(OWNER) {
      assert next.members[author] == OWNER;
    } else {
      assert next.members[owner] == OWNER;
    }
  }

  lemma JoinedOk(t: Registry, m: Member, role: string)
    requires TableOk(t) && m != "" && role != ""
    ensures TableOk(JoinedTable(t, m, role))
  {
    var owner :| owner in t.members && t.members[owner] == OWNER;
    assert RoleOf(t, owner).Some?;
    assert JoinedTable(t, m, role).members[owner] == OWNER;
  }

  // --- whole runs ---

  /** An event of the log, and whether it came from a peer that is no writer. */
  datatype Node = Node(event: Event, optimistic: bool)

  function Run(env: Env, s: State, nodes: seq<Node>): (r: State)
    requires Inv(s)
    ensures Inv(r)
    decreases nodes
  {
    if nodes == [] then s
    else
      StepKeepsInv(env, s, nodes[0].event, nodes[0].optimistic);
      Run(env, Step(env, s, nodes[0].event, nodes[0].optimistic), nodes[1..])
  }

  /** This event is a redemption of the invite that counts. */
  predicate UsesInvite(env: Env, s: State, e: Event, inviteKey: string) {
    e.Redeem? && e.inviteKey == inviteKey && !Refused(env, RecordOf(s)) && Redeems(s, e)
  }

  /** How many redemptions of the invite a run accepts. */
  function Redemptions(env: Env, s: State, nodes: seq<Node>, inviteKey: string): nat
    requires Inv(s)
    decreases nodes
  {
    if nodes == [] then 0
    else
      StepKeepsInv(env, s, nodes[0].event, nodes[0].optimistic);
      (if UsesInvite(env, s, nodes[0].event, inviteKey) then 1 else 0) +
      Redemptions(env, Step(env, s, nodes[0].event, nodes[0].optimistic), nodes[1..], inviteKey)
  }

  function UsedOf(s: State, inviteKey: string): nat {
    if inviteKey in s.invites then s.invites[inviteKey].used else 0
  }

  /** An invite as minted stays, but for its uses and being revoked. */
  predicate SameInvite(a: Invite, b: Invite) {
    a.role == b.role && a.uses == b.uses && a.author == b.author && a.scope == b.scope && (a.revoked ==> b.revoked)
  }

  lemma OthersKeepInvites(env: Env, s: State, e: Event, optimistic: bool)
    requires Inv(s) && !e.Mint? && !e.Redeem?
    ensures Step(env, s, e, optimistic).invites == s.invites
  {
    hide Inv, Can, Refused, AllAdded, Assigned, MayAssign, DefaultTable, WritersOf;
    NeedsTable(s);
  }

  lemma MintedOnce(s: State, e: Event, inviteKey: string)
    requires e.Mint? && inviteKey in s.invites
    ensures inviteKey in ApplyMint(s, e).invites && SameInvite(s.invites[inviteKey], ApplyMint(s, e).invites[inviteKey])
    ensures ApplyMint(s, e).invites[inviteKey].used == s.invites[inviteKey].used
  {
    hide MayAssign;
  }

  lemma RedeemedOnce(s: State, e: Event, optimistic: bool, inviteKey: string)
    requires e.Redeem? && (s.invites != map[] ==> s.table.Some?)
    ensures
      var next := ApplyRedeem(s, e, optimistic);
      && UsedOf(next, inviteKey) == UsedOf(s, inviteKey) + (if e.inviteKey == inviteKey && Redeems(s, e) then 1 else 0)
      && (inviteKey in s.invites <==> inviteKey in next.invites)
      && (inviteKey in s.invites ==> SameInvite(s.invites[inviteKey], next.invites[inviteKey]))
  {
    hide Can, JoinedTable, WritersOf, Added;
  }

  lemma StepOfInvite(env: Env, s: State, e: Event, optimistic: bool, inviteKey: string)
    requires Inv(s)
    ensures
      var next := Step(env, s, e, optimistic);
      && UsedOf(next, inviteKey) == UsedOf(s, inviteKey) + (if UsesInvite(env, s, e, inviteKey) then 1 else 0)
      && (inviteKey in s.invites ==>
        inviteKey in next.invites &&
        SameInvite(s.invites[inviteKey], next.invites[inviteKey]))
      && (UsesInvite(env, s, e, inviteKey) ==> inviteKey in s.invites && !s.invites[inviteKey].revoked)
  {
    hide Inv, Can, Refused, ApplyRedeem, JoinedTable, MayAssign;
    NeedsTable(s);
    if e.Redeem? {
      RedeemedOnce(s, e, optimistic, inviteKey);
    } else if e.Mint? {
      if inviteKey in s.invites {
        MintedOnce(s, e, inviteKey);
      }
    } else {
      OthersKeepInvites(env, s, e, optimistic);
    }
  }

  /**
   In every run an invite's accepted redemptions are its `used`, never more
   than its `uses`; it stays as minted, and none is accepted once revoked.
   */
  lemma {:induction false} UsedCountsRedemptions(env: Env, s: State, nodes: seq<Node>, inviteKey: string)
    requires Inv(s)
    ensures
      var last := Run(env, s, nodes);
      && UsedOf(last, inviteKey) == UsedOf(s, inviteKey) + Redemptions(env, s, nodes, inviteKey)
      && (inviteKey in last.invites ==>
        UsedOf(last, inviteKey) == 0 ||
        UsedOf(last, inviteKey) <= last.invites[inviteKey].uses)
      && (inviteKey in s.invites ==>
           && inviteKey in last.invites && SameInvite(s.invites[inviteKey], last.invites[inviteKey])
           && (s.invites[inviteKey].revoked ==> Redemptions(env, s, nodes, inviteKey) == 0))
    decreases nodes
  {
    hide Step, UsesInvite;
    if nodes != [] {
      var e, optimistic := nodes[0].event, nodes[0].optimistic;
      StepKeepsInv(env, s, e, optimistic);
      StepOfInvite(env, s, e, optimistic, inviteKey);
      UsedCountsRedemptions(env, Step(env, s, e, optimistic), nodes[1..], inviteKey);
    }
  }

  predicate NoneOrMinor(role: Option<string>) {
    role.None? || Minor(role.value)
  }

  lemma RedeemedTable(s: State, e: Event, optimistic: bool)
    requires Inv(s) && s.table.Some? && e.Redeem?
    ensures ApplyRedeem(s, e, optimistic).table == if Redeems(s, e) then
        Some(JoinedTable(s.table.value, e.member, s.invites[e.inviteKey].role)) else s.table
    ensures Redeems(s, e) ==> InviteOk(s.invites[e.inviteKey])
  {
    hide Can, JoinedTable, WritersOf, Added, TableOk;
  }

  lemma OthersKeepTable(env: Env, s: State, e: Event, optimistic: bool)
    requires Inv(s) && s.table.Some? && !e.Role? && !e.Redeem?
    ensures Step(env, s, e, optimistic).table == s.table
  {
    hide Can, Refused, AllAdded, TableOk, WritersOf, Removeable, MayAssign;
  }

  /**
   A member's role changes only as it may: by an owner, other than to give up
   its own ownership; by an admin, among no role, "member" and "mod"; or by
   redeeming an invite, from no role to the invite's, never to owner.
   */
  lemma RoleChangesAreGranted(env: Env, s: State, e: Event, optimistic: bool, m: Member)
    requires Inv(s) && s.table.Some?
    ensures
      var next := Step(env, s, e, optimistic);
      next.table.Some? &&
      var before, after := RoleOf(s.table.value, m), RoleOf(next.table.value, m);
      before == after ||
      (e.Role? && e.signed && e.member == m &&
        var granter := RoleOf(s.table.value, e.author);
        || (granter == Some(OWNER) && !(e.author == m && before == Some(OWNER)))
        || (granter == Some("admin") && NoneOrMinor(before) && NoneOrMinor(after))) ||
      (e.Redeem? && e.proven && e.member == m && before.None? && e.inviteKey in s.invites &&
        after == Some(s.invites[e.inviteKey].role) && after != Some(OWNER))
  {
    hide Can, Refused, AllAdded, TableOk, WritersOf, Removeable, Linked, Added;
    if e.Role? {
      CanByRole(s.table.value, e.author);
    } else if e.Redeem? {
      RedeemedTable(s, e, optimistic);
    } else {
      OthersKeepTable(env, s, e, optimistic);
    }
  }

  /** An invite is minted only by one who may give its role to a new member then: an owner, or an admin a minor role. */
  lemma MintsAreGranted(env: Env, s: State, e: Event, optimistic: bool, inviteKey: string)
    requires Inv(s)
    ensures
      var next := Step(env, s, e, optimistic);
      inviteKey in next.invites && inviteKey !in s.invites ==>
        && e.Mint? && e.signed && s.table.Some? && next.invites[inviteKey].author == e.author
        && next.invites[inviteKey].used == 0 && !next.invites[inviteKey].revoked
        && var granter := RoleOf(s.table.value, e.author);
           granter == Some(OWNER) || (granter == Some("admin") && Minor(next.invites[inviteKey].role))
  {
    hide Can, Refused, AllAdded, TableOk, JoinedTable, Assigned, WritersOf, Removeable, ApplyRedeem;
    NeedsTable(s);
    if e.Mint? {
      if s.table.Some? {
        CanByRole(s.table.value, e.author);
      }
    } else if e.Redeem? {
      RedeemedOnce(s, e, optimistic, inviteKey);
    } else {
      OthersKeepInvites(env, s, e, optimistic);
    }
  }

  /** An event from a peer that is no writer changes nothing, unless it redeems an invite as it must. */
  lemma OutsidersOnlyRedeem(env: Env, s: State, e: Event)
    requires Inv(s)
    requires (e.Init? || e.Upgrade?) ==> e.opener != env.creator // the creator is a writer
    requires !(e.Redeem? && Redeems(s, e))
    ensures
      var next := Step(env, s, e, true);
      next == s || (Refused(env, RecordOf(s)) && next == s.(host := s.host.(interrupted := true)))
  {
    hide Can, Refused;
    NeedsTable(s);
  }

  // --- indexing follows the role ---

  predicate Indexes(s: State, k: Key) {
    k in s.host.writers && s.host.writers[k]
  }

  ghost predicate MapsAgree(s: State) {
    forall k, m :: k in WritersOf(s, m) <==> k in s.memberOf && s.memberOf[k] == m
  }

  /** The two link maps agree, and a linked writer indexes exactly when its member's role allows it. */
  ghost predicate LinksOk(s: State) {
    && MapsAgree(s)
    && forall k :: k in s.memberOf ==> k in s.host.writers && s.host.writers[k] == Can(s.table, s.memberOf[k], INDEX)
  }

  /** A linked writer that has to index. */
  predicate MustIndex(s: State, k: Key) {
    k in s.memberOf && Can(s.table, s.memberOf[k], INDEX)
  }

  predicate FreeFor(s: State, k: Key, m: Member) {
    k in s.memberOf ==> s.memberOf[k] == m
  }

  /** The events of version 3 contexts that leave indexing as the roles say. */
  predicate Steady(env: Env, s: State, e: Event, optimistic: bool) {
    match e
    case Init(opener, version, _, owner, _) =>
      opener == env.creator && s.record.None? && !Refused(env, InitRecord(e)) && version == 3 && owner != "" ==>
        Indexes(s, env.creator)
    case Upgrade(_, _, _) => Upgrades(env, s, e) ==> Indexes(s, env.creator)
    case Role(_, _, _, _) => true
    case Mint(_, _, _, _, _, _) => true
    case Redeem(inviteKey, _, key, member, _, _) =>
      !Refused(env, RecordOf(s)) && Redeems(s, e) && s.table.Some? ==>
        && FreeFor(s, key, member)
        && (Can(Some(JoinedTable(s.table.value, member, s.invites[inviteKey].role)), member, INDEX) ==>
             Can(s.table, member, INDEX) || WritersOf(s, member) <= {key})
    case Writer(key, member, _, _) =>
      !Refused(env, RecordOf(s)) && !optimistic && AddsWriter(env, s, e) ==>
        if member == "" then !MustIndex(s, key) else FreeFor(s, key, member)
    case AddWriter(key) => !Refused(env, RecordOf(s)) && !optimistic && !env.closed ==> !MustIndex(s, key)
    case RolesAdd(key, author, signed, granted) =>
      !Refused(env, RecordOf(s)) && !optimistic && MayChangeWriters(env, s, author, signed, granted) ==>
        !MustIndex(s, key)
    case RolesRemove(key, author, signed, granted) =>
      && !Refused(env, RecordOf(s)) && !optimistic && MayChangeWriters(env, s, author, signed, granted)
      && Removeable(s.host, key) ==>
        key !in s.memberOf
  }

  lemma LinkingKeepsLinks(s: State, k: Key, m: Member)
    requires MapsAgree(s)
    ensures MapsAgree(Linked(s, k, m)) <==> FreeFor(s, k, m)
  {
    var next := Linked(s, k, m);
    if !FreeFor(s, k, m) {
      var before := s.memberOf[k];
      assert k in WritersOf(s, before) && WritersOf(next, before) == WritersOf(s, before);
      assert k in WritersOf(next, before) && next.memberOf[k] != before;
    } else {
      forall k', m'
        ensures k' in WritersOf(next, m') <==> k' in next.memberOf && next.memberOf[k'] == m'
      {
        assert WritersOf(next, m') == if m' == m then WritersOf(s, m) + {k} else WritersOf(s, m');
        assert k' in WritersOf(s, m') <==> k' in s.memberOf && s.memberOf[k'] == m';
      }
    }
  }

  lemma AddingKeepsLinks(s: State, k: Key, indexer: bool)
    requires LinksOk(s)
    ensures LinksOk(s.(host := Added(s.host, k, indexer))) <==>
        (k in s.memberOf ==> indexer == Can(s.table, s.memberOf[k], INDEX))
  {
    hide Can;
    var next := s.(host := Added(s.host, k, indexer));
    assert forall m :: WritersOf(next, m) == WritersOf(s, m);
    if k in s.memberOf {
      assert next.host.writers[k] == indexer;
    }
  }

  lemma RemovingKeepsLinks(s: State, k: Key)
    requires LinksOk(s)
    ensures LinksOk(s.(host := Removed(s.host, k))) <==> (Removeable(s.host, k) ==> k !in s.memberOf)
  {
    hide Can, Removeable;
    var next := s.(host := Removed(s.host, k));
    assert forall m :: WritersOf(next, m) == WritersOf(s, m);
    if Removeable(s.host, k) && k in s.memberOf {
      assert k !in next.host.writers;
    }
  }

  /** A writer linked and added as its member's role, in table `t`, says. */
  lemma LinkedAndAdded(s: State, k: Key, m: Member)
    requires LinksOk(s)
    ensures
      var next := Linked(s, k, m);
      LinksOk(next.(host := Added(s.host, k, Can(s.table, m, INDEX)))) <==> FreeFor(s, k, m)
  {
    hide Can, WritersOf;
    var linked := Linked(s, k, m);
    var next := linked.(host := Added(s.host, k, Can(s.table, m, INDEX)));
    LinkingKeepsLinks(s, k, m);
    SameMaps(linked, next);
    if FreeFor(s, k, m) {
      forall k' | k' in next.memberOf
        ensures k' in next.host.writers && next.host.writers[k'] == Can(next.table, next.memberOf[k'], INDEX)
      {
        assert k' != k ==> k' in s.memberOf;
      }
    }
  }

  lemma SameMaps(a: State, b: State)
    requires a.memberOf == b.memberOf && a.writersOf == b.writersOf
    ensures MapsAgree(a) <==> MapsAgree(b)
    ensures forall m :: WritersOf(a, m) == WritersOf(b, m)
  {
    assert forall m :: WritersOf(a, m) == WritersOf(b, m);
  }

  lemma LinksOfSame(a: State, b: State)
    requires a.memberOf == b.memberOf && a.writersOf == b.writersOf && a.table == b.table &&
        a.host.writers == b.host.writers
    ensures LinksOk(a) <==> LinksOk(b)
  {
    hide Can, MapsAgree;
    SameMaps(a, b);
  }

  lemma CanOfOthers(t: Registry, next: Registry, m: Member)
    requires t.roles == next.roles && RoleOf(t, m) == RoleOf(next, m)
    ensures Can(Some(t), m, INDEX) == Can(Some(next), m, INDEX)
  {
  }

  lemma StartingKeepsLinks(s: State, owner: Member, creator: Key, h: Host)
    requires s.memberOf == map[] && s.writersOf == map[] && owner != ""
    ensures LinksOk(RolesStarted(s, owner, creator).(host := h)) <==> creator in h.writers && h.writers[creator]
  {
    hide Can;
    var next := RolesStarted(s, owner, creator).(host := h);
    DefaultOk(owner);
    CanByRole(DefaultTable(owner), owner);
    assert RoleOf(DefaultTable(owner), owner) == Some(OWNER);
    assert next.memberOf == map[creator := owner];
    assert forall m :: WritersOf(next, m) == if m == owner then {creator} else {};
    assert creator in next.memberOf;
  }

  lemma RoleKeepsLinks(s: State, e: Event)
    requires Inv(s) && LinksOk(s) && e.Role?
    ensures LinksOk(ApplyRole(s, e))
  {
    hide Can, MayAssign, WritersOf, TableOk;
    var next := ApplyRole(s, e);
    SameMaps(s, next);
    if next != s {
      AssigningNeedsTable(s.table, e.author, e.member, e.role);
      forall k | k in next.memberOf
        ensures k in next.host.writers && next.host.writers[k] == Can(next.table, next.memberOf[k], INDEX)
      {
        assert k in WritersOf(s, s.memberOf[k]);
        if s.memberOf[k] != e.member {
          assert k in WritersOf(s, e.member) <==> k in s.memberOf && s.memberOf[k] == e.member;
          CanOfOthers(s.table.value, next.table.value, s.memberOf[k]);
        }
      }
    }
  }

  lemma JoiningKeepsLinks(s: State, k: Key, m: Member, role: string)
    requires s.table.Some? && TableOk(s.table.value) && m != "" && role != "" && LinksOk(s)
    ensures
      var table := Some(JoinedTable(s.table.value, m, role));
      var next := Linked(s.(table := table), k, m);
      LinksOk(next.(host := Added(s.host, k, Can(table, m, INDEX)))) <==>
      FreeFor(s, k, m) && (Can(table, m, INDEX) ==> Can(s.table, m, INDEX) || WritersOf(s, m) <= {k})
  {
    hide Can, TableOk, JoinedTable, MapsAgree, RoleOf;
    var t := JoinedTable(s.table.value, m, role);
    JoinedOk(s.table.value, m, role);
    CanByRole(s.table.value, m);
    CanByRole(t, m);
    JoiningOnly(s.table.value, m, role);
    var mid := s.(table := Some(t));
    var linked := Linked(mid, k, m);
    var next := linked.(host := Added(s.host, k, Can(Some(t), m, INDEX)));
    SameMaps(s, mid);
    SameMaps(linked, next);
    LinkingKeepsLinks(mid, k, m);
    if FreeFor(s, k, m) && (Can(Some(t), m, INDEX) ==> Can(s.table, m, INDEX) || WritersOf(s, m) <= {k}) {
      forall k' | k' in next.memberOf
        ensures k' in next.host.writers && next.host.writers[k'] == Can(next.table, next.memberOf[k'], INDEX)
      {
        if k' != k {
          LinkedIn(s, k', s.memberOf[k']);
          if s.memberOf[k'] != m {
            CanOfOthers(s.table.value, t, s.memberOf[k']);
          }
        }
      }
    } else if FreeFor(s, k, m) {
      var other :| other in WritersOf(s, m) && other != k;
      LinkedIn(s, other, m);
      assert next.memberOf[other] == m && next.host.writers[other] == Can(s.table, m, INDEX);
    }
  }

  lemma LinkedIn(s: State, k: Key, m: Member)
    requires LinksOk(s)
    ensures k in WritersOf(s, m) <==> k in s.memberOf && s.memberOf[k] == m
  {
  }

  lemma JoiningOnly(t: Registry, m: Member, role: string)
    requires role != ""
    ensures forall m' :: m' != m ==> RoleOf(JoinedTable(t, m, role), m') == RoleOf(t, m')
    ensures RoleOf(t, m).Some? ==> RoleOf(JoinedTable(t, m, role), m) == RoleOf(t, m)
    ensures JoinedTable(t, m, role).roles == t.roles
  {
  }

  /**
   A linked writer indexes exactly when its member's role allows it, after every
   event but exactly those `Steady` leaves out.
   */
  lemma IndexingFollowsRolesIffSteady(env: Env, s: State, e: Event, optimistic: bool)
    requires Inv(s) && LinksOk(s)
    ensures LinksOk(Step(env, s, e, optimistic)) <==> Steady(env, s, e, optimistic)
  {
    hide Can, LinksOk, MapsAgree, WritersOf, Refused, TableOk, RoleOf, JoinedTable, Linked, Added, Removed,
      DefaultTable, MayAssign;
    LinksOfSame(s, s.(host := s.host.(interrupted := true)));
    match e
    case Init(_, _, _, _, _) => InitKeepsLinks(env, s, e);
    case Upgrade(_, _, _) => UpgradeKeepsLinks(env, s, e);
    case Role(_, _, _, _) => RoleKeepsLinks(s, e);
    case Mint(_, _, _, _, _, _) => LinksOfSame(s, ApplyMint(s, e));
    case Redeem(_, _, _, _, _, _) =>
      if Redeems(s, e) {
        RedeemKeepsLinks(s, e, optimistic);
      }
    case Writer(key, member, _, _) =>
      AddingKeepsLinks(s, key, false);
      LinkedAndAdded(s, key, member);
    case AddWriter(key) => AddingKeepsLinks(s, key, RecordOf(s).version == 1);
    case RolesAdd(key, _, _, _) => AddingKeepsLinks(s, key, RecordOf(s).version == 1);
    case RolesRemove(key, _, _, _) => RemovingKeepsLinks(s, key);
  }

  lemma InitKeepsLinks(env: Env, s: State, e: Event)
    requires Inv(s) && LinksOk(s) && e.Init?
    ensures LinksOk(ApplyInit(env, s, e)) <==> Steady(env, s, e, false)
  {
    hide Can, LinksOk, MapsAgree, WritersOf, Refused, TableOk, RoleOf, DefaultTable;
    if e.opener == env.creator && s.record.None? && !Refused(env, InitRecord(e)) && e.version == 3 && e.owner != "" {
      StartingKeepsLinks(s.(record := Some(InitRecord(e))), e.owner, env.creator, s.host);
    } else {
      LinksOfSame(s, ApplyInit(env, s, e));
    }
  }

  lemma UpgradeKeepsLinks(env: Env, s: State, e: Event)
    requires Inv(s) && LinksOk(s) && e.Upgrade?
    ensures LinksOk(ApplyUpgrade(env, s, e)) <==> Steady(env, s, e, false)
  {
    hide Can, LinksOk, MapsAgree, WritersOf, TableOk, RoleOf, Linked, DefaultTable;
    if Upgrades(env, s, e) {
      var h := AllAdded(s.host, Indexers(s.host) - {env.creator}, false);
      StartingKeepsLinks(s.(record := Some(RecordOf(s).(version := 3, owner := Some(e.owner)))), e.owner,
        env.creator, h);
    }
  }

  lemma RedeemKeepsLinks(s: State, e: Event, optimistic: bool)
    requires Inv(s) && LinksOk(s) && e.Redeem? && Redeems(s, e)
    ensures s.invites != map[] && s.table.Some?
    ensures LinksOk(ApplyRedeem(s, e, optimistic)) <==>
      && FreeFor(s, e.key, e.member)
      && (Can(Some(JoinedTable(s.table.value, e.member, s.invites[e.inviteKey].role)), e.member, INDEX) ==>
           Can(s.table, e.member, INDEX) || WritersOf(s, e.member) <= {e.key})
  {
    hide Can, LinksOk, MapsAgree, WritersOf, TableOk, RoleOf, JoinedTable, FreeFor;
    var invite := s.invites[e.inviteKey];
    JoiningKeepsLinks(s, e.key, e.member, s.invites[e.inviteKey].role);
    var table := Some(JoinedTable(s.table.value, e.member, s.invites[e.inviteKey].role));
    SameMaps(s.(table := table), s.(invites := s.invites[e.inviteKey := invite.(used := invite.used + 1)],
      table := table));
    var plain := Linked(s.(table := table), e.key,
      e.member).(host := Added(s.host, e.key, Can(table, e.member, INDEX)));
    LinksOfSame(plain, ApplyRedeem(s, e, optimistic));
  }

  /** Every event of the run is steady when it comes. */
  predicate SteadyRun(env: Env, s: State, nodes: seq<Node>)
    requires Inv(s)
    decreases nodes
  {
    nodes == [] ||
    (StepKeepsInv(env, s, nodes[0].event, nodes[0].optimistic);
     Steady(env, s, nodes[0].event, nodes[0].optimistic) &&
       SteadyRun(env, Step(env, s, nodes[0].event, nodes[0].optimistic), nodes[1..]))
  }

  lemma {:induction false} SteadyRunKeepsLinks(env: Env, s: State, nodes: seq<Node>)
    requires Inv(s) && LinksOk(s) && SteadyRun(env, s, nodes)
    ensures LinksOk(Run(env, s, nodes))
    decreases nodes
  {
    hide Step, Steady, LinksOk, Inv;
    if nodes != [] {
      NeedsTable(s);
      IndexingFollowsRolesIffSteady(env, s, nodes[0].event, nodes[0].optimistic);
      StepKeepsInv(env, s, nodes[0].event, nodes[0].optimistic);
      SteadyRunKeepsLinks(env, Step(env, s, nodes[0].event, nodes[0].optimistic), nodes[1..]);
    }
  }

  lemma StartIsOk(host: Host)
    ensures Inv(Start(host)) && LinksOk(Start(host))
  {
  }

  lemma TableStays(env: Env, s: State, e: Event, optimistic: bool)
    requires Inv(s) && s.table.Some?
    ensures Step(env, s, e, optimistic).table.Some?
  {
    hide Can, Refused, AllAdded, TableOk, WritersOf, Removeable, Linked, Added, ApplyRedeem;
    if e.Redeem? {
      RedeemedTable(s, e, optimistic);
    } else if !e.Role? {
      OthersKeepTable(env, s, e, optimistic);
    }
  }

  /** From any start, a context that has a role table keeps one with the default roles and at least one owner. */
  lemma {:induction false} AlwaysAnOwner(env: Env, s: State, nodes: seq<Node>)
    requires Inv(s) && s.table.Some?
    ensures
      var last := Run(env, s, nodes);
      && last.table.Some? && last.table.value.roles == DEFAULT_ROLES
      && exists m :: RoleOf(last.table.value, m) == Some(OWNER)
    decreases nodes
  {
    if nodes == [] {
      var m :| m in s.table.value.members && s.table.value.members[m] == OWNER;
      assert RoleOf(s.table.value, m) == Some(OWNER);
    } else {
      TableStays(env, s, nodes[0].event, nodes[0].optimistic);
      StepKeepsInv(env, s, nodes[0].event, nodes[0].optimistic);
      AlwaysAnOwner(env, Step(env, s, nodes[0].event, nodes[0].optimistic), nodes[1..]);
    }
  }

  // --- the last indexer ---

  lemma RemovalKeepsAnIndexer(h: Host, k: Key)
    requires Indexers(h) != {}
    ensures Indexers(Removed(h, k)) != {}
  {
    var i :| i in Indexers(h) && (i == k ==> Indexers(h) == {k});
    assert i in Indexers(Removed(h, k));
  }

  /**
   A role change leaves nobody indexing exactly when it demotes a member whose
   writers are all the indexers there are, and two or more: each of them alone
   could go.
   */
  lemma RoleChangeStopsIndexingIff(s: State, e: Event)
    requires e.Role? && Indexers(s.host) != {}
    ensures
      Indexers(ApplyRole(s, e).host) == {} <==>
        && Assigns(s, e) && Can(s.table, e.member, INDEX) && s.table.Some?
        && !Can(Some(Assigned(s.table.value, e.member, e.role)), e.member, INDEX)
        && Indexers(s.host) <= WritersOf(s, e.member)
        && forall k :: Indexers(s.host) != {k}
  {
    hide Can, MayAssign, TableOk, Assigned, WritersOf, LinksOk;
    var h, w, next := s.host, WritersOf(s, e.member), ApplyRole(s, e);
    if next != s {
      AssigningNeedsTable(s.table, e.author, e.member, e.role);
    }
    if Assigns(s, e) && s.table.Some? && Can(s.table, e.member, INDEX) &&
      !Can(Some(Assigned(s.table.value, e.member, e.role)), e.member, INDEX) {
      DemotedOnes(h, w);
      if Indexers(h) <= w {
        GuardPasses(h, w);
        assert Indexers(h) - w == {};
      } else {
        var i :| i in Indexers(h) && i !in w;
        assert i in Indexers(next.host);
      }
    } else {
      var i :| i in Indexers(h);
      assert i in Indexers(next.host);
    }
  }

  /** This event, applied, adds this writer as one that does not index. */
  predicate AddsIdle(env: Env, s: State, e: Event) {
    match e
    case Writer(_, member, _, _) => AddsWriter(env, s, e) && !Can(s.table, member, INDEX)
    case AddWriter(_) => !env.closed && RecordOf(s).version != 1
    case RolesAdd(_, author, signed, granted) => MayChangeWriters(env, s, author, signed, granted) &&
      RecordOf(s).version != 1
    case Redeem(inviteKey, _, _, member, _, _) =>
      Redeems(s, e) && s.table.Some? && !Can(Some(JoinedTable(s.table.value, member, s.invites[inviteKey].role)),
        member, INDEX)
    case _ => false
  }

  /** This event, applied, demotes a member whose writers are all the indexers, two or more. */
  predicate DemotesAll(s: State, e: Event)
    requires e.Role?
  {
    && Assigns(s, e) && s.table.Some? && Can(s.table, e.member, INDEX)
    && !Can(Some(Assigned(s.table.value, e.member, e.role)), e.member, INDEX)
    && Indexers(s.host) <= WritersOf(s, e.member) && |Indexers(s.host)| >= 2
  }

  /** The events after which nobody indexes any more. */
  predicate StopsIndexing(env: Env, s: State, e: Event, optimistic: bool) {
    if e.Init? then false
    else if e.Upgrade? then Upgrades(env, s, e) && env.creator !in Indexers(s.host)
    else if Refused(env, RecordOf(s)) || (optimistic && !e.Redeem?) then false
    else if e.Role? then DemotesAll(s, e)
    else AddsIdle(env, s, e) && Indexers(s.host) == {e.key}
  }

  lemma OnlyIndexer(h: Host, k: Key, indexer: bool)
    requires Indexers(h) != {}
    ensures Indexers(Added(h, k, indexer)) == {} <==> !indexer && Indexers(h) == {k}
  {
    var next := Indexers(Added(h, k, indexer));
    assert next == if indexer then Indexers(h) + {k} else Indexers(h) - {k};
  }

  lemma SeveralIndexers(h: Host)
    requires Indexers(h) != {}
    ensures |Indexers(h)| >= 2 <==> forall k :: Indexers(h) != {k}
  {
    var k :| k in Indexers(h);
    assert |Indexers(h) - {k}| == |Indexers(h)| - 1;
    if |Indexers(h)| == 1 {
      assert Indexers(h) - {k} == {};
      assert Indexers(h) == {k};
    }
  }

  lemma UpgradeStopsIndexingIff(env: Env, s: State, e: Event)
    requires e.Upgrade? && Indexers(s.host) != {}
    ensures Indexers(ApplyUpgrade(env, s, e).host) == {} <==> Upgrades(env, s, e) && env.creator !in Indexers(s.host)
  {
    hide DefaultTable, AllAdded, Indexers, WritersOf;
    if Upgrades(env, s, e) {
      DemotedOnes(s.host, Indexers(s.host) - {env.creator});
      var left := Indexers(s.host) - (Indexers(s.host) - {env.creator});
      assert left == if env.creator in Indexers(s.host) then {env.creator} else {};
    }
  }

  lemma RedeemStopsIndexingIff(env: Env, s: State, e: Event, optimistic: bool)
    requires e.Redeem? && Indexers(s.host) != {} && (s.invites != map[] ==> s.table.Some?)
    ensures Indexers(ApplyRedeem(s, e, optimistic).host) == {} <==> AddsIdle(env, s, e) && Indexers(s.host) == {e.key}
  {
    hide Can, JoinedTable, Linked;
    if Redeems(s, e) {
      var table := Some(JoinedTable(s.table.value, e.member, s.invites[e.inviteKey].role));
      OnlyIndexer(s.host, e.key, Can(table, e.member, INDEX));
      assert Indexers(ApplyRedeem(s, e, optimistic).host) ==
        Indexers(Added(s.host, e.key, Can(table, e.member, INDEX)));
    }
  }

  /**
   While some writer indexes, an event leaves nobody indexing exactly when it
   converts a context whose creator's writer does not index, adds the only
   indexer again as one that does not, or demotes a member whose writers are all
   the indexers, two or more, each of which alone could go.
   */
  lemma IndexingStopsIff(env: Env, s: State, e: Event, optimistic: bool)
    requires (s.invites != map[] ==> s.table.Some?) && Indexers(s.host) != {}
    ensures Indexers(Step(env, s, e, optimistic).host) == {} <==> StopsIndexing(env, s, e, optimistic)
  {
    hide Can, Refused, Linked, Indexers, MayAssign, Assigned, JoinedTable, WritersOf, ApplyUpgrade, ApplyRedeem,
      ApplyRole, Added, DefaultTable;
    SameIndexers(s.host, s.host.(interrupted := true));
    match e
    case Init(_, _, _, _, _) => InitKeepsIndexers(env, s, e);
    case Upgrade(_, _, _) => UpgradeStopsIndexingIff(env, s, e);
    case Role(_, _, _, _) =>
      SeveralIndexers(s.host);
      RoleChangeStopsIndexingIff(s, e);
    case Redeem(_, _, _, _, _, _) => RedeemStopsIndexingIff(env, s, e, optimistic);
    case Mint(_, _, _, _, _, _) =>
    case Writer(key, member, _, _) =>
      OnlyIndexer(s.host, key, false);
      OnlyIndexer(s.host, key, Can(s.table, member, INDEX));
      NobodyCannot(s.table);
    case AddWriter(key) => OnlyIndexer(s.host, key, RecordOf(s).version == 1);
    case RolesAdd(key, _, _, _) => OnlyIndexer(s.host, key, RecordOf(s).version == 1);
    case RolesRemove(key, _, _, _) => RemovalKeepsAnIndexer(s.host, key);
  }

  lemma NobodyCannot(table: Option<Registry>)
    ensures !Can(table, "", INDEX)
  {
  }

  lemma SameIndexers(a: Host, b: Host)
    requires a.writers == b.writers
    ensures Indexers(a) == Indexers(b)
  {
  }

  lemma InitKeepsIndexers(env: Env, s: State, e: Event)
    requires e.Init?
    ensures Indexers(ApplyInit(env, s, e).host) == Indexers(s.host)
  {
    hide Refused, WritersOf;
  }

  lemma DemotedOnes(h: Host, keys: set<Key>)
    ensures Indexers(AllAdded(h, keys, false)) == Indexers(h) - keys
  {
  }

  lemma GuardPasses(h: Host, keys: set<Key>)
    requires Indexers(h) != {} && Indexers(h) <= keys
    ensures (exists k | k in keys :: !Removeable(h, k)) <==> exists k :: Indexers(h) == {k}
  {
    if k :| Indexers(h) == {k} {
      assert k in Indexers(h);
      assert !Removeable(h, k);
    }
  }

  // --- two runs that end apart from the roles ---

  const CLOSED := Env(true, "", "k1")
  const CREATED := Event.Init("k1", 3, "", "alice", Some(2))
  const INVITE := "0123456789abcdef0123456789abcdef0123456789abcdef0123456789abcdef"

  /** alice created the context with her writer k1. */
  function Created(): State {
    State(
      Some(Record(3, "", Some("alice"), 2)), Some(DefaultTable("alice")), map["k1" := "alice"],
        map["alice" := {"k1"}], map[], map[],
      Host(map["k1" := true], {}, false))
  }

  lemma CreatedReached()
    ensures Step(CLOSED, Start(Created().host), CREATED, false) == Created()
    ensures Inv(Created()) && LinksOk(Created())
    ensures RoleOf(Created().table.value, "alice") == Some(OWNER) && RoleOf(Created().table.value, "bob").None?
  {
    hide LinksOk, MapsAgree, Can, Steady;
    var s := Start(Created().host);
    assert "alice" != "bob";
    StartIsOk(Created().host);
    StepKeepsInv(CLOSED, s, CREATED, false);
    StartingKeepsLinks(s.(record := Some(InitRecord(CREATED))), "alice", "k1", s.host);
    assert WritersOf(s, "alice") + {"k1"} == {"k1"};
    assert RolesStarted(s.(record := Some(InitRecord(CREATED))), "alice", "k1").(host := s.host) == Created();
  }

  lemma RunOfThree(env: Env, s: State, a: Event, b: Event, c: Event)
    requires Inv(s)
    ensures
      var s1 := Step(env, s, a, false);
      Inv(s1) &&
      var s2 := Step(env, s1, b, false);
      Inv(s2) && Run(env, s, [Node(a, false), Node(b, false), Node(c, false)]) == Step(env, s2, c, false)
  {
    hide Step, Inv;
    NeedsTable(s);
    StepKeepsInv(env, s, a, false);
    var s1 := Step(env, s, a, false);
    NeedsTable(s1);
    StepKeepsInv(env, s1, b, false);
    var s2 := Step(env, s1, b, false);
    NeedsTable(s2);
    StepKeepsInv(env, s2, c, false);
    var nodes := [Node(a, false), Node(b, false), Node(c, false)];
    assert nodes[1..] == [nodes[1], nodes[2]] && nodes[1..][1..] == [nodes[2]] && [nodes[2]][1..] == [];
    assert Run(env, s2, [nodes[2]]) == Step(env, s2, c, false);
    assert Run(env, s1, [nodes[1], nodes[2]]) == Run(env, s2, [nodes[2]]);
  }

  /** Then she linked bob's writer k2, before he had a role, and minted an invite as admin. */
  function Invited(): State {
    Created().(
      memberOf := map["k1" := "alice", "k2" := "bob"], writersOf := map["alice" := {"k1"}, "bob" := {"k2"}],
      invites := map[INVITE := Invite("admin", 1, 0, false, "alice", None)],
        host := Host(map["k1" := true, "k2" := false], {}, false))
  }

  function Linking(member: Member): Event {
    Event.Writer("k2", member, "alice", true)
  }

  /** alice's linking of a second writer, and what it leaves. */
  lemma SecondWriterLinked(member: Member)
    requires member in {"alice", "bob"}
    ensures Inv(Created())
    ensures
      var next := Step(CLOSED, Created(), Linking(member), false);
      && Inv(next) && LinksOk(next)
      && next == Created().(
           memberOf := map["k1" := "alice", "k2" := member],
           writersOf := if member == "alice" then map["alice" := {"k1", "k2"}]
             else map["alice" := {"k1"}, "bob" := {"k2"}],
           host := Host(map["k1" := true, "k2" := member == "alice"], {}, false))
  {
    hide LinksOk, Can;
    var s := Created();
    CreatedReached();
    assert "alice" != "bob" && "k1" != "k2";
    CanByRole(s.table.value, "alice");
    CanByRole(s.table.value, "bob");
    OwnersCan(s.table.value, "alice", "context.write");
    StepKeepsInv(CLOSED, s, Linking(member), false);
    assert WritersOf(s, member) + {"k2"} == if member == "alice" then {"k1", "k2"} else {"k2"};
    IndexingFollowsRolesIffSteady(CLOSED, s, Linking(member), false);
  }

  lemma OwnersCan(t: Registry, m: Member, action: string)
    requires TableOk(t) && RoleOf(t, m) == Some(OWNER)
    ensures Can(Some(t), m, action)
  {
    assert t.roles["owner"] == ["*"];
    assert t.roles["owner"][0] == "*";
  }

  lemma InvitedReached()
    ensures Inv(Invited()) && LinksOk(Invited())
    ensures Inv(Start(Created().host))
    ensures exists nodes :: Run(CLOSED, Start(Created().host), nodes) == Invited()
  {
    hide Can, LinksOk, Step, Inv;
    var mint := Event.Mint(INVITE, 1, "admin", "alice", true, NoScope);
    StartIsOk(Created().host);
    CreatedReached();
    SecondWriterLinked("bob");
    var s := Step(CLOSED, Created(), Linking("bob"), false);
    assert Step(CLOSED, s, mint, false) == Invited() by {
      InviteMinted();
    }
    NeedsTable(s);
    StepKeepsInv(CLOSED, s, mint, false);
    RunOfThree(CLOSED, Start(Created().host), CREATED, Linking("bob"), mint);
    LinksOfSame(s, Invited());
  }

  lemma InviteMinted()
    ensures
      var s := Invited().(invites := map[]);
      Step(CLOSED, s, Event.Mint(INVITE, 1, "admin", "alice", true, NoScope), false) == Invited()
  {
    hide Can;
    var s := Invited().(invites := map[]);
    CreatedReached();
    CanByRole(s.table.value, "alice");
    assert |INVITE| == 64;
    assert "admin" != OWNER;
  }

  /**
   In a reachable state, a member given a role by an invite has another writer that
   should index then and does not.
   */
  lemma JoiningMayLeaveAWriterBehind()
    ensures Inv(Start(Created().host)) && exists nodes :: Run(CLOSED, Start(Created().host), nodes) == Invited()
    ensures Inv(Invited()) && LinksOk(Invited())
    ensures
      var e := Event.Redeem(INVITE, "k3", "k3", "bob", true, None);
      Redeems(Invited(), e) && !LinksOk(Step(CLOSED, Invited(), e, true))
  {
    hide Can, LinksOk, Inv;
    var s := Invited();
    var e := Event.Redeem(INVITE, "k3", "k3", "bob", true, None);
    InvitedReached();
    NeedsTable(s);
    var table := DefaultTable("alice");
    CreatedReached();
    DefaultOk("alice");
    JoinedOk(table, "bob", "admin");
    CanByRole(table, "bob");
    var joined := JoinedTable(table, "bob", "admin");
    CanByRole(joined, "bob");
    assert RoleOf(joined, "bob") == Some("admin");
    assert "k2" in WritersOf(s, "bob") && "k2" != "k3";
    assert !Steady(CLOSED, s, e, true);
    IndexingFollowsRolesIffSteady(CLOSED, s, e, true);
  }

  /** Or she linked a second writer of her own, and made bob an owner too. */
  function TwoOwners(): State {
    Created().(
      table := Some(WithRole(DefaultTable("alice"), "bob", OWNER)), memberOf := map["k1" := "alice", "k2" := "alice"],
      writersOf := map["alice" := {"k1", "k2"}], host := Host(map["k1" := true, "k2" := true], {}, false))
  }

  lemma TwoOwnersReached()
    ensures Inv(TwoOwners()) && LinksOk(TwoOwners())
    ensures Inv(Start(Created().host))
    ensures exists nodes :: Run(CLOSED, Start(Created().host), nodes) == TwoOwners()
  {
    hide Can, LinksOk, Step, Inv;
    var assign := Event.Role("bob", OWNER, "alice", true);
    StartIsOk(Created().host);
    CreatedReached();
    SecondWriterLinked("alice");
    var s := Step(CLOSED, Created(), Linking("alice"), false);
    assert Step(CLOSED, s, assign, false) == TwoOwners() by {
      BobMadeOwner();
    }
    NeedsTable(s);
    StepKeepsInv(CLOSED, s, assign, false);
    RunOfThree(CLOSED, Start(Created().host), CREATED, Linking("alice"), assign);
    IndexingFollowsRolesIffSteady(CLOSED, s, assign, false);
  }

  lemma BobMadeOwner()
    ensures
      var s := TwoOwners().(table := Some(DefaultTable("alice")));
      Step(CLOSED, s, Event.Role("bob", OWNER, "alice", true), false) == TwoOwners()
  {
    hide Can;
    var s := TwoOwners().(table := Some(DefaultTable("alice")));
    var table := DefaultTable("alice");
    CreatedReached();
    assert "alice" != "bob";
    CanByRole(table, "alice");
    CanByRole(table, "bob");
    NoneAdded(s.host, true);
    assert WritersOf(s, "bob") == {};
  }

  /**
   In a reachable state with two owners, one demotes the other, whose two writers
   were the only indexers and could each go alone: nobody indexes.
   */
  lemma BothWritersMayBeDemoted()
    ensures Inv(Start(Created().host)) && exists nodes :: Run(CLOSED, Start(Created().host), nodes) == TwoOwners()
    ensures Indexers(TwoOwners().host) != {}
    ensures Indexers(ApplyRole(TwoOwners(), Event.Role("alice", "member", "bob", true)).host) == {}
  {
    hide Can, LinksOk, Inv, Indexers;
    var s, e := TwoOwners(), Event.Role("alice", "member", "bob", true);
    TwoOwnersReached();
    var table := s.table.value;
    assert "alice" != "bob";
    assert TableOk(table) by {
      assert table.members["bob"] == OWNER;
    }
    CanByRole(table, "alice");
    CanByRole(table, "bob");
    var next := Assigned(table, "alice", "member");
    AssignedOk(table, "bob", "alice", "member");
    CanByRole(next, "alice");
    assert RoleOf(next, "alice") == Some("member");
    TwoIndexers();
    RoleChangeStopsIndexingIff(s, e);
  }

  /**
   Adding the only indexer again, by the table's rights or with no member, stops it:
   nothing asks whether it is the last.
   */
  lemma AddingMayStopIndexing()
    ensures Inv(Created()) && Indexers(Created().host) == {"k1"}
    ensures Indexers(Step(CLOSED, Created(), RolesAdd("k1", "alice", true, false), false).host) == {}
    ensures Indexers(Step(CLOSED, Created(), Event.Writer("k1", "", "alice", true), false).host) == {}
  {
    hide Can;
    CreatedReached();
    OwnersCan(Created().table.value, "alice", "context.write");
    NobodyCannot(Created().table);
    assert Indexers(Created().host) == {"k1"};
    IndexingStopsIff(CLOSED, Created(), RolesAdd("k1", "alice", true, false), false);
    IndexingStopsIff(CLOSED, Created(), Event.Writer("k1", "", "alice", true), false);
  }

  lemma TwoIndexers()
    ensures Indexers(TwoOwners().host) == {"k1", "k2"} && WritersOf(TwoOwners(), "alice") == {"k1", "k2"}
    ensures forall k :: {"k1", "k2"} != {k}
  {
    assert "k1" in {"k1", "k2"} && "k2" in {"k1", "k2"} && "k1" != "k2";
  }
}
