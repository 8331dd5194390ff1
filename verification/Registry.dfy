/**
 The WebAuthn authenticator registry: roles, statuses, and the register, promote and revoke handlers. Registration is
 not a transaction: the demotions come first, and the INSERT can still fail, on the unique credential id or because
 the database cannot write; a process that dies before the INSERT leaves the same table.
 */
module Registry {
  import opened Wrappers
  import Sets

  /** `role` is whatever the caller sent: only 'primary' and 'recovery' are treated specially. */
  datatype Authenticator = Authenticator(credentialId: string, role: string, active: bool)

  type Table = map<string, Authenticator>

  datatype Error = DuplicateKey | WriteFailed | NotFound | Inactive | AlreadyPrimary | LastCredential

  predicate IsActive(t: Table, id: string, role: string) {
    id in t && t[id].active && t[id].role == role
  }

  /** Active and of any role but recovery: what an ordinary sign-in can use. */
  predicate Usable(a: Authenticator) {
    a.active && a.role != "recovery"
  }

  /** UPDATE ... SET role = 'backup' WHERE role = 'primary' AND status = 'active'. */
  function DemotePrimaries(t: Table): Table {
    map id | id in t :: if t[id].active && t[id].role == "primary" then t[id].(role := "backup") else t[id]
  }

  function RevokeRecoveries(t: Table): Table {
    map id | id in t :: if t[id].active && t[id].role == "recovery" then t[id].(active := false) else t[id]
  }

  /** What registering does before it inserts. */
  function Prepare(t: Table, role: string): Table {
    if role == "primary" then DemotePrimaries(t) else if role == "recovery" then RevokeRecoveries(t) else t
  }

  predicate Clashes(t: Table, id: string, credentialId: string) {
    id in t || exists other :: other in t && t[other].credentialId == credentialId
  }

  /** `writable` says whether the database accepts the INSERT. */
  function Register(t: Table, id: string, credentialId: string, role: string, writable: bool)
    : (Table, Result<(), Error>)
  {
    var prepared := Prepare(t, role);
    if Clashes(prepared, id, credentialId) then (prepared, Err(DuplicateKey))
    else if !writable then (prepared, Err(WriteFailed))
    else (prepared[id := Authenticator(credentialId, role, true)], Ok(()))
  }

  function Promote(t: Table, id: string): (Table, Result<(), Error>) {
    if id !in t then (t, Err(NotFound))
    else if !t[id].active then (t, Err(Inactive))
    else if t[id].role == "primary" then (t, Err(AlreadyPrimary))
    else
      var demoted := DemotePrimaries(t);
      (demoted[id := demoted[id].(role := "primary")], Ok(()))
  }

  function UsableIds(t: Table): set<string> {
    set id | id in t && Usable(t[id])
  }

  function Revoke(t: Table, id: string): (Table, Result<(), Error>) {
    if id !in t then (t, Err(NotFound))
    else if !t[id].active then (t, Err(Inactive))
    else if t[id].role != "recovery" && |UsableIds(t)| <= 1 then (t, Err(LastCredential))
    else (t[id := t[id].(active := false)], Ok(()))
  }

  datatype Event =
    | DoRegister(id: string, credentialId: string, role: string, writable: bool)
    | DoPromote(id: string)
    | DoRevoke(id: string)

  function Step(t: Table, e: Event): Table {
    match e
    case DoRegister(id, credentialId, role, writable) => Register(t, id, credentialId, role, writable).0
    case DoPromote(id) => Promote(t, id).0
    case DoRevoke(id) => Revoke(t, id).0
  }

  function Run(t: Table, events: seq<Event>): Table
    decreases |events|
  {
    if events == [] then t else Run(Step(t, events[0]), events[1..])
  }

  ghost predicate AtMostOne(t: Table, role: string) {
    forall a, b :: IsActive(t, a, role) && IsActive(t, b, role) ==> a == b
  }

  ghost predicate CredentialIdsUnique(t: Table) {
    forall a, b :: a in t && b in t && t[a].credentialId == t[b].credentialId ==> a == b
  }

  ghost predicate Valid(t: Table) {
    AtMostOne(t, "primary") && AtMostOne(t, "recovery") && CredentialIdsUnique(t)
  }

  /** A change that makes only `id` newly active in a role, and then leaves no other there, keeps it exclusive. */
  lemma StaysExclusive(t: Table, u: Table, id: string, role: string)
    requires AtMostOne(t, role)
    requires forall k :: k != id && IsActive(u, k, role) ==> IsActive(t, k, role)
    requires IsActive(u, id, role) ==> IsActive(t, id, role) || forall k :: k != id ==> !IsActive(u, k, role)
    ensures AtMostOne(u, role)
  {
    forall a, b | IsActive(u, a, role) && IsActive(u, b, role) ensures a == b {
      assert a != id ==> IsActive(t, a, role);
      assert b != id ==> IsActive(t, b, role);
    }
  }

  /** Stepping down keeps every row and its credential id, and only takes roles away. */
  lemma PrepareSteps(t: Table, role: string)
    ensures var u := Prepare(t, role);
      && u.Keys == t.Keys
      && (forall k :: k in t ==> u[k].credentialId == t[k].credentialId && (Usable(t[k]) ==> Usable(u[k])))
      && (forall k :: IsActive(u, k, "primary") ==> IsActive(t, k, "primary") && role != "primary")
      && (forall k :: IsActive(u, k, "recovery") ==> IsActive(t, k, "recovery") && role != "recovery")
  {
  }

  lemma RegisterKeepsValid(t: Table, id: string, credentialId: string, role: string, writable: bool)
    requires Valid(t)
    ensures Valid(Register(t, id, credentialId, role, writable).0)
    ensures UsableIds(t) <= UsableIds(Register(t, id, credentialId, role, writable).0)
  {
    PrepareSteps(t, role);
    var prepared, u := Prepare(t, role), Register(t, id, credentialId, role, writable).0;
    assert forall k :: k in prepared ==> k in u && u[k] == prepared[k];
    StaysExclusive(t, u, id, "primary");
    StaysExclusive(t, u, id, "recovery");
  }

  lemma PromoteKeepsValid(t: Table, id: string)
    requires Valid(t)
    ensures Valid(Promote(t, id).0)
    ensures UsableIds(t) <= UsableIds(Promote(t, id).0)
  {
    PrepareSteps(t, "primary");
    var demoted, u := Prepare(t, "primary"), Promote(t, id).0;
    if u != t {
      assert forall k :: k in demoted && k != id ==> u[k] == demoted[k];
      assert u.Keys == t.Keys && u[id].credentialId == t[id].credentialId;
      StaysExclusive(t, u, id, "primary");
      StaysExclusive(t, u, id, "recovery");
    }
  }

  lemma RevokeKeepsValid(t: Table, id: string)
    requires Valid(t)
    ensures Valid(Revoke(t, id).0)
    ensures UsableIds(t) != {} ==> UsableIds(Revoke(t, id).0) != {}
  {
    var u := Revoke(t, id).0;
    StaysExclusive(t, u, id, "primary");
    StaysExclusive(t, u, id, "recovery");
    if u != t {
      assert UsableIds(t) - {id} <= UsableIds(u);
      if t[id].role == "recovery" {
        assert id !in UsableIds(t);
      } else if UsableIds(t) - {id} == {} {
        assert UsableIds(t) <= {id};
        SubsetOfSingleton(UsableIds(t), id);
      }
    }
  }

  lemma SubsetOfSingleton(s: set<string>, x: string)
    requires s <= {x}
    ensures |s| <= 1
  {
    if x in s { assert s == {x}; } else { assert s == {}; }
  }

  /**
   Over every run: at most one active primary, at most one active recovery credential, no credential id twice, and
   once some usable credential is enrolled there always is one, so the owner cannot be locked out.
   */
  lemma {:induction false} RunKeepsValid(t: Table, events: seq<Event>)
    requires Valid(t)
    ensures Valid(Run(t, events))
    ensures UsableIds(t) != {} ==> UsableIds(Run(t, events)) != {}
    decreases |events|
  {
    if events != [] {
      var u := Step(t, events[0]);
      match events[0] {
        case DoRegister(id, credentialId, role, writable) => RegisterKeepsValid(t, id, credentialId, role, writable);
        case DoPromote(id) => PromoteKeepsValid(t, id);
        case DoRevoke(id) => RevokeKeepsValid(t, id);
      }
      RunKeepsValid(u, events[1..]);
    }
  }

  /**
   When the handlers say yes: a registration whenever the row id and the credential id are new and the database can
   write; a promotion for every active credential that is not primary yet; a revocation for every active credential
   but the last usable one.
   */
  lemma SucceedsIff(t: Table, e: Event)
    requires Valid(t)
    ensures e.DoRegister? ==>
      (Register(t, e.id, e.credentialId, e.role, e.writable).1.Ok? <==>
         e.writable && e.id !in t && forall k :: k in t ==> t[k].credentialId != e.credentialId)
    ensures e.DoPromote? ==>
      (Promote(t, e.id).1.Ok? <==> e.id in t && t[e.id].active && !IsActive(t, e.id, "primary"))
    ensures e.DoRevoke? ==>
      (Revoke(t, e.id).1.Ok? <==>
         e.id in t && t[e.id].active && (t[e.id].role == "recovery" || exists k :: k != e.id && k in t && Usable(t[k])))
    ensures !e.DoRegister? && Step(t, e) != t ==> (if e.DoPromote? then Promote(t, e.id).1.Ok? else Revoke(t, e.id).1.Ok?)
  {
    match e
    case DoRegister(id, credentialId, role, _) => PrepareSteps(t, role);
    case DoPromote(_) =>
    case DoRevoke(id) =>
      if id in t && Usable(t[id]) {
        OneOfManyIff(t, id);
      }
  }

  /** A refusal names a reason that holds. */
  lemma RefusalsAreJustified(t: Table, e: Event)
    ensures e.DoRegister? ==>
      match Register(t, e.id, e.credentialId, e.role, e.writable).1
      case Ok(_) => true
      case Err(DuplicateKey) => e.id in t || exists k :: k in t && t[k].credentialId == e.credentialId
      case Err(error) => error == WriteFailed && !e.writable
    ensures !e.DoRegister? ==>
      match if e.DoPromote? then Promote(t, e.id).1 else Revoke(t, e.id).1
      case Ok(_) => true
      case Err(NotFound) => e.id !in t
      case Err(Inactive) => e.id in t && !t[e.id].active
      case Err(AlreadyPrimary) => e.DoPromote? && e.id in t && t[e.id].role == "primary"
      case Err(error) => error == LastCredential && e.DoRevoke? && |UsableIds(t)| <= 1
  {
    if e.DoRegister? {
      PrepareSteps(t, e.role);
      assert Clashes(Prepare(t, e.role), e.id, e.credentialId) ==>
        e.id in t || exists k :: k in t && Prepare(t, e.role)[k].credentialId == t[k].credentialId == e.credentialId;
    }
  }

  lemma OneOfManyIff(t: Table, id: string)
    requires id in t && Usable(t[id])
    ensures |UsableIds(t)| > 1 <==> exists k :: k != id && k in t && Usable(t[k])
  {
    if k :| k != id && k in t && Usable(t[k]) {
      assert {id, k} <= UsableIds(t);
      Sets.SubsetIsSmaller({id, k}, UsableIds(t));
    } else {
      assert UsableIds(t) <= {id};
      SubsetOfSingleton(UsableIds(t), id);
    }
  }

  /** Whoever is not the credential at hand keeps its row, except for stepping down from the role it takes. */
  lemma OthersOnlyStepDown(t: Table, e: Event, k: string)
    requires k in t && k != e.id
    ensures k in Step(t, e)
    ensures Step(t, e)[k] ==
      if IsActive(t, k, "primary") && ((e.DoRegister? && e.role == "primary") || (e.DoPromote? && Step(t, e) != t))
      then t[k].(role := "backup")
      else if IsActive(t, k, "recovery") && e.DoRegister? && e.role == "recovery" then t[k].(active := false)
      else t[k]
  {
    if e.DoPromote? && Promote(t, e.id).1.Ok? {
      assert Step(t, e)[e.id].role == "primary";
    }
  }

  /** Success means what it says: the new or promoted authenticator holds its role, alone where the role is exclusive. */
  lemma SuccessGrantsRole(t: Table, e: Event)
    requires Valid(t)
    ensures e.DoRegister? && Register(t, e.id, e.credentialId, e.role, e.writable).1.Ok? ==>
      && Step(t, e)[e.id] == Authenticator(e.credentialId, e.role, true)
      && (e.role == "primary" || e.role == "recovery" ==> forall k :: IsActive(Step(t, e), k, e.role) ==> k == e.id)
    ensures e.DoPromote? && Promote(t, e.id).1.Ok? ==>
      && e.id in t && Step(t, e)[e.id] == t[e.id].(role := "primary")
      && forall k :: IsActive(Step(t, e), k, "primary") <==> k == e.id
    ensures e.DoRevoke? && Revoke(t, e.id).1.Ok? ==>
      e.id in t && Step(t, e)[e.id] == t[e.id].(active := false) && forall k :: k in t && k != e.id ==> Step(t, e)[k] == t[k]
  {
    if e.DoRegister? {
      PrepareSteps(t, e.role);
    } else if e.DoPromote? {
      PrepareSteps(t, "primary");
    }
  }

  /**
   A failed registration is not always without effect: it leaves the table as it was exactly when there was nothing to
   step down. Otherwise the primary stays demoted, or the recovery credential revoked, with nothing in its place.
   */
  lemma FailedRegistrationChangesNothingIff(t: Table, id: string, credentialId: string, role: string, writable: bool)
    requires Register(t, id, credentialId, role, writable).1.Err?
    ensures Register(t, id, credentialId, role, writable).0 == t
       <==> (role == "primary" || role == "recovery" ==> forall a :: !IsActive(t, a, role))
    ensures role == "primary" || role == "recovery" ==>
      forall a :: !IsActive(Register(t, id, credentialId, role, writable).0, a, role)
  {
    var u := Register(t, id, credentialId, role, writable).0;
    if role == "primary" || role == "recovery" {
      if a :| IsActive(t, a, role) {
        assert u[a] != t[a];
      } else {
        assert forall a :: a in t ==> !IsActive(t, a, role);
        assert u == t;
      }
    }
  }

  // ---- The object ----

  class RegistryDb {
    var table: Table

    constructor ()
      ensures table == map[]
    {
      table := map[];
    }

    method RegisterVerify(id: string, credentialId: string, role: string, writable: bool)
      returns (result: Result<(), Error>)
      modifies this
      ensures (table, result) == Register(old(table), id, credentialId, role, writable)
    {
      if role == "primary" {
        table := DemotePrimaries(table);
      }
      if role == "recovery" {
        RevokeEach();
      }
      assert table == Prepare(old(table), role);
      if id in table || exists other :: other in table && table[other].credentialId == credentialId {
        return Err(DuplicateKey);
      }
      if !writable {
        return Err(WriteFailed);
      }
      table := table[id := Authenticator(credentialId, role, true)];
      return Ok(());
    }

    /** The loop over the active recovery credentials, revoking them one by one. */
    method RevokeEach()
      modifies this
      ensures table == RevokeRecoveries(old(table))
    {
      var existing := set id | id in table && table[id].active && table[id].role == "recovery";
      while existing != {}
        invariant table.Keys == old(table).Keys && existing <= table.Keys
        invariant forall id :: id in existing ==> old(table)[id].active && old(table)[id].role == "recovery"
        invariant forall id :: id in old(table) ==>
          table[id] == if old(table)[id].active && old(table)[id].role == "recovery" && id !in existing
                       then old(table)[id].(active := false) else old(table)[id]
        decreases existing
      {
        var id :| id in existing;
        table := table[id := table[id].(active := false)];
        existing := existing - {id};
      }
    }

    method PromoteHandler(id: string) returns (result: Result<(), Error>)
      modifies this
      ensures (table, result) == Promote(old(table), id)
    {
      if id !in table {
        return Err(NotFound);
      }
      if !table[id].active {
        return Err(Inactive);
      }
      if table[id].role == "primary" {
        return Err(AlreadyPrimary);
      }
      table := DemotePrimaries(table);
      table := table[id := table[id].(role := "primary")];
      return Ok(());
    }

    method RevokeHandler(id: string) returns (result: Result<(), Error>)
      modifies this
      ensures (table, result) == Revoke(old(table), id)
    {
      if id !in table {
        return Err(NotFound);
      }
      if !table[id].active {
        return Err(Inactive);
      }
      if table[id].role != "recovery" {
        var count := |UsableIds(table)|;
        if count <= 1 {
          return Err(LastCredential);
        }
      }
      table := table[id := table[id].(active := false)];
      return Ok(());
    }
  }
}
