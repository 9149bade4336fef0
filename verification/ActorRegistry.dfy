// The actors table of the trust registry: its unique columns and the operations of crud.py.
module ActorRegistry {
  import opened Wrappers

  type Id = nat

  datatype Role = Issuer | Verifier

  datatype Actor = Actor(name: string, roles: seq<Role>, did: string,
                         invitation: Option<string>, imageUrl: Option<string>)

  type Table = map<Id, Actor>

  datatype RegistryError =
    | Unprocessable   // the DID is not fully qualified
    | AlreadyExists   // a unique column rejects the insert
    | DoesNotExist
    | Violation       // a unique column rejects the update
    | IdMismatch      // the body names another actor than the path

  predicate Truthy(o: Option<string>) { o.Some? && o.value != "" }

  predicate FullyQualified(did: string) { "did:" <= did }

  // The unique columns besides the id; NULL invitations do not clash.
  predicate Clash(a: Actor, b: Actor) {
    || a.name == b.name
    || a.did == b.did
    || (a.invitation.Some? && a.invitation == b.invitation)
  }

  ghost predicate Unique(t: Table) {
    forall i, j | i in t && j in t && i != j :: !Clash(t[i], t[j])
  }

  predicate ClashesElsewhere(t: Table, id: Id, a: Actor) {
    exists j | j in t :: j != id && Clash(t[j], a)
  }

  predicate NameTaken(t: Table, name: string) {
    exists j | j in t :: t[j].name == name
  }

  function Create(t: Table, id: Id, a: Actor): Result<Table, RegistryError> {
    if !FullyQualified(a.did) then Err(Unprocessable)
    else if id in t || ClashesElsewhere(t, id, a) then Err(AlreadyExists)
    else Ok(t[id := a])
  }

  // An update without an image keeps the stored one.
  function Stored(t: Table, id: Id, a: Actor): Actor
    requires id in t
  {
    if Truthy(a.imageUrl) then a else a.(imageUrl := t[id].imageUrl)
  }

  function Update(t: Table, id: Id, a: Actor): Result<Table, RegistryError> {
    if !FullyQualified(a.did) then Err(Unprocessable)
    else if id !in t then Err(DoesNotExist)
    else if ClashesElsewhere(t, id, a) then Err(Violation)
    else Ok(t[id := Stored(t, id, a)])
  }

  function Remove(t: Table, id: Id): Result<Table, RegistryError> {
    if id in t then Ok(t - {id}) else Err(DoesNotExist)
  }

  datatype Op = CreateOp(id: Id, actor: Actor) | UpdateOp(id: Id, actor: Actor) | RemoveOp(id: Id)

  function Apply(t: Table, op: Op): Result<Table, RegistryError> {
    match op
    case CreateOp(id, a) => Create(t, id, a)
    case UpdateOp(id, a) => Update(t, id, a)
    case RemoveOp(id) => Remove(t, id)
  }

  // A rejected operation leaves the table as it was.
  function RunOps(t: Table, ops: seq<Op>): Table {
    if ops == [] then t
    else
      var before := RunOps(t, ops[..|ops| - 1]);
      var r := Apply(before, ops[|ops| - 1]);
      if r.Ok? then r.value else before
  }

  lemma RunOpsSnoc(ops: seq<Op>, op: Op)
    ensures RunOps(map[], ops + [op]) ==
            match Apply(RunOps(map[], ops), op) case Ok(t) => t case Err(_) => RunOps(map[], ops)
  {
    assert (ops + [op])[..|ops|] == ops;
  }

  lemma ApplyKeepsUnique(t: Table, op: Op)
    requires Unique(t) && Apply(t, op).Ok?
    ensures Unique(Apply(t, op).value)
  {
  }

  // The unique columns reject a change exactly if it would break uniqueness.
  lemma AcceptedIfUnique(t: Table, id: Id, a: Actor)
    requires Unique(t)
    ensures id !in t ==> (ClashesElsewhere(t, id, a) <==> !Unique(t[id := a]))
    ensures id in t ==> (ClashesElsewhere(t, id, a) <==> !Unique(t[id := Stored(t, id, a)]))
  {
    if ClashesElsewhere(t, id, a) {
      var j :| j in t && j != id && Clash(t[j], a);
      var u := if id in t then t[id := Stored(t, id, a)] else t[id := a];
      assert Clash(u[j], u[id]);
    }
  }

  // No other row has the name, the DID or the invitation.
  predicate FitsIn(t: Table, id: Id, name: string, did: string, invitation: Option<string>) {
    forall j | j in t && j != id ::
      t[j].name != name && t[j].did != did && (invitation.Some? ==> t[j].invitation != invitation)
  }

  lemma FitsUnlessClash(t: Table, id: Id, a: Actor)
    ensures FitsIn(t, id, a.name, a.did, a.invitation) <==> !ClashesElsewhere(t, id, a)
  {
    if !FitsIn(t, id, a.name, a.did, a.invitation) {
      var j :| j in t && j != id
               && !(t[j].name != a.name && t[j].did != a.did && (a.invitation.Some? ==> t[j].invitation != a.invitation));
      assert Clash(t[j], a);
    }
    if FitsIn(t, id, a.name, a.did, a.invitation) {
      forall j | j in t && j != id ensures !Clash(t[j], a) {
        assert t[j].name != a.name;
      }
    }
  }

  // How a create and an update turn out, in terms of the columns: a DID that is not fully qualified is
  // unprocessable, an insert needs a free id, an update an existing one, and either needs a name, a DID
  // and an invitation, if any, that no other row has.
  lemma OutcomesExactly(t: Table, id: Id, a: Actor)
    ensures var fits := FitsIn(t, id, a.name, a.did, a.invitation);
            && Create(t, id, a) == (if !("did:" <= a.did) then Err(Unprocessable)
                                    else if id in t || !fits then Err(AlreadyExists)
                                    else Ok(t[id := a]))
            && Update(t, id, a) == (if !("did:" <= a.did) then Err(Unprocessable)
                                    else if id !in t then Err(DoesNotExist)
                                    else if !fits then Err(Violation)
                                    else Ok(t[id := a.(imageUrl := if a.imageUrl in {None, Some("")} then t[id].imageUrl else a.imageUrl)]))
  {
    FitsUnlessClash(t, id, a);
  }

  // In every reachable table ids, names, DIDs and non-null invitations are pairwise distinct, and a
  // create is rejected exactly when it would break that or the DID is not fully qualified.
  lemma {:induction false} ReachableTablesAreUnique(ops: seq<Op>, id: Id, a: Actor)
    ensures var t := RunOps(map[], ops);
            && Unique(t)
            && (forall i | i in t :: FitsIn(t, i, t[i].name, t[i].did, t[i].invitation))
            && (Create(t, id, a).Ok? <==> FullyQualified(a.did) && id !in t && Unique(t[id := a]))
            && (Update(t, id, a).Ok? <==> FullyQualified(a.did) && id in t && Unique(t[id := Stored(t, id, a)]))
  {
    if ops != [] {
      ReachableTablesAreUnique(ops[..|ops| - 1], id, a);
      var before := RunOps(map[], ops[..|ops| - 1]);
      if Apply(before, ops[|ops| - 1]).Ok? {
        ApplyKeepsUnique(before, ops[|ops| - 1]);
      }
    }
    var t := RunOps(map[], ops);
    AcceptedIfUnique(t, id, a);
    forall i | i in t ensures FitsIn(t, i, t[i].name, t[i].did, t[i].invitation) {
      FitsUnlessClash(t, i, t[i]);
    }
  }

  // A change the code hands to the database: its actor is validated, and only existing rows are
  // updated or removed.
  predicate Admissible(t: Table, op: Op) {
    match op
    case CreateOp(_, a) => FullyQualified(a.did)
    case UpdateOp(id, a) => FullyQualified(a.did) && id in t
    case RemoveOp(id) => id in t
  }

  // The table with the change, uniqueness aside.
  function Changed(t: Table, op: Op): Table
    requires Admissible(t, op)
  {
    match op
    case CreateOp(id, a) => t[id := a]
    case UpdateOp(id, a) => t[id := Stored(t, id, a)]
    case RemoveOp(id) => t - {id}
  }

  lemma CommitsIfUnique(t: Table, op: Op)
    requires Unique(t) && Admissible(t, op)
    ensures Apply(t, op).Ok? <==> (op.CreateOp? ==> op.id !in t) && Unique(Changed(t, op))
    ensures Apply(t, op).Ok? ==> Apply(t, op).value == Changed(t, op)
  {
    if !op.RemoveOp? {
      AcceptedIfUnique(t, op.id, op.actor);
    }
  }

  // A database session: one pending change, checked against the unique columns at commit.
  class Session {
    var table: Table
    var pending: Option<Op>
    ghost var history: seq<Op>  // the operations asked for so far, rejected ones included

    ghost predicate Valid()
      reads this
    {
      Unique(table) && pending.None? && table == RunOps(map[], history)
    }

    constructor ()
      ensures Valid() && table == map[] && history == []
    {
      table, pending, history := map[], None, [];
    }

    // The database applies the pending change exactly if the columns stay unique; otherwise it raises
    // and leaves the change pending.
    method Commit() returns (ok: bool)
      requires Unique(table) && pending.Some? && Admissible(table, pending.value)
      modifies this`table, this`pending
      ensures Unique(table)
      ensures ok <==> (old(pending).value.CreateOp? ==> old(pending).value.id !in old(table))
                      && Unique(Changed(old(table), old(pending).value))
      ensures ok ==> pending.None? && table == Changed(old(table), old(pending).value)
      ensures !ok ==> pending == old(pending) && table == old(table)
    {
      CommitsIfUnique(table, pending.value);
      var change := Apply(table, pending.value);
      ok := change.Ok?;
      if change.Ok? {
        table, pending := change.value, None;
      }
    }

    method Rollback()
      modifies this`pending
      ensures pending.None?
    {
      pending := None;
    }

    method CreateActor(id: Id, actor: Actor) returns (r: Result<Actor, RegistryError>)
      requires Valid()
      modifies this
      ensures Valid() && history == old(history) + [CreateOp(id, actor)]
      ensures r == (match Create(old(table), id, actor) case Ok(t) => Ok(t[id]) case Err(e) => Err(e))
      ensures table == if r.Ok? then old(table)[id := actor] else old(table)
    {
      RunOpsSnoc(history, CreateOp(id, actor));
      history := history + [CreateOp(id, actor)];
      if !FullyQualified(actor.did) {
        return Err(Unprocessable);
      }
      pending := Some(CreateOp(id, actor));
      CommitsIfUnique(table, pending.value);
      var ok := Commit();
      if !ok {
        Rollback();
        return Err(AlreadyExists);
      }
      r := Ok(table[id]);
    }

    method UpdateActor(id: Id, actor: Actor) returns (r: Result<Actor, RegistryError>)
      requires Valid()
      modifies this
      ensures Valid() && history == old(history) + [UpdateOp(id, actor)]
      ensures r == (match Update(old(table), id, actor) case Ok(t) => Ok(t[id]) case Err(e) => Err(e))
      ensures r.Ok? ==>
                && id in old(table)
                && r.value == actor.(imageUrl := if Truthy(actor.imageUrl) then actor.imageUrl else old(table)[id].imageUrl)
      ensures table == if r.Ok? then old(table)[id := r.value] else old(table)
    {
      RunOpsSnoc(history, UpdateOp(id, actor));
      history := history + [UpdateOp(id, actor)];
      if !FullyQualified(actor.did) {
        return Err(Unprocessable);
      }
      if id !in table {
        return Err(DoesNotExist);
      }
      pending := Some(UpdateOp(id, actor));
      CommitsIfUnique(table, pending.value);
      var ok := Commit();
      if !ok {
        Rollback();
        return Err(Violation);
      }
      r := Ok(table[id]);
    }

    // The update route: a body may leave its id out, but not name another actor. Only the actor named in
    // the path can change.
    method PutActor(pathId: Id, bodyId: Option<Id>, actor: Actor) returns (r: Result<Actor, RegistryError>)
      requires Valid()
      modifies this
      ensures Valid()
      ensures bodyId.Some? && bodyId.value != pathId ==>
                r == Err(if FullyQualified(actor.did) then IdMismatch else Unprocessable) && table == old(table)
      ensures bodyId.None? || bodyId.value == pathId ==>
                r == match Update(old(table), pathId, actor) case Ok(t) => Ok(t[pathId]) case Err(e) => Err(e)
      ensures table == if r.Ok? then old(table)[pathId := r.value] else old(table)
      ensures table.Keys == old(table).Keys
    {
      if !FullyQualified(actor.did) {
        return Err(Unprocessable);
      }
      if bodyId.Some? && bodyId.value != pathId {
        return Err(IdMismatch);
      }
      var id := if bodyId.Some? then bodyId.value else pathId;
      r := UpdateActor(id, actor);
    }

    method DeleteActor(id: Id) returns (r: Result<Actor, RegistryError>)
      requires Valid()
      modifies this
      ensures Valid() && history == old(history) + [RemoveOp(id)]
      ensures r == if id in old(table) then Ok(old(table)[id]) else Err(DoesNotExist)
      ensures table == old(table) - {id}
    {
      RunOpsSnoc(history, RemoveOp(id));
      history := history + [RemoveOp(id)];
      if id !in table {
        assert table - {id} == table;
        return Err(DoesNotExist);
      }
      r := Ok(table[id]);
      pending := Some(RemoveOp(id));
      CommitsIfUnique(table, pending.value);
      var ok := Commit();
    }
  }
}
