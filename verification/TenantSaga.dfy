// Tenant creation, update and deletion over two stores without a common transaction: the wallets of
// ACA-Py and the actors of the trust registry. Requests interleave between their external calls, and
// any external call may fail.
module TenantSaga {
  import opened ActorRegistry
  import opened Wrappers

  datatype Wallet = Wallet(walletLabel: string, imageUrl: Option<string>)

  datatype Request =
    | CreateTenant(walletLabel: string, roles: seq<Role>, imageUrl: Option<string>)
    | UpdateTenant(wallet: Id, newLabel: Option<string>, newRoles: seq<Role>, newImage: Option<string>)
    | DeleteTenant(wallet: Id)

  // What onboarding a wallet for a role yields.
  datatype Onboarded = Onboarded(did: string, invitation: Option<string>)

  // The next external call a request makes, or how it ended.
  datatype Pc =
    // creating
    | CheckingName
    | CreatingWallet
    | OnboardingNew(id: Id)
    | Registering(id: Id, onboarded: Onboarded)
    | Compensating(id: Id)
    | Returned(id: Id, result: Option<Onboarded>)
    | Refused(tried: Option<Id>)  // the wallet that was made and deleted again, if any
    | Stray(id: Id)               // the compensating delete failed
    // updating and deleting
    | LookingUpWallet
    | FetchingActor
    | FetchingToken(read: Actor)
    | OnboardingAgain(read: Actor)
    | WritingActor(write: Actor)
    | WritingWallet
    | RemovingActor
    | DeletingWallet
    | Finished
    | Aborted

  datatype Proc = Proc(req: Request, pc: Pc)

  // `next` is the source of fresh wallet ids, `known` the ids that creates have returned.
  datatype State = State(wallets: map<Id, Wallet>, actors: Table, next: Id, known: set<Id>, procs: seq<Proc>) {
    function At(i: nat, pc: Pc): State
      requires i < |procs|
    {
      this.(procs := procs[i := procs[i].(pc := pc)])
    }
  }

  // How the external call a request is waiting for turns out. A failed call has no effect.
  datatype Answer = Fails | Works | Onboards(did: string, invitation: Option<string>)

  // list(set(...)): each role once.
  function Distinct(roles: seq<Role>): seq<Role> {
    (if Issuer in roles then [Issuer] else []) + (if Verifier in roles then [Verifier] else [])
  }

  function Added(newRoles: seq<Role>, existing: seq<Role>): seq<Role> {
    (if Issuer in newRoles && Issuer !in existing then [Issuer] else [])
    + (if Verifier in newRoles && Verifier !in existing then [Verifier] else [])
  }

  function NewWallet(r: Request): Wallet
    requires r.CreateTenant?
  {
    Wallet(r.walletLabel, r.imageUrl)
  }

  function NewActor(r: Request, o: Onboarded): Actor
    requires r.CreateTenant?
  {
    Actor(r.walletLabel, r.roles, o.did, o.invitation, r.imageUrl)
  }

  // The actor an update writes back, built from the one it read.
  function Merged(read: Actor, r: Request, o: Option<Onboarded>): Actor
    requires r.UpdateTenant?
  {
    var named := if Truthy(r.newLabel) then read.(name := r.newLabel.value) else read;
    var ready := if o.None? then named
                 else named.(roles := Distinct(r.newRoles + read.roles), did := o.value.did, invitation := o.value.invitation);
    if Truthy(r.newImage) then ready.(imageUrl := r.newImage) else ready
  }

  function UpdatedWallet(w: Wallet, r: Request): Wallet
    requires r.UpdateTenant?
  {
    Wallet(if r.newLabel.Some? then r.newLabel.value else w.walletLabel,
           if r.newImage.Some? then r.newImage else w.imageUrl)
  }

  // ---- What an update asks for ----

  function RoleSet(roles: seq<Role>): set<Role> { set r | r in roles }

  predicate NoDuplicates(roles: seq<Role>) {
    forall i, j | 0 <= i < j < |roles| :: roles[i] != roles[j]
  }

  lemma DistinctRoles(roles: seq<Role>)
    ensures RoleSet(Distinct(roles)) == RoleSet(roles) && NoDuplicates(Distinct(roles))
  {
    forall r: Role ensures r in Distinct(roles) <==> r in roles {
      match r
      case Issuer =>
      case Verifier =>
    }
  }

  // The actor an update asks for, given the one it found: the name and the image where it gives
  // them, the union of the roles, and a new DID and invitation only if a role is added.
  ghost predicate Carries(read: Actor, r: Request, write: Actor)
    requires r.UpdateTenant?
  {
    && write.name == (if Truthy(r.newLabel) then r.newLabel.value else read.name)
    && write.imageUrl == (if Truthy(r.newImage) then r.newImage else read.imageUrl)
    && RoleSet(write.roles) == RoleSet(read.roles) + RoleSet(r.newRoles)
    && (if RoleSet(r.newRoles) <= RoleSet(read.roles)
        then write.roles == read.roles && write.did == read.did && write.invitation == read.invitation
        else NoDuplicates(write.roles))
  }

  lemma AddedRoles(newRoles: seq<Role>, existing: seq<Role>)
    ensures Added(newRoles, existing) == [] <==> RoleSet(newRoles) <= RoleSet(existing)
  {
    forall x | x in newRoles ensures Added(newRoles, existing) == [] ==> x in existing {
      match x
      case Issuer =>
      case Verifier =>
    }
    assert Issuer in newRoles && Issuer !in existing ==> Issuer in RoleSet(newRoles) && Issuer !in RoleSet(existing);
    assert Verifier in newRoles && Verifier !in existing ==> Verifier in RoleSet(newRoles) && Verifier !in RoleSet(existing);
  }

  // The actor built from the one read is the one asked for. Onboarded again, which it is exactly if a
  // role is added, it has the DID and the invitation that this yields.
  lemma MergedCarries(read: Actor, r: Request, o: Option<Onboarded>)
    requires r.UpdateTenant? && (o.None? <==> Added(r.newRoles, read.roles) == [])
    ensures Carries(read, r, Merged(read, r, o))
    ensures o.Some? ==> Merged(read, r, o).did == o.value.did && Merged(read, r, o).invitation == o.value.invitation
  {
    AddedRoles(r.newRoles, read.roles);
    DistinctRoles(r.newRoles + read.roles);
    assert RoleSet(r.newRoles + read.roles) == RoleSet(read.roles) + RoleSet(r.newRoles);
  }

  // The other requests, and what this one asks for, stay as they are.
  predicate OnlyMoves(s: State, s': State, i: nat)
    requires i < |s.procs|
  {
    |s'.procs| == |s.procs| && s'.procs == s.procs[i := s.procs[i].(pc := s'.procs[i].pc)]
  }

  function NextCreate(s: State, i: nat, a: Answer): (s': State)
    requires i < |s.procs| && s.procs[i].req.CreateTenant?
    ensures OnlyMoves(s, s', i)
  {
    var r := s.procs[i].req;
    match s.procs[i].pc
    case CheckingName =>
      s.At(i, if a.Fails? || NameTaken(s.actors, r.walletLabel) then Refused(None) else CreatingWallet)
    case CreatingWallet =>
      if a.Fails? then s.At(i, Refused(None))
      else
        var made := s.(wallets := s.wallets[s.next := NewWallet(r)], next := s.next + 1);
        if r.roles == [] then made.(known := s.known + {s.next}).At(i, Returned(s.next, None))
        else made.At(i, OnboardingNew(s.next))
    case OnboardingNew(w) =>
      s.At(i, if a.Onboards? then Registering(w, Onboarded(a.did, a.invitation)) else Compensating(w))
    case Registering(w, o) =>
      var t := Create(s.actors, w, NewActor(r, o));
      if a.Fails? || t.Err? then s.At(i, Compensating(w))
      else s.(actors := t.value, known := s.known + {w}).At(i, Returned(w, Some(o)))
    case Compensating(w) =>
      if a.Fails? || w !in s.wallets then s.At(i, Stray(w))
      else s.(wallets := s.wallets - {w}).At(i, Refused(Some(w)))
    case _ => s
  }

  // What an update does once it has read the registry.
  function Plan(found: Option<Actor>, r: Request): Pc
    requires r.UpdateTenant?
  {
    match found
    case None => if r.newRoles != [] then Aborted else WritingWallet
    case Some(actor) =>
      if Added(r.newRoles, actor.roles) != [] then FetchingToken(actor)
      else if Truthy(r.newLabel) || Truthy(r.newImage) then WritingActor(Merged(actor, r, None))
      else WritingWallet
  }

  function Lookup(t: Table, id: Id): Option<Actor> {
    if id in t then Some(t[id]) else None
  }

  function NextUpdate(s: State, i: nat, a: Answer): (s': State)
    requires i < |s.procs| && s.procs[i].req.UpdateTenant?
    ensures OnlyMoves(s, s', i)
  {
    var r := s.procs[i].req;
    match s.procs[i].pc
    case LookingUpWallet =>
      s.At(i, if a.Fails? || r.wallet !in s.wallets then Aborted else FetchingActor)
    case FetchingActor =>
      s.At(i, if a.Fails? then Aborted else Plan(Lookup(s.actors, r.wallet), r))
    case FetchingToken(read) =>
      s.At(i, if a.Fails? then Aborted else OnboardingAgain(read))
    case OnboardingAgain(read) =>
      s.At(i, if a.Onboards? then WritingActor(Merged(read, r, Some(Onboarded(a.did, a.invitation)))) else Aborted)
    case WritingActor(write) =>
      var t := Update(s.actors, r.wallet, write);
      if a.Fails? || t.Err? then s.At(i, Aborted) else s.(actors := t.value).At(i, WritingWallet)
    case WritingWallet =>
      if a.Fails? || r.wallet !in s.wallets then s.At(i, Aborted)
      else s.(wallets := s.wallets[r.wallet := UpdatedWallet(s.wallets[r.wallet], r)]).At(i, Finished)
    case _ => s
  }

  function NextDelete(s: State, i: nat, a: Answer): (s': State)
    requires i < |s.procs| && s.procs[i].req.DeleteTenant?
    ensures OnlyMoves(s, s', i)
  {
    var w := s.procs[i].req.wallet;
    match s.procs[i].pc
    case LookingUpWallet =>
      s.At(i, if a.Fails? || w !in s.wallets then Aborted else FetchingActor)
    case FetchingActor =>
      s.At(i, if a.Fails? then Aborted else if w in s.actors then RemovingActor else DeletingWallet)
    case RemovingActor =>
      // 404 from the registry counts as removed
      if a.Fails? then s.At(i, Aborted) else s.(actors := s.actors - {w}).At(i, DeletingWallet)
    case DeletingWallet =>
      if a.Fails? || w !in s.wallets then s.At(i, Aborted)
      else s.(wallets := s.wallets - {w}).At(i, Finished)
    case _ => s
  }

  // ---- What one call may do to the two stores ----

  // Where a failed call takes a create: until it has a wallet it is refused, then it undoes the wallet.
  function AfterFailure(pc: Pc): Pc {
    match pc
    case CheckingName => Refused(None)
    case CreatingWallet => Refused(None)
    case OnboardingNew(w) => Compensating(w)
    case Registering(w, _) => Compensating(w)
    case Compensating(w) => Stray(w)
    case _ => pc
  }

  // An updated wallet has the label and the image given, and keeps its own where none is given.
  lemma WalletIsUpdated(w: Wallet, r: Request)
    requires r.UpdateTenant?
    ensures UpdatedWallet(w, r).walletLabel == (if r.newLabel == None then w.walletLabel else r.newLabel.value)
    ensures UpdatedWallet(w, r).imageUrl == (if r.newImage == None then w.imageUrl else r.newImage)
  {
  }

  // A create leaves its name check for the wallet exactly if the check works and no actor has its label.
  lemma NameIsChecked(s: State, i: nat, a: Answer)
    requires i < |s.procs| && s.procs[i].req.CreateTenant? && s.procs[i].pc == CheckingName
    ensures Next(s, i, a) ==
            s.At(i, if !a.Fails? && forall j | j in s.actors :: s.actors[j].name != s.procs[i].req.walletLabel
                    then CreatingWallet else Refused(None))
  {
  }

  // A request that a delete of its wallet has overtaken: an update is aborted when it writes the actor or
  // the wallet; a delete takes a missing actor for removed, and is aborted if the wallet is gone.
  lemma OvertakenByDelete(s: State, i: nat, a: Answer)
    requires i < |s.procs| && !s.procs[i].req.CreateTenant?
    ensures var p, r := s.procs[i], Next(s, i, a).procs[i].pc;
            && (p.req.wallet !in s.wallets ==>
                  (p.pc == LookingUpWallet || p.pc == (if p.req.UpdateTenant? then WritingWallet else DeletingWallet) ==> r == Aborted))
            && (p.req.wallet !in s.actors && p.req.UpdateTenant? && p.pc.WritingActor? ==> r == Aborted)
            && (p.req.wallet !in s.actors && p.req.DeleteTenant? && p.pc == RemovingActor && !a.Fails? ==>
                  r == DeletingWallet && Next(s, i, a).actors == s.actors)
  {
    var w := s.procs[i].req.wallet;
    assert w !in s.actors ==> s.actors - {w} == s.actors;
  }

  // An arriving request is admitted exactly if it is a create or names a wallet that a create has returned.
  lemma ArrivesExactly(s: State, r: Request)
    ensures Arrive(s, r) ==
            if r.CreateTenant? then s.(procs := s.procs + [Proc(r, CheckingName)])
            else if r.wallet in s.known then s.(procs := s.procs + [Proc(r, LookingUpWallet)])
            else s
  {
  }

  // A create adds a wallet only at a fresh id and removes only its own again; it adds an actor only at
  // its own wallet, where there is none. A failed call changes nothing, and no call changes both stores.
  lemma CreateCallEffect(s: State, i: nat, a: Answer)
    requires i < |s.procs| && s.procs[i].req.CreateTenant?
    ensures var s', pc := NextCreate(s, i, a), s.procs[i].pc;
            && (a.Fails? ==> s'.wallets == s.wallets && s'.actors == s.actors && s'.procs[i].pc == AfterFailure(pc))
            && (s'.wallets != s.wallets ==>
                  || (pc == CreatingWallet && s'.wallets - {s.next} == s.wallets - {s.next} && s.next in s'.wallets)
                  || (pc == Compensating(pc.id) && pc.id in s.wallets && s'.wallets == s.wallets - {pc.id}))
            && (s'.actors != s.actors ==>
                  && pc.Registering? && pc.id !in s.actors && s'.actors - {pc.id} == s.actors
                  && s'.wallets == s.wallets)
  {
  }

  predicate UpdatePc(pc: Pc) {
    || pc.LookingUpWallet? || pc.FetchingActor? || pc.FetchingToken? || pc.OnboardingAgain?
    || pc.WritingActor? || pc.WritingWallet?
  }

  // An update changes only entries of the wallet it names, and neither store gains or loses an id.
  // A failed call aborts it.
  lemma UpdateCallEffect(s: State, i: nat, a: Answer)
    requires i < |s.procs| && s.procs[i].req.UpdateTenant?
    ensures var s', pc, w := NextUpdate(s, i, a), s.procs[i].pc, s.procs[i].req.wallet;
            && (a.Fails? ==> s'.wallets == s.wallets && s'.actors == s.actors)
            && (a.Fails? && UpdatePc(pc) ==> s'.procs[i].pc == Aborted)
            && s'.wallets.Keys == s.wallets.Keys && s'.actors.Keys == s.actors.Keys
            && s'.wallets - {w} == s.wallets - {w} && s'.actors - {w} == s.actors - {w}
            && (s'.wallets != s.wallets ==> pc == WritingWallet && s'.actors == s.actors)
            && (s'.actors != s.actors ==> pc.WritingActor? && s'.procs[i].pc == WritingWallet)
  {
  }

  // A delete removes the actor it names before the wallet, and nothing else. A failed call aborts it.
  lemma DeleteCallEffect(s: State, i: nat, a: Answer)
    requires i < |s.procs| && s.procs[i].req.DeleteTenant?
    ensures var s', pc, w := NextDelete(s, i, a), s.procs[i].pc, s.procs[i].req.wallet;
            && (a.Fails? ==> s'.wallets == s.wallets && s'.actors == s.actors)
            && (a.Fails? && (pc == LookingUpWallet || pc == FetchingActor || pc == RemovingActor || pc == DeletingWallet) ==>
                  s'.procs[i].pc == Aborted)
            && (s'.actors != s.actors ==>
                  pc == RemovingActor && s'.procs[i].pc == DeletingWallet && w in s.actors && s'.actors == s.actors - {w})
            && (s'.wallets != s.wallets ==>
                  pc == DeletingWallet && s'.procs[i].pc == Finished && w in s.wallets && s'.wallets == s.wallets - {w})
            && (s'.procs[i].pc == DeletingWallet && pc != DeletingWallet ==> w !in s'.actors)
  {
  }

  // Request `i` performs its next external call.
  function Next(s: State, i: nat, a: Answer): State {
    if i >= |s.procs| then s
    else match s.procs[i].req
      case CreateTenant(_, _, _) => NextCreate(s, i, a)
      case UpdateTenant(_, _, _, _) => NextUpdate(s, i, a)
      case DeleteTenant(_) => NextDelete(s, i, a)
  }

  function Names(r: Request): Option<Id> {
    if r.CreateTenant? then None else Some(r.wallet)
  }

  function FirstPc(r: Request): Pc {
    if r.CreateTenant? then CheckingName else LookingUpWallet
  }

  // Updates and deletes name only wallets that a create has returned.
  function Arrive(s: State, r: Request): State {
    if Names(r).Some? && Names(r).value !in s.known then s
    else s.(procs := s.procs + [Proc(r, FirstPc(r))])
  }

  datatype Action = Arrives(req: Request) | Calls(i: nat, answer: Answer)

  function Do(s: State, action: Action): State {
    match action
    case Arrives(r) => Arrive(s, r)
    case Calls(i, a) => Next(s, i, a)
  }

  const EMPTY := State(map[], map[], 0, {}, [])

  function Run(s: State, actions: seq<Action>): State {
    if actions == [] then s else Do(Run(s, actions[..|actions| - 1]), actions[|actions| - 1])
  }
}
