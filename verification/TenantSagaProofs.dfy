// What every interleaving of tenant requests keeps.
module TenantSagaProofs {
  import opened ActorRegistry
  import opened TenantSaga
  import opened Wrappers

  // The wallet a create request has made.
  function Made(pc: Pc): Option<Id> {
    match pc
    case OnboardingNew(w) => Some(w)
    case Registering(w, _) => Some(w)
    case Compensating(w) => Some(w)
    case Returned(w, _) => Some(w)
    case Refused(tried) => tried
    case Stray(w) => Some(w)
    case _ => None
  }

  predicate CreatePc(pc: Pc) {
    || pc.CheckingName? || pc.CreatingWallet? || pc.OnboardingNew? || pc.Registering?
    || pc.Compensating? || pc.Returned? || pc.Refused? || pc.Stray?
  }

  predicate Untouched(s: State, w: Id) {
    forall k | 0 <= k < |s.procs| :: Names(s.procs[k].req) != Some(w)
  }

  // What a create request has left in the two stores.
  ghost predicate Footprint(s: State, p: Proc)
    requires p.req.CreateTenant?
  {
    match p.pc
    case Refused(tried) =>
      tried.Some? ==> tried.value !in s.wallets && tried.value !in s.actors
    case Returned(w, result) =>
      && (result.None? <==> p.req.roles == [])
      && (p.req.roles == [] ==> w !in s.actors)
      && (Untouched(s, w) ==>
            && w in s.wallets && s.wallets[w] == NewWallet(p.req)
            && (p.req.roles != [] ==> w in s.actors && s.actors[w] == NewActor(p.req, result.value)))
    case _ =>
      var made := Made(p.pc);
      made.Some? ==>
        && p.req.roles != []
        && made.value in s.wallets && s.wallets[made.value] == NewWallet(p.req)
        && made.value !in s.actors
  }

  // One request seen on its own.
  ghost predicate ProcOk(s: State, p: Proc) {
    if p.req.CreateTenant? then
      && CreatePc(p.pc)
      && Footprint(s, p)
      && (Made(p.pc).Some? ==> Made(p.pc).value < s.next && (Made(p.pc).value in s.known <==> p.pc.Returned?))
    else
      && !CreatePc(p.pc)
      && p.req.wallet in s.known
      && (p.req.DeleteTenant? && p.pc.DeletingWallet? ==> p.req.wallet !in s.actors)
  }

  // The two stores.
  ghost predicate StoresOk(s: State) {
    && Unique(s.actors)
    && (forall w | w in s.actors :: w in s.wallets && w in s.known)
    && (forall w | w in s.wallets :: w < s.next)
    && (forall w | w in s.known :: w < s.next)
  }

  ghost predicate Inv(s: State) {
    && StoresOk(s)
    && (forall i | 0 <= i < |s.procs| :: ProcOk(s, s.procs[i]))
    && (forall i, j | 0 <= i < j < |s.procs| && Made(s.procs[i].pc).Some? :: Made(s.procs[i].pc) != Made(s.procs[j].pc))
  }

  // ---- Each step keeps it ----

  // The stores agree but for the wallet id `w`, and every request but the `i`-th stands where it stood.
  ghost predicate ChangedAt(s: State, s': State, i: nat, w: Id) {
    && (forall k | k != w :: Lookup(s'.actors, k) == Lookup(s.actors, k))
    && (forall k | k != w :: (k in s'.wallets <==> k in s.wallets) && (k in s.wallets ==> s'.wallets[k] == s.wallets[k]))
    && s.next <= s'.next && s.known <= s'.known <= s.known + {w}
    && i < |s'.procs| == |s.procs|
    && s'.procs[i].req == s.procs[i].req
    && (forall k | 0 <= k < |s.procs| && k != i :: s'.procs[k] == s.procs[k])
  }

  lemma UntouchedFrame(s: State, s': State, i: nat, w: Id, k: Id)
    requires ChangedAt(s, s', i, w)
    ensures Untouched(s', k) <==> Untouched(s, k)
  {
    if Untouched(s, k) {
      forall j | 0 <= j < |s'.procs| ensures Names(s'.procs[j].req) != Some(k) {
        assert Names(s.procs[j].req) != Some(k);
      }
    }
    if Untouched(s', k) {
      forall j | 0 <= j < |s.procs| ensures Names(s.procs[j].req) != Some(k) {
        assert Names(s'.procs[j].req) != Some(k);
      }
    }
  }

  // A request works on a wallet of its own that nobody knows, or on a known one without adding an actor.
  ghost predicate MayChange(s: State, s': State, i: nat, w: Id)
    requires i < |s.procs|
  {
    if w in s.known then
      && Names(s.procs[i].req) == Some(w)
      && s'.known == s.known
      && (w !in s.actors ==> w !in s'.actors)
    else forall j | 0 <= j < |s.procs| && j != i :: Made(s.procs[j].pc) != Some(w)
  }

  lemma OthersOk(s: State, s': State, i: nat, w: Id, j: nat)
    requires Inv(s) && ChangedAt(s, s', i, w) && MayChange(s, s', i, w)
    requires j < |s.procs| && j != i
    ensures ProcOk(s', s'.procs[j])
  {
    var p := s.procs[j];
    assert ProcOk(s, p);
    if p.req.CreateTenant? && Made(p.pc).Some? {
      var k := Made(p.pc).value;
      UntouchedFrame(s, s', i, w, k);
      assert k != w ==> Lookup(s'.actors, k) == Lookup(s.actors, k);
    } else if !p.req.CreateTenant? {
      var k := p.req.wallet;
      assert k != w ==> Lookup(s'.actors, k) == Lookup(s.actors, k);
    }
  }

  lemma StepKeeps(s: State, s': State, i: nat, w: Id)
    requires Inv(s) && ChangedAt(s, s', i, w) && MayChange(s, s', i, w)
    requires StoresOk(s') && ProcOk(s', s'.procs[i])
    requires Made(s'.procs[i].pc) in {Made(s.procs[i].pc), None} || (Made(s'.procs[i].pc) == Some(w) && w !in s.known)
    ensures Inv(s')
  {
    forall j | 0 <= j < |s'.procs| ensures ProcOk(s', s'.procs[j]) {
      if j != i { OthersOk(s, s', i, w, j); }
    }
  }

  // A step that leaves the stores alone.
  lemma MoveKeeps(s: State, i: nat, pc: Pc)
    requires Inv(s) && i < |s.procs| && ProcOk(s, s.procs[i].(pc := pc))
    requires !pc.Returned? && Made(pc) in {Made(s.procs[i].pc), None}
    ensures Inv(s.At(i, pc))
  {
    var s' := s.At(i, pc);
    forall j | 0 <= j < |s.procs| && j != i ensures Made(s.procs[j].pc) != Some(s.next) {
      assert ProcOk(s, s.procs[j]);
    }
    StepKeeps(s, s', i, s.next);
  }

  lemma MakeWalletKeeps(s: State, i: nat, a: Answer)
    requires Inv(s) && i < |s.procs| && s.procs[i].req.CreateTenant? && s.procs[i].pc.CreatingWallet? && !a.Fails?
    ensures Inv(NextCreate(s, i, a))
  {
    assert ProcOk(s, s.procs[i]);
    forall j | 0 <= j < |s.procs| && j != i ensures Made(s.procs[j].pc) != Some(s.next) {
      assert ProcOk(s, s.procs[j]);
    }
    StepKeeps(s, NextCreate(s, i, a), i, s.next);
  }

  lemma RegisterKeeps(s: State, i: nat, a: Answer)
    requires Inv(s) && i < |s.procs| && s.procs[i].req.CreateTenant? && s.procs[i].pc.Registering?
    requires NextCreate(s, i, a).procs[i].pc.Returned?
    ensures Inv(NextCreate(s, i, a))
  {
    var p := s.procs[i];
    assert ProcOk(s, p);
    ApplyKeepsUnique(s.actors, CreateOp(p.pc.id, NewActor(p.req, p.pc.onboarded)));
    StepKeeps(s, NextCreate(s, i, a), i, p.pc.id);
  }

  lemma CompensateKeeps(s: State, i: nat, a: Answer)
    requires Inv(s) && i < |s.procs| && s.procs[i].req.CreateTenant? && s.procs[i].pc.Compensating? && !a.Fails?
    ensures Inv(NextCreate(s, i, a))
  {
    assert ProcOk(s, s.procs[i]);
    StepKeeps(s, NextCreate(s, i, a), i, s.procs[i].pc.id);
  }

  lemma CreateKeeps(s: State, i: nat, a: Answer)
    requires Inv(s) && i < |s.procs| && s.procs[i].req.CreateTenant?
    ensures Inv(NextCreate(s, i, a))
  {
    var p := s.procs[i];
    var pc := NextCreate(s, i, a).procs[i].pc;
    assert ProcOk(s, p);
    if p.pc.CreatingWallet? && !a.Fails? {
      MakeWalletKeeps(s, i, a);
    } else if p.pc.Registering? && pc.Returned? {
      RegisterKeeps(s, i, a);
    } else if p.pc.Compensating? && !a.Fails? {
      CompensateKeeps(s, i, a);
    } else if pc != p.pc {
      MoveKeeps(s, i, pc);
    }
  }

  lemma WriteActorKeeps(s: State, i: nat, a: Answer)
    requires Inv(s) && i < |s.procs| && s.procs[i].req.UpdateTenant? && s.procs[i].pc.WritingActor?
    requires NextUpdate(s, i, a).procs[i].pc.WritingWallet?
    ensures Inv(NextUpdate(s, i, a))
  {
    var p := s.procs[i];
    assert ProcOk(s, p);
    ApplyKeepsUnique(s.actors, UpdateOp(p.req.wallet, p.pc.write));
    StepKeeps(s, NextUpdate(s, i, a), i, p.req.wallet);
  }

  lemma WriteWalletKeeps(s: State, i: nat, a: Answer)
    requires Inv(s) && i < |s.procs| && s.procs[i].req.UpdateTenant? && s.procs[i].pc.WritingWallet?
    requires NextUpdate(s, i, a).procs[i].pc.Finished?
    ensures Inv(NextUpdate(s, i, a))
  {
    assert ProcOk(s, s.procs[i]);
    StepKeeps(s, NextUpdate(s, i, a), i, s.procs[i].req.wallet);
  }

  lemma UpdateKeeps(s: State, i: nat, a: Answer)
    requires Inv(s) && i < |s.procs| && s.procs[i].req.UpdateTenant?
    ensures Inv(NextUpdate(s, i, a))
  {
    var p := s.procs[i];
    var pc := NextUpdate(s, i, a).procs[i].pc;
    assert ProcOk(s, p);
    if p.pc.WritingActor? && pc.WritingWallet? {
      WriteActorKeeps(s, i, a);
    } else if p.pc.WritingWallet? && pc.Finished? {
      WriteWalletKeeps(s, i, a);
    } else if pc != p.pc {
      MoveKeeps(s, i, pc);
    }
  }

  lemma DeleteKeeps(s: State, i: nat, a: Answer)
    requires Inv(s) && i < |s.procs| && s.procs[i].req.DeleteTenant?
    ensures Inv(NextDelete(s, i, a))
  {
    var p := s.procs[i];
    var pc := NextDelete(s, i, a).procs[i].pc;
    assert ProcOk(s, p);
    if (p.pc.RemovingActor? && pc.DeletingWallet?) || (p.pc.DeletingWallet? && pc.Finished?) {
      StepKeeps(s, NextDelete(s, i, a), i, p.req.wallet);
    } else if pc != p.pc {
      MoveKeeps(s, i, pc);
    }
  }

  lemma ArriveKeeps(s: State, r: Request)
    requires Inv(s)
    ensures Inv(Arrive(s, r))
  {
    var s' := Arrive(s, r);
    forall j | 0 <= j < |s'.procs| ensures ProcOk(s', s'.procs[j]) {
      if j < |s.procs| {
        assert ProcOk(s, s.procs[j]);
        forall w: Id | Untouched(s', w) ensures Untouched(s, w) {
          forall k | 0 <= k < |s.procs| ensures Names(s.procs[k].req) != Some(w) {
            assert Names(s'.procs[k].req) != Some(w);
          }
        }
      }
    }
  }

  lemma DoKeeps(s: State, action: Action)
    requires Inv(s)
    ensures Inv(Do(s, action))
  {
    match action
    case Arrives(r) => ArriveKeeps(s, r);
    case Calls(i, a) =>
      if i < |s.procs| {
        match s.procs[i].req
        case CreateTenant(_, _, _) => CreateKeeps(s, i, a);
        case UpdateTenant(_, _, _, _) => UpdateKeeps(s, i, a);
        case DeleteTenant(_) => DeleteKeeps(s, i, a);
      }
  }

  lemma {:induction false} RunKeeps(actions: seq<Action>)
    ensures Inv(Run(EMPTY, actions))
  {
    if actions != [] {
      RunKeeps(actions[..|actions| - 1]);
      DoKeeps(Run(EMPTY, actions[..|actions| - 1]), actions[|actions| - 1]);
    }
  }

  // ---- What every run promises ----

  // Every actor of the registry belongs to an existing wallet, and no two actors share an id, a name, a
  // DID or an invitation.
  lemma NoOrphanActors(actions: seq<Action>)
    ensures var s := Run(EMPTY, actions);
            && (forall id | id in s.actors :: id in s.wallets)
            && Unique(s.actors)
  {
    RunKeeps(actions);
  }

  predicate Undeleted(s: State, w: Id) {
    forall k | 0 <= k < |s.procs| && s.procs[k].req.DeleteTenant? :: s.procs[k].req.wallet != w
  }

  lemma RequestsStay(s: State, action: Action)
    ensures var s' := Do(s, action);
            |s.procs| <= |s'.procs| && forall k | 0 <= k < |s.procs| :: s'.procs[k].req == s.procs[k].req
  {
  }

  lemma RequestsStayAway(s: State, action: Action, w: Id)
    ensures Untouched(Do(s, action), w) ==> Untouched(s, w)
    ensures Undeleted(Do(s, action), w) ==> Undeleted(s, w)
  {
    RequestsStay(s, action);
    var s' := Do(s, action);
    assert forall k | 0 <= k < |s.procs| :: s.procs[k].req == s'.procs[k].req;
  }

  predicate HasReturned(p: Proc) { p.req.CreateTenant? && p.pc.Returned? }

  // A create returns by a call of its own, and then stays where it is.
  lemma ReturnsOnce(s: State, action: Action, i: nat)
    requires i < |Do(s, action).procs| && HasReturned(Do(s, action).procs[i])
    ensures i < |s.procs| && s.procs[i].req == Do(s, action).procs[i].req
    ensures if HasReturned(s.procs[i]) then Do(s, action).procs[i] == s.procs[i] else action.Calls? && action.i == i
  {
    RequestsStay(s, action);
  }

  // A known wallet and its actor go only by a delete that names the wallet.
  lemma KeptByStep(s: State, action: Action, w: Id)
    requires Inv(s) && w in s.known && Undeleted(s, w)
    ensures w in s.wallets ==> w in Do(s, action).wallets
    ensures w in s.actors ==> w in Do(s, action).actors
  {
    if action.Calls? && action.i < |s.procs| {
      assert ProcOk(s, s.procs[action.i]);
    }
  }

  // A returned create keeps its wallet and its actor until a delete names the wallet.
  lemma {:induction false} KeptUntilDeleted(actions: seq<Action>, i: nat)
    requires i < |Run(EMPTY, actions).procs| && HasReturned(Run(EMPTY, actions).procs[i])
    requires Undeleted(Run(EMPTY, actions), Run(EMPTY, actions).procs[i].pc.id)
    ensures var s := Run(EMPTY, actions);
            var p := s.procs[i];
            p.pc.id in s.wallets && (p.req.roles != [] ==> p.pc.id in s.actors)
  {
    var before, last := actions[..|actions| - 1], actions[|actions| - 1];
    var s := Run(EMPTY, before);
    RunKeeps(before);
    ReturnsOnce(s, last, i);
    if HasReturned(s.procs[i]) {
      var w := s.procs[i].pc.id;
      RequestsStayAway(s, last, w);
      KeptUntilDeleted(before, i);
      assert ProcOk(s, s.procs[i]);
      KeptByStep(s, last, w);
    } else {
      assert ProcOk(s, s.procs[i]);
    }
  }

  // Creating a tenant is all-or-nothing, whatever else is going on. Once it has returned, its fresh
  // wallet is there and, exactly if roles were asked for, an actor with the same id: as it was created
  // until a request names the wallet, and at all until a delete does. Once it has failed, neither store holds anything of it, except for the wallet
  // when the compensating delete failed as well.
  lemma CreateIsAllOrNothing(actions: seq<Action>, i: nat)
    requires i < |Run(EMPTY, actions).procs| && Run(EMPTY, actions).procs[i].req.CreateTenant?
    ensures var s := Run(EMPTY, actions);
            var r := s.procs[i].req;
            match s.procs[i].pc
            case Returned(w, result) =>
              && (result.Some? <==> r.roles != [])
              && (r.roles == [] ==> w !in s.actors)
              && (Untouched(s, w) ==>
                    && w in s.wallets && s.wallets[w] == Wallet(r.walletLabel, r.imageUrl)
                    && (r.roles != [] ==>
                          w in s.actors
                          && s.actors[w] == Actor(r.walletLabel, r.roles, result.value.did, result.value.invitation, r.imageUrl)))
              && (Undeleted(s, w) ==> w in s.wallets && (r.roles != [] ==> w in s.actors))
            case Refused(tried) => tried.Some? ==> tried.value !in s.wallets && tried.value !in s.actors
            case Stray(w) => w in s.wallets && s.wallets[w] == Wallet(r.walletLabel, r.imageUrl) && w !in s.actors
            case pc => Made(pc).Some? ==> Made(pc).value in s.wallets && Made(pc).value !in s.actors
  {
    RunKeeps(actions);
    var s := Run(EMPTY, actions);
    assert ProcOk(s, s.procs[i]);
    if s.procs[i].pc.Returned? && Undeleted(s, s.procs[i].pc.id) {
      KeptUntilDeleted(actions, i);
    }
  }

  // No two requests make the same wallet.
  lemma WalletsAreMadeOnce(actions: seq<Action>, i: nat, j: nat)
    requires i < j < |Run(EMPTY, actions).procs|
    ensures var s := Run(EMPTY, actions);
            Made(s.procs[i].pc).Some? ==> Made(s.procs[i].pc) != Made(s.procs[j].pc)
  {
    RunKeeps(actions);
  }

  predicate OwnedBy(s: State, i: nat, w: Id) {
    && i < |s.procs|
    && s.procs[i].req.CreateTenant?
    && Made(s.procs[i].pc) == Some(w)
    && !s.procs[i].pc.Refused?
  }

  lemma OwnerStays(s: State, action: Action, i: nat, w: Id)
    requires Inv(s) && OwnedBy(s, i, w) && w in Do(s, action).wallets
    ensures OwnedBy(Do(s, action), i, w)
  {
    assert ProcOk(s, s.procs[i]);
  }

  lemma NewWalletIsOwned(s: State, action: Action, w: Id)
    requires Inv(s) && w !in s.wallets && w in Do(s, action).wallets
    ensures action.Calls? && OwnedBy(Do(s, action), action.i, w)
  {
  }

  // Nothing but a create adds a wallet: each one in the store was made by a create that was not refused.
  lemma {:induction false} EveryWalletWasCreated(actions: seq<Action>, w: Id)
    requires w in Run(EMPTY, actions).wallets
    ensures exists i :: OwnedBy(Run(EMPTY, actions), i, w)
  {
    if actions != [] {
      var before, last := actions[..|actions| - 1], actions[|actions| - 1];
      var s := Run(EMPTY, before);
      RunKeeps(before);
      if w in s.wallets {
        EveryWalletWasCreated(before, w);
        var i: nat :| OwnedBy(s, i, w);
        OwnerStays(s, last, i, w);
      } else {
        NewWalletIsOwned(s, last, w);
      }
    }
  }

  predicate Registered(p: Proc) { HasReturned(p) && p.req.roles != [] }

  predicate Standing(s: State, i: nat) {
    i < |s.procs| && Registered(s.procs[i]) && Untouched(s, s.procs[i].pc.id)
  }

  // Registered tenants that no request has named have different labels.
  lemma StandingCreatesDiffer(actions: seq<Action>, i: nat, j: nat)
    requires i != j && Standing(Run(EMPTY, actions), i) && Standing(Run(EMPTY, actions), j)
    ensures var s := Run(EMPTY, actions);
            s.procs[i].req.walletLabel != s.procs[j].req.walletLabel
  {
    RunKeeps(actions);
    var s := Run(EMPTY, actions);
    assert ProcOk(s, s.procs[i]) && ProcOk(s, s.procs[j]);
    assert !Clash(s.actors[s.procs[i].pc.id], s.actors[s.procs[j].pc.id]);
  }

  lemma {:induction false} ReturnedStays(actions: seq<Action>, k: nat, i: nat)
    requires k <= |actions| && i < |Run(EMPTY, actions[..k]).procs| && HasReturned(Run(EMPTY, actions[..k]).procs[i])
    ensures var s := Run(EMPTY, actions); i < |s.procs| && s.procs[i] == Run(EMPTY, actions[..k]).procs[i]
  {
    if k == |actions| {
      assert actions[..k] == actions;
    } else {
      var before := actions[..|actions| - 1];
      assert before[..k] == actions[..k];
      ReturnedStays(before, k, i);
    }
  }

  // The registry takes no actor under a name that is taken.
  lemma RegistersNewName(s: State, j: nat, a: Answer, w: Id)
    requires j < |s.procs| && s.procs[j].req.CreateTenant? && s.procs[j].req.roles != [] && !s.procs[j].pc.Returned?
    requires w in s.actors && Next(s, j, a).procs[j].pc.Returned?
    ensures s.procs[j].req.walletLabel != s.actors[w].name
  {
    var p := s.procs[j];
    assert p.pc.Registering? && !ClashesElsewhere(s.actors, p.pc.id, NewActor(p.req, p.pc.onboarded));
    assert !Clash(s.actors[w], NewActor(p.req, p.pc.onboarded));
  }

  // Of any number of creates with one label and with roles at most one ends up registered, although the
  // name is checked before it is written: once one has registered, no other does before an update or
  // delete has named the wallet of the first.
  lemma {:induction false} RacingCreatesRegisterOnce(actions: seq<Action>, k: nat, i: nat, j: nat)
    requires k <= |actions| && i < |Run(EMPTY, actions[..k]).procs| && Registered(Run(EMPTY, actions[..k]).procs[i])
    requires j < |Run(EMPTY, actions[..k]).procs| ==> !HasReturned(Run(EMPTY, actions[..k]).procs[j])
    requires j < |Run(EMPTY, actions).procs| && Registered(Run(EMPTY, actions).procs[j])
    requires Untouched(Run(EMPTY, actions), Run(EMPTY, actions[..k]).procs[i].pc.id)
    ensures Run(EMPTY, actions[..k]).procs[i].req.walletLabel != Run(EMPTY, actions).procs[j].req.walletLabel
  {
    assert actions[..|actions|] == actions;
    var before, last := actions[..|actions| - 1], actions[|actions| - 1];
    assert before[..k] == actions[..k];
    var s := Run(EMPTY, before);
    var w := Run(EMPTY, actions[..k]).procs[i].pc.id;
    RequestsStayAway(s, last, w);
    ReturnsOnce(s, last, j);
    if HasReturned(s.procs[j]) {
      RacingCreatesRegisterOnce(before, k, i, j);
    } else {
      ReturnedStays(before, k, i);
      CreateIsAllOrNothing(before, i);
      RegistersNewName(s, j, last.answer, w);
    }
  }
}
