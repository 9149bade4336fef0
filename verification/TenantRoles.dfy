// What updates do to the roles of an actor, with and without interleaving.
module TenantRoles {
  import opened ActorRegistry
  import opened TenantSaga
  import opened TenantSagaProofs
  import opened Wrappers

  // An update or delete that has not ended.
  predicate Active(p: Proc) {
    !p.req.CreateTenant? && !p.pc.Finished? && !p.pc.Aborted?
  }

  predicate Busy(s: State, w: Id) {
    exists k | 0 <= k < |s.procs| :: Names(s.procs[k].req) == Some(w) && Active(s.procs[k])
  }

  // Requests naming one wallet are serialised: the next is admitted when none is under way.
  predicate Serial(s: State, action: Action) {
    action.Arrives? && Names(action.req).Some? ==> !Busy(s, Names(action.req).value)
  }

  predicate SerialRun(actions: seq<Action>) {
    actions == [] ||
    (SerialRun(actions[..|actions| - 1]) && Serial(Run(EMPTY, actions[..|actions| - 1]), actions[|actions| - 1]))
  }

  // The actor an update has read is still there, and lacks a requested role.
  predicate Reads(t: Table, r: Request, read: Actor) {
    r.UpdateTenant? && Lookup(t, r.wallet) == Some(read) && Added(r.newRoles, read.roles) != []
  }

  // What an update under way holds describes its actor in the table.
  ghost predicate Fresh(t: Table, p: Proc) {
    !p.req.CreateTenant? ==>
      match p.pc
      case FetchingToken(read) => Reads(t, p.req, read)
      case OnboardingAgain(read) => Reads(t, p.req, read)
      case WritingActor(write) => p.req.UpdateTenant? && p.req.wallet in t && Carries(t[p.req.wallet], p.req, write)
      case _ => true
  }

  ghost predicate SerialInv(s: State) {
    && Inv(s)
    && (forall i | 0 <= i < |s.procs| :: Fresh(s.actors, s.procs[i]))
    && (forall i, j | 0 <= i < j < |s.procs| && Active(s.procs[i]) && Active(s.procs[j]) ::
          Names(s.procs[i].req) != Names(s.procs[j].req))
  }

  // A request changes the actor of no known wallet but the one it names, and adds none.
  lemma ActorsElsewhere(s: State, i: nat, a: Answer, k: Id)
    requires Inv(s) && i < |s.procs| && k in s.known
    ensures Names(s.procs[i].req) != Some(k) ==> Lookup(Next(s, i, a).actors, k) == Lookup(s.actors, k)
    ensures k !in s.actors ==> k !in Next(s, i, a).actors
    ensures k in Next(s, i, a).known
  {
    assert ProcOk(s, s.procs[i]);
    match s.procs[i].req
    case CreateTenant(_, _, _) =>
    case UpdateTenant(_, _, _, _) =>
    case DeleteTenant(_) =>
  }

  // What an update plans on reading its actor.
  lemma PlanIsFresh(t: Table, r: Request)
    requires r.UpdateTenant?
    ensures match Plan(Lookup(t, r.wallet), r)
            case FetchingToken(read) => Reads(t, r, read)
            case WritingActor(write) => r.wallet in t && Carries(t[r.wallet], r, write)
            case pc => pc.Aborted? || pc.WritingWallet?
  {
    if r.wallet in t && Added(r.newRoles, t[r.wallet].roles) == [] {
      MergedCarries(t[r.wallet], r, None);
    }
  }

  lemma OwnStepStaysFresh(s: State, t: Table, i: nat, a: Answer)
    requires i < |s.procs| && !s.procs[i].req.CreateTenant? && Fresh(t, s.procs[i])
    requires s.procs[i].pc.FetchingActor? ==> t == s.actors
    ensures Fresh(t, Next(s, i, a).procs[i])
  {
    var p := s.procs[i];
    if p.req.UpdateTenant? {
      if p.pc.FetchingActor? {
        PlanIsFresh(t, p.req);
      } else if p.pc.OnboardingAgain? && a.Onboards? {
        MergedCarries(p.pc.read, p.req, Some(Onboarded(a.did, a.invitation)));
      }
    }
  }

  // Only writing or removing its actor changes the table.
  lemma OwnStepKeepsTable(s: State, i: nat, a: Answer)
    requires i < |s.procs| && !s.procs[i].req.CreateTenant?
    ensures Next(s, i, a).actors == s.actors || Next(s, i, a).procs[i].pc in {WritingWallet, DeletingWallet}
  {
  }

  // A request that has ended stays where it is.
  lemma EndedStays(s: State, i: nat, a: Answer)
    requires i < |s.procs| && !s.procs[i].req.CreateTenant? && !Active(s.procs[i])
    ensures Next(s, i, a) == s
  {
  }

  lemma OtherStaysFresh(s: State, i: nat, a: Answer, j: nat)
    requires SerialInv(s) && i < |s.procs| && j < |s.procs| && j != i
    ensures Fresh(Next(s, i, a).actors, s.procs[j])
  {
    assert Fresh(s.actors, s.procs[j]) && ProcOk(s, s.procs[j]);
    if Active(s.procs[j]) {
      var w := s.procs[j].req.wallet;
      if Names(s.procs[i].req) == Some(w) {
        EndedStays(s, i, a);
      } else {
        ActorsElsewhere(s, i, a, w);
      }
    }
  }

  lemma CallsKeepSerial(s: State, i: nat, a: Answer)
    requires SerialInv(s) && i < |s.procs|
    ensures SerialInv(Next(s, i, a))
  {
    var s' := Next(s, i, a);
    DoKeeps(s, Calls(i, a));
    if !s.procs[i].req.CreateTenant? && !Active(s.procs[i]) {
      EndedStays(s, i, a);
    }
    forall j | 0 <= j < |s'.procs| ensures Fresh(s'.actors, s'.procs[j]) {
      if j == i {
        if !s.procs[i].req.CreateTenant? {
          OwnStepStaysFresh(s, s.actors, i, a);
          OwnStepKeepsTable(s, i, a);
        }
      } else {
        OtherStaysFresh(s, i, a, j);
      }
    }
  }

  lemma {:induction false} SerialRunKeeps(actions: seq<Action>)
    requires SerialRun(actions)
    ensures SerialInv(Run(EMPTY, actions))
  {
    if actions != [] {
      var before, last := actions[..|actions| - 1], actions[|actions| - 1];
      SerialRunKeeps(before);
      var s := Run(EMPTY, before);
      DoKeeps(s, last);
      if last.Calls? && last.i < |s.procs| {
        CallsKeepSerial(s, last.i, last.answer);
      }
    }
  }

  // With requests for one wallet serialised, an update that writes its actor stores exactly what it asks
  // for: the union of the old and the requested roles, without duplicates if it added any.
  lemma SerialUpdateStoresUnion(actions: seq<Action>, i: nat, a: Answer)
    requires SerialRun(actions) && i < |Run(EMPTY, actions).procs|
    requires Run(EMPTY, actions).procs[i].pc.WritingActor?
    requires Next(Run(EMPTY, actions), i, a).procs[i].pc.WritingWallet?
    ensures var s := Run(EMPTY, actions);
            var r, t := s.procs[i].req, Next(s, i, a).actors;
            && r.UpdateTenant? && r.wallet in s.actors && r.wallet in t
            && Carries(s.actors[r.wallet], r, t[r.wallet])
  {
    SerialRunKeeps(actions);
    var s := Run(EMPTY, actions);
    assert Fresh(s.actors, s.procs[i]) && ProcOk(s, s.procs[i]);
  }

  // One action takes no role from an actor.
  lemma StepKeepsRoles(s: State, action: Action, w: Id)
    requires SerialInv(s) && w in s.actors && w in Do(s, action).actors
    ensures RoleSet(s.actors[w].roles) <= RoleSet(Do(s, action).actors[w].roles)
  {
    if action.Calls? && action.i < |s.procs| {
      var p := s.procs[action.i];
      assert ProcOk(s, p) && Fresh(s.actors, p);
      ActorsElsewhere(s, action.i, action.answer, w);
    }
  }

  // Over any serialised run the roles of an actor never shrink.
  lemma {:induction false} SerialRolesNeverShrink(actions: seq<Action>, k: nat, w: Id)
    requires SerialRun(actions) && k <= |actions|
    requires w in Run(EMPTY, actions[..k]).actors && w in Run(EMPTY, actions).actors
    ensures SerialRun(actions[..k])
    ensures RoleSet(Run(EMPTY, actions[..k]).actors[w].roles) <= RoleSet(Run(EMPTY, actions).actors[w].roles)
    decreases |actions|
  {
    if k == |actions| {
      assert actions[..k] == actions;
    } else {
      var before, last := actions[..|actions| - 1], actions[|actions| - 1];
      assert before[..k] == actions[..k];
      SerialRunKeeps(before);
      RunKeeps(actions[..k]);
      HoldersStayHolders(before, k, w);
      if last.Calls? && last.i < |Run(EMPTY, before).procs| {
        ActorsElsewhere(Run(EMPTY, before), last.i, last.answer, w);
      }
      StepKeepsRoles(Run(EMPTY, before), last, w);
      SerialRolesNeverShrink(before, k, w);
    }
  }

  // A known wallet stays known, and a holder stays a holder: however requests interleave, no update
  // gives an actor to a wallet whose create has returned without one.
  lemma {:induction false} HoldersStayHolders(actions: seq<Action>, k: nat, w: Id)
    requires k <= |actions| && w in Run(EMPTY, actions[..k]).known
    ensures w in Run(EMPTY, actions).known
    ensures w !in Run(EMPTY, actions[..k]).actors ==> w !in Run(EMPTY, actions).actors
  {
    if k == |actions| {
      assert actions[..k] == actions;
    } else {
      var before, last := actions[..|actions| - 1], actions[|actions| - 1];
      assert before[..k] == actions[..k];
      HoldersStayHolders(before, k, w);
      RunKeeps(before);
      if last.Calls? && last.i < |Run(EMPTY, before).procs| {
        ActorsElsewhere(Run(EMPTY, before), last.i, last.answer, w);
      }
    }
  }

  // ---- What onboarding yields is what is stored ----

  // The request has been onboarded with this DID and invitation, and still holds them if it needs them.
  predicate Holds(p: Proc, did: string, invitation: Option<string>) {
    match p.pc
    case Registering(_, o) => o == Onboarded(did, invitation)
    case Returned(_, result) => result == Some(Onboarded(did, invitation))
    case WritingActor(write) => write.did == did && write.invitation == invitation
    case Compensating(_) => true
    case Refused(_) => true
    case Stray(_) => true
    case WritingWallet => true
    case Finished => true
    case Aborted => true
    case _ => false
  }

  lemma HoldsOn(s: State, action: Action, i: nat, did: string, invitation: Option<string>)
    requires i < |s.procs| && !s.procs[i].req.DeleteTenant? && Holds(s.procs[i], did, invitation)
    ensures var s' := Do(s, action);
            i < |s'.procs| && s'.procs[i].req == s.procs[i].req && Holds(s'.procs[i], did, invitation)
  {
  }

  lemma {:induction false} OnboardingIsHeld(actions: seq<Action>, k: nat, i: nat, did: string, invitation: Option<string>)
    requires k < |actions| && actions[k] == Calls(i, Onboards(did, invitation)) && i < |Run(EMPTY, actions[..k]).procs|
    requires var p := Run(EMPTY, actions[..k]).procs[i];
             (p.req.CreateTenant? && p.pc.OnboardingNew?) || (p.req.UpdateTenant? && p.pc.OnboardingAgain?)
    ensures var s := Run(EMPTY, actions);
            && i < |s.procs| && s.procs[i].req == Run(EMPTY, actions[..k]).procs[i].req
            && Holds(s.procs[i], did, invitation)
  {
    var last := |actions| - 1;
    if k < last {
      assert actions[..last][..k] == actions[..k];
      OnboardingIsHeld(actions[..last], k, i, did, invitation);
      HoldsOn(Run(EMPTY, actions[..last]), actions[last], i, did, invitation);
    } else {
      OnboardingHolds(Run(EMPTY, actions[..k]), i, did, invitation);
    }
  }

  lemma OnboardingHolds(s: State, i: nat, did: string, invitation: Option<string>)
    requires i < |s.procs|
    requires (s.procs[i].req.CreateTenant? && s.procs[i].pc.OnboardingNew?)
             || (s.procs[i].req.UpdateTenant? && s.procs[i].pc.OnboardingAgain?)
    ensures Holds(Next(s, i, Onboards(did, invitation)).procs[i], did, invitation)
  {
  }

  // In every interleaving, the actor that an onboarded update writes has exactly the DID and the invitation
  // its onboarding yielded.
  lemma OnboardedIsStored(actions: seq<Action>, k: nat, i: nat, a: Answer, did: string, invitation: Option<string>)
    requires k < |actions| && actions[k] == Calls(i, Onboards(did, invitation)) && i < |Run(EMPTY, actions[..k]).procs|
    requires var p := Run(EMPTY, actions[..k]).procs[i]; p.req.UpdateTenant? && p.pc.OnboardingAgain?
    requires i < |Run(EMPTY, actions).procs| && Run(EMPTY, actions).procs[i].pc.WritingActor?
    requires Next(Run(EMPTY, actions), i, a).procs[i].pc.WritingWallet?
    ensures var w, t := Run(EMPTY, actions[..k]).procs[i].req.wallet, Next(Run(EMPTY, actions), i, a).actors;
            w in t && t[w].did == did && t[w].invitation == invitation
  {
    OnboardingIsHeld(actions, k, i, did, invitation);
  }

  // A create that returns after its onboarding returns what that yielded.
  lemma OnboardedIsReturned(actions: seq<Action>, k: nat, i: nat, did: string, invitation: Option<string>)
    requires k < |actions| && actions[k] == Calls(i, Onboards(did, invitation)) && i < |Run(EMPTY, actions[..k]).procs|
    requires var p := Run(EMPTY, actions[..k]).procs[i]; p.req.CreateTenant? && p.pc.OnboardingNew?
    requires i < |Run(EMPTY, actions).procs| && Run(EMPTY, actions).procs[i].pc.Returned?
    ensures Run(EMPTY, actions).procs[i].pc.result == Some(Onboarded(did, invitation))
  {
    OnboardingIsHeld(actions, k, i, did, invitation);
  }

  // ---- Without serialisation an update can lose a role ----

  // Past reading its actor.
  predicate HasRead(pc: Pc) { !pc.LookingUpWallet? && !pc.FetchingActor? }

  lemma StepSinceRead(s: State, t: Table, action: Action, i: nat)
    requires i < |s.procs| && s.procs[i].req.UpdateTenant?
    requires Fresh(t, s.procs[i]) && HasRead(s.procs[i].pc)
    ensures var s' := Do(s, action);
            i < |s'.procs| && s'.procs[i].req == s.procs[i].req && Fresh(t, s'.procs[i]) && HasRead(s'.procs[i].pc)
  {
    if action.Calls? && action.i == i {
      OwnStepStaysFresh(s, t, i, action.answer);
    }
  }

  // What an update holds describes its actor as it was when the update read it with the k-th action.
  lemma {:induction false} HoldsWhatItRead(actions: seq<Action>, k: nat, i: nat)
    requires k < |actions| && actions[k].Calls? && actions[k].i == i < |Run(EMPTY, actions[..k]).procs|
    requires var p := Run(EMPTY, actions[..k]).procs[i]; p.req.UpdateTenant? && p.pc.FetchingActor?
    ensures var s0, s := Run(EMPTY, actions[..k]), Run(EMPTY, actions);
            && i < |s.procs| && s.procs[i].req == s0.procs[i].req
            && Fresh(s0.actors, s.procs[i]) && HasRead(s.procs[i].pc)
  {
    var last := |actions| - 1;
    var s := Run(EMPTY, actions[..last]);
    if k == last {
      OwnStepStaysFresh(s, s.actors, i, actions[k].answer);
      PlanIsFresh(s.actors, s.procs[i].req);
    } else {
      assert actions[..last][..k] == actions[..k];
      HoldsWhatItRead(actions[..last], k, i);
      StepSinceRead(s, Run(EMPTY, actions[..k]).actors, actions[last], i);
    }
  }

  // Whatever else is going on, an update that writes its actor loses a role exactly if the actor holds
  // one that it did not hold when the update read it and that the update does not ask for itself.
  lemma RoleIsLostExactly(actions: seq<Action>, k: nat, i: nat, a: Answer)
    requires k < |actions| && actions[k].Calls? && actions[k].i == i < |Run(EMPTY, actions[..k]).procs|
    requires var p := Run(EMPTY, actions[..k]).procs[i]; p.req.UpdateTenant? && p.pc.FetchingActor?
    requires i < |Run(EMPTY, actions).procs| && Run(EMPTY, actions).procs[i].pc.WritingActor?
    requires Next(Run(EMPTY, actions), i, a).procs[i].pc.WritingWallet?
    ensures var s0, s := Run(EMPTY, actions[..k]), Run(EMPTY, actions);
            var r, t := s0.procs[i].req, Next(s, i, a).actors;
            && r.wallet in s0.actors && r.wallet in s.actors && r.wallet in t
            && (RoleSet(s.actors[r.wallet].roles) <= RoleSet(t[r.wallet].roles) <==>
                RoleSet(s.actors[r.wallet].roles) <= RoleSet(s0.actors[r.wallet].roles) + RoleSet(r.newRoles))
  {
    HoldsWhatItRead(actions, k, i);
  }

  // And nothing else takes a role from an actor that stays.
  lemma OnlyWritingLosesRoles(actions: seq<Action>, action: Action, w: Id)
    requires w in Run(EMPTY, actions).actors && w in Do(Run(EMPTY, actions), action).actors
    requires var s := Run(EMPTY, actions);
             !(RoleSet(s.actors[w].roles) <= RoleSet(Do(s, action).actors[w].roles))
    ensures var s := Run(EMPTY, actions);
            && action.Calls? && action.i < |s.procs|
            && Names(s.procs[action.i].req) == Some(w) && s.procs[action.i].pc.WritingActor?
  {
    RunKeeps(actions);
    var s := Run(EMPTY, actions);
    if action.Calls? && action.i < |s.procs| {
      ActorsElsewhere(s, action.i, action.answer, w);
      if !s.procs[action.i].req.CreateTenant? {
        OwnStepKeepsTable(s, action.i, action.answer);
      }
    }
  }


  const CREATE := CreateTenant("tenant", [Verifier], None)
  const RENAME := UpdateTenant(0, Some("renamed"), [], None)
  const PROMOTE := UpdateTenant(0, None, [Issuer], None)

  const VERIFIER := Actor("tenant", [Verifier], "did:key:1", None, None)
  const RENAMED := Actor("renamed", [Verifier], "did:key:1", None, None)
  const PROMOTED := Actor("tenant", [Issuer, Verifier], "did:key:2", None, None)

  function Scene(actors: Table, rename: Pc, promote: Pc): State {
    State(map[0 := Wallet("tenant", None)], actors, 1, {0},
          [Proc(CREATE, CREATED), Proc(RENAME, rename), Proc(PROMOTE, promote)])
  }

  lemma RunSnoc(actions: seq<Action>, action: Action)
    ensures Run(EMPTY, actions + [action]) == Do(Run(EMPTY, actions), action)
  {
    assert (actions + [action])[..|actions|] == actions;
  }

  lemma Extend(actions: seq<Action>, action: Action, s: State, s': State) returns (longer: seq<Action>)
    requires Run(EMPTY, actions) == s && Do(s, action) == s'
    ensures longer == actions + [action] && Run(EMPTY, longer) == s'
  {
    RunSnoc(actions, action);
    longer := actions + [action];
  }

  const CREATED := Returned(0, Some(Onboarded("did:key:1", None)))

  function Lone(wallets: map<Id, Wallet>, actors: Table, nextId: nat, known: set<Id>, pc: Pc): State {
    State(wallets, actors, nextId, known, [Proc(CREATE, pc)])
  }

  lemma TenantOnboards() returns (run: seq<Action>)
    ensures Run(EMPTY, run) ==
            Lone(map[0 := Wallet("tenant", None)], map[], 1, {}, Registering(0, Onboarded("did:key:1", None)))
  {
    var o := Onboarded("did:key:1", None);
    var wallets := map[0 := Wallet("tenant", None)];
    var s1 := Lone(map[], map[], 0, {}, CheckingName);
    var s2 := Lone(map[], map[], 0, {}, CreatingWallet);
    var s3 := Lone(wallets, map[], 1, {}, OnboardingNew(0));
    run := Extend([], Arrives(CREATE), EMPTY, s1);
    run := Extend(run, Calls(0, Works), s1, s2);
    run := Extend(run, Calls(0, Works), s2, s3);
    run := Extend(run, Calls(0, Onboards("did:key:1", None)), s3, Lone(wallets, map[], 1, {}, Registering(0, o)));
  }

  lemma TenantRegisters() returns (run: seq<Action>)
    ensures Run(EMPTY, run) == Lone(map[0 := Wallet("tenant", None)], map[0 := VERIFIER], 1, {0}, CREATED)
  {
    run := TenantOnboards();
    var wallets := map[0 := Wallet("tenant", None)];
    run := Extend(run, Calls(0, Works), Lone(wallets, map[], 1, {}, Registering(0, Onboarded("did:key:1", None))),
                  Lone(wallets, map[0 := VERIFIER], 1, {0}, CREATED));
  }

  lemma TenantIsCreated() returns (run: seq<Action>)
    ensures Run(EMPTY, run) == Scene(map[0 := VERIFIER], LookingUpWallet, LookingUpWallet)
  {
    run := TenantRegisters();
    var both := Scene(map[0 := VERIFIER], LookingUpWallet, LookingUpWallet);
    var one := both.(procs := [both.procs[0], both.procs[1]]);
    run := Extend(run, Arrives(RENAME), both.(procs := [both.procs[0]]), one);
    run := Extend(run, Arrives(PROMOTE), one, both);
  }

  lemma RenameReads() returns (run: seq<Action>)
    ensures Run(EMPTY, run) == Scene(map[0 := VERIFIER], WritingActor(RENAMED), LookingUpWallet)
  {
    var t := map[0 := VERIFIER];
    run := TenantIsCreated();
    run := Extend(run, Calls(1, Works), Scene(t, LookingUpWallet, LookingUpWallet), Scene(t, FetchingActor, LookingUpWallet));
    run := Extend(run, Calls(1, Works), Scene(t, FetchingActor, LookingUpWallet), Scene(t, WritingActor(RENAMED), LookingUpWallet));
  }

  lemma MergedPromotion()
    ensures Merged(VERIFIER, PROMOTE, Some(Onboarded("did:key:2", None))) == PROMOTED
  {
    assert ([Issuer] + [Verifier])[0] == Issuer && ([Issuer] + [Verifier])[1] == Verifier;
    assert Distinct([Issuer] + [Verifier]) == [Issuer, Verifier];
  }

  // The only actor may be rewritten freely.
  lemma RewriteOnly(old': Actor, new': Actor)
    requires FullyQualified(new'.did) && old'.imageUrl == new'.imageUrl
    ensures Update(map[0 := old'], 0, new') == Ok(map[0 := new'])
  {
    assert map[0 := old'][0 := new'] == map[0 := new'];
  }

  lemma PromotionWrites() returns (run: seq<Action>)
    ensures Run(EMPTY, run) == Scene(map[0 := PROMOTED], WritingActor(RENAMED), WritingWallet)
  {
    var t, mid := map[0 := VERIFIER], WritingActor(RENAMED);
    run := RenameReads();
    run := Extend(run, Calls(2, Works), Scene(t, mid, LookingUpWallet), Scene(t, mid, FetchingActor));
    run := Extend(run, Calls(2, Works), Scene(t, mid, FetchingActor), Scene(t, mid, FetchingToken(VERIFIER)));
    run := Extend(run, Calls(2, Works), Scene(t, mid, FetchingToken(VERIFIER)), Scene(t, mid, OnboardingAgain(VERIFIER)));
    MergedPromotion();
    run := Extend(run, Calls(2, Onboards("did:key:2", None)), Scene(t, mid, OnboardingAgain(VERIFIER)), Scene(t, mid, WritingActor(PROMOTED)));
    RewriteOnly(VERIFIER, PROMOTED);
    run := Extend(run, Calls(2, Works), Scene(t, mid, WritingActor(PROMOTED)), Scene(map[0 := PROMOTED], mid, WritingWallet));
  }

  // Such a run exists, and it is not serialised: a rename reads an actor before a promotion and writes it
  // after, and the new role is lost.
  lemma ConcurrentUpdatesLoseARole() returns (run: seq<Action>, last: Action)
    ensures Run(EMPTY, run).actors == map[0 := PROMOTED]
    ensures Run(EMPTY, run + [last]).actors == map[0 := RENAMED]
    ensures Issuer in PROMOTED.roles && Issuer !in RENAMED.roles
    ensures !SerialRun(run + [last])
  {
    run := PromotionWrites();
    last := Calls(1, Works);
    RunSnoc(run, last);
    RewriteOnly(PROMOTED, RENAMED);
    assert (run + [last])[..|run|] == run;
    assert Issuer in RoleSet(PROMOTED.roles);
    if SerialRun(run + [last]) {
      SerialRolesNeverShrink(run + [last], |run|, 0);
    }
  }
}
