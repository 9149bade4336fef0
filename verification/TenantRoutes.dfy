// The tenant routes as the code runs them: one request at a time, step by step, with compensation.
module TenantRoutes {
  import opened ActorRegistry
  import opened TenantSaga
  import opened Wrappers

  // The request of a one-request state takes its external calls in turn.
  function Solo(s: State, answers: seq<Answer>): State
    decreases |answers|
  {
    if answers == [] then s else Solo(Next(s, 0, answers[0]), answers[1..])
  }

  lemma Takes(s: State, answers: seq<Answer>, k: nat, s': State)
    requires k < |answers| && Next(s, 0, answers[k]) == s'
    ensures Solo(s, answers[k..]) == Solo(s', answers[k + 1..])
  {
    assert answers[k..][1..] == answers[k + 1..];
  }

  // The request ends with its `k`-th call.
  lemma Ends(s: State, answers: seq<Answer>, k: nat, s': State)
    requires k < |answers| && Next(s, 0, answers[k]) == s'
    requires |s'.procs| == 1 && Over(s'.procs[0].pc)
    requires s'.procs[0].req.CreateTenant? <==> !s'.procs[0].pc.Finished? && !s'.procs[0].pc.Aborted?
    ensures Solo(s, answers[k..]) == s'
  {
    Takes(s, answers, k, s');
    OverStays(s', answers[k + 1..]);
  }

  predicate Over(pc: Pc) {
    pc.Returned? || pc.Refused? || pc.Stray? || pc.Finished? || pc.Aborted?
  }

  lemma {:induction false} OverStays(s: State, answers: seq<Answer>)
    requires |s.procs| == 1 && Over(s.procs[0].pc)
    requires s.procs[0].req.CreateTenant? <==> !s.procs[0].pc.Finished? && !s.procs[0].pc.Aborted?
    ensures Solo(s, answers) == s
    decreases |answers|
  {
    if answers != [] {
      OverStays(s, answers[1..]);
    }
  }

  // The most external calls a request makes.
  const MAX_CALLS := 6

  // How a create with roles ends once it has its wallet `id`: it returns what onboarding yielded exactly if
  // onboarding and registering work, the DID is fully qualified and no actor has the label, the DID or the
  // invitation. Otherwise the next call deletes the wallet again.
  ghost function EndOfRoles(actors: Table, id: Id, r: Request, answers: seq<Answer>): Pc
    requires r.CreateTenant? && |answers| == MAX_CALLS
  {
    var o := answers[2];
    if o.Onboards? && !answers[3].Fails? && "did:" <= o.did && FitsIn(actors, id, r.walletLabel, o.did, o.invitation)
    then Returned(id, Some(Onboarded(o.did, o.invitation)))
    else if answers[if o.Onboards? then 4 else 3].Fails? then Stray(id)
    else Refused(Some(id))
  }

  // Whether an update adds a role to the actor it found, and whether it writes the actor at all.
  ghost predicate Adds(r: Request, read: Actor)
    requires r.UpdateTenant?
  {
    !(RoleSet(r.newRoles) <= RoleSet(read.roles))
  }

  ghost predicate Rewrites(r: Request, read: Actor)
    requires r.UpdateTenant?
  {
    Adds(r, read) || Truthy(r.newLabel) || Truthy(r.newImage)
  }

  // The registry takes the actor of an update: the DID is fully qualified and no other actor has the new
  // name, the DID or the invitation.
  ghost predicate Takeable(actors: Table, r: Request, did: string, invitation: Option<string>)
    requires r.UpdateTenant? && r.wallet in actors
  {
    "did:" <= did
    && FitsIn(actors, r.wallet, if Truthy(r.newLabel) then r.newLabel.value else actors[r.wallet].name, did, invitation)
  }

  // An update that has found the wallet writes its actor exactly if there is one, there is something to
  // write, the calls up to the write work, and the registry takes it. An added role needs the tenant's
  // token and onboarding first.
  ghost predicate WritesActor(actors: Table, r: Request, answers: seq<Answer>)
    requires r.UpdateTenant? && |answers| == MAX_CALLS
  {
    && r.wallet in actors
    && var read := actors[r.wallet];
       if Adds(r, read) then
         && !answers[2].Fails? && answers[3].Onboards? && !answers[4].Fails?
         && Takeable(actors, r, answers[3].did, answers[3].invitation)
       else Rewrites(r, read) && !answers[2].Fails? && Takeable(actors, r, read.did, read.invitation)
  }

  // It then finishes exactly if the wallet is written as well; a holder may ask for no role.
  ghost predicate WritesWallet(actors: Table, r: Request, answers: seq<Answer>)
    requires r.UpdateTenant? && |answers| == MAX_CALLS
  {
    if r.wallet !in actors then r.newRoles == [] && !answers[2].Fails?
    else
      var read := actors[r.wallet];
      if Rewrites(r, read) then WritesActor(actors, r, answers) && !answers[if Adds(r, read) then 5 else 3].Fails?
      else !answers[2].Fails?
  }

  // What is stored of an update.
  ghost predicate StoredAs(before: Table, after: Table, r: Request, answers: seq<Answer>)
    requires r.UpdateTenant? && |answers| == MAX_CALLS && r.wallet in before
  {
    && r.wallet in after && Carries(before[r.wallet], r, after[r.wallet])
    && (Adds(r, before[r.wallet]) ==>
          && answers[3].Onboards?
          && after[r.wallet].did == answers[3].did && after[r.wallet].invitation == answers[3].invitation)
  }

  lemma UpdateIsTaken(t: Table, r: Request, write: Actor)
    requires r.UpdateTenant? && r.wallet in t && Carries(t[r.wallet], r, write)
    ensures Update(t, r.wallet, write).Ok? <==> Takeable(t, r, write.did, write.invitation)
    ensures Update(t, r.wallet, write).Ok? ==>
              var stored := Update(t, r.wallet, write).value[r.wallet];
              Carries(t[r.wallet], r, stored) && stored.did == write.did && stored.invitation == write.invitation
  {
    OutcomesExactly(t, r.wallet, write);
    assert Stored(t, r.wallet, write) == write;
  }

  // How an update ends, from each of its calls on.
  lemma WalletWriteEnds(s: State, answers: seq<Answer>, k: nat)
    requires |s.procs| == 1 && s.procs[0].req.UpdateTenant? && s.procs[0].pc == WritingWallet && k < |answers|
    ensures var t := Solo(s, answers[k..]);
            && |t.procs| == 1 && t.actors == s.actors
            && (t.procs[0].pc == Finished <==> !answers[k].Fails? && s.procs[0].req.wallet in s.wallets)
  {
    Ends(s, answers, k, Next(s, 0, answers[k]));
  }

  lemma ActorWriteEnds(s: State, table: Table, answers: seq<Answer>, k: nat, read: Actor, write: Actor)
    requires |s.procs| == 1 && s.procs[0].req.UpdateTenant? && s.procs[0].pc == WritingActor(write) && k + 1 < |answers|
    requires table == s.actors && Lookup(table, s.procs[0].req.wallet) == Some(read) && Carries(read, s.procs[0].req, write)
    ensures var t, r := Solo(s, answers[k..]), s.procs[0].req;
            var taken := !answers[k].Fails? && Takeable(table, r, write.did, write.invitation);
            && |t.procs| == 1
            && (t.procs[0].pc == Finished <==> taken && !answers[k + 1].Fails? && r.wallet in s.wallets)
            && (taken ==> r.wallet in t.actors && Carries(read, r, t.actors[r.wallet])
                          && t.actors[r.wallet].did == write.did && t.actors[r.wallet].invitation == write.invitation)
            && (!taken ==> t.actors == table)
  {
    var r, s' := s.procs[0].req, Next(s, 0, answers[k]);
    UpdateIsTaken(table, r, write);
    if s'.procs[0].pc == WritingWallet {
      Takes(s, answers, k, s');
      WalletWriteEnds(s', answers, k + 1);
    } else {
      Ends(s, answers, k, s');
    }
  }

  lemma AddingEnds(s: State, answers: seq<Answer>, read: Actor)
    requires |s.procs| == 1 && s.procs[0].req.UpdateTenant? && s.procs[0].pc == FetchingToken(read) && |answers| == MAX_CALLS
    requires Lookup(s.actors, s.procs[0].req.wallet) == Some(read) && Adds(s.procs[0].req, read)
    ensures var t, r := Solo(s, answers[2..]), s.procs[0].req;
            && |t.procs| == 1
            && (t.procs[0].pc == Finished <==> r.wallet in s.wallets && WritesWallet(s.actors, r, answers))
            && (if WritesActor(s.actors, r, answers) then StoredAs(s.actors, t.actors, r, answers) else t.actors == s.actors)
  {
    var r, s3 := s.procs[0].req, Next(s, 0, answers[2]);
    if answers[2].Fails? {
      Ends(s, answers, 2, s3);
    } else {
      Takes(s, answers, 2, s3);
      assert s3 == s.At(0, OnboardingAgain(read));
      if answers[3].Onboards? {
        OnboardingEnds(s3, s.actors, answers, read);
      } else {
        Ends(s3, answers, 3, Next(s3, 0, answers[3]));
      }
    }
  }

  lemma OnboardingEnds(s: State, table: Table, answers: seq<Answer>, read: Actor)
    requires |s.procs| == 1 && s.procs[0].req.UpdateTenant? && s.procs[0].pc == OnboardingAgain(read) && |answers| == MAX_CALLS
    requires table == s.actors && Lookup(table, s.procs[0].req.wallet) == Some(read) && Adds(s.procs[0].req, read)
    requires answers[3].Onboards?
    ensures var t, r := Solo(s, answers[3..]), s.procs[0].req;
            var taken := !answers[4].Fails? && Takeable(table, r, answers[3].did, answers[3].invitation);
            && |t.procs| == 1
            && (t.procs[0].pc == Finished <==> taken && !answers[5].Fails? && r.wallet in s.wallets)
            && (taken ==> StoredAs(table, t.actors, r, answers))
            && (!taken ==> t.actors == table)
  {
    var r, s4 := s.procs[0].req, Next(s, 0, answers[3]);
    var o := Some(Onboarded(answers[3].did, answers[3].invitation));
    var write := Merged(read, r, o);
    AddedRoles(r.newRoles, read.roles);
    MergedCarries(read, r, o);
    Takes(s, answers, 3, s4);
    assert s4 == s.At(0, WritingActor(write));
    ActorWriteEnds(s4, table, answers, 4, read, write);
  }

  lemma RewritingEnds(s: State, answers: seq<Answer>, read: Actor, write: Actor)
    requires |s.procs| == 1 && s.procs[0].req.UpdateTenant? && s.procs[0].pc == WritingActor(write) && |answers| == MAX_CALLS
    requires Lookup(s.actors, s.procs[0].req.wallet) == Some(read)
    requires !Adds(s.procs[0].req, read) && Rewrites(s.procs[0].req, read)
    requires Carries(read, s.procs[0].req, write)
    ensures var t, r := Solo(s, answers[2..]), s.procs[0].req;
            && |t.procs| == 1
            && (t.procs[0].pc == Finished <==> r.wallet in s.wallets && WritesWallet(s.actors, r, answers))
            && (if WritesActor(s.actors, r, answers) then StoredAs(s.actors, t.actors, r, answers) else t.actors == s.actors)
  {
    ActorWriteEnds(s, s.actors, answers, 2, read, write);
  }

  lemma PlanEnds(s: State, answers: seq<Answer>)
    requires |s.procs| == 1 && s.procs[0].req.UpdateTenant? && |answers| == MAX_CALLS
    requires s.procs[0].pc == Plan(Lookup(s.actors, s.procs[0].req.wallet), s.procs[0].req)
    ensures var t, r := Solo(s, answers[2..]), s.procs[0].req;
            && |t.procs| == 1
            && (t.procs[0].pc == Finished <==> r.wallet in s.wallets && WritesWallet(s.actors, r, answers))
            && (if WritesActor(s.actors, r, answers) then StoredAs(s.actors, t.actors, r, answers) else t.actors == s.actors)
  {
    var r := s.procs[0].req;
    if r.wallet in s.actors {
      var read := s.actors[r.wallet];
      AddedRoles(r.newRoles, read.roles);
      if Adds(r, read) {
        AddingEnds(s, answers, read);
      } else if Rewrites(r, read) {
        MergedCarries(read, r, None);
        RewritingEnds(s, answers, read, Merged(read, r, None));
      } else {
        WalletWriteEnds(s, answers, 2);
      }
    } else if r.newRoles == [] {
      WalletWriteEnds(s, answers, 2);
    } else {
      OverStays(s, answers[2..]);
    }
  }

  lemma UpdateEnds(s: State, answers: seq<Answer>)
    requires |s.procs| == 1 && s.procs[0].req.UpdateTenant? && s.procs[0].pc == LookingUpWallet && |answers| == MAX_CALLS
    ensures var t, r := Solo(s, answers), s.procs[0].req;
            var found := !answers[0].Fails? && r.wallet in s.wallets && !answers[1].Fails?;
            && |t.procs| == 1
            && (t.procs[0].pc == Finished <==> found && WritesWallet(s.actors, r, answers))
            && (if found && WritesActor(s.actors, r, answers) then StoredAs(s.actors, t.actors, r, answers)
                else t.actors == s.actors)
  {
    var s1 := Next(s, 0, answers[0]);
    assert answers[0..] == answers;
    if s1.procs[0].pc == Aborted {
      Ends(s, answers, 0, s1);
    } else {
      Takes(s, answers, 0, s1);
      var s2 := Next(s1, 0, answers[1]);
      if answers[1].Fails? {
        Ends(s1, answers, 1, s2);
      } else {
        Takes(s1, answers, 1, s2);
        PlanEnds(s2, answers);
      }
    }
  }

  class Cloud {
    var wallets: map<Id, Wallet>
    var actors: Table
    var next: Id
    ghost var known: set<Id>

    // Wallet ids are fresh and every actor has its wallet.
    ghost predicate Valid()
      reads this
    {
      && Unique(actors)
      && (forall w | w in wallets :: w < next)
      && (forall w | w in actors :: w in wallets)
    }

    ghost function View(r: Request, pc: Pc): State
      reads this
    {
      State(wallets, actors, next, known, [Proc(r, pc)])
    }

    constructor ()
      ensures Valid() && wallets == map[] && actors == map[]
    {
      wallets, actors, next, known := map[], map[], 0, {};
    }

    method CreateTenant(r: Request, answers: seq<Answer>) returns (end: Pc)
      requires Valid() && r.CreateTenant? && |answers| == MAX_CALLS
      modifies this
      ensures Valid()
      ensures View(r, end) == Solo(old(View(r, CheckingName)), answers)
      ensures end ==
              if answers[0].Fails? || (exists j | j in old(actors) :: old(actors)[j].name == r.walletLabel) || answers[1].Fails?
              then Refused(None)
              else if r.roles == [] then Returned(old(next), None)
              else EndOfRoles(old(actors), old(next), r, answers)
      ensures match end
              case Returned(w, result) =>
                && w == old(next) && (result.Some? <==> r.roles != [])
                && wallets == old(wallets)[w := NewWallet(r)]
                && actors == if result.Some? then old(actors)[w := NewActor(r, result.value)] else old(actors)
              case Refused(_) => wallets == old(wallets) && actors == old(actors)
              case Stray(w) =>
                w == old(next) && wallets == old(wallets)[w := NewWallet(r)] && actors == old(actors)
              case _ => false
    {
      assert answers[0..] == answers;
      if answers[0].Fails? || NameTaken(actors, r.walletLabel) {
        Ends(View(r, CheckingName), answers, 0, View(r, Refused(None)));
        return Refused(None);
      }
      Takes(View(r, CheckingName), answers, 0, View(r, CreatingWallet));
      if answers[1].Fails? {
        Ends(View(r, CreatingWallet), answers, 1, View(r, Refused(None)));
        return Refused(None);
      }
      var id := next;
      wallets, next := wallets[id := NewWallet(r)], next + 1;
      if r.roles == [] {
        known := known + {id};
        Ends(old(View(r, CreatingWallet)), answers, 1, View(r, Returned(id, None)));
        return Returned(id, None);
      }
      Takes(old(View(r, CreatingWallet)), answers, 1, View(r, OnboardingNew(id)));
      end := OnboardAndRegister(r, id, answers);
      assert end.Refused? ==> wallets == old(wallets);
    }

    // The part of create_tenant that is guarded by its handlers.
    method OnboardAndRegister(r: Request, id: Id, answers: seq<Answer>) returns (end: Pc)
      requires Valid() && r.CreateTenant? && r.roles != [] && |answers| == MAX_CALLS
      requires id in wallets && id !in actors
      modifies this
      ensures Valid() && next == old(next)
      ensures View(r, end) == Solo(old(View(r, OnboardingNew(id))), answers[2..])
      ensures end == EndOfRoles(old(actors), id, r, answers)
      ensures match end
              case Returned(w, result) =>
                && w == id && result.Some? && wallets == old(wallets)
                && actors == old(actors)[w := NewActor(r, result.value)]
              case Refused(_) => wallets == old(wallets) - {id} && actors == old(actors)
              case Stray(w) => w == id && wallets == old(wallets) && actors == old(actors)
              case _ => false
    {
      if !answers[2].Onboards? {
        Takes(View(r, OnboardingNew(id)), answers, 2, View(r, Compensating(id)));
        end := DeleteStrayWallet(r, id, answers, 3);
        return;
      }
      var onboarded := Onboarded(answers[2].did, answers[2].invitation);
      var registered := Create(actors, id, NewActor(r, onboarded));
      OutcomesExactly(actors, id, NewActor(r, onboarded));
      Takes(View(r, OnboardingNew(id)), answers, 2, View(r, Registering(id, onboarded)));
      if answers[3].Fails? || registered.Err? {
        Takes(View(r, Registering(id, onboarded)), answers, 3, View(r, Compensating(id)));
        end := DeleteStrayWallet(r, id, answers, 4);
        return;
      }
      ApplyKeepsUnique(actors, CreateOp(id, NewActor(r, onboarded)));
      actors, known := registered.value, known + {id};
      end := Returned(id, Some(onboarded));
      Ends(old(View(r, Registering(id, onboarded))), answers, 3, View(r, end));
    }

    // The handler: delete the wallet, then raise again.
    method DeleteStrayWallet(r: Request, id: Id, answers: seq<Answer>, call: nat) returns (end: Pc)
      requires Valid() && r.CreateTenant? && call < |answers|
      requires id in wallets && id !in actors
      modifies this`wallets
      ensures Valid()
      ensures View(r, end) == Solo(old(View(r, Compensating(id))), answers[call..])
      ensures end == if answers[call].Fails? then Stray(id) else Refused(Some(id))
      ensures wallets == if answers[call].Fails? then old(wallets) else old(wallets) - {id}
    {
      if answers[call].Fails? {
        end := Stray(id);
      } else {
        wallets := wallets - {id};
        end := Refused(Some(id));
      }
      Ends(old(View(r, Compensating(id))), answers, call, View(r, end));
    }

    // Updating a tenant: the check that the wallet exists, then handle_tenant_update. The call finishes
    // exactly if all calls made work, the wallet exists, a holder asks for no role and the registry takes
    // the actor.
    method UpdateTenant(r: Request, answers: seq<Answer>) returns (end: Pc)
      requires Valid() && r.UpdateTenant? && |answers| == MAX_CALLS
      modifies this
      ensures Valid()
      ensures View(r, end) == Solo(old(View(r, LookingUpWallet)), answers)
      ensures end.Finished? || end.Aborted?
      ensures var found := !answers[0].Fails? && r.wallet in old(wallets) && !answers[1].Fails?;
              && (end.Finished? <==> found && WritesWallet(old(actors), r, answers))
              && (found && WritesActor(old(actors), r, answers) ==> StoredAs(old(actors), actors, r, answers))
              && (!found || !WritesActor(old(actors), r, answers) ==> actors == old(actors))
      ensures actors.Keys == old(actors).Keys && wallets.Keys == old(wallets).Keys
      ensures forall k | k in actors && k != r.wallet :: actors[k] == old(actors)[k]
      ensures end.Finished? ==>
                && r.wallet in old(wallets)
                && wallets == old(wallets)[r.wallet := UpdatedWallet(old(wallets)[r.wallet], r)]
      ensures end.Finished? ==>
                && (r.newLabel.Some? ==> wallets[r.wallet].walletLabel == r.newLabel.value)
                && (r.newLabel.None? ==> wallets[r.wallet].walletLabel == old(wallets)[r.wallet].walletLabel)
                && wallets[r.wallet].imageUrl == if r.newImage.Some? then r.newImage else old(wallets)[r.wallet].imageUrl
      ensures end.Aborted? ==> wallets == old(wallets)
    {
      assert answers[0..] == answers;
      UpdateEnds(View(r, LookingUpWallet), answers);
      if answers[0].Fails? || r.wallet !in wallets {
        Ends(View(r, LookingUpWallet), answers, 0, View(r, Aborted));
        return Aborted;
      }
      Takes(View(r, LookingUpWallet), answers, 0, View(r, FetchingActor));
      end := HandleTenantUpdate(r, answers);
    }

    method HandleTenantUpdate(r: Request, answers: seq<Answer>) returns (end: Pc)
      requires Valid() && r.UpdateTenant? && |answers| == MAX_CALLS
      modifies this`actors, this`wallets
      ensures Valid()
      ensures View(r, end) == Solo(old(View(r, FetchingActor)), answers[1..])
      ensures end.Finished? || end.Aborted?
      ensures actors.Keys == old(actors).Keys && wallets.Keys == old(wallets).Keys
      ensures forall k | k in actors && k != r.wallet :: actors[k] == old(actors)[k]
      ensures end.Finished? ==>
                && r.wallet in old(wallets)
                && wallets == old(wallets)[r.wallet := UpdatedWallet(old(wallets)[r.wallet], r)]
      ensures end.Aborted? ==> wallets == old(wallets)
    {
      if answers[1].Fails? {
        Ends(View(r, FetchingActor), answers, 1, View(r, Aborted));
        return Aborted;
      }
      var actor := Lookup(actors, r.wallet);
      if actor.None? && r.newRoles != [] {
        Ends(View(r, FetchingActor), answers, 1, View(r, Aborted));
        return Aborted;
      }
      if actor.Some? {
        if Added(r.newRoles, actor.value.roles) != [] {
          end := OnboardAgainThenUpdate(r, actor.value, answers);
          return;
        }
        if Truthy(r.newLabel) || Truthy(r.newImage) {
          var write := BuildActor(r, actor.value, None);
          Takes(View(r, FetchingActor), answers, 1, View(r, WritingActor(write)));
          end := WriteBack(r, write, answers, 2);
          return;
        }
      }
      Takes(View(r, FetchingActor), answers, 1, View(r, WritingWallet));
      end := WriteWallet(r, answers, 2);
    }

    // The branch that poses as the tenant to onboard it for the added roles.
    method OnboardAgainThenUpdate(r: Request, actor: Actor, answers: seq<Answer>) returns (end: Pc)
      requires Valid() && r.UpdateTenant? && |answers| == MAX_CALLS
      requires Lookup(actors, r.wallet) == Some(actor) && !answers[1].Fails?
      requires Added(r.newRoles, actor.roles) != []
      modifies this`actors, this`wallets
      ensures Valid()
      ensures View(r, end) == Solo(old(View(r, FetchingActor)), answers[1..])
      ensures end.Finished? || end.Aborted?
      ensures actors.Keys == old(actors).Keys && wallets.Keys == old(wallets).Keys
      ensures forall k | k in actors && k != r.wallet :: actors[k] == old(actors)[k]
      ensures end.Finished? ==>
                && r.wallet in old(wallets)
                && wallets == old(wallets)[r.wallet := UpdatedWallet(old(wallets)[r.wallet], r)]
      ensures end.Aborted? ==> wallets == old(wallets)
    {
      Takes(View(r, FetchingActor), answers, 1, View(r, FetchingToken(actor)));
      if answers[2].Fails? {
        Ends(View(r, FetchingToken(actor)), answers, 2, View(r, Aborted));
        return Aborted;
      }
      Takes(View(r, FetchingToken(actor)), answers, 2, View(r, OnboardingAgain(actor)));
      if !answers[3].Onboards? {
        Ends(View(r, OnboardingAgain(actor)), answers, 3, View(r, Aborted));
        return Aborted;
      }
      var write := BuildActor(r, actor, Some(Onboarded(answers[3].did, answers[3].invitation)));
      Takes(View(r, OnboardingAgain(actor)), answers, 3, View(r, WritingActor(write)));
      end := WriteBack(r, write, answers, 4);
    }

    // update_dict, filled field by field and then applied to the actor.
    static method BuildActor(r: Request, actor: Actor, o: Option<Onboarded>) returns (write: Actor)
      requires r.UpdateTenant?
      ensures write == Merged(actor, r, o)
      ensures (o.None? <==> Added(r.newRoles, actor.roles) == []) ==> Carries(actor, r, write)
      ensures write.did == (if o.Some? then o.value.did else actor.did)
      ensures write.invitation == (if o.Some? then o.value.invitation else actor.invitation)
    {
      if o.None? <==> Added(r.newRoles, actor.roles) == [] {
        MergedCarries(actor, r, o);
      }
      write := actor;
      if Truthy(r.newLabel) {
        write := write.(name := r.newLabel.value);
      }
      if o.Some? {
        write := write.(roles := Distinct(r.newRoles + actor.roles));
        write := write.(did := o.value.did, invitation := o.value.invitation);
      }
      if Truthy(r.newImage) && r.newImage != actor.imageUrl {
        write := write.(imageUrl := r.newImage);
      }
    }

    method WriteBack(r: Request, write: Actor, answers: seq<Answer>, call: nat) returns (end: Pc)
      requires Valid() && r.UpdateTenant? && call + 1 < |answers|
      modifies this`actors, this`wallets
      ensures Valid()
      ensures View(r, end) == Solo(old(View(r, WritingActor(write))), answers[call..])
      ensures end.Finished? || end.Aborted?
      ensures actors.Keys == old(actors).Keys && wallets.Keys == old(wallets).Keys
      ensures forall k | k in actors && k != r.wallet :: actors[k] == old(actors)[k]
      ensures end.Finished? ==>
                && r.wallet in old(wallets)
                && wallets == old(wallets)[r.wallet := UpdatedWallet(old(wallets)[r.wallet], r)]
      ensures end.Aborted? ==> wallets == old(wallets)
    {
      var updated := Update(actors, r.wallet, write);
      if answers[call].Fails? || updated.Err? {
        Ends(View(r, WritingActor(write)), answers, call, View(r, Aborted));
        return Aborted;
      }
      ApplyKeepsUnique(actors, UpdateOp(r.wallet, write));
      actors := updated.value;
      assert actors.Keys == old(actors).Keys;
      Takes(old(View(r, WritingActor(write))), answers, call, View(r, WritingWallet));
      end := WriteWallet(r, answers, call + 1);
    }

    method WriteWallet(r: Request, answers: seq<Answer>, call: nat) returns (end: Pc)
      requires Valid() && r.UpdateTenant? && call < |answers|
      modifies this`wallets
      ensures Valid()
      ensures View(r, end) == Solo(old(View(r, WritingWallet)), answers[call..])
      ensures end == if answers[call].Fails? || r.wallet !in old(wallets) then Aborted else Finished
      ensures wallets == if end.Aborted? then old(wallets)
                         else old(wallets)[r.wallet := UpdatedWallet(old(wallets)[r.wallet], r)]
    {
      if answers[call].Fails? || r.wallet !in wallets {
        end := Aborted;
      } else {
        wallets := wallets[r.wallet := UpdatedWallet(wallets[r.wallet], r)];
        end := Finished;
      }
      Ends(old(View(r, WritingWallet)), answers, call, View(r, end));
    }

    // The actor goes first, so that no failure leaves an actor without its wallet.
    method DeleteTenantById(r: Request, answers: seq<Answer>) returns (end: Pc)
      requires Valid() && r.DeleteTenant? && |answers| == MAX_CALLS
      modifies this`actors, this`wallets
      ensures Valid()
      ensures View(r, end) == Solo(old(View(r, LookingUpWallet)), answers)
      ensures end.Finished? || end.Aborted?
      ensures var found := !answers[0].Fails? && r.wallet in old(wallets) && !answers[1].Fails?;
              var cleared := found && (r.wallet in old(actors) ==> !answers[2].Fails?);
              && (end.Finished? <==> cleared && !answers[if r.wallet in old(actors) then 3 else 2].Fails?)
              && actors == if cleared then old(actors) - {r.wallet} else old(actors)
      ensures end.Finished? ==>
                r.wallet in old(wallets) && wallets == old(wallets) - {r.wallet} && actors == old(actors) - {r.wallet}
      ensures end.Aborted? ==> wallets == old(wallets) && actors in {old(actors), old(actors) - {r.wallet}}
    {
      assert answers[0..] == answers;
      if answers[0].Fails? || r.wallet !in wallets {
        Ends(View(r, LookingUpWallet), answers, 0, View(r, Aborted));
        return Aborted;
      }
      Takes(View(r, LookingUpWallet), answers, 0, View(r, FetchingActor));
      if answers[1].Fails? {
        Ends(View(r, FetchingActor), answers, 1, View(r, Aborted));
        return Aborted;
      }
      if r.wallet in actors {
        Takes(View(r, FetchingActor), answers, 1, View(r, RemovingActor));
        end := RemoveActorThenWallet(r, answers);
        return;
      }
      assert actors == actors - {r.wallet};
      Takes(View(r, FetchingActor), answers, 1, View(r, DeletingWallet));
      end := DeleteWallet(r, answers, 2);
    }

    method RemoveActorThenWallet(r: Request, answers: seq<Answer>) returns (end: Pc)
      requires Valid() && r.DeleteTenant? && |answers| == MAX_CALLS && r.wallet in actors
      modifies this`actors, this`wallets
      ensures Valid()
      ensures View(r, end) == Solo(old(View(r, RemovingActor)), answers[2..])
      ensures end.Finished? || end.Aborted?
      ensures end.Finished? <==> !answers[2].Fails? && !answers[3].Fails?
      ensures actors == if answers[2].Fails? then old(actors) else old(actors) - {r.wallet}
      ensures end.Finished? ==> wallets == old(wallets) - {r.wallet} && actors == old(actors) - {r.wallet}
      ensures end.Aborted? ==> wallets == old(wallets) && actors in {old(actors), old(actors) - {r.wallet}}
    {
      if answers[2].Fails? {
        Ends(View(r, RemovingActor), answers, 2, View(r, Aborted));
        return Aborted;
      }
      actors := actors - {r.wallet};
      Takes(old(View(r, RemovingActor)), answers, 2, View(r, DeletingWallet));
      end := DeleteWallet(r, answers, 3);
    }

    method DeleteWallet(r: Request, answers: seq<Answer>, call: nat) returns (end: Pc)
      requires Valid() && r.DeleteTenant? && call < |answers| && r.wallet in wallets && r.wallet !in actors
      modifies this`wallets
      ensures Valid()
      ensures View(r, end) == Solo(old(View(r, DeletingWallet)), answers[call..])
      ensures end == if answers[call].Fails? then Aborted else Finished
      ensures wallets == if end.Aborted? then old(wallets) else old(wallets) - {r.wallet}
    {
      if answers[call].Fails? {
        end := Aborted;
      } else {
        wallets := wallets - {r.wallet};
        end := Finished;
      }
      Ends(old(View(r, DeletingWallet)), answers, call, View(r, end));
    }
  }
}
