// Publishing revocations: waiting for a revocation to be recorded, and validating a publish request.
module Revocation {
  import opened Retry
  import opened Wrappers

  datatype Record = Record(state: string, revRegId: string, credRevId: string)

  const MAX_TRIES := 5
  const FETCH_ATTEMPTS := 5

  datatype Waited = Confirmed(record: Record) | NotConfirmed | FetchFailed

  predicate IsRevoked(r: Option<Record>) { r.Some? && r.value.state == "revoked" }

  // How the attempts of one try to fetch the record turn out, those after the first success unused.
  type Attempts = seq<Outcome<Option<Record>, string>>

  // The record one try fetches, unless all its attempts raise.
  function Shown(attempts: Attempts): Option<Option<Record>> {
    match FirstReturned(attempts) case Some(i) => Some(attempts[i].value) case None => None
  }

  function Used(attempts: Attempts): (n: nat)
    ensures n <= |attempts|
  {
    match FirstReturned(attempts) case Some(i) => i + 1 case None => |attempts|
  }

  // How the waiting ends, and the number of fetches it makes.
  datatype Waiting = Waiting(result: Waited, made: nat) {
    function After(n: nat): Waiting { Waiting(result, n + made) }
  }

  function Wait(tries: seq<Attempts>): Waiting {
    if tries == [] then Waiting(NotConfirmed, 0)
    else
      match Shown(tries[0])
      case None => Waiting(FetchFailed, Used(tries[0]))
      case Some(record) =>
        if IsRevoked(record) then Waiting(Confirmed(record.value), Used(tries[0]))
        else Wait(tries[1..]).After(Used(tries[0]))
  }

  predicate GoesOn(attempts: Attempts) {
    Shown(attempts).Some? && !IsRevoked(Shown(attempts).value)
  }

  // The try that ends the waiting: the ones before it have fetched a record that is not revoked.
  predicate EndsAt(tries: seq<Attempts>, k: nat) {
    k < |tries| && !GoesOn(tries[k]) && forall j | 0 <= j < k :: GoesOn(tries[j])
  }

  // The try that ends the waiting decides its result; without one, the revocation is not confirmed.
  lemma {:induction false} LastFetchDecides(tries: seq<Attempts>, k: nat)
    ensures EndsAt(tries, k) ==>
              Wait(tries).result == match Shown(tries[k]) case None => FetchFailed case Some(r) => Confirmed(r.value)
    ensures (forall j | 0 <= j < |tries| :: GoesOn(tries[j])) ==> Wait(tries).result == NotConfirmed
  {
    if tries != [] && GoesOn(tries[0]) {
      var rest := tries[1..];
      assert forall j | 0 <= j < |rest| :: rest[j] == tries[j + 1];
      if k > 0 {
        LastFetchDecides(rest, k - 1);
      } else {
        LastFetchDecides(rest, 0);
      }
    }
  }

  // Conversely, a revocation is confirmed only by the record fetched last.
  lemma {:induction false} ConfirmedByLastFetch(tries: seq<Attempts>) returns (k: nat)
    requires !Wait(tries).result.NotConfirmed?
    ensures EndsAt(tries, k)
  {
    if GoesOn(tries[0]) {
      var l := ConfirmedByLastFetch(tries[1..]);
      k := l + 1;
    } else {
      k := 0;
    }
  }

  predicate Bounded(tries: seq<Attempts>, attempts: nat) {
    forall j | 0 <= j < |tries| :: |tries[j]| <= attempts
  }

  lemma {:induction false} FetchesBounded(tries: seq<Attempts>)
    requires Bounded(tries, FETCH_ATTEMPTS)
    ensures Wait(tries).made <= 5 * |tries|
  {
    if tries != [] {
      FetchesBounded(tries[1..]);
    }
  }

  // The loop that waits for the record to be revoked.
  method AwaitRevocation(tries: seq<Attempts>) returns (r: Waited, made: nat)
    requires forall j | 0 <= j < |tries| :: |tries[j]| == FETCH_ATTEMPTS
    ensures Waiting(r, made) == Wait(tries)
  {
    made := 0;
    var revoked, nTry := false, 0;
    var record: Option<Record> := None;
    assert tries[0..] == tries;
    while !revoked && nTry < |tries|
      invariant 0 <= nTry <= |tries|
      invariant revoked ==> IsRevoked(record)
      invariant Wait(tries) == if revoked then Waiting(Confirmed(record.value), made) else Wait(tries[nTry..]).After(made)
    {
      var attempts := tries[nTry];
      assert attempts[..FETCH_ATTEMPTS] == attempts;
      var fetched, used := WithRetry(attempts, FETCH_ATTEMPTS);
      assert tries[nTry..][1..] == tries[nTry + 1..];
      nTry, made := nTry + 1, made + used;
      if fetched.GaveUp? {
        return FetchFailed, made;
      }
      record := fetched.value;
      if record.Some? {
        revoked := record.value.state == "revoked";
      }
    }
    if !revoked || record.None? {
      return NotConfirmed, made;
    }
    r := Confirmed(record.value);
  }

  datatype Revoked = RevokeFailed | Reported(ids: map<string, seq<string>>) | Pending | Unconfirmed | RecordsUnavailable

  // revoke_credential: at most 25 fetches, and an id is reported exactly if the record fetched last is
  // revoked. Without publishing it reports no id.
  method RevokeCredential(revokeOk: bool, publish: bool, tries: seq<Attempts>) returns (r: Revoked, made: nat)
    requires |tries| == MAX_TRIES && forall j | 0 <= j < |tries| :: |tries[j]| == FETCH_ATTEMPTS
    ensures made <= 25
    ensures !revokeOk <==> r == RevokeFailed
    ensures revokeOk && !publish <==> r == Pending
    ensures !revokeOk || !publish ==> made == 0
    ensures revokeOk && publish && (forall j | 0 <= j < |tries| :: GoesOn(tries[j])) <==> r == Unconfirmed
    ensures revokeOk && publish ==>
              forall k: nat | EndsAt(tries, k) ::
                match Shown(tries[k])
                case None => r == RecordsUnavailable
                case Some(record) => r == Reported(map[record.value.revRegId := [record.value.credRevId]])
  {
    made := 0;
    if !revokeOk {
      return RevokeFailed, made;
    }
    if !publish {
      return Pending, made;
    }
    var waited;
    waited, made := AwaitRevocation(tries);
    FetchesBounded(tries);
    forall k: nat ensures EndsAt(tries, k) ==>
                            waited == match Shown(tries[k]) case None => FetchFailed case Some(r) => Confirmed(r.value) {
      LastFetchDecides(tries, k);
    }
    LastFetchDecides(tries, 0);
    if !waited.NotConfirmed? {
      ghost var k := ConfirmedByLastFetch(tries);
    }
    match waited
    case Confirmed(record) => r := Reported(map[record.revRegId := [record.credRevId]]);
    case NotConfirmed => r := Unconfirmed;
    case FetchFailed => r := RecordsUnavailable;
  }

  // ---- Validating a publish request ----

  // What the agent says about a revocation registry.
  datatype Registry = CallFails(status: int) | NoResult | NoPendingList | PendingIds(ids: seq<string>)

  // One entry of the request map, in iteration order.
  datatype Entry = Entry(registryId: string, credRevIds: seq<string>)

  predicate EntryOk(registry: Registry, requested: seq<string>) {
    registry.PendingIds? && forall c | c in requested :: c in registry.ids
  }

  // validate_rev_reg_ids: returns normally exactly if every requested registry has a pending list with all
  // its requested ids; otherwise it fails at the first entry that has not.
  method ValidateRevRegIds(entries: seq<Entry>, registries: string -> Registry) returns (r: Result<(), (nat, int)>)
    ensures r.Ok? <==> forall i | 0 <= i < |entries| :: EntryOk(registries(entries[i].registryId), entries[i].credRevIds)
    ensures r.Err? ==>
              var (k, status) := r.error;
              && k < |entries|
              && (forall i | 0 <= i < k :: EntryOk(registries(entries[i].registryId), entries[i].credRevIds))
              && !EntryOk(registries(entries[k].registryId), entries[k].credRevIds)
              && status == match registries(entries[k].registryId) case CallFails(s) => s case _ => 404
  {
    var n := 0;
    while n < |entries|
      invariant 0 <= n <= |entries|
      invariant forall i | 0 <= i < n :: EntryOk(registries(entries[i].registryId), entries[i].credRevIds)
    {
      var requested := entries[n].credRevIds;
      match registries(entries[n].registryId)
      case CallFails(status) => return Err((n, status));
      case NoResult => return Err((n, 404));
      case NoPendingList => return Err((n, 404));
      case PendingIds(ids) =>
        var k := 0;
        while k < |requested|
          invariant 0 <= k <= |requested|
          invariant forall j | 0 <= j < k :: requested[j] in ids
        {
          if requested[k] !in ids {
            return Err((n, 404));
          }
          k := k + 1;
        }
      n := n + 1;
    }
    r := Ok(());
  }

  // publish_pending_revocations: the publish call goes out exactly for a valid request, with that request.
  method PublishPendingRevocations(entries: seq<Entry>, registries: string -> Registry, publishStatus: Option<int>)
    returns (published: Option<seq<Entry>>, r: Result<(), int>)
    ensures published ==
            if forall i | 0 <= i < |entries| :: EntryOk(registries(entries[i].registryId), entries[i].credRevIds)
            then Some(entries) else None
    ensures r.Ok? <==> published.Some? && publishStatus.None?
    ensures published.Some? && publishStatus.Some? ==> r == Err(publishStatus.value)
    ensures published.None? ==>
              exists k | 0 <= k < |entries| ::
                && !EntryOk(registries(entries[k].registryId), entries[k].credRevIds)
                && r == Err(match registries(entries[k].registryId) case CallFails(s) => s case _ => 404)
  {
    var valid := ValidateRevRegIds(entries, registries);
    if valid.Err? {
      return None, Err(valid.error.1);
    }
    published := Some(entries);
    r := if publishStatus.Some? then Err(publishStatus.value) else Ok(());
  }
}
