/** The wallet service serving a sequence of requests, one after another, each a
    single read-modify-write on the same table.

    The table generates the id of a new wallet. That mechanism is not part of
    this model; here it is a counter kept beside the table that is handed out
    and advanced on every successful create, so an id is never handed out
    twice, even after its wallet is deleted. */
module WalletService {
  import opened WalletModel
  import opened WalletRouter

  /** One request as the routes receive it, with the authenticated caller. */
  datatype Request =
    | GetRequest(caller: int, walletId: int)
    | CreateRequest(caller: int, idUser: int, balance: real)
    | IncreaseRequest(caller: int, walletId: int, amount: real)
    | DecreaseRequest(caller: int, walletId: int, amount: real)
    | DeleteRequest(caller: int, walletId: int)

  /** The table and the next id it will hand out. */
  datatype Db = Db(wallets: Store, nextId: int)

  /** Every id in the table was handed out already. */
  predicate Valid(db: Db)
  {
    forall id :: id in db.wallets ==> id < db.nextId
  }

  /** All replies to a sequence of requests, in order, and the final database. */
  datatype Transcript = Transcript(replies: seq<Result<WalletData>>, db: Db)

  /** Routes one request to its handler. */
  function Serve(db: Db, req: Request): (r: Step<Db>)
    requires Valid(db)
    ensures Valid(r.store)
    ensures db.nextId <= r.store.nextId
    ensures req.CreateRequest? && r.result.Ok? ==> r.result.value.idWallet == db.nextId && r.result.value.idWallet !in db.wallets
    ensures !req.CreateRequest? ==> r.store.nextId == db.nextId
  {
    match req
    case GetRequest(caller, walletId) =>
      Step(GetWalletById(db.wallets, caller, walletId).result, db)
    case CreateRequest(caller, idUser, balance) =>
      var step := CreateWallet(db.wallets, caller, idUser, balance, db.nextId);
      var next := if step.result.Ok? then db.nextId + 1 else db.nextId;
      Step(step.result, Db(step.store, next))
    case IncreaseRequest(caller, walletId, amount) =>
      var step := IncreaseBalance(db.wallets, caller, walletId, amount);
      Step(step.result, Db(step.store, db.nextId))
    case DecreaseRequest(caller, walletId, amount) =>
      var step := DecreaseBalance(db.wallets, caller, walletId, amount);
      Step(step.result, Db(step.store, db.nextId))
    case DeleteRequest(caller, walletId) =>
      var step := DeleteWallet(db.wallets, caller, walletId);
      Step(step.result, Db(step.store, db.nextId))
  }

  /** Serves the requests in order, each against the database the previous one
      left behind. */
  function Run(db: Db, reqs: seq<Request>): (r: Transcript)
    requires Valid(db)
    ensures |r.replies| == |reqs|
    ensures Valid(r.db)
    ensures db.nextId <= r.db.nextId
    decreases |reqs|
  {
    if reqs == [] then Transcript([], db)
    else
      var first := Serve(db, reqs[0]);
      var rest := Run(first.store, reqs[1..]);
      Transcript([first.result] + rest.replies, rest.db)
  }

  // ---------------------------------------------------------------------------
  // Properties of whole sequences of requests.

  /** An id that was handed out and whose wallet is gone never comes back. */
  lemma {:induction false} DeletedStaysDeleted(db: Db, reqs: seq<Request>, id: int)
    requires Valid(db) && id < db.nextId && id !in db.wallets
    ensures id !in Run(db, reqs).db.wallets
    decreases |reqs|
  {
    if reqs != [] {
      var first := Serve(db, reqs[0]);
      DeletedStaysDeleted(first.store, reqs[1..], id);
    }
  }

  /** A wallet present at the start and at the end of a sequence of requests
      has the same owner at the end as at the start. */
  lemma {:induction false} RunKeepsOwners(db: Db, reqs: seq<Request>)
    requires Valid(db)
    ensures OwnersKept(db.wallets, Run(db, reqs).db.wallets)
    decreases |reqs|
  {
    if reqs != [] {
      var first := Serve(db, reqs[0]);
      assert OwnersKept(db.wallets, first.store.wallets) by {
        match reqs[0]
        case GetRequest(c, w) => RoutesKeepOwners(db.wallets, c, w, 0.0, 0, db.nextId);
        case CreateRequest(c, u, b) => RoutesKeepOwners(db.wallets, c, 0, b, u, db.nextId);
        case IncreaseRequest(c, w, a) => RoutesKeepOwners(db.wallets, c, w, a, 0, db.nextId);
        case DecreaseRequest(c, w, a) => RoutesKeepOwners(db.wallets, c, w, a, 0, db.nextId);
        case DeleteRequest(c, w) => RoutesKeepOwners(db.wallets, c, w, 0.0, 0, db.nextId);
      }
      RunKeepsOwners(first.store, reqs[1..]);
      var last := Run(db, reqs).db.wallets;
      forall id | id in db.wallets && id in last
        ensures last[id].idUser == db.wallets[id].idUser
      {
        if id !in first.store.wallets {
          DeletedStaysDeleted(first.store, reqs[1..], id);
        }
      }
    }
  }

  /** Requests that cannot themselves make a balance negative: a create with a
      non-negative starting balance and an increase by a non-negative amount.
      A decrease of any amount is safe because of its guard. */
  predicate SignSafe(req: Request)
  {
    match req
    case CreateRequest(_, _, balance) => balance >= 0.0
    case IncreaseRequest(_, _, amount) => amount >= 0.0
    case _ => true
  }

  /** Serving one sign-safe request keeps every balance non-negative. */
  lemma ServeKeepsNonNegative(db: Db, req: Request)
    requires Valid(db) && NonNegative(db.wallets) && SignSafe(req)
    ensures NonNegative(Serve(db, req).store.wallets)
  {
  }

  /** Starting from non-negative balances, a sequence of sign-safe requests
      never produces a negative balance. */
  lemma {:induction false} RunKeepsNonNegative(db: Db, reqs: seq<Request>)
    requires Valid(db) && NonNegative(db.wallets)
    requires forall i :: 0 <= i < |reqs| ==> SignSafe(reqs[i])
    ensures NonNegative(Run(db, reqs).db.wallets)
    decreases |reqs|
  {
    if reqs != [] {
      ServeKeepsNonNegative(db, reqs[0]);
      var first := Serve(db, reqs[0]);
      RunKeepsNonNegative(first.store, reqs[1..]);
    }
  }

  /** Two requests that differ at most in the caller of an increase, a decrease
      or a delete. */
  predicate SameButCaller(a: Request, b: Request)
  {
    match a
    case IncreaseRequest(_, w, x) => b.IncreaseRequest? && b.walletId == w && b.amount == x
    case DecreaseRequest(_, w, x) => b.DecreaseRequest? && b.walletId == w && b.amount == x
    case DeleteRequest(_, w) => b.DeleteRequest? && b.walletId == w
    case _ => a == b
  }

  /** Changing who sends the increases, decreases and deletes of a sequence of
      requests changes neither a reply nor the final database. */
  lemma {:induction false} RunIgnoresMutationCallers(db: Db, reqs1: seq<Request>, reqs2: seq<Request>)
    requires Valid(db)
    requires |reqs1| == |reqs2|
    requires forall i :: 0 <= i < |reqs1| ==> SameButCaller(reqs1[i], reqs2[i])
    ensures Run(db, reqs1) == Run(db, reqs2)
    decreases |reqs1|
  {
    if reqs1 != [] {
      var a, b := reqs1[0], reqs2[0];
      assert SameButCaller(a, b);
      assert Serve(db, a) == Serve(db, b) by {
        match a
        case IncreaseRequest(c, w, x) => MutationsIgnoreCaller(db.wallets, w, x, c, b.caller);
        case DecreaseRequest(c, w, x) => MutationsIgnoreCaller(db.wallets, w, x, c, b.caller);
        case DeleteRequest(c, w) => MutationsIgnoreCaller(db.wallets, w, 0.0, c, b.caller);
        case GetRequest(_, _) =>
        case CreateRequest(_, _, _) =>
      }
      var first := Serve(db, a);
      RunIgnoresMutationCallers(first.store, reqs1[1..], reqs2[1..]);
    }
  }

  /** A sequence of reads leaves the database as it found it. */
  lemma {:induction false} ReadsLeaveDbUnchanged(db: Db, reqs: seq<Request>)
    requires Valid(db)
    requires forall i :: 0 <= i < |reqs| ==> reqs[i].GetRequest?
    ensures Run(db, reqs).db == db
    decreases |reqs|
  {
    if reqs != [] {
      ReadsLeaveDbUnchanged(Serve(db, reqs[0]).store, reqs[1..]);
    }
  }

  /** The reply to the request at position `i` comes from serving it against
      the database the first `i` requests left behind. */
  lemma {:induction false} ReplyAt(db: Db, reqs: seq<Request>, i: int)
    requires Valid(db) && 0 <= i < |reqs|
    ensures Valid(Run(db, reqs[..i]).db)
    ensures Run(db, reqs).replies[i] == Serve(Run(db, reqs[..i]).db, reqs[i]).result
    decreases |reqs|
  {
    var first := Serve(db, reqs[0]);
    if i > 0 {
      assert reqs[1..][..i - 1] == reqs[..i][1..];
      ReplyAt(first.store, reqs[1..], i - 1);
    }
  }

  /** A successful create in a sequence of requests returns an id at or above
      the counter the sequence started from, so one that was not in the table. */
  lemma {:induction false} CreatedIdIsNew(db: Db, reqs: seq<Request>, i: int)
    requires Valid(db) && 0 <= i < |reqs|
    requires reqs[i].CreateRequest? && Run(db, reqs).replies[i].Ok?
    ensures Run(db, reqs).replies[i].value.idWallet >= db.nextId
    ensures Run(db, reqs).replies[i].value.idWallet !in db.wallets
    decreases |reqs|
  {
    var first := Serve(db, reqs[0]);
    if i > 0 {
      assert Run(db, reqs).replies[i] == Run(first.store, reqs[1..]).replies[i - 1];
      CreatedIdIsNew(first.store, reqs[1..], i - 1);
    }
  }

  /** Two successful creates in one sequence of requests never return the same
      wallet id, even when wallets are deleted in between. */
  lemma {:induction false} CreatedIdsDistinct(db: Db, reqs: seq<Request>, i: int, j: int)
    requires Valid(db) && 0 <= i < j < |reqs|
    requires reqs[i].CreateRequest? && Run(db, reqs).replies[i].Ok?
    requires reqs[j].CreateRequest? && Run(db, reqs).replies[j].Ok?
    ensures Run(db, reqs).replies[i].value.idWallet != Run(db, reqs).replies[j].value.idWallet
    decreases |reqs|
  {
    var first := Serve(db, reqs[0]);
    var rest := Run(first.store, reqs[1..]);
    assert Run(db, reqs).replies[j] == rest.replies[j - 1];
    if i == 0 {
      CreatedIdIsNew(first.store, reqs[1..], j - 1);
    } else {
      assert Run(db, reqs).replies[i] == rest.replies[i - 1];
      CreatedIdsDistinct(first.store, reqs[1..], i - 1, j - 1);
    }
  }
}
