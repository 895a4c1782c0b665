/** The wallet routes as pure transitions on the wallet table.

    Each route takes the table, the id of the authenticated caller and the
    request's own inputs, and returns its reply with the table afterwards. Only
    `GetWalletById` and `CreateWallet` look at the caller; the three mutating
    routes take it and ignore it, as the routes they model do.

    The routes receive the amount as a float and turn it into a decimal through
    its text form before adding or subtracting it; the decrease route compares
    the raw float against the stored decimal. Here the amount is one exact value
    used both for the comparison and for the arithmetic. */
module WalletRouter {
  import opened WalletModel

  /** Looks up a wallet row by id. */
  function GetWallet(store: Store, walletId: int): (r: Option<Wallet>)
    ensures r.None? <==> walletId !in store
    ensures r.Some? ==> walletId in store && r.value == store[walletId]
  {
    if walletId in store then Some(store[walletId]) else None
  }

  /** What the delete helper hands back: the row it found, if any, and the table
      with that row gone. */
  datatype Removal = Removal(row: Option<Wallet>, store: Store)

  /** Looks up a wallet row and, if there is one, deletes it. */
  function RemoveWallet(store: Store, walletId: int): (r: Removal)
    ensures r.row == GetWallet(store, walletId)
    ensures walletId !in r.store
    ensures OthersUnchanged(store, r.store, walletId)
    ensures r.row.None? ==> r.store == store
  {
    match GetWallet(store, walletId)
    case None => Removal(None, store)
    case Some(w) => Removal(Some(w), store - {walletId})
  }

  /** GET /wallets/{wallet_id}: the wallet's id and balance, for its owner only. */
  function GetWalletById(store: Store, caller: int, walletId: int): (r: Step<Store>)
    ensures r.store == store
    ensures r.result == Err(NotFound) <==> walletId !in store
    ensures r.result == Err(Forbidden) <==> walletId in store && store[walletId].idUser != caller
    ensures r.result.Ok? <==> walletId in store && store[walletId].idUser == caller
    ensures r.result.Ok? ==> r.result.value == WalletData(walletId, store[walletId].balance)
  {
    match GetWallet(store, walletId)
    case None => Step(Err(NotFound), store)
    case Some(w) =>
      if w.idUser != caller then Step(Err(Forbidden), store)
      else Step(Ok(WalletData(walletId, w.balance)), store)
  }

  /** POST /wallets/: a new wallet for the caller with the given balance.
      `freshId` is the id the table generates for the new row. */
  function CreateWallet(store: Store, caller: int, idUser: int, balance: real, freshId: int): (r: Step<Store>)
    requires freshId !in store
    ensures idUser != caller ==> r == Step(Err(Forbidden), store)
    ensures idUser == caller ==> r.result == Ok(WalletData(freshId, balance))
    ensures idUser == caller ==> freshId in r.store && r.store[freshId] == Wallet(caller, balance)
    ensures idUser == caller ==> r.store.Keys == store.Keys + {freshId} && |r.store| == |store| + 1
    ensures OthersUnchanged(store, r.store, freshId)
  {
    if idUser != caller then Step(Err(Forbidden), store)
    else Step(Ok(WalletData(freshId, balance)), store[freshId := Wallet(idUser, balance)])
  }

  /** PUT /wallets/{wallet_id}/increase_balance: adds `amount` to the balance,
      whoever the caller is. */
  function IncreaseBalance(store: Store, caller: int, walletId: int, amount: real): (r: Step<Store>)
    ensures walletId !in store ==> r == Step(Err(NotFound), store)
    ensures walletId in store ==> r.result == Ok(WalletData(walletId, store[walletId].balance + amount))
    ensures walletId in store ==> walletId in r.store && r.store[walletId].idUser == store[walletId].idUser
    ensures walletId in store ==> r.store[walletId].balance == store[walletId].balance + amount
    ensures OthersUnchanged(store, r.store, walletId)
  {
    match GetWallet(store, walletId)
    case None => Step(Err(NotFound), store)
    case Some(w) =>
      var updated := Wallet(w.idUser, w.balance + amount);
      Step(Ok(WalletData(walletId, updated.balance)), store[walletId := updated])
  }

  /** PUT /wallets/{wallet_id}/decrease_balance: subtracts `amount` from the
      balance unless that would take it below zero (for an exact amount),
      whoever the caller is. */
  function DecreaseBalance(store: Store, caller: int, walletId: int, amount: real): (r: Step<Store>)
    ensures walletId !in store ==> r == Step(Err(NotFound), store)
    ensures walletId in store && store[walletId].balance < amount ==> r == Step(Err(InsufficientBalance), store)
    ensures walletId in store && amount <= store[walletId].balance ==>
              && r.result == Ok(WalletData(walletId, store[walletId].balance - amount))
              && walletId in r.store
              && r.store[walletId].idUser == store[walletId].idUser
              && r.store[walletId].balance == store[walletId].balance - amount
    ensures r.result.Ok? ==> walletId in r.store && r.store[walletId].balance >= 0.0
    ensures OthersUnchanged(store, r.store, walletId)
  {
    match GetWallet(store, walletId)
    case None => Step(Err(NotFound), store)
    case Some(w) =>
      if w.balance < amount then Step(Err(InsufficientBalance), store)
      else
        var updated := Wallet(w.idUser, w.balance - amount);
        Step(Ok(WalletData(walletId, updated.balance)), store[walletId := updated])
  }

  /** DELETE /wallets/{wallet_id}: removes the wallet, whoever the caller is,
      and replies with its last id and balance. */
  function DeleteWallet(store: Store, caller: int, walletId: int): (r: Step<Store>)
    ensures walletId !in store ==> r == Step(Err(NotFound), store)
    ensures walletId in store ==> r.result == Ok(WalletData(walletId, store[walletId].balance))
    ensures walletId !in r.store
    ensures OthersUnchanged(store, r.store, walletId)
  {
    var removal := RemoveWallet(store, walletId);
    match removal.row
    case None => Step(Err(NotFound), removal.store)
    case Some(w) => Step(Ok(WalletData(walletId, w.balance)), removal.store)
  }

  // ---------------------------------------------------------------------------
  // Properties relating the routes to each other.

  /** No route changes the owner of a wallet it leaves in the table. */
  lemma RoutesKeepOwners(store: Store, caller: int, walletId: int, amount: real, idUser: int, freshId: int)
    requires freshId !in store
    ensures OwnersKept(store, GetWalletById(store, caller, walletId).store)
    ensures OwnersKept(store, CreateWallet(store, caller, idUser, amount, freshId).store)
    ensures OwnersKept(store, IncreaseBalance(store, caller, walletId, amount).store)
    ensures OwnersKept(store, DecreaseBalance(store, caller, walletId, amount).store)
    ensures OwnersKept(store, DeleteWallet(store, caller, walletId).store)
  {
  }

  /** The increase, decrease and delete routes give the same reply and the same
      table whoever calls them. */
  lemma MutationsIgnoreCaller(store: Store, walletId: int, amount: real, caller1: int, caller2: int)
    ensures IncreaseBalance(store, caller1, walletId, amount) == IncreaseBalance(store, caller2, walletId, amount)
    ensures DecreaseBalance(store, caller1, walletId, amount) == DecreaseBalance(store, caller2, walletId, amount)
    ensures DeleteWallet(store, caller1, walletId) == DeleteWallet(store, caller2, walletId)
  {
  }

  /** A successful decrease never leaves a negative balance and a failed one
      changes nothing, so the decrease route keeps a table of non-negative
      balances non-negative whatever the exact amount. */
  lemma DecreaseKeepsNonNegative(store: Store, caller: int, walletId: int, amount: real)
    requires NonNegative(store)
    ensures NonNegative(DecreaseBalance(store, caller, walletId, amount).store)
  {
  }

  /** Get, delete, and increase or create with a non-negative amount keep every
      balance non-negative; no route checks the sign of what it adds. */
  lemma RoutesKeepNonNegative(store: Store, caller: int, walletId: int, amount: real, idUser: int, freshId: int)
    requires NonNegative(store) && amount >= 0.0 && freshId !in store
    ensures NonNegative(GetWalletById(store, caller, walletId).store)
    ensures NonNegative(CreateWallet(store, caller, idUser, amount, freshId).store)
    ensures NonNegative(IncreaseBalance(store, caller, walletId, amount).store)
    ensures NonNegative(DeleteWallet(store, caller, walletId).store)
  {
  }

  /** A wallet the owner has just created can be read back by that owner with
      the balance it was created with. */
  lemma CreateThenGet(store: Store, caller: int, balance: real, freshId: int)
    requires freshId !in store
    ensures var created := CreateWallet(store, caller, caller, balance, freshId);
            GetWalletById(created.store, caller, freshId).result == Ok(WalletData(freshId, balance))
  {
  }

  /** Deleting the wallet just created returns it and gives back the table as
      it was before the create. */
  lemma CreateThenDeleteRestores(store: Store, caller: int, balance: real, freshId: int)
    requires freshId !in store
    ensures var created := CreateWallet(store, caller, caller, balance, freshId);
            DeleteWallet(created.store, caller, freshId) == Step(Ok(WalletData(freshId, balance)), store)
  {
    var created := CreateWallet(store, caller, caller, balance, freshId).store;
    var deleted := DeleteWallet(created, caller, freshId).store;
    assert deleted.Keys == store.Keys;
    assert deleted == store;
  }

  /** After a delete that found the wallet, nobody can get it any more. */
  lemma DeleteThenGetNotFound(store: Store, deleter: int, reader: int, walletId: int)
    ensures var deleted := DeleteWallet(store, deleter, walletId);
            GetWalletById(deleted.store, reader, walletId).result == Err(NotFound)
  {
  }

  /** Decreasing by the amount just added succeeds on a wallet whose balance was
      non-negative and gives back the table as it was. */
  lemma DecreaseUndoesIncrease(store: Store, caller: int, walletId: int, amount: real)
    requires walletId in store && store[walletId].balance >= 0.0
    ensures var increased := IncreaseBalance(store, caller, walletId, amount);
            DecreaseBalance(increased.store, caller, walletId, amount)
              == Step(Ok(WalletData(walletId, store[walletId].balance)), store)
  {
    var increased := IncreaseBalance(store, caller, walletId, amount).store;
    var back := DecreaseBalance(increased, caller, walletId, amount).store;
    assert back[walletId] == store[walletId];
    assert back.Keys == store.Keys;
    assert back == store;
  }

  /** Increasing by the amount a successful decrease took gives back the table
      as it was. */
  lemma IncreaseUndoesDecrease(store: Store, caller: int, walletId: int, amount: real)
    requires DecreaseBalance(store, caller, walletId, amount).result.Ok?
    ensures var decreased := DecreaseBalance(store, caller, walletId, amount);
            IncreaseBalance(decreased.store, caller, walletId, amount)
              == Step(Ok(WalletData(walletId, store[walletId].balance)), store)
  {
    var decreased := DecreaseBalance(store, caller, walletId, amount).store;
    var back := IncreaseBalance(decreased, caller, walletId, amount).store;
    assert back[walletId] == store[walletId];
    assert back.Keys == store.Keys;
    assert back == store;
  }

  /** The decrease guard lets the whole balance through: taking exactly the
      balance empties the wallet rather than failing. */
  lemma DecreaseToZero(store: Store, caller: int, walletId: int)
    requires walletId in store
    ensures var amount := store[walletId].balance;
            DecreaseBalance(store, caller, walletId, amount).result == Ok(WalletData(walletId, 0.0))
  {
  }

  /** A wallet of user 7 holding 100.00: a decrease of 150 fails with
      insufficient balance and changes nothing, a decrease of 40 leaves 60.00,
      and user 8, who may not even read it, gets the same two outcomes. */
  lemma DecreaseExample()
    ensures var store := map[1 := Wallet(7, 100.0)];
            && DecreaseBalance(store, 7, 1, 150.0) == Step(Err(InsufficientBalance), store)
            && DecreaseBalance(store, 7, 1, 40.0) == Step(Ok(WalletData(1, 60.0)), map[1 := Wallet(7, 60.0)])
            && GetWalletById(store, 8, 1).result == Err(Forbidden)
            && DecreaseBalance(store, 8, 1, 150.0) == Step(Err(InsufficientBalance), store)
            && DecreaseBalance(store, 8, 1, 40.0) == Step(Ok(WalletData(1, 60.0)), map[1 := Wallet(7, 60.0)])
  {
    var store := map[1 := Wallet(7, 100.0)];
    assert store[1 := Wallet(7, 60.0)] == map[1 := Wallet(7, 60.0)];
  }

  /** Nothing stops an increase with a negative amount: it can drive a
      non-negative balance below zero. */
  lemma NegativeIncreaseBreaksNonNegative()
    ensures var store := map[1 := Wallet(7, 10.0)];
            NonNegative(store) && !NonNegative(IncreaseBalance(store, 7, 1, -20.0).store)
  {
  }
}
