# Wallet service: a verified model of the wallet routes

The wallet service keeps a table of wallets, each row holding an owning user
(`id_user`) and a decimal `balance` under a generated `id_wallet`. Five routes
work on it: get a wallet, create one, increase or decrease its balance, and
delete it. Every route resolves the authenticated caller. Every route except
create looks the wallet up once; each route does at most one write and
replies with the wallet's id and balance, or fails with not found (404),
forbidden (403) or insufficient balance (400).

This project models those routes as pure transitions on the table:

- `wallet_model.dfy` (`WalletModel`): the row (`Wallet`), the table
  (`Store`, a map from wallet id to row), the reply data, the three errors with
  their status codes, and the predicates the properties are stated with.
- `wallet_router.dfy` (`WalletRouter`): the two helpers `get_wallet` and
  `delete_wallet` and the five routes, each a function from the table, the
  caller's user id and the request inputs to a reply and the new table; then
  the properties that relate the routes (inverses, read-after-write,
  caller-independence, non-negative balances).
- `wallet_service.dfy` (`WalletService`): the routes serving a sequence of
  requests against one database, and properties of whole sequences proved by
  induction: owners never change, balances stay non-negative under
  non-negative inputs, the caller of a mutation makes no difference, reads
  change nothing, and created ids are never repeated.

The model keeps the routes' asymmetry as it is: get and create check that the
caller is the owner; increase, decrease and delete take the caller and never
look at it, so any authenticated user can move or remove anyone's wallet
(`MutationsIgnoreCaller`, `DecreaseExample`). Nor does any route check the
sign of the balance or amount it is given; only a decrease is guarded, and
for an exact amount the guard `balance < amount` lets the balance go exactly
to zero (`DecreaseToZero`), while an increase by a negative amount can make a
balance negative (`NegativeIncreaseBreaksNonNegative`).

In `app/routers/wallet.py` the delete route and the delete helper share the
name `delete_wallet`; the helper is defined later in the module, so the
route's call reaches the helper. The model names them `DeleteWallet` (route)
and `RemoveWallet` (helper).

Money is exact: balances and amounts are Dafny `real` values standing for
decimals. The routes' decimal arithmetic rounds each sum and difference to 28
significant digits, and the model does not round, so the model describes the
routes only for values within that precision (see "## Left out").

A new wallet's id comes from the database; the per-route model takes it as a
parameter that is not yet a key, and the sequence model draws it from a
counter that is never handed out twice.

## Model

| member | source | states |
|---|---|---|
| WalletModel.StatusCode | app/routers/wallet.py:16-54 | each error has its own 4xx status: 404 for not found, 403 for forbidden, 400 for insufficient balance |
| WalletRouter.GetWallet | app/routers/wallet.py:71-72 | the lookup finds a row exactly when the id is a key, and the row it finds is the one stored under that id |
| WalletRouter.RemoveWallet | app/routers/wallet.py:74-79 | the delete helper returns what the lookup would have found, leaves the id absent, and keeps every other row; when nothing was found the table is untouched |
| WalletRouter.GetWalletById | app/routers/wallet.py:12-21 | an absent id is not found, a wallet of another user is forbidden, and the owner gets that wallet's id and balance; the table never changes |
| WalletRouter.CreateWallet | app/routers/wallet.py:24-32 | creating for another user is forbidden and adds nothing; creating for oneself adds exactly one row under the new id with the caller as owner and the given balance, replies with that id and balance, and keeps every earlier row |
| WalletRouter.IncreaseBalance | app/routers/wallet.py:34-45 | an absent id is not found and changes nothing; otherwise the balance becomes old plus amount for any caller, the owner stays, every other row is unchanged, and the reply carries the new balance |
| WalletRouter.DecreaseBalance | app/routers/wallet.py:47-60 | not found is checked before the balance; a balance below the amount fails with insufficient balance and changes nothing; otherwise the balance becomes old minus amount, the owner and other rows stay, and, with an exact amount, a successful decrease always leaves a balance of at least zero |
| WalletRouter.DeleteWallet | app/routers/wallet.py:62-68 | an absent id is not found and changes nothing; otherwise exactly that id is removed, for any caller, and the reply carries its last id and balance |
| WalletRouter.RoutesKeepOwners | app/routers/wallet.py:12-79 | no route changes the owner of a wallet that is in the table before and after it |
| WalletRouter.MutationsIgnoreCaller | app/routers/wallet.py:34-68 | increase, decrease and delete give the same reply and the same table whoever the caller is |
| WalletRouter.DecreaseKeepsNonNegative | app/routers/wallet.py:53-56 | the decrease guard keeps a table of non-negative balances non-negative, for any exact amount |
| WalletRouter.RoutesKeepNonNegative | app/routers/wallet.py:12-68 | get and delete, and create and increase with a non-negative amount, keep every balance non-negative |
| WalletRouter.CreateThenGet | app/routers/wallet.py:12-32 | a wallet its owner has just created reads back for that owner with its id and starting balance |
| WalletRouter.CreateThenDeleteRestores | app/routers/wallet.py:24-79 | deleting the wallet just created returns its id and balance and restores the table exactly |
| WalletRouter.DeleteThenGetNotFound | app/routers/wallet.py:12-79 | after a delete, a get of that id is not found for every caller |
| WalletRouter.DecreaseUndoesIncrease | app/routers/wallet.py:34-60 | on a wallet with a non-negative balance, decreasing by the exact amount just added succeeds and restores the table exactly, for values within 28 significant digits |
| WalletRouter.IncreaseUndoesDecrease | app/routers/wallet.py:34-60 | after a successful decrease, increasing by the same exact amount restores the table exactly, for values within 28 significant digits |
| WalletRouter.DecreaseToZero | app/routers/wallet.py:53-56 | a decrease by exactly the whole balance succeeds and leaves zero (in exact amounts; see the float note under Left out) |
| WalletRouter.DecreaseExample | app/routers/wallet.py:12-60 | a wallet of user 7 with 100.00: decreasing by 150 fails with insufficient balance and changes nothing, decreasing by 40 leaves 60.00, and user 8, forbidden to read it, gets the same two outcomes |
| WalletRouter.NegativeIncreaseBreaksNonNegative | app/routers/wallet.py:34-45 | an increase by a negative amount can take a non-negative balance below zero |
| WalletService.Serve | app/routers/wallet.py:12-68 | serving a request keeps every id below the counter, never moves the counter back, and a successful create replies with the counter's id, which was not in the table |
| WalletService.Run | app/routers/wallet.py:12-79 | a sequence of requests gets one reply per request, in order, and keeps every id below a counter that never goes back |
| WalletService.ReplyAt | app/routers/wallet.py:12-79 | the reply to the request at position i is what serving it gives against the database the first i requests left |
| WalletService.DeletedStaysDeleted | app/routers/wallet.py:24-79 | an id already handed out that is not in the table never reappears, whatever requests follow; this rests on the assumed id counter that never reuses an id |
| WalletService.RunKeepsOwners | app/routers/wallet.py:12-79 | a wallet present at the start and at the end of any sequence of requests has the same owner at both ends; for an id deleted and created again in between this rests on the assumed id counter |
| WalletService.ServeKeepsNonNegative | app/routers/wallet.py:12-68 | one request that creates or increases with a non-negative amount, or any get, decrease or delete, keeps every balance non-negative |
| WalletService.RunKeepsNonNegative | app/routers/wallet.py:12-68 | from non-negative balances, a sequence of such requests never produces a negative balance |
| WalletService.RunIgnoresMutationCallers | app/routers/wallet.py:34-68 | changing who sends the increases, decreases and deletes of a sequence changes no reply and not the final database |
| WalletService.ReadsLeaveDbUnchanged | app/routers/wallet.py:12-21 | a sequence of gets leaves the database exactly as it was |
| WalletService.CreatedIdIsNew | app/routers/wallet.py:28-32 | a successful create anywhere in a sequence returns an id at or above the starting counter, so not one in the starting table; this is the fresh, previously unused id a create is expected to return, and rests on the assumed id counter |
| WalletService.CreatedIdsDistinct | app/routers/wallet.py:28-32 | two successful creates in one sequence never return the same id, even with deletes in between; this rests on the assumed id counter |

## Left out

- Routing, dependency injection and the authentication resolver
  `get_current_user`: the caller's user id is a plain parameter of every route.
- The reply envelope's message texts and the error detail strings; the errors
  are an enumeration with their status codes.
- The database session (`query`, `add`, `commit`, `refresh`, `delete`): the
  table is a map, and each route's read and write are one function.
- How the database generates a new wallet id: the models and database modules
  are not part of this model. Each route only needs an id that is not a key
  now, and every per-route property holds for any such id. The sequence model
  further assumes a counter that never hands out an id twice. A database that
  reuses the id of a deleted wallet breaks the four properties below. For
  example, from the table `{3: owner 1}`, delete 3, then user 2 creates a
  wallet that gets id 3.
- WalletService.DeletedStaysDeleted: not promised when ids are reused; in the
  example, id 3 was handed out and deleted, and it comes back.
- WalletService.RunKeepsOwners: not promised for a reused id; in the example,
  id 3 is present at both ends with owner 1 at the start and owner 2 at the end.
- WalletService.CreatedIdIsNew: not promised when ids are reused; in the
  example, the create returns id 3, which was in the starting table and is
  below the counter.
- WalletService.CreatedIdsDistinct: not promised when ids are reused; two
  creates with a delete of the first one's wallet between them can return the
  same id.
- WalletRouter.IncreaseBalance: the amount arrives as a binary float and is
  turned into a decimal through its text form; the model adds one exact,
  finite value. A non-finite amount is not modelled: the query parameter
  accepts `nan` and `inf`, and adding them stores NaN or Infinity as the
  balance.
- WalletRouter.DecreaseBalance: the guard compares the raw float against the
  stored decimal, and then the route subtracts the decimal made from the
  float's text. The model uses one exact, finite amount for both. So it does
  not model the ordinary case where the float's value lies above its text.
  For example, a balance of 0.10 with `amount=0.1` is refused with
  insufficient balance, because the float 0.1 is 0.1000000000000000055…. The
  same holds for every two-decimal balance whose nearest float lies above it.
  Non-finite amounts are not modelled either: `amount=nan` makes the
  comparison raise an uncaught decimal error, which is a server error, and
  `amount=-inf` passes the guard and makes the balance Infinity.
  The opposite direction is not modelled either: when the float's value lies
  below its text, a balance between the two passes the guard, and the
  subtraction makes it negative. For example, `amount=1152921504606846990`
  parses to the float 2^60 = 1152921504606846976, whose text is
  `1.152921504606847e+18`. A balance of 1152921504606846990 is not below the
  float, so the decrease goes through and leaves −10. Likewise `amount=0.3` is
  the float 0.29999999999999998889…, and a balance of 0.29999999999999999
  passes the guard and ends at −1E-17.
- WalletRouter.IncreaseBalance: the sum at line 41 is rounded to the decimal
  context's 28 significant digits, and the model adds exactly. So "old plus
  amount" holds only while the sum fits in 28 digits. For example, a balance
  of 1E+28 increased by `amount=1` stays 1E+28, and
  123456789012345678901234567.89 + 0.01 becomes 123456789012345678901234567.9.
- WalletRouter.DecreaseBalance: the difference at line 56 is rounded the same
  way, so "old minus amount" holds only while the difference fits in 28
  significant digits.
- WalletRouter.IncreaseUndoesDecrease: proved for exact arithmetic only. With
  the 28-digit rounding the inverse fails. For example, a balance of
  9999999999999999999999999999 decreased by `amount=0.5` becomes
  9999999999999999999999999998 (the exact ...998.5 rounds to even), and
  increasing that by `amount=0.5` leaves 9999999999999999999999999998, not
  the balance it started from.
- WalletRouter.DecreaseUndoesIncrease: proved for exact amounts and exact
  arithmetic only. With the float guard it fails on ordinary input: from a
  balance of 0.00, increasing by `amount=0.1` stores 0.10. Decreasing by
  `amount=0.1` is then refused with insufficient balance, because 0.10 is
  below the float 0.1000000000000000055…; `amount=0.2` behaves the same. With
  the 28-digit rounding it also fails: 1E+28 increased by 1 stays 1E+28, and
  decreasing that by 1 leaves 9999999999999999999999999999.
- WalletRouter.DecreaseKeepsNonNegative: holds for exact amounts only. With
  the float guard and the decimal subtraction of the routes, a decrease can
  leave a negative balance, as in the examples above, so a balance of at
  least zero after every decrease is not promised for the routes as written.
- WalletService.ServeKeepsNonNegative: inherits the same limit; it is proved
  for exact amounts only.
- WalletService.RunKeepsNonNegative: inherits the same limit; it is proved
  for exact amounts only.
- The column's precision and scale and any rounding the database applies on
  write: the table definition is not part of this model.
- Validation the request schema may do on create: the schema is not part of
  this model; the route itself checks only the owner.
- Concurrency: two requests on the same wallet can interleave their read and
  write and lose an update; the model serves requests one at a time.
