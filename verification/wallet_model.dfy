/** The data the wallet routes work on: the wallet row, the table of rows keyed
    by wallet id, the three errors a route can raise, and the shape of a route's
    outcome (a reply together with the table as it stands afterwards).

    Money is exact: a balance or an amount is a Dafny `real`, standing for a
    decimal. The routes' decimal arithmetic rounds every sum and difference to
    28 significant digits; the model does not round, so it describes the routes
    only for values within that precision. */
module WalletModel {

  /** One row of the wallet table, without its key: the owning user and the
      current balance. */
  datatype Wallet = Wallet(idUser: int, balance: real)

  /** The wallet table: wallet id to row. */
  type Store = map<int, Wallet>

  /** The `data` part of a successful reply: the wallet id and its balance. */
  datatype WalletData = WalletData(idWallet: int, balance: real)

  /** The three ways a route can fail. */
  datatype Error = NotFound | Forbidden | InsufficientBalance

  datatype Option<+T> = None | Some(value: T)

  datatype Result<+T> = Ok(value: T) | Err(error: Error)

  /** What serving one request hands back: its reply and the state of the
      store after it, the bare table for a route on its own. */
  datatype Step<+S> = Step(result: Result<WalletData>, store: S)

  /** The HTTP status each error is raised with. */
  function StatusCode(e: Error): (code: int)
    ensures 400 <= code < 500
    ensures code == 400 <==> e == InsufficientBalance
    ensures code == 403 <==> e == Forbidden
    ensures code == 404 <==> e == NotFound
  {
    match e
    case NotFound => 404
    case Forbidden => 403
    case InsufficientBalance => 400
  }

  /** Every wallet in the table has a balance of at least zero. */
  predicate NonNegative(store: Store)
  {
    forall id :: id in store ==> store[id].balance >= 0.0
  }

  /** Every wallet present both before and after keeps its owner. */
  predicate OwnersKept(before: Store, after: Store)
  {
    forall id :: id in before && id in after ==> after[id].idUser == before[id].idUser
  }

  /** `after` holds the same rows as `before` under every key other than `id`. */
  ghost predicate OthersUnchanged(before: Store, after: Store, id: int)
  {
    forall k :: k != id ==> (k in after <==> k in before) && (k in after ==> after[k] == before[k])
  }
}
