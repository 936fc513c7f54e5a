/** Any number of settlement transactions, interleaved statement by statement under row locks,
    beside the single-statement updates that other entry points make. */
module SettlementMachine {
  import opened Options
  import opened Tables
  import opened SettlementSteps

  /** `cancels` and `uploads` are calls that have read their row and not yet written it:
      the order a cancellation is about to overwrite, the payment a receipt was just added to. */
  datatype State = State(db: Db, txs: map<nat, Tx>, cancels: map<nat, nat>, uploads: map<nat, nat>)

  const INIT := State(EMPTY_DB, map[], map[], map[])

  datatype Action =
    | Begin(tid: nat, request: Request)
    | Step(tid: nat, choice: Choice)
    | Commit(tid: nat)
    | Abort(tid: nat)                                       // rollback, crash or conflict
    | CreateOrder(orderId: nat, userId: nat, total: int)
    | Initiate(paymentId: nat, orderId: nat, via: Method)
    | InitiateDeposit(paymentId: nat, userId: nat, amount: int, via: Method)
    | UploadReceipt(call: nat, paymentId: nat, userId: nat)
    | FinishUpload(call: nat)
    | ClosePayment(paymentId: nat, status: PaymentStatus)   // gateway says NOK or FAILED
    | ReadForCancel(call: nat, orderId: nat, userId: nat)
    | WriteCancel(call: nat)
    | Adjust(userId: nat, kind: TxnKind, amount: int, credit: bool)
    | SetReferrer(userId: nat, referrer: nat)
    | SetSettings(settings: Settings)

  predicate PaymentFree(s: State, p: nat) {
    forall i <- s.txs :: p !in s.txs[i].w.payments
  }

  predicate OrderFree(s: State, o: nat) {
    forall i <- s.txs :: o !in s.txs[i].w.orders
  }

  predicate WalletFree(s: State, u: nat) {
    forall i <- s.txs :: u !in s.txs[i].w.wallets
  }

  /** A statement that would write a row locked by another transaction waits. */
  predicate MayStep(s: State, tid: nat, c: Choice)
    requires tid in s.txs
  {
    // identifiers of new rows come from a sequence and are never drawn twice
    && (s.txs[tid].pc.Start? ==> c.newPayment !in s.db.payments && PaymentFree(s, c.newPayment))
    && var out := Exec(s.db, s.txs[tid], c);
       out.Go? ==> forall i <- s.txs :: i != tid ==> out.tx.w.DisjointFrom(s.txs[i].w)
  }

  predicate Enabled(s: State, a: Action) {
    match a
    case Begin(tid, _) => tid !in s.txs
    case Step(tid, c) => tid in s.txs && MayStep(s, tid, c)
    case Commit(tid) => tid in s.txs && Finished(s.txs[tid])
    case Abort(tid) => tid in s.txs
    case CreateOrder(o, _, _) => o !in s.db.orders
    case Initiate(p, o, _) => p !in s.db.payments && PaymentFree(s, p) && o in s.db.orders
    case InitiateDeposit(p, _, _, _) => p !in s.db.payments && PaymentFree(s, p)
    case UploadReceipt(call, p, u) =>
      && call !in s.uploads
      && p in s.db.payments && s.db.payments[p].userId == u && s.db.payments[p].via.CardToCard?
      && p !in s.db.receipts  // the unique key of the receipts table
    case FinishUpload(call) =>
      call in s.uploads && s.uploads[call] in s.db.payments && PaymentFree(s, s.uploads[call])
    case ClosePayment(p, status) =>
      && (status == PaymentStatus.Cancelled || status == PaymentStatus.Rejected)
      && p in s.db.payments && PaymentFree(s, p)
    case ReadForCancel(call, o, u) =>
      && call !in s.cancels
      && o in s.db.orders && s.db.orders[o].userId == u
      && !s.db.orders[o].status.Completed? && !s.db.orders[o].status.Cancelled?
    case WriteCancel(call) =>
      call in s.cancels && s.cancels[call] in s.db.orders && OrderFree(s, s.cancels[call])
    case Adjust(u, kind, amount, credit) =>
      && (kind.Bonus? || kind.Refund?)
      && WalletFree(s, u) && (credit || amount <= s.db.Balance(u))
    case SetReferrer(_, _) => true
    case SetSettings(_) => true
  }

  /** The wallet change of `Adjust`: the balance moves and one row without a key is added. */
  function Adjusted(db: Db, u: nat, kind: TxnKind, amount: int, credit: bool): Db {
    var before := db.Balance(u);
    var after := if credit then before + amount else before - amount;
    db.(wallets := db.wallets[u := after],
        ledger := db.ledger + [LedgerRow(u, kind, amount, before, after, None, None, NO_TERMS)])
  }

  /** The state after an action; an action that is not enabled changes nothing. */
  function Apply(s: State, a: Action): State {
    if !Enabled(s, a) then s
    else match a
      case Begin(tid, request) => s.(txs := s.txs[tid := Tx(request, Start, NO_WRITES)])
      case Step(tid, c) =>
        (match Exec(s.db, s.txs[tid], c)
         case Go(t) => s.(txs := s.txs[tid := t])
         case Throw => s.(txs := s.txs - {tid}))
      case Commit(tid) => s.(db := Merge(s.db, s.txs[tid]), txs := s.txs - {tid})
      case Abort(tid) => s.(txs := s.txs - {tid})
      case CreateOrder(o, u, total) =>
        s.(db := s.db.(orders := s.db.orders[o := Order(u, total, OrderStatus.Pending, None)]))
      case Initiate(p, o, via) =>
        var order := s.db.orders[o];
        // the amount is parsed from the digits of the printed total
        var amount := if order.total < 0 then -order.total else order.total;
        var payment := Payment(Some(o), order.userId, via, amount, PaymentStatus.Pending);
        s.(db := s.db.(payments := s.db.payments[p := payment]))
      case InitiateDeposit(p, u, amount, via) =>
        s.(db := s.db.(payments := s.db.payments[p := Payment(None, u, via, amount, PaymentStatus.Pending)]))
      case UploadReceipt(call, p, _) =>
        s.(db := s.db.(receipts := s.db.receipts[p := ReceiptStatus.Pending]), uploads := s.uploads[call := p])
      case FinishUpload(call) =>
        var p := s.uploads[call];
        s.(db := s.db.(payments := s.db.payments[p := s.db.payments[p].(status := AwaitingVerify)]),
           uploads := s.uploads - {call})
      case ClosePayment(p, status) =>
        if s.db.payments[p].status.Open() then
          s.(db := s.db.(payments := s.db.payments[p := s.db.payments[p].(status := status)]))
        else s
      case ReadForCancel(call, o, _) => s.(cancels := s.cancels[call := o])
      case WriteCancel(call) =>
        var o := s.cancels[call];
        s.(db := s.db.(orders := s.db.orders[o := s.db.orders[o].(status := OrderStatus.Cancelled)]),
           cancels := s.cancels - {call})
      case Adjust(u, kind, amount, credit) => s.(db := Adjusted(s.db, u, kind, amount, credit))
      case SetReferrer(u, r) => s.(db := s.db.(referrers := s.db.referrers[u := r]))
      case SetSettings(settings) => s.(db := s.db.(settings := settings))
  }

  /** The state that a run reaches. */
  function Run(s: State, actions: seq<Action>): State {
    if actions == [] then s else Apply(Run(s, actions[..|actions| - 1]), actions[|actions| - 1])
  }
}
