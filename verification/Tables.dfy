/** The rows that payments, orders and wallets share, and the counts over the append-only
    tables in which the settlement theorems are stated. */
module Tables {
  import opened Options

  datatype PaymentStatus =
    | Initiated | Pending | AwaitingVerify | Confirmed | Rejected | Expired | Cancelled | Refunded
  {
    /** The statuses from which a claim may still move a payment. */
    predicate Open() {
      Initiated? || Pending? || AwaitingVerify?
    }
  }

  datatype OrderStatus = Pending | Paid | Processing | Completed | Failed | Cancelled | Refunded

  datatype ReceiptStatus = Pending | Approved | Rejected | CorrectionRequested

  datatype Method = Online | CardToCard | Crypto | Wallet

  datatype Payment = Payment(orderId: Option<nat>, userId: nat, via: Method, amount: int, status: PaymentStatus)
  {
    /** Everything but the status is written once, when the row is inserted. */
    predicate SameInvoice(that: Payment) {
      this.(status := that.status) == that
    }
  }

  datatype Order = Order(userId: nat, total: int, status: OrderStatus, subscriptionId: Option<nat>)
  {
    predicate SameInvoice(that: Order) {
      this.userId == that.userId && this.total == that.total
    }
  }

  datatype TxnKind = Deposit | Purchase | ReferralReward | Bonus | Refund

  /** What a commission was computed from: the percentage, which the metadata of the reward keeps,
      and, as history, what the referrer was read to have earned and the cap that was read. */
  datatype Terms = Terms(rate: int, earned: int, cap: int)

  const NO_TERMS := Terms(0, 0, 0)

  /** A wallet transaction; the terms are those of a referral reward. */
  datatype LedgerRow = LedgerRow(
    userId: nat, kind: TxnKind, amount: int, balanceBefore: int, balanceAfter: int,
    paymentId: Option<nat>, orderId: Option<nat>, terms: Terms)

  /** The audit row that a committed settlement writes when it reports `settled`. */
  datatype Report = Report(paymentId: nat, orderId: Option<nat>, fromWallet: bool)

  datatype Settings = Settings(referralEnabled: bool, commissionPercent: int, maxBonus: int)

  /** `receipts` is keyed by payment, because a payment has at most one receipt.
      `provisions` holds, for each subscription event written by a purchase, its order. */
  datatype Db = Db(
    payments: map<nat, Payment>,
    orders: map<nat, Order>,
    receipts: map<nat, ReceiptStatus>,
    wallets: map<nat, int>,
    ledger: seq<LedgerRow>,
    provisions: seq<nat>,
    reports: seq<Report>,
    referrers: map<nat, nat>,
    settings: Settings)
  {
    /** A missing wallet is created with balance zero before it is used. */
    function Balance(user: nat): int {
      if user in wallets then wallets[user] else 0
    }

    function Provisions(order: nat): nat {
      multiset(provisions)[order]
    }

    function Sum(q: Query): int {
      Total(q, ledger)
    }
  }

  const EMPTY_DB := Db(map[], map[], map[], map[], [], [], [], map[], Settings(true, 0, 0))

  /** What is summed over the wallet transactions. */
  datatype Query =
    | KeyedBy(payment: nat)          // rows carrying this payment id
    | NetOf(user: nat)               // signed movements of this wallet
    | EarnedBy(user: nat)            // referral rewards of this wallet
    | CommissionsFor(order: nat)     // referral rewards for this order
    | PurchasesFor(order: nat)       // wallet purchases of this order

  function Weight(q: Query, r: LedgerRow): int {
    match q
    case KeyedBy(p) => if r.paymentId == Some(p) then 1 else 0
    case NetOf(u) => if r.userId == u then r.balanceAfter - r.balanceBefore else 0
    case EarnedBy(u) => if r.userId == u && r.kind.ReferralReward? then r.amount else 0
    case CommissionsFor(o) => if r.kind.ReferralReward? && r.orderId == Some(o) then 1 else 0
    case PurchasesFor(o) => if r.kind.Purchase? && r.orderId == Some(o) then 1 else 0
  }

  function Total(q: Query, rows: seq<LedgerRow>): int {
    if rows == [] then 0 else Total(q, rows[..|rows| - 1]) + Weight(q, rows[|rows| - 1])
  }

  lemma {:induction false} TotalAppend(q: Query, a: seq<LedgerRow>, b: seq<LedgerRow>)
    ensures Total(q, a + b) == Total(q, a) + Total(q, b)
  {
    if b == [] {
      assert a + b == a;
    } else {
      assert (a + b)[..|a + b| - 1] == a + b[..|b| - 1];
      TotalAppend(q, a, b[..|b| - 1]);
    }
  }

  lemma TotalOne(q: Query, r: LedgerRow)
    ensures Total(q, [r]) == Weight(q, r)
  {
    assert [r][..0] == [];
  }

  lemma {:induction false} CountNonNegative(q: Query, rows: seq<LedgerRow>)
    requires q.KeyedBy? || q.CommissionsFor? || q.PurchasesFor?
    ensures Total(q, rows) >= 0
  {
    if rows != [] {
      CountNonNegative(q, rows[..|rows| - 1]);
    }
  }

  lemma {:induction false} CountedRowExists(q: Query, rows: seq<LedgerRow>)
    requires q.KeyedBy? || q.CommissionsFor? || q.PurchasesFor?
    ensures Total(q, rows) > 0 <==> exists r <- rows :: Weight(q, r) > 0
  {
    if rows != [] {
      var init, last := rows[..|rows| - 1], rows[|rows| - 1];
      CountedRowExists(q, init);
      CountNonNegative(q, init);
      assert rows == init + [last];
    }
  }

  /** What is counted over the settlement reports. */
  datatype ReportQuery = SettledOrder(order: nat) | ChargedBy(payment: nat)

  function ReportWeight(q: ReportQuery, r: Report): nat {
    match q
    case SettledOrder(o) => if r.orderId == Some(o) then 1 else 0
    // a report that moved money: a top-up, or a purchase paid from the wallet
    case ChargedBy(p) => if r.paymentId == p && (r.orderId.None? || r.fromWallet) then 1 else 0
  }

  function Reported(q: ReportQuery, rows: seq<Report>): nat {
    if rows == [] then 0 else Reported(q, rows[..|rows| - 1]) + ReportWeight(q, rows[|rows| - 1])
  }

  lemma ReportedOneMore(q: ReportQuery, rows: seq<Report>, r: Report)
    ensures Reported(q, rows + [r]) == Reported(q, rows) + ReportWeight(q, r)
  {
    assert (rows + [r])[..|rows|] == rows;
  }
}
