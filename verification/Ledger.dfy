/** The append-only wallet ledger and the credits written to it. */
module Ledger {
  import opened Common
  import opened Seqs

  datatype Kind = ChorePayout | StreakBonus | Tip | AdHoc | CashOut | Adjustment

  /** A wallet_transactions row, without its own id and time; `ref` is what it pays for, when there is such a thing. */
  datatype Row = Row(member: Uuid, amount: int, kind: Kind, ref: Option<Uuid>)

  function AmountFor(member: Uuid): Row -> int {
    (r: Row) => if r.member == member then r.amount else 0
  }

  /** What RecomputeWalletBalance stores. */
  function LedgerSum(ledger: seq<Row>, member: Uuid): int {
    SumBy(ledger, AmountFor(member))
  }

  /** The cached balance of a member; one without a wallet has nothing. */
  function Cached(wallets: map<Uuid, int>, member: Uuid): int {
    if member in wallets then wallets[member] else 0
  }

  /** The partial unique index: at most one chore_payout row per referenced completion. */
  predicate Violates(ledger: seq<Row>, c: Row) {
    c.kind == ChorePayout && c.ref.Some? && exists r :: r in ledger && r.kind == ChorePayout && r.ref == c.ref
  }
}
