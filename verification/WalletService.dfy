/** The wallet service's Transfer and the transaction methods it is made of, as imperative code. */
module WalletService {
  import opened Common
  import opened AtomicTransfers

  /** A transaction's private view of the wallet tables (txRepository). */
  class WalletTx {
    var balances: map<WalletId, int>
    var ledger: seq<Entry>

    constructor (balances: map<WalletId, int>, ledger: seq<Entry>)
      ensures this.balances == balances && this.ledger == ledger
    {
      this.balances, this.ledger := balances, ledger;
    }

    /** None is sql.ErrNoRows or a failed statement. */
    method GetBalanceForUpdate(w: WalletId, fails: bool) returns (balance: Option<int>)
      ensures balance == if !fails && w in balances then Some(balances[w]) else None
    {
      if fails || w !in balances {
        return None;
      }
      return Some(balances[w]);
    }

    /** UPDATE wallets SET balance = balance + delta WHERE id = w: a missing row is not an error. */
    method AddToBalance(w: WalletId, delta: int, fails: bool) returns (ok: bool)
      modifies this`balances
      ensures ok <==> !fails && (w in old(balances) ==> FitsBigint(old(balances)[w] + delta))
      ensures balances == if ok && w in old(balances) then old(balances)[w := old(balances)[w] + delta]
                          else old(balances)
    {
      if fails || (w in balances && !FitsBigint(balances[w] + delta)) {
        return false;
      }
      if w in balances {
        balances := balances[w := balances[w] + delta];
      }
      return true;
    }

    /** INSERT INTO wallet_transactions: the foreign key demands that the wallet exists. */
    method CreateTransaction(e: Entry, fails: bool) returns (ok: bool)
      modifies this`ledger
      ensures ok <==> !fails && e.wallet in balances
      ensures ledger == if ok then old(ledger) + [e] else old(ledger)
    {
      if fails || e.wallet !in balances {
        return false;
      }
      ledger := ledger + [e];
      return true;
    }
  }

  /** The values a BIGINT column can hold. */
  predicate InColumn(n: int) {
    -9223372036854775808 <= n <= 9223372036854775807
  }

  class Wallets {
    var balances: map<WalletId, int>
    var ledger: seq<Entry>

    /**
     Transfer; `faults` are the statements (0 BEGIN ... 6 COMMIT) that the database fails. With none, it succeeds
     exactly when both wallets exist, the source's balance covers the amount and both new balances fit the column.
     */
    method Transfer(req: Request, faults: set<nat>) returns (ok: bool)
      modifies this
      ensures ok <==> && (forall k :: 0 <= k <= 6 ==> k !in faults)
                      && req.source in old(balances) && req.dest in old(balances)
                      && req.amount <= old(balances)[req.source]
                      && InColumn(old(balances)[req.source] - req.amount)
                      && (req.source == req.dest ==> InColumn(old(balances)[req.source]))
                      && (req.source != req.dest ==> InColumn(old(balances)[req.dest] + req.amount))
      ensures !ok ==> balances == old(balances) && ledger == old(ledger)
      ensures ok && req.source == req.dest ==> balances == old(balances)
      ensures ok && req.source != req.dest ==>
                balances == old(balances)[req.source := old(balances)[req.source] - req.amount]
                                         [req.dest := old(balances)[req.dest] + req.amount]
      ensures ok ==> ledger == old(ledger) + [Entry(req.source, req.op, TransferOut, req.amount),
                                              Entry(req.dest, req.op, TransferIn, req.amount)]
      ensures ok ==> Affordable(old(balances), req) && balances == Moved(old(balances), req)
    {
      if 0 in faults {
        return false;
      }
      var tx := new WalletTx(balances, ledger);
      var source := tx.GetBalanceForUpdate(req.source, 1 in faults);
      if source.None? {
        return false;
      }
      if source.value < req.amount {
        return false;
      }
      var done := tx.AddToBalance(req.source, -req.amount, 2 in faults);
      if !done {
        return false;
      }
      done := tx.CreateTransaction(OutEntry(req), 3 in faults);
      if !done {
        return false;
      }
      done := tx.AddToBalance(req.dest, req.amount, 4 in faults);
      if !done {
        return false;
      }
      done := tx.CreateTransaction(InEntry(req), 5 in faults);
      if !done {
        return false;
      }
      if 6 in faults {
        return false;
      }
      assert tx.ledger == ledger + [OutEntry(req), InEntry(req)];
      balances, ledger := tx.balances, tx.ledger;
      return true;
    }
  }
}
