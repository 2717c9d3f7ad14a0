/** Wallet balances and their ledger when every transfer is one atomic step. */
module AtomicTransfers {
  type WalletId = nat
  type OpId = nat

  datatype Kind = TransferOut | TransferIn

  /** A row of wallet_transactions. */
  datatype Entry = Entry(wallet: WalletId, op: OpId, kind: Kind, amount: int)

  datatype Request = Request(source: WalletId, dest: WalletId, amount: int, op: OpId)

  datatype State = State(balances: map<WalletId, int>, ledger: seq<Entry>)

  datatype Action = Create(wallet: WalletId) | Transfer(req: Request)

  /** The range of the balance column. */
  predicate FitsBigint(n: int) {
    -0x8000_0000_0000_0000 <= n < 0x8000_0000_0000_0000
  }

  function OutEntry(r: Request): Entry { Entry(r.source, r.op, TransferOut, r.amount) }

  function InEntry(r: Request): Entry { Entry(r.dest, r.op, TransferIn, r.amount) }

  /** The balances after moving the amount: the source is debited first, so a self-transfer changes nothing. */
  function Moved(balances: map<WalletId, int>, r: Request): map<WalletId, int>
    requires r.source in balances && r.dest in balances
  {
    var debited := balances[r.source := balances[r.source] - r.amount];
    debited[r.dest := debited[r.dest] + r.amount]
  }

  predicate Affordable(balances: map<WalletId, int>, r: Request) {
    && r.source in balances && r.dest in balances
    && balances[r.source] >= r.amount
    && FitsBigint(balances[r.source] - r.amount)
    && FitsBigint(Moved(balances, r)[r.dest])
  }

  ghost predicate FreshOp(ledger: seq<Entry>, op: OpId) {
    forall i :: 0 <= i < |ledger| ==> ledger[i].op != op
  }

  ghost predicate Enabled(s: State, a: Action) {
    match a
    case Create(w) => w !in s.balances
    case Transfer(r) => Affordable(s.balances, r) && FreshOp(s.ledger, r.op)
  }

  ghost function Apply(s: State, a: Action): State
    requires Enabled(s, a)
  {
    match a
    case Create(w) => s.(balances := s.balances[w := 0])
    case Transfer(r) => State(Moved(s.balances, r), s.ledger + [OutEntry(r), InEntry(r)])
  }

  ghost predicate Valid(s: State, run: seq<Action>)
    decreases |run|
  {
    run == [] || (Enabled(s, run[0]) && Valid(Apply(s, run[0]), run[1..]))
  }

  ghost function Exec(s: State, run: seq<Action>): State
    requires Valid(s, run)
    decreases |run|
  {
    if run == [] then s else Exec(Apply(s, run[0]), run[1..])
  }

  // ----- Conservation -----

  ghost function Total(balances: map<WalletId, int>): int
    decreases |balances|
  {
    if balances == map[] then 0
    else
      var w :| w in balances;
      assert (balances - {w}).Keys == balances.Keys - {w};
      balances[w] + Total(balances - {w})
  }

  lemma {:induction false} TotalWithout(balances: map<WalletId, int>, w: WalletId)
    requires w in balances
    ensures Total(balances) == balances[w] + Total(balances - {w})
    decreases |balances|
  {
    var v :| v in balances && Total(balances) == balances[v] + Total(balances - {v});
    if v != w {
      assert (balances - {v}).Keys == balances.Keys - {v};
      assert (balances - {w}).Keys == balances.Keys - {w};
      TotalWithout(balances - {v}, w);
      TotalWithout(balances - {w}, v);
      assert balances - {v} - {w} == balances - {w} - {v};
    }
  }

  lemma TotalWith(balances: map<WalletId, int>, w: WalletId, n: int)
    ensures Total(balances[w := n]) == Total(balances - {w}) + n
    ensures w in balances ==> Total(balances[w := n]) == Total(balances) - balances[w] + n
  {
    TotalWithout(balances[w := n], w);
    assert balances[w := n] - {w} == balances - {w};
    if w in balances {
      TotalWithout(balances, w);
    }
  }

  lemma StepConserves(s: State, a: Action)
    requires Enabled(s, a)
    ensures Total(Apply(s, a).balances) == Total(s.balances)
  {
    match a
    case Create(w) =>
      TotalWith(s.balances, w, 0);
      assert s.balances - {w} == s.balances;
    case Transfer(r) =>
      var debited := s.balances[r.source := s.balances[r.source] - r.amount];
      TotalWith(s.balances, r.source, s.balances[r.source] - r.amount);
      TotalWith(debited, r.dest, debited[r.dest] + r.amount);
  }

  // ----- Balances are the replay of the ledger -----

  function Signed(e: Entry): int {
    if e.kind == TransferIn then e.amount else -e.amount
  }

  /** What the ledger says happened to wallet w. */
  function Replay(ledger: seq<Entry>, w: WalletId): int {
    if ledger == [] then 0
    else
      var last := ledger[|ledger| - 1];
      Replay(ledger[..|ledger| - 1], w) + (if last.wallet == w then Signed(last) else 0)
  }

  /** The rows an operation left in the ledger, in order. */
  function EntriesOf(ledger: seq<Entry>, op: OpId): seq<Entry> {
    if ledger == [] then []
    else EntriesOf(ledger[..|ledger| - 1], op)
         + (if ledger[|ledger| - 1].op == op then [ledger[|ledger| - 1]] else [])
  }

  lemma ReplayAppend(ledger: seq<Entry>, out: Entry, inn: Entry, w: WalletId)
    ensures Replay(ledger + [out, inn], w)
         == Replay(ledger, w) + (if out.wallet == w then Signed(out) else 0)
            + (if inn.wallet == w then Signed(inn) else 0)
  {
    var l2 := ledger + [out, inn];
    assert l2[..|l2| - 1] == ledger + [out];
    assert (ledger + [out])[..|ledger|] == ledger;
  }

  lemma EntriesAppend(ledger: seq<Entry>, out: Entry, inn: Entry, op: OpId)
    ensures EntriesOf(ledger + [out, inn], op)
         == EntriesOf(ledger, op) + (if out.op == op then [out] else []) + (if inn.op == op then [inn] else [])
  {
    var l2 := ledger + [out, inn];
    assert l2[..|l2| - 1] == ledger + [out];
    assert (ledger + [out])[..|ledger|] == ledger;
  }

  lemma {:induction false} FreshOpHasNoEntries(ledger: seq<Entry>, op: OpId)
    requires FreshOp(ledger, op)
    ensures EntriesOf(ledger, op) == []
  {
    if ledger != [] {
      FreshOpHasNoEntries(ledger[..|ledger| - 1], op);
    }
  }

  /** An operation's rows: nothing, or one debit and one credit of the same amount. */
  predicate Paired(entries: seq<Entry>) {
    || entries == []
    || (|entries| == 2 && entries[0].kind == TransferOut && entries[1].kind == TransferIn
        && entries[0].amount == entries[1].amount && entries[0].op == entries[1].op)
  }

  function Opening(opening: map<WalletId, int>, w: WalletId): int {
    if w in opening then opening[w] else 0
  }

  ghost predicate Inv(opening: map<WalletId, int>, s: State) {
    && opening.Keys <= s.balances.Keys
    && Total(s.balances) == Total(opening)
    && (forall w :: w in s.balances ==> s.balances[w] == Opening(opening, w) + Replay(s.ledger, w))
    && (forall w :: w !in s.balances ==> Replay(s.ledger, w) == 0)
    && (forall op :: Paired(EntriesOf(s.ledger, op)))
  }

  lemma StepKeepsInv(opening: map<WalletId, int>, s: State, a: Action)
    requires Inv(opening, s) && Enabled(s, a)
    ensures Inv(opening, Apply(s, a))
  {
    StepConserves(s, a);
    if a.Transfer? {
      var r := a.req;
      forall w ensures Replay(Apply(s, a).ledger, w)
                    == Replay(s.ledger, w) + (if r.source == w then -r.amount else 0)
                       + (if r.dest == w then r.amount else 0)
      {
        ReplayAppend(s.ledger, OutEntry(r), InEntry(r), w);
      }
      forall op ensures Paired(EntriesOf(Apply(s, a).ledger, op)) {
        EntriesAppend(s.ledger, OutEntry(r), InEntry(r), op);
        if op == r.op {
          FreshOpHasNoEntries(s.ledger, op);
        }
      }
    }
  }

  lemma {:induction false} RunKeepsInv(opening: map<WalletId, int>, s: State, run: seq<Action>)
    requires Inv(opening, s) && Valid(s, run)
    ensures Inv(opening, Exec(s, run))
    decreases |run|
  {
    if run != [] {
      StepKeepsInv(opening, s, run[0]);
      RunKeepsInv(opening, Apply(s, run[0]), run[1..]);
    }
  }

  // ----- Non-negative balances -----

  ghost predicate Solvent(balances: map<WalletId, int>) {
    forall w :: w in balances ==> balances[w] >= 0
  }

  /** Exactly when a transfer between solvent wallets leaves them solvent: the service checks only the source. */
  lemma SolventAfterExactlyWhen(balances: map<WalletId, int>, r: Request)
    requires Solvent(balances) && Affordable(balances, r)
    ensures Solvent(Moved(balances, r)) <==> r.source == r.dest || balances[r.dest] + r.amount >= 0
  {
    if r.source != r.dest && balances[r.dest] + r.amount < 0 {
      assert Moved(balances, r)[r.dest] < 0;
    }
  }

  /** A negative amount passes the service's check and overdraws the destination. */
  lemma NegativeAmountOverdraws(amount: int)
    requires -0x8000_0000_0000_0000 < amount < 0
    ensures var r := Request(1, 2, amount, 0);
            var balances := map[1 := 0, 2 := 0];
            Affordable(balances, r) && Moved(balances, r)[2] == amount
  {
  }

  ghost predicate NonNegativeAmounts(run: seq<Action>) {
    forall i :: 0 <= i < |run| && run[i].Transfer? ==> run[i].req.amount >= 0
  }

  lemma {:induction false} RunStaysSolvent(s: State, run: seq<Action>)
    requires Solvent(s.balances) && Valid(s, run) && NonNegativeAmounts(run)
    ensures Solvent(Exec(s, run).balances)
    decreases |run|
  {
    if run != [] {
      RunStaysSolvent(Apply(s, run[0]), run[1..]);
    }
  }
}
