/**
 Transfers statement by statement: any number of open transactions, row locks held to the end,
 uncommitted writes private to their transaction, and an abort possible at every point (a failed
 statement, a deadlock victim, a crash). `gapLocks` says whether an UPDATE that matches no row
 still keeps other transactions from inserting that row, as InnoDB does under REPEATABLE READ.
 */
module SqlTransfers {
  import opened Common
  import opened AtomicTransfers

  type TxId = nat

  /** The last statement of Transfer that a transaction has completed. */
  datatype Pc = Begun | SourceLocked | Decreased | OutWritten | Increased | InWritten

  datatype Tx = Tx(req: Request, pc: Pc, writes: map<WalletId, int>, entries: seq<Entry>)

  datatype DbState = DbState(
    gapLocks: bool,
    balances: map<WalletId, int>,
    ledger: seq<Entry>,
    txs: map<TxId, Tx>,
    locks: map<WalletId, TxId>,
    usedOps: set<OpId>)

  datatype DbAction =
    | CreateWallet(wallet: WalletId)
    | Begin(tx: TxId, req: Request)
    | GetBalanceForUpdate(tx: TxId)
    | DecreaseBalance(tx: TxId)
    | WriteOutEntry(tx: TxId)
    | IncreaseBalance(tx: TxId)
    | WriteInEntry(tx: TxId)
    | Commit(tx: TxId)
    | Abort(tx: TxId)

  function Start(gapLocks: bool, opening: map<WalletId, int>): DbState {
    DbState(gapLocks, opening, [], map[], map[], {})
  }

  predicate At(s: DbState, tx: TxId, pc: Pc) {
    tx in s.txs && s.txs[tx].pc == pc
  }

  predicate CanLock(s: DbState, w: WalletId, tx: TxId) {
    w in s.locks ==> s.locks[w] == tx
  }

  /** A balance as transaction t sees it: its own write, or the committed value. */
  function Visible(s: DbState, t: Tx, w: WalletId): int
    requires w in t.writes || w in s.balances
  {
    if w in t.writes then t.writes[w] else s.balances[w]
  }

  ghost predicate DbEnabled(s: DbState, a: DbAction) {
    match a
    case CreateWallet(w) => w !in s.balances && w !in s.locks
    case Begin(tx, req) => tx !in s.txs && req.op !in s.usedOps
    case GetBalanceForUpdate(tx) =>
      && At(s, tx, Begun) && CanLock(s, s.txs[tx].req.source, tx)
      && s.txs[tx].req.source in s.balances
      && Visible(s, s.txs[tx], s.txs[tx].req.source) >= s.txs[tx].req.amount
    case DecreaseBalance(tx) =>
      && At(s, tx, SourceLocked)
      && s.txs[tx].req.source in s.balances
      && FitsBigint(Visible(s, s.txs[tx], s.txs[tx].req.source) - s.txs[tx].req.amount)
    case WriteOutEntry(tx) => At(s, tx, Decreased) && s.txs[tx].req.source in s.balances
    case IncreaseBalance(tx) =>
      && At(s, tx, OutWritten) && CanLock(s, s.txs[tx].req.dest, tx)
      && (s.txs[tx].req.dest in s.balances ==>
            FitsBigint(Visible(s, s.txs[tx], s.txs[tx].req.dest) + s.txs[tx].req.amount))
    case WriteInEntry(tx) => At(s, tx, Increased) && s.txs[tx].req.dest in s.balances
    case Commit(tx) => At(s, tx, InWritten)
    case Abort(tx) => tx in s.txs
  }

  function Unlock(locks: map<WalletId, TxId>, tx: TxId): map<WalletId, TxId> {
    map w | w in locks && locks[w] != tx :: locks[w]
  }

  ghost function DbApply(s: DbState, a: DbAction): DbState
    requires DbEnabled(s, a)
  {
    match a
    case CreateWallet(w) => s.(balances := s.balances[w := 0])
    case Begin(tx, req) => s.(txs := s.txs[tx := Tx(req, Begun, map[], [])], usedOps := s.usedOps + {req.op})
    case GetBalanceForUpdate(tx) =>
      var t := s.txs[tx];
      s.(txs := s.txs[tx := t.(pc := SourceLocked)], locks := s.locks[t.req.source := tx])
    case DecreaseBalance(tx) =>
      var t := s.txs[tx];
      s.(txs := s.txs[tx := t.(pc := Decreased,
                               writes := t.writes[t.req.source := Visible(s, t, t.req.source) - t.req.amount])])
    case WriteOutEntry(tx) =>
      var t := s.txs[tx];
      s.(txs := s.txs[tx := t.(pc := OutWritten, entries := t.entries + [OutEntry(t.req)])])
    case IncreaseBalance(tx) =>
      var t := s.txs[tx];
      if t.req.dest in s.balances
      then s.(txs := s.txs[tx := t.(pc := Increased,
                                    writes := t.writes[t.req.dest := Visible(s, t, t.req.dest) + t.req.amount])],
              locks := s.locks[t.req.dest := tx])
      else s.(txs := s.txs[tx := t.(pc := Increased)],
              locks := if s.gapLocks then s.locks[t.req.dest := tx] else s.locks)
    case WriteInEntry(tx) =>
      var t := s.txs[tx];
      s.(txs := s.txs[tx := t.(pc := InWritten, entries := t.entries + [InEntry(t.req)])])
    case Commit(tx) =>
      var t := s.txs[tx];
      s.(balances := s.balances + t.writes, ledger := s.ledger + t.entries,
         txs := s.txs - {tx}, locks := Unlock(s.locks, tx))
    case Abort(tx) => s.(txs := s.txs - {tx}, locks := Unlock(s.locks, tx))
  }

  ghost predicate DbValid(s: DbState, run: seq<DbAction>)
    decreases |run|
  {
    run == [] || (DbEnabled(s, run[0]) && DbValid(DbApply(s, run[0]), run[1..]))
  }

  ghost function DbExec(s: DbState, run: seq<DbAction>): DbState
    requires DbValid(s, run)
    decreases |run|
  {
    if run == [] then s else DbExec(DbApply(s, run[0]), run[1..])
  }

  // ----- What the locks protect -----

  /** The writes a transaction must have made by now, computed from the committed balances. */
  ghost function ExpectedWrites(balances: map<WalletId, int>, t: Tx): map<WalletId, int>
    requires t.pc != Begun ==> t.req.source in balances
  {
    match t.pc
    case Begun => map[]
    case SourceLocked => map[]
    case Decreased => map[t.req.source := balances[t.req.source] - t.req.amount]
    case OutWritten => map[t.req.source := balances[t.req.source] - t.req.amount]
    case _ =>
      if t.req.dest !in balances then map[t.req.source := balances[t.req.source] - t.req.amount]
      else if t.req.dest == t.req.source then map[t.req.source := balances[t.req.source]]
      else map[t.req.source := balances[t.req.source] - t.req.amount, t.req.dest := balances[t.req.dest] + t.req.amount]
  }

  ghost function ExpectedEntries(t: Tx): seq<Entry> {
    match t.pc
    case OutWritten => [OutEntry(t.req)]
    case Increased => [OutEntry(t.req)]
    case InWritten => [OutEntry(t.req), InEntry(t.req)]
    case _ => []
  }

  ghost predicate HasLock(s: DbState, w: WalletId, tx: TxId) {
    w in s.locks && s.locks[w] == tx
  }

  ghost predicate TxOk(s: DbState, tx: TxId)
    requires tx in s.txs
  {
    var t := s.txs[tx];
    && t.req.op in s.usedOps && FreshOp(s.ledger, t.req.op)
    && (t.pc != Begun ==>
          HasLock(s, t.req.source, tx) && t.req.source in s.balances && s.balances[t.req.source] >= t.req.amount)
    && (t.pc == Decreased || t.pc == OutWritten || t.pc == Increased || t.pc == InWritten ==>
          FitsBigint(s.balances[t.req.source] - t.req.amount))
    && (t.pc == Increased || t.pc == InWritten ==>
          && HasLock(s, t.req.dest, tx)
          && (t.req.dest in s.balances ==> FitsBigint(Moved(s.balances, t.req)[t.req.dest])))
    && (t.pc == InWritten ==> t.req.dest in s.balances)
    && t.writes == ExpectedWrites(s.balances, t)
    && t.entries == ExpectedEntries(t)
  }

  ghost predicate DbInv(s: DbState) {
    && s.gapLocks
    && (forall tx :: tx in s.txs ==> TxOk(s, tx))
    && (forall tx, tx' :: tx in s.txs && tx' in s.txs && tx != tx' ==> s.txs[tx].req.op != s.txs[tx'].req.op)
    && (forall i :: 0 <= i < |s.ledger| ==> s.ledger[i].op in s.usedOps)
  }

  ghost predicate SameBalance(s: DbState, s': DbState, w: WalletId) {
    (w in s.balances <==> w in s'.balances) && (w in s.balances ==> s.balances[w] == s'.balances[w])
  }

  /** What a transaction relies on: its locks, and the committed balances under them. */
  lemma TxOkFrame(s: DbState, s': DbState, tx: TxId)
    requires tx in s.txs && TxOk(s, tx) && tx in s'.txs && s'.txs[tx] == s.txs[tx]
    requires s.usedOps <= s'.usedOps && FreshOp(s'.ledger, s.txs[tx].req.op)
    requires forall w :: HasLock(s, w, tx) ==> HasLock(s', w, tx) && SameBalance(s, s', w)
    ensures TxOk(s', tx)
  {
    var t := s.txs[tx];
    if t.pc != Begun {
      assert SameBalance(s, s', t.req.source);
    }
    if t.pc == Increased || t.pc == InWritten {
      assert SameBalance(s, s', t.req.dest);
    }
  }

  lemma CommitWritesOnlyLockedRows(s: DbState, tx: TxId, w: WalletId)
    requires DbInv(s) && DbEnabled(s, Commit(tx)) && w in s.txs[tx].writes
    ensures HasLock(s, w, tx)
  {
    assert TxOk(s, tx);
  }

  lemma CommitKeepsOtherTx(s: DbState, committing: TxId, tx: TxId)
    requires DbInv(s) && DbEnabled(s, Commit(committing)) && tx in s.txs && tx != committing
    ensures TxOk(DbApply(s, Commit(committing)), tx)
  {
    assert TxOk(s, tx) && TxOk(s, committing);
    var s' := DbApply(s, Commit(committing));
    forall w | HasLock(s, w, tx) ensures HasLock(s', w, tx) && SameBalance(s, s', w) {
      if w in s.txs[committing].writes {
        CommitWritesOnlyLockedRows(s, committing, w);
      }
    }
    TxOkFrame(s, s', tx);
  }

  lemma StepKeepsOtherTx(s: DbState, a: DbAction, tx: TxId)
    requires DbInv(s) && DbEnabled(s, a) && tx in s.txs && tx in DbApply(s, a).txs
    requires a.CreateWallet? || a.tx != tx
    ensures TxOk(DbApply(s, a), tx)
  {
    if a.Commit? {
      CommitKeepsOtherTx(s, a.tx, tx);
    } else {
      assert TxOk(s, tx);
      var s' := DbApply(s, a);
      assert s'.ledger == s.ledger;
      forall w | HasLock(s, w, tx) ensures HasLock(s', w, tx) && SameBalance(s, s', w) {}
      TxOkFrame(s, s', tx);
    }
  }

  lemma BeginOk(s: DbState, a: DbAction)
    requires DbInv(s) && DbEnabled(s, a) && a.Begin?
    ensures TxOk(DbApply(s, a), a.tx)
  {
    assert FreshOp(s.ledger, a.req.op);
  }

  lemma DebitOk(s: DbState, a: DbAction)
    requires DbInv(s) && DbEnabled(s, a) && (a.GetBalanceForUpdate? || a.DecreaseBalance? || a.WriteOutEntry?)
    ensures TxOk(DbApply(s, a), a.tx)
  {
    assert TxOk(s, a.tx);
  }

  lemma IncreaseOk(s: DbState, a: DbAction)
    requires DbInv(s) && DbEnabled(s, a) && a.IncreaseBalance?
    ensures TxOk(DbApply(s, a), a.tx)
  {
    assert TxOk(s, a.tx);
    var t, t' := s.txs[a.tx], DbApply(s, a).txs[a.tx];
    assert t'.writes == ExpectedWrites(s.balances, t');
  }

  lemma CreditOk(s: DbState, a: DbAction)
    requires DbInv(s) && DbEnabled(s, a) && a.WriteInEntry?
    ensures TxOk(DbApply(s, a), a.tx)
  {
    assert TxOk(s, a.tx);
  }

  lemma StepKeepsOwnTx(s: DbState, a: DbAction)
    requires DbInv(s) && DbEnabled(s, a) && !a.CreateWallet? && a.tx in DbApply(s, a).txs
    ensures TxOk(DbApply(s, a), a.tx)
  {
    match a
    case Begin(_, _) => BeginOk(s, a);
    case IncreaseBalance(_) => IncreaseOk(s, a);
    case WriteInEntry(_) => CreditOk(s, a);
    case _ => DebitOk(s, a);
  }

  /** Operation ids stay distinct among open transactions, and the ledger only holds used ones. */
  lemma StepKeepsOps(s: DbState, a: DbAction)
    requires DbInv(s) && DbEnabled(s, a)
    ensures var s' := DbApply(s, a);
            && (forall tx, tx' :: tx in s'.txs && tx' in s'.txs && tx != tx' ==>
                  s'.txs[tx].req.op != s'.txs[tx'].req.op)
            && (forall i :: 0 <= i < |s'.ledger| ==> s'.ledger[i].op in s'.usedOps)
  {
    var s' := DbApply(s, a);
    forall tx, tx' | tx in s'.txs && tx' in s'.txs && tx != tx' ensures s'.txs[tx].req.op != s'.txs[tx'].req.op {
      if tx in s.txs { assert TxOk(s, tx); }
      if tx' in s.txs { assert TxOk(s, tx'); }
    }
    if a.Commit? {
      assert TxOk(s, a.tx);
    }
  }

  lemma StepKeepsDbInv(s: DbState, a: DbAction)
    requires DbInv(s) && DbEnabled(s, a)
    ensures DbInv(DbApply(s, a))
  {
    var s' := DbApply(s, a);
    StepKeepsOps(s, a);
    forall tx | tx in s'.txs ensures TxOk(s', tx) {
      if !a.CreateWallet? && tx == a.tx {
        StepKeepsOwnTx(s, a);
      } else {
        StepKeepsOtherTx(s, a, tx);
      }
    }
  }

  // ----- Refinement: a commit is one atomic transfer -----

  ghost function Abs(s: DbState): State {
    State(s.balances, s.ledger)
  }

  ghost function AbsAction(s: DbState, a: DbAction): Option<Action>
    requires DbEnabled(s, a)
  {
    match a
    case CreateWallet(w) => Some(Create(w))
    case Commit(tx) => Some(Transfer(s.txs[tx].req))
    case _ => None
  }

  lemma CommitIsAtomicTransfer(s: DbState, tx: TxId)
    requires DbInv(s) && DbEnabled(s, Commit(tx))
    ensures Enabled(Abs(s), Transfer(s.txs[tx].req))
    ensures Abs(DbApply(s, Commit(tx))) == Apply(Abs(s), Transfer(s.txs[tx].req))
  {
    assert TxOk(s, tx);
    var req := s.txs[tx].req;
    assert s.balances + s.txs[tx].writes == Moved(s.balances, req);
  }

  lemma StepRefines(s: DbState, a: DbAction)
    requires DbInv(s) && DbEnabled(s, a)
    ensures match AbsAction(s, a)
            case None => Abs(DbApply(s, a)) == Abs(s)
            case Some(b) => Enabled(Abs(s), b) && Abs(DbApply(s, a)) == Apply(Abs(s), b)
  {
    if a.Commit? {
      CommitIsAtomicTransfer(s, a.tx);
    }
  }

  ghost function AbsRun(s: DbState, run: seq<DbAction>): seq<Action>
    requires DbValid(s, run)
    decreases |run|
  {
    if run == [] then []
    else
      var rest := AbsRun(DbApply(s, run[0]), run[1..]);
      match AbsAction(s, run[0])
      case None => rest
      case Some(b) => [b] + rest
  }

  /** Serialisability: the committed effect of any interleaving is that of its commits, one at a time, in order. */
  lemma {:induction false} RunRefines(s: DbState, run: seq<DbAction>)
    requires DbInv(s) && DbValid(s, run)
    ensures DbInv(DbExec(s, run))
    ensures Valid(Abs(s), AbsRun(s, run)) && Exec(Abs(s), AbsRun(s, run)) == Abs(DbExec(s, run))
    decreases |run|
  {
    if run != [] {
      StepKeepsDbInv(s, run[0]);
      StepRefines(s, run[0]);
      RunRefines(DbApply(s, run[0]), run[1..]);
      if AbsAction(s, run[0]).Some? {
        assert AbsRun(s, run)[1..] == AbsRun(DbApply(s, run[0]), run[1..]);
      }
    }
  }

  lemma OpeningInv(opening: map<WalletId, int>)
    ensures Inv(opening, State(opening, [])) && DbInv(Start(true, opening))
  {
  }

  // ----- Main results -----

  /** Conservation and ledger replay, over every interleaving with aborts anywhere. */
  lemma EveryRunBalances(opening: map<WalletId, int>, run: seq<DbAction>)
    requires DbValid(Start(true, opening), run)
    ensures var s := DbExec(Start(true, opening), run);
            && Total(s.balances) == Total(opening)
            && (forall w :: w in s.balances ==> s.balances[w] == Opening(opening, w) + Replay(s.ledger, w))
            && (forall op :: Paired(EntriesOf(s.ledger, op)))
  {
    OpeningInv(opening);
    RunRefines(Start(true, opening), run);
    RunKeepsInv(opening, Abs(Start(true, opening)), AbsRun(Start(true, opening), run));
  }

  /** A transfer to a wallet that does not exist never commits. */
  lemma CommitNeedsBothWallets(opening: map<WalletId, int>, run: seq<DbAction>, tx: TxId)
    requires DbValid(Start(true, opening), run) && DbEnabled(DbExec(Start(true, opening), run), Commit(tx))
    ensures var s := DbExec(Start(true, opening), run);
            var r := s.txs[tx].req;
            && r.source in s.balances && r.dest in s.balances && r.amount <= s.balances[r.source]
            && Affordable(s.balances, r)
  {
    OpeningInv(opening);
    RunRefines(Start(true, opening), run);
    assert TxOk(DbExec(Start(true, opening), run), tx);
  }

  // ----- Covered transfers can commit -----

  /** Both wallets exist, the balance covers the amount, and the new balances fit the column. */
  ghost predicate Covered(balances: map<WalletId, int>, r: Request) {
    && r.source in balances && r.dest in balances && r.amount <= balances[r.source]
    && FitsBigint(balances[r.source] - r.amount)
    && (if r.source == r.dest then FitsBigint(balances[r.source]) else FitsBigint(balances[r.dest] + r.amount))
  }

  /** The database with one open transaction, the only one, at the given point of Transfer. */
  function Alone(s: DbState, r: Request, pc: Pc, writes: map<WalletId, int>, entries: seq<Entry>): DbState {
    s.(txs := map[0 := Tx(r, pc, writes, entries)],
       locks := match pc
                case Begun => map[]
                case Increased => map[r.source := 0, r.dest := 0]
                case InWritten => map[r.source := 0, r.dest := 0]
                case _ => map[r.source := 0],
       usedOps := s.usedOps + {r.op})
  }

  ghost predicate Idle(s: DbState, r: Request) {
    s.txs == map[] && s.locks == map[] && r.op !in s.usedOps && Covered(s.balances, r)
  }

  function Debited(s: DbState, r: Request): map<WalletId, int>
    requires r.source in s.balances
  {
    map[r.source := s.balances[r.source] - r.amount]
  }

  function BothWritten(s: DbState, r: Request): map<WalletId, int>
    requires r.source in s.balances && r.dest in s.balances
  {
    if r.source == r.dest then map[r.source := s.balances[r.source]]
    else map[r.source := s.balances[r.source] - r.amount, r.dest := s.balances[r.dest] + r.amount]
  }

  lemma DebitSteps(s: DbState, r: Request, rest: seq<DbAction>) returns (run: seq<DbAction>)
    requires Idle(s, r) && DbValid(Alone(s, r, OutWritten, Debited(s, r), [OutEntry(r)]), rest)
    ensures DbValid(s, run) && DbExec(s, run) == DbExec(Alone(s, r, OutWritten, Debited(s, r), [OutEntry(r)]), rest)
  {
    var s1, s2 := Alone(s, r, Begun, map[], []), Alone(s, r, SourceLocked, map[], []);
    var s3, s4 := Alone(s, r, Decreased, Debited(s, r), []), Alone(s, r, OutWritten, Debited(s, r), [OutEntry(r)]);
    assert DbApply(s, Begin(0, r)) == s1;
    assert DbApply(s1, GetBalanceForUpdate(0)) == s2;
    assert DbApply(s2, DecreaseBalance(0)) == s3;
    assert s3.txs[0].entries + [OutEntry(r)] == [OutEntry(r)];
    assert DbApply(s3, WriteOutEntry(0)) == s4;
    ValidStep(s3, WriteOutEntry(0), rest);
    run := [WriteOutEntry(0)] + rest;
    ValidStep(s2, DecreaseBalance(0), run);
    run := [DecreaseBalance(0)] + run;
    ValidStep(s1, GetBalanceForUpdate(0), run);
    run := [GetBalanceForUpdate(0)] + run;
    ValidStep(s, Begin(0, r), run);
    run := [Begin(0, r)] + run;
  }

  lemma IncreaseStep(s: DbState, r: Request, s4: DbState, s5: DbState)
    requires Idle(s, r) && s4 == Alone(s, r, OutWritten, Debited(s, r), [OutEntry(r)])
    requires s5 == Alone(s, r, Increased, BothWritten(s, r), [OutEntry(r)])
    ensures DbEnabled(s4, IncreaseBalance(0)) && DbApply(s4, IncreaseBalance(0)) == s5
  {
    var t := s4.txs[0];
    assert Visible(s4, t, r.dest) + r.amount == BothWritten(s, r)[r.dest];
    assert t.writes[r.dest := BothWritten(s, r)[r.dest]] == BothWritten(s, r);
    assert s4.locks[r.dest := 0] == s5.locks;
  }

  /** The committed outcome of a transfer, spelled out. */
  ghost predicate HasMoved(s: DbState, s': DbState, r: Request)
    requires r.source in s.balances && r.dest in s.balances
  {
    && s'.balances == (if r.source == r.dest then s.balances
                       else s.balances[r.source := s.balances[r.source] - r.amount]
                                      [r.dest := s.balances[r.dest] + r.amount])
    && s'.ledger == s.ledger + [OutEntry(r), InEntry(r)] && s'.txs == map[] && s'.locks == map[]
  }

  lemma CommitAlone(s: DbState, r: Request, s6: DbState)
    requires Idle(s, r) && s6 == Alone(s, r, InWritten, BothWritten(s, r), [OutEntry(r), InEntry(r)])
    ensures DbEnabled(s6, Commit(0)) && HasMoved(s, DbApply(s6, Commit(0)), r)
  {
    var s7 := DbApply(s6, Commit(0));
    assert s7.txs == map[] && s7.locks == map[];
    if r.source == r.dest {
      assert s.balances + map[r.source := s.balances[r.source]] == s.balances;
    }
  }

  lemma CreditSteps(s: DbState, r: Request) returns (run: seq<DbAction>)
    requires Idle(s, r)
    ensures DbValid(Alone(s, r, OutWritten, Debited(s, r), [OutEntry(r)]), run)
    ensures HasMoved(s, DbExec(Alone(s, r, OutWritten, Debited(s, r), [OutEntry(r)]), run), r)
  {
    var s4 := Alone(s, r, OutWritten, Debited(s, r), [OutEntry(r)]);
    var s5 := Alone(s, r, Increased, BothWritten(s, r), [OutEntry(r)]);
    var s6 := Alone(s, r, InWritten, BothWritten(s, r), [OutEntry(r), InEntry(r)]);
    IncreaseStep(s, r, s4, s5);
    assert [OutEntry(r)] + [InEntry(r)] == [OutEntry(r), InEntry(r)];
    assert DbApply(s5, WriteInEntry(0)) == s6;
    CommitAlone(s, r, s6);
    var s7 := DbApply(s6, Commit(0));
    assert DbValid(s7, []) && DbExec(s7, []) == s7;
    ValidStep(s6, Commit(0), []);
    run := [Commit(0)] + [];
    ValidStep(s5, WriteInEntry(0), run);
    run := [WriteInEntry(0)] + run;
    ValidStep(s4, IncreaseBalance(0), run);
    run := [IncreaseBalance(0)] + run;
  }

  /**
   Whenever nothing else is going on, a transfer that the source's balance covers - all of it included - has a run that
   commits it.
   */
  lemma CoveredTransferCommits(s: DbState, r: Request) returns (run: seq<DbAction>)
    requires s.txs == map[] && s.locks == map[] && r.op !in s.usedOps
    requires r.source in s.balances && r.dest in s.balances && r.amount <= s.balances[r.source]
    requires FitsBigint(s.balances[r.source] - r.amount)
    requires if r.source == r.dest then FitsBigint(s.balances[r.source]) else FitsBigint(s.balances[r.dest] + r.amount)
    ensures DbValid(s, run) && HasMoved(s, DbExec(s, run), r)
  {
    var rest := CreditSteps(s, r);
    run := DebitSteps(s, r, rest);
  }

  ghost predicate BeginsWithNonNegativeAmounts(run: seq<DbAction>) {
    forall i :: 0 <= i < |run| && run[i].Begin? ==> run[i].req.amount >= 0
  }

  lemma {:induction false} AbsRunAmounts(s: DbState, run: seq<DbAction>)
    requires DbValid(s, run) && BeginsWithNonNegativeAmounts(run)
    requires forall tx :: tx in s.txs ==> s.txs[tx].req.amount >= 0
    ensures NonNegativeAmounts(AbsRun(s, run))
    decreases |run|
  {
    if run != [] {
      AbsRunAmounts(DbApply(s, run[0]), run[1..]);
    }
  }

  /** With non-negative amounts no committed balance ever becomes negative. */
  lemma EveryRunStaysSolvent(opening: map<WalletId, int>, run: seq<DbAction>)
    requires Solvent(opening) && DbValid(Start(true, opening), run) && BeginsWithNonNegativeAmounts(run)
    ensures Solvent(DbExec(Start(true, opening), run).balances)
  {
    OpeningInv(opening);
    RunRefines(Start(true, opening), run);
    AbsRunAmounts(Start(true, opening), run);
    RunStaysSolvent(State(opening, []), AbsRun(Start(true, opening), run));
  }

  // ----- The role of the gap lock -----

  ghost predicate ConservesMoney(gapLocks: bool) {
    forall opening, run :: DbValid(Start(gapLocks, opening), run) ==>
      Total(DbExec(Start(gapLocks, opening), run).balances) == Total(opening)
  }

  lemma {:induction false} ValidStep(s: DbState, a: DbAction, rest: seq<DbAction>)
    requires DbEnabled(s, a) && DbValid(DbApply(s, a), rest)
    ensures DbValid(s, [a] + rest) && DbExec(s, [a] + rest) == DbExec(DbApply(s, a), rest)
  {
    assert ([a] + rest)[1..] == rest;
  }

  const LOST: Request := Request(1, 2, 40, 9)

  /** A transfer of 40 from wallet 1 to the missing wallet 2, after its UPDATE of wallet 2 matched no row. */
  function MissedUpdate(): DbState {
    DbState(false, map[1 := 100], [], map[0 := Tx(LOST, Increased, map[1 := 60], [OutEntry(LOST)])], map[1 := 0], {9})
  }

  lemma MissedUpdateIsReachable(rest: seq<DbAction>) returns (run: seq<DbAction>)
    requires DbValid(MissedUpdate(), rest)
    ensures DbValid(Start(false, map[1 := 100]), run)
    ensures DbExec(Start(false, map[1 := 100]), run) == DbExec(MissedUpdate(), rest)
  {
    var s0 := Start(false, map[1 := 100]);
    var s1 := DbApply(s0, Begin(0, LOST));
    var s2 := DbApply(s1, GetBalanceForUpdate(0));
    var s3 := DbApply(s2, DecreaseBalance(0));
    var s4 := DbApply(s3, WriteOutEntry(0));
    assert s4.txs[0].writes == map[1 := 60] && s4.txs[0].entries == [OutEntry(LOST)];
    assert s4.txs == map[0 := Tx(LOST, OutWritten, map[1 := 60], [OutEntry(LOST)])];
    assert DbApply(s4, IncreaseBalance(0)) == MissedUpdate();
    ValidStep(s4, IncreaseBalance(0), rest);
    run := [IncreaseBalance(0)] + rest;
    ValidStep(s3, WriteOutEntry(0), run);
    run := [WriteOutEntry(0)] + run;
    ValidStep(s2, DecreaseBalance(0), run);
    run := [DecreaseBalance(0)] + run;
    ValidStep(s1, GetBalanceForUpdate(0), run);
    run := [GetBalanceForUpdate(0)] + run;
    ValidStep(s0, Begin(0, LOST), run);
    run := [Begin(0, LOST)] + run;
  }

  /** Without gap locks the wallet can be created between the UPDATE that misses it and the insert that needs it. */
  lemma MoneyIsLostWithoutGapLocks() returns (run: seq<DbAction>)
    ensures DbValid(Start(false, map[1 := 100]), run)
    ensures DbExec(Start(false, map[1 := 100]), run).balances == map[1 := 60, 2 := 0]
  {
    var s5 := MissedUpdate();
    var s6 := DbApply(s5, CreateWallet(2));
    var s7 := DbApply(s6, WriteInEntry(0));
    var s8 := DbApply(s7, Commit(0));
    assert s8.balances == map[1 := 60, 2 := 0];
    ValidStep(s7, Commit(0), []);
    run := [Commit(0)] + [];
    ValidStep(s6, WriteInEntry(0), run);
    run := [WriteInEntry(0)] + run;
    ValidStep(s5, CreateWallet(2), run);
    run := [CreateWallet(2)] + run;
    run := MissedUpdateIsReachable(run);
  }

  lemma TotalOfOne(w: WalletId, n: int)
    ensures Total(map[w := n]) == n
  {
    TotalWith(map[], w, n);
    var none: map<WalletId, int> := map[];
    assert none - {w} == map[] && none[w := n] == map[w := n];
  }

  /** Money is conserved in every run exactly when missing rows are locked too. */
  lemma ConservesExactlyWithGapLocks(gapLocks: bool)
    ensures ConservesMoney(gapLocks) <==> gapLocks
  {
    if gapLocks {
      forall opening, run | DbValid(Start(true, opening), run)
        ensures Total(DbExec(Start(true, opening), run).balances) == Total(opening)
      {
        EveryRunBalances(opening, run);
      }
    } else {
      var opening: map<WalletId, int> := map[1 := 100];
      var run := MoneyIsLostWithoutGapLocks();
      TotalOfOne(1, 100);
      TotalOfOne(1, 60);
      TotalWith(map[1 := 60], 2, 0);
      assert map[1 := 60][2 := 0] == map[1 := 60, 2 := 0];
      assert map[1 := 60] - {2} == map[1 := 60];
      assert Total(DbExec(Start(gapLocks, opening), run).balances) != Total(opening);
    }
  }
}
