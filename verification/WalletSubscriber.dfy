/** The wallet service's message handler: message status table, wallet creation, and the acknowledgement it earns. */
module WalletSubscriber {
  import opened Common

  type MsgId = nat
  type WalletId = nat

  const IRR: string := "IRR"

  datatype Wallet = Wallet(user: nat, currency: string, balance: int)

  type Wallets = map<WalletId, Wallet>

  predicate SameKey(a: Wallet, b: Wallet) {
    a.user == b.user && a.currency == b.currency
  }

  /** The unique key on (user_id, currency). */
  ghost predicate OnePerUser(wallets: Wallets) {
    forall i, j :: i in wallets && j in wallets && SameKey(wallets[i], wallets[j]) ==> i == j
  }

  predicate HasWallet(wallets: Wallets, user: nat) {
    exists w :: w in wallets && wallets[w].user == user && wallets[w].currency == IRR
  }

  ghost function Owners(wallets: Wallets): set<nat> {
    set w | w in wallets && wallets[w].currency == IRR :: wallets[w].user
  }

  /** The statuses the code names; the column's type has no 'sent'. */
  datatype MsgStatus = Processing | Completed | Failed | Sent

  /** The statuses that are ever stored; the duplicate test looks for 'sent', which is none of them. */
  predicate StoredStatus(status: MsgStatus) {
    status != Sent
  }

  ghost predicate StatusesOk(messages: map<MsgId, MsgStatus>) {
    forall m :: m in messages ==> StoredStatus(messages[m])
  }

  datatype RunResult = Fresh | Duplicate | RunFailed

  class Handler {
    var messages: map<MsgId, MsgStatus>
    var wallets: Wallets

    constructor ()
      ensures messages == map[] && wallets == map[]
    {
      messages, wallets := map[], map[];
    }

    /** RunProcess: record or reset the message, unless it is already 'sent'. */
    method RunProcess(msg: MsgId, fails: bool) returns (r: RunResult)
      requires StatusesOk(messages)
      modifies this`messages
      ensures StatusesOk(messages)
      ensures r == if fails then RunFailed else Fresh
      ensures messages == if fails then old(messages) else old(messages)[msg := Processing]
    {
      if fails {
        return RunFailed;
      }
      if msg in messages {
        if messages[msg] == Sent {
          return Duplicate;
        }
      }
      messages := messages[msg := Processing];
      return Fresh;
    }

    /** MarkSent and MarkFailed: an UPDATE by id. */
    method SetStatus(msg: MsgId, status: MsgStatus, fails: bool) returns (ok: bool)
      requires StoredStatus(status) && StatusesOk(messages)
      modifies this`messages
      ensures StatusesOk(messages) && ok == !fails
      ensures messages == if !fails && msg in old(messages) then old(messages)[msg := status] else old(messages)
    {
      if fails {
        return false;
      }
      if msg in messages {
        messages := messages[msg := status];
      }
      return true;
    }

    /**
     InitWallet and handleRegisterNewUser: the INSERT is refused by the unique key when the user has a wallet
     (error 1062), which counts as success; `fails` is any other error of the statement.
     */
    method InitWallet(user: nat, newId: WalletId, fails: bool) returns (ok: bool)
      requires OnePerUser(wallets) && newId !in wallets
      modifies this`wallets
      ensures OnePerUser(wallets)
      ensures ok <==> !fails
      ensures wallets == if HasWallet(old(wallets), user) || fails then old(wallets)
                         else old(wallets)[newId := Wallet(user, IRR, 0)]
    {
      if fails {
        return false;
      }
      if HasWallet(wallets, user) {
        return true;
      }
      wallets := wallets[newId := Wallet(user, IRR, 0)];
      return true;
    }

    /**
     Handle; the result says whether it returned nil, so that the delivery is acknowledged. A body that cannot be
     decoded (`None`) leaves the message 'processing'. The handler's error is overwritten by MarkFailed's, so a
     delivery whose wallet could not be created is acknowledged exactly when marking it failed succeeded.
     */
    method Handle(msg: MsgId, body: Option<Payload>, newId: WalletId, runFails: bool, insertFails: bool,
                  markFails: bool)
      returns (returnsNil: bool)
      requires OnePerUser(wallets) && StatusesOk(messages) && newId !in wallets
      modifies this
      ensures OnePerUser(wallets) && StatusesOk(messages)
      ensures var registers := !runFails && body.Some? && body.value.RegisteredUser?;
              && wallets == (if registers && !insertFails && !HasWallet(old(wallets), body.value.user)
                             then old(wallets)[newId := Wallet(body.value.user, "IRR", 0)] else old(wallets))
              && (returnsNil <==> !runFails && body.Some? && (registers && insertFails ==> !markFails))
              && messages == (if runFails then old(messages)
                              else if body.None? || markFails then old(messages)[msg := Processing]
                              else old(messages)[msg := if registers && insertFails then Failed else Completed])
    {
      var run := RunProcess(msg, runFails);
      if run != Fresh {
        return run == Duplicate;
      }
      if body.None? {
        return false;
      }
      var handled := true;
      if body.value.RegisteredUser? {
        handled := InitWallet(body.value.user, newId, insertFails);
      }
      if !handled {
        var marked := SetStatus(msg, Failed, markFails);
        return marked;
      }
      var _ := SetStatus(msg, Completed, markFails);
      return true;
    }

    /**
     Replaying registration deliveries, repeated and reordered at will: afterwards exactly the old owners and the
     registered users have wallets, and no wallet that existed before has changed.
     */
    method Replay(deliveries: seq<(MsgId, nat)>, firstId: WalletId)
      requires OnePerUser(wallets) && StatusesOk(messages) && forall w :: w in wallets ==> w < firstId
      modifies this
      ensures OnePerUser(wallets) && StatusesOk(messages)
      ensures Owners(wallets) == Owners(old(wallets)) + RegisteredIn(deliveries)
      ensures forall w :: w in old(wallets) ==> w in wallets && wallets[w] == old(wallets)[w]
    {
      var i := 0;
      while i < |deliveries|
        invariant 0 <= i <= |deliveries| && OnePerUser(wallets) && StatusesOk(messages)
        invariant forall w :: w in wallets ==> w < firstId + i
        invariant Owners(wallets) == Owners(old(wallets)) + RegisteredIn(deliveries[..i])
        invariant forall w :: w in old(wallets) ==> w in wallets && wallets[w] == old(wallets)[w]
      {
        ghost var before := wallets;
        var _ := Handle(deliveries[i].0, Some(RegisteredUser(deliveries[i].1)), firstId + i, false, false, false);
        OwnersAfter(before, wallets, deliveries[i].1, firstId + i);
        RegisteredStep(deliveries, i);
        i := i + 1;
      }
      assert deliveries[..|deliveries|] == deliveries;
    }
  }

  ghost function RegisteredIn(deliveries: seq<(MsgId, nat)>): set<nat> {
    set i | 0 <= i < |deliveries| :: deliveries[i].1
  }

  lemma OwnersAfter(before: Wallets, after: Wallets, user: nat, newId: WalletId)
    requires newId !in before
    requires after == if HasWallet(before, user) then before else before[newId := Wallet(user, IRR, 0)]
    ensures Owners(after) == Owners(before) + {user}
  {
    if HasWallet(before, user) {
      assert user in Owners(before);
    } else {
      assert after[newId].user == user;
      forall w | w in before ensures w in after && after[w] == before[w] {}
    }
  }

  lemma RegisteredStep(deliveries: seq<(MsgId, nat)>, i: nat)
    requires i < |deliveries|
    ensures RegisteredIn(deliveries[..i + 1]) == RegisteredIn(deliveries[..i]) + {deliveries[i].1}
  {
    var before, after := deliveries[..i], deliveries[..i + 1];
    forall u | u in RegisteredIn(before) ensures u in RegisteredIn(after) {
      var k :| 0 <= k < |before| && before[k].1 == u;
      assert after[k].1 == u;
    }
    assert after[i].1 == deliveries[i].1;
    forall u | u in RegisteredIn(after) ensures u in RegisteredIn(before) + {deliveries[i].1} {
      var k :| 0 <= k < |after| && after[k].1 == u;
      if k < i {
        assert before[k].1 == u;
      }
    }
  }
}
