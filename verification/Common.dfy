/** Vocabulary shared by every component of the wallet system. */
module Common {

  datatype Option<+T> = None | Some(value: T)

  /** The events that travel through an outbox and the broker (pkg/event/event.go). */
  datatype Payload =
    | RegisteredUser(user: nat)
    | LoggedIn(session: string, user: nat)
    | PushNotification(target: string, pushToken: string, user: nat)
    | UnknownEvent(tag: nat)

  predicate Distinct<T(==)>(s: seq<T>) {
    forall i, j :: 0 <= i < j < |s| ==> s[i] != s[j]
  }

  function Max(a: int, b: int): int {
    if a < b then b else a
  }

  lemma {:induction false} SubsetSize<T>(a: set<T>, b: set<T>)
    requires a <= b
    ensures |a| <= |b|
  {
    if x :| x in a {
      SubsetSize(a - {x}, b - {x});
    }
  }
}
