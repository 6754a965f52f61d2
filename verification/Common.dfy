/** Values and small facts shared by every component. */
module Common {

  datatype Option<+T> = None | Some(value: T)

  datatype Result<+T, +E> = Ok(value: T) | Err(error: E)

  /** One row of the messages table, and the message inside events, pages and client state. */
  datatype Message = Message(
    id: int,
    conversationId: int,
    conversationSeq: int,
    clientMessageId: string,
    senderId: int,
    receiverId: int,
    content: string,
    createdAt: int)

  /** Lifetimes of sessions, tokens and stored responses, in seconds. */
  const ACCESS_LIFETIME := 15 * 60
  const IDLE_LIFETIME := 90 * 24 * 3600
  const ABSOLUTE_LIFETIME := 365 * 24 * 3600
  const IDEMPOTENCY_LIFETIME := 10 * 60

  function Min(a: int, b: int): int {
    if a <= b then a else b
  }

  function Max(a: int, b: int): int {
    if a >= b then a else b
  }

  predicate Distinct(s: seq<int>) {
    forall i, j :: 0 <= i < j < |s| ==> s[i] != s[j]
  }

  /** The numbers 1 to `n`. */
  function Interval(n: nat): (r: set<int>)
    ensures forall k :: k in r <==> 1 <= k <= n
    ensures |r| == n
  {
    if n == 0 then {} else Interval(n - 1) + {n}
  }

  lemma NonEmpty(s: set<int>)
    requires s != {}
    ensures exists x :: x in s
  {
    assert (forall x :: x !in s) ==> s == {};
  }

  lemma SameSizeSubset<T>(a: set<T>, b: set<T>)
    requires a <= b && |a| == |b|
    ensures a == b
  {
    assert b == a + (b - a) && a !! (b - a);
    assert |b - a| == 0;
  }

  lemma SmallerSet<T>(a: set<T>, b: set<T>)
    requires a < b
    ensures |a| < |b|
  {
    assert b == a + (b - a) && a !! (b - a);
    assert b - a != {};
  }
}
