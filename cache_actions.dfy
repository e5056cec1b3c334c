/**
 * The three cache actions of the actions script, `checkCacheStatus`, `addToCache` and
 * `deleteCache`: the request each one sends, whether it passes a feedback listener, and what it
 * returns once the worker's final reply has arrived.
 */
module CacheActions {
  import opened Wrappers
  import opened WorkerReplies

  datatype Action = CheckCacheStatus | AddToCache | DeleteCache

  /** The `action` string each request carries. */
  function ActionName(a: Action): string
  {
    match a
    case CheckCacheStatus => "get-cache-size"
    case AddToCache => "add-to-cache"
    case DeleteCache => "delete-cache"
  }

  /** The message posted to the worker: `{action: <name>}` and nothing else. */
  function Request(a: Action): JsValue
  {
    Obj(map["action" := Str(ActionName(a))])
  }

  /** Only `addToCache` passes a feedback listener; the others leave it `undefined`. */
  predicate Listening(a: Action)
  {
    a == AddToCache
  }

  /** What the action returns from the final reply: its `sizes` field, or the reply itself. */
  function Returned(a: Action, final: JsValue): Result<JsValue, JsError>
  {
    match a
    case CheckCacheStatus => Property(final, "sizes")
    case AddToCache => Success(final)
    case DeleteCache => Success(final)
  }

  /** The action's promise after `msgs` have arrived on its channel: `None` while it is pending. */
  function Outcome(a: Action, msgs: seq<JsValue>): Option<Result<JsValue, JsError>>
  {
    var r := Receive(Unsettled, Listening(a), msgs);
    if r.settled then Some(Returned(a, r.result)) else None
  }

  /** What `addToCache`'s caller-supplied listener has received: its wrapper forwards each item unchanged. */
  function Forwarded(a: Action, msgs: seq<JsValue>): seq<JsValue>
  {
    Receive(Unsettled, Listening(a), msgs).feedback
  }

  /** Each request names its own action, so no two actions send the same request. */
  lemma RequestNamesAction(a: Action, b: Action)
    ensures Property(Request(a), "action") == Success(Str(ActionName(a)))
    ensures Request(a) == Request(b) <==> a == b
  {
    if ActionName(a) == ActionName(b) {
      assert ActionName(a)[0] == ActionName(b)[0];
      assert ActionName(a)[4] == ActionName(b)[4];
    }
    assert Request(a) == Request(b) ==> Request(a).fields["action"] == Request(b).fields["action"];
  }

  /**
   * `checkCacheStatus` returns the `sizes` field of the first final reply, and reading it never
   * throws; feedback replies do not reach any listener.
   */
  lemma CheckCacheStatusReturnsSizes(msgs: seq<JsValue>, k: int)
    requires FirstFinalAt(msgs, k)
    ensures Outcome(CheckCacheStatus, msgs) == Some(Property(msgs[k], "sizes"))
    ensures Property(msgs[k], "sizes").Success?
    ensures Forwarded(CheckCacheStatus, msgs) == []
  {
    SettlesOnFirstFinal(false, msgs);
    Discriminant(msgs[k]);
    FeedbackDelivered(Unsettled, false, msgs);
  }

  /**
   * `addToCache` returns the whole first final reply, and its listener receives every feedback
   * reply, in order, including those that arrive after the final one.
   */
  lemma AddToCacheReturnsReply(msgs: seq<JsValue>, k: int)
    requires FirstFinalAt(msgs, k)
    ensures Outcome(AddToCache, msgs) == Some(Success(msgs[k]))
    ensures Forwarded(AddToCache, msgs) == FeedbackIn(msgs)
  {
    SettlesOnFirstFinal(true, msgs);
    FeedbackDelivered(Unsettled, true, msgs);
  }

  /**
   * `deleteCache` returns the whole first final reply; it has no listener, so every feedback
   * reply makes the handler throw instead.
   */
  lemma DeleteCacheReturnsReply(msgs: seq<JsValue>, k: int)
    requires FirstFinalAt(msgs, k)
    ensures Outcome(DeleteCache, msgs) == Some(Success(msgs[k]))
    ensures Forwarded(DeleteCache, msgs) == []
    ensures Receive(Unsettled, false, msgs).thrown == ThrowingIn(false, msgs)
  {
    SettlesOnFirstFinal(false, msgs);
    FeedbackDelivered(Unsettled, false, msgs);
  }

  /** Without a final reply no action ever returns. */
  lemma PendingWithoutFinal(a: Action, msgs: seq<JsValue>)
    requires forall k :: 0 <= k < |msgs| ==> !IsFinal(msgs[k])
    ensures Outcome(a, msgs).None?
  {
    NeverSettlesWithoutFinal(Listening(a), msgs);
  }
}
