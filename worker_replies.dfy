/**
 * The reply handling of `sendMessageToWorker`: the `onmessage` handler installed on `port1` of a
 * fresh `MessageChannel`, as a pure step function over the call's state, and what a whole stream
 * of replies does to that state.
 */
module WorkerReplies {
  import opened Wrappers

  /** The JavaScript values a worker reply can carry (numbers as integers). */
  datatype JsValue =
    | Undefined
    | Null
    | Bool(b: bool)
    | Num(n: int)
    | Str(s: string)
    | Obj(fields: map<string, JsValue>)

  /** Reading a property of `null` or `undefined` throws. */
  datatype JsError = TypeError

  /** `v.key`: own fields of an object; `undefined` for anything else that is not nullish. */
  function Property(v: JsValue, key: string): Result<JsValue, JsError>
  {
    match v
    case Undefined => Failure(TypeError)
    case Null => Failure(TypeError)
    case Obj(fields) => if key in fields then Success(fields[key]) else Success(Undefined)
    case _ => Success(Undefined)
  }

  /** `msg.data.type === "feedback"` holds. */
  predicate IsFeedback(data: JsValue)
  {
    Property(data, "type") == Success(Str("feedback"))
  }

  /** The handler reaches `fulfill(msg.data)`: reading `type` did not throw and it is not `"feedback"`. */
  predicate IsFinal(data: JsValue)
  {
    Property(data, "type").Success? && !IsFeedback(data)
  }

  /**
   * The handler throws on this message: reading `type` of a nullish payload, or calling an
   * absent (`undefined`) feedback listener. The exception leaves the promise as it was.
   */
  predicate Throws(listening: bool, data: JsValue)
  {
    Property(data, "type").Failure? || (IsFeedback(data) && !listening)
  }

  /**
   * The state of one call: whether its promise has settled and with what, the payloads passed to
   * the feedback listener so far, and how many handler runs threw.
   */
  datatype Reply = Reply(settled: bool, result: JsValue, feedback: seq<JsValue>, thrown: nat)

  /** A call whose request has just been posted: nothing received yet. */
  const Unsettled: Reply := Reply(false, Undefined, [], 0)

  /**
   * One run of `port1.onmessage`. Feedback goes to the listener; anything else fulfills the
   * promise, which has no effect once it has settled. The handler is never removed.
   */
  function OnMessage(r: Reply, listening: bool, data: JsValue): Reply
  {
    match Property(data, "type")
    case Failure(_) => r.(thrown := r.thrown + 1)
    case Success(tag) =>
      if tag == Str("feedback") then
        if listening then r.(feedback := r.feedback + [data]) else r.(thrown := r.thrown + 1)
      else if r.settled then r
      else r.(settled := true, result := data)
  }

  /** The handler run on every message of the channel, in arrival order. */
  function Receive(r: Reply, listening: bool, msgs: seq<JsValue>): Reply
  {
    if msgs == [] then r
    else OnMessage(Receive(r, listening, msgs[..|msgs| - 1]), listening, msgs[|msgs| - 1])
  }

  /** The feedback messages among `msgs`, in order. */
  function FeedbackIn(msgs: seq<JsValue>): seq<JsValue>
  {
    if msgs == [] then []
    else FeedbackIn(msgs[..|msgs| - 1]) + (if IsFeedback(msgs[|msgs| - 1]) then [msgs[|msgs| - 1]] else [])
  }

  /** How many of `msgs` make the handler throw. */
  function ThrowingIn(listening: bool, msgs: seq<JsValue>): nat
  {
    if msgs == [] then 0
    else ThrowingIn(listening, msgs[..|msgs| - 1]) + (if Throws(listening, msgs[|msgs| - 1]) then 1 else 0)
  }

  /** `k` is the first final message of `msgs`. */
  predicate FirstFinalAt(msgs: seq<JsValue>, k: int)
  {
    0 <= k < |msgs| && IsFinal(msgs[k]) && forall j :: 0 <= j < k ==> !IsFinal(msgs[j])
  }

  /**
   * The discriminant: exactly the string `"feedback"` is feedback; a missing `type`, any other
   * string and any non-string value is final; only a nullish payload is neither.
   */
  lemma Discriminant(data: JsValue)
    ensures IsFeedback(data) <==> data.Obj? && "type" in data.fields && data.fields["type"] == Str("feedback")
    ensures IsFinal(data) <==> !data.Undefined? && !data.Null? && !IsFeedback(data)
    ensures IsFinal(data) ==> !Throws(true, data) && !Throws(false, data)
  {
  }

  /** Replies compose: receiving `msgs` then `more` is receiving `msgs + more`. */
  lemma {:induction false} ReceiveAppend(r: Reply, listening: bool, msgs: seq<JsValue>, more: seq<JsValue>)
    ensures Receive(r, listening, msgs + more) == Receive(Receive(r, listening, msgs), listening, more)
  {
    if more == [] {
      assert msgs + more == msgs;
    } else {
      assert (msgs + more)[..|msgs + more| - 1] == msgs + more[..|more| - 1];
      ReceiveAppend(r, listening, msgs, more[..|more| - 1]);
    }
  }

  /**
   * Every feedback message reaches the listener, in arrival order, also after the promise has
   * settled; without a listener none is delivered. Every throwing message is counted.
   */
  lemma {:induction false} FeedbackDelivered(r: Reply, listening: bool, msgs: seq<JsValue>)
    ensures Receive(r, listening, msgs).feedback == r.feedback + (if listening then FeedbackIn(msgs) else [])
    ensures Receive(r, listening, msgs).thrown == r.thrown + ThrowingIn(listening, msgs)
  {
    if msgs != [] {
      FeedbackDelivered(r, listening, msgs[..|msgs| - 1]);
    }
  }

  /** Settled once: a settled promise keeps its result whatever arrives afterwards. */
  lemma {:induction false} SettledOnce(r: Reply, listening: bool, msgs: seq<JsValue>)
    requires r.settled
    ensures Receive(r, listening, msgs).settled
    ensures Receive(r, listening, msgs).result == r.result
  {
    if msgs != [] {
      SettledOnce(r, listening, msgs[..|msgs| - 1]);
    }
  }

  /**
   * A fresh call settles if and only if some final message has arrived, and then with the data
   * of the first one.
   */
  lemma {:induction false} SettlesOnFirstFinal(listening: bool, msgs: seq<JsValue>)
    ensures Receive(Unsettled, listening, msgs).settled <==> exists k :: 0 <= k < |msgs| && IsFinal(msgs[k])
    ensures forall k :: FirstFinalAt(msgs, k) ==> Receive(Unsettled, listening, msgs).result == msgs[k]
  {
    if msgs != [] {
      var prefix := msgs[..|msgs| - 1];
      var last := msgs[|msgs| - 1];
      SettlesOnFirstFinal(listening, prefix);
      var before := Receive(Unsettled, listening, prefix);
      if before.settled {
        var k :| 0 <= k < |prefix| && IsFinal(prefix[k]);
        assert msgs[k] == prefix[k];
      } else {
        assert forall j :: 0 <= j < |prefix| ==> !IsFinal(msgs[j]) by {
          forall j | 0 <= j < |prefix| ensures !IsFinal(msgs[j]) {
            assert msgs[j] == prefix[j];
          }
        }
      }
      forall k | FirstFinalAt(msgs, k)
        ensures Receive(Unsettled, listening, msgs).result == msgs[k]
      {
        if k < |prefix| {
          assert FirstFinalAt(prefix, k) by {
            forall j | 0 <= j < k ensures !IsFinal(prefix[j]) {
              assert prefix[j] == msgs[j];
            }
          }
          assert before.settled;
          SettledOnce(before, listening, [last]);
        }
      }
    }
  }

  /** A call that never receives a final message never settles: there is no timeout. */
  lemma NeverSettlesWithoutFinal(listening: bool, msgs: seq<JsValue>)
    requires forall k :: 0 <= k < |msgs| ==> !IsFinal(msgs[k])
    ensures !Receive(Unsettled, listening, msgs).settled
  {
    SettlesOnFirstFinal(listening, msgs);
  }

  /** A settled result is never `null` or `undefined`, so reading a property of it cannot throw. */
  lemma {:induction false} SettledResultReadable(listening: bool, msgs: seq<JsValue>, key: string)
    requires Receive(Unsettled, listening, msgs).settled
    ensures Property(Receive(Unsettled, listening, msgs).result, key).Success?
  {
    var prefix := msgs[..|msgs| - 1];
    var before := Receive(Unsettled, listening, prefix);
    if before.settled {
      SettledResultReadable(listening, prefix, key);
    }
  }
}
