/**
 * `sendMessageToWorker` as it changes things: a fresh `MessageChannel` per call, the
 * `onmessage` handler mutating that call's promise state, and the request posted to the active
 * worker together with `port2`.
 */
module Scripts {
  import opened Wrappers
  import opened WorkerReplies
  import CacheActions

  /** One end of a message channel; only its identity matters here. */
  class MessagePort {
    constructor ()
    {
    }
  }

  /** `new MessageChannel()`: two new, distinct, entangled ports. */
  class MessageChannel {
    const port1: MessagePort
    const port2: MessagePort

    constructor ()
      ensures fresh(port1) && fresh(port2) && port1 != port2
    {
      port1 := new MessagePort();
      port2 := new MessagePort();
    }
  }

  /** A `postMessage(message, [port])` the worker has received. */
  datatype Posted = Posted(message: JsValue, transfer: MessagePort)

  /** `registration.active`: the worker that requests are posted to. */
  class ActiveWorker {
    var inbox: seq<Posted>

    constructor ()
      ensures inbox == []
    {
      inbox := [];
    }

    method PostMessage(message: JsValue, port: MessagePort)
      modifies this
      ensures inbox == old(inbox) + [Posted(message, port)]
    {
      inbox := inbox + [Posted(message, port)];
    }
  }

  /**
   * One `sendMessageToWorker` call: its channel, whether a feedback listener was passed, and the
   * state that the `port1.onmessage` handler changes -- the promise's settledness and value, the
   * payloads given to the listener, and how many handler runs threw.
   */
  class WorkerCall {
    const channel: MessageChannel
    const listening: bool
    var settled: bool
    var result: JsValue
    var feedback: seq<JsValue>
    var thrown: nat

    function State(): Reply
      reads this
    {
      Reply(settled, result, feedback, thrown)
    }

    /** A fresh channel with the handler installed on `port1`, before anything is posted. */
    constructor (listening: bool)
      ensures fresh(channel) && fresh(channel.port1) && fresh(channel.port2)
      ensures this.listening == listening
      ensures State() == Unsettled
    {
      channel := new MessageChannel();
      this.listening := listening;
      settled := false;
      result := Undefined;
      feedback := [];
      thrown := 0;
    }

    /** `port1.onmessage` run on one message; a thrown exception changes nothing but the count. */
    method OnMessage(data: JsValue)
      modifies this
      ensures State() == WorkerReplies.OnMessage(old(State()), listening, data)
    {
      var tag := Property(data, "type");
      if tag.Failure? {
        thrown := thrown + 1;
      } else if tag.value == Str("feedback") {
        if listening {
          feedback := feedback + [data];
        } else {
          thrown := thrown + 1;
        }
      } else if !settled {
        settled, result := true, data;
      }
    }

    /** The channel delivering `msgs` to `port1`, one handler run per message, in order. */
    method DeliverAll(msgs: seq<JsValue>)
      modifies this
      ensures State() == Receive(old(State()), listening, msgs)
    {
      var i := 0;
      while i < |msgs|
        invariant 0 <= i <= |msgs|
        invariant State() == Receive(old(State()), listening, msgs[..i])
      {
        assert msgs[..i + 1][..i] == msgs[..i];
        OnMessage(msgs[i]);
        i := i + 1;
      }
      assert msgs[..i] == msgs;
    }
  }

  /**
   * `sendMessageToWorker(message, feedbackListener)`: create the channel and its handler, then
   * post the request with `port2` exactly once. The port is new, so it differs from every port
   * posted before and replies to earlier calls cannot reach this one.
   */
  method SendMessageToWorker(worker: ActiveWorker, message: JsValue, listening: bool) returns (call: WorkerCall)
    modifies worker
    ensures fresh(call) && fresh(call.channel) && fresh(call.channel.port2)
    ensures call.listening == listening && call.State() == Unsettled
    ensures worker.inbox == old(worker.inbox) + [Posted(message, call.channel.port2)]
    ensures forall i :: 0 <= i < |old(worker.inbox)| ==> old(worker.inbox)[i].transfer != call.channel.port2
  {
    call := new WorkerCall(listening);
    worker.PostMessage(message, call.channel.port2);
  }

  /** `checkCacheStatus`, `addToCache` or `deleteCache`: its request, with a listener only for `addToCache`. */
  method Invoke(worker: ActiveWorker, action: CacheActions.Action) returns (call: WorkerCall)
    modifies worker
    ensures fresh(call) && fresh(call.channel) && fresh(call.channel.port2)
    ensures call.listening == CacheActions.Listening(action) && call.State() == Unsettled
    ensures worker.inbox == old(worker.inbox) + [Posted(CacheActions.Request(action), call.channel.port2)]
  {
    call := SendMessageToWorker(worker, CacheActions.Request(action), CacheActions.Listening(action));
  }

  /**
   * Two concurrent `checkCacheStatus` calls answered on their own channels, in either order,
   * each settle with their own reply: replies to one call do not change the other.
   */
  method TwoCallsNoCrossTalk(first: JsValue, second: JsValue)
    requires IsFinal(first) && IsFinal(second)
  {
    var worker := new ActiveWorker();
    var a := Invoke(worker, CacheActions.CheckCacheStatus);
    var b := Invoke(worker, CacheActions.CheckCacheStatus);
    assert a != b && a.channel.port2 != b.channel.port2;
    b.DeliverAll([second]);
    a.DeliverAll([first]);
    assert [first][..0] == [] && [second][..0] == [];
    assert a.State().settled && a.State().result == first;
    assert b.State().settled && b.State().result == second;
  }
}
