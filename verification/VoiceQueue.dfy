/**
  The queue of voice announcements in the browser.

  Every `await` splits processNext, so several of its activations (here: loops) can be alive at once,
  one that speaks and others that a cancel has left behind. A callback may itself call the queue, which
  is why the check after a callback, and each error callback of a cancel or a clear, is a step of its own.
 */
module VoiceQueue {
  import opened Prelude
  import Runs

  datatype State = Idle | Speaking

  /** Where an activation of processNext is waiting. */
  datatype Stage = Utterance(message: nat) | AfterCallback | Pause

  datatype Loop = Loop(op: nat, stage: Stage)

  /** A call of a message's onSuccess or onError. */
  datatype Callback = Success(message: nat) | Error(message: nat)

  datatype World = World(
    queue: seq<nat>,
    failing: seq<nat>,         // taken out of the queue by cancel or clear, onError not called yet
    state: State, operationId: nat,
    loops: map<nat, Loop>, nextLoop: nat,
    callbacks: seq<Callback>,
    enqueued: nat)             // messages are numbered as they are enqueued

  datatype Op =
    | Enqueue | Cancel | Clear
    | FailNext                     // the next error callback of a cancel or a clear
    | Settle(id: nat, ok: bool)    // the engine is done with an utterance
    | Check(id: nat)               // the activation goes on after the callback
    | PauseOver(id: nat)

  const INIT := World([], [], Idle, 0, map[], 0, [], 0)

  /** processNext up to its first await. */
  function Start(w: World): World {
    if w.queue == [] then w.(state := Idle)
    else
      w.(state := Speaking, queue := w.queue[1..], nextLoop := w.nextLoop + 1,
         loops := w.loops[w.nextLoop := Loop(w.operationId, Utterance(w.queue[0]))])
  }

  function End(w: World, id: nat): World {
    w.(loops := w.loops - {id})
  }

  function At(w: World, id: nat): Option<Stage> {
    if id in w.loops then Some(w.loops[id].stage) else None
  }

  function GoTo(w: World, id: nat, stage: Stage): World
    requires id in w.loops
  {
    w.(loops := w.loops[id := w.loops[id].(stage := stage)])
  }

  predicate Current(w: World, id: nat)
    requires id in w.loops
  {
    w.loops[id].op == w.operationId
  }

  function Step(w: World, op: Op): World {
    match op
    case Enqueue =>
      var queued := w.(queue := w.queue + [w.enqueued], enqueued := w.enqueued + 1);
      if w.state == Idle then Start(queued) else queued
    case Cancel =>
      w.(operationId := w.operationId + 1, queue := [], state := Idle, failing := w.queue + w.failing)
    case Clear =>
      w.(queue := [], failing := w.queue + w.failing)
    case FailNext =>
      if w.failing == [] then w
      else w.(failing := w.failing[1..], callbacks := w.callbacks + [Error(w.failing[0])])
    case Settle(id, ok) =>
      if At(w, id).Some? && At(w, id).value.Utterance? then
        var m := At(w, id).value.message;
        if !ok then GoTo(w.(callbacks := w.callbacks + [Error(m)]), id, AfterCallback)
        else if Current(w, id) then GoTo(w.(callbacks := w.callbacks + [Success(m)]), id, AfterCallback)
        else End(w.(callbacks := w.callbacks + [Error(m)]), id)
      else w
    case Check(id) =>
      if At(w, id) == Some(AfterCallback) then
        if Current(w, id) then GoTo(w, id, Pause) else End(w, id)
      else w
    case PauseOver(id) =>
      if At(w, id) == Some(Pause) then
        if Current(w, id) then Start(End(w, id)) else End(w, id)
      else w
  }

  ghost function Run(ops: seq<Op>): World {
    Runs.Fold(Step, INIT, ops)
  }

  // ---------- the invariant ----------

  ghost predicate CalledBack(w: World, m: nat) {
    exists i :: 0 <= i < |w.callbacks| && w.callbacks[i].message == m
  }

  ghost predicate Uttered(w: World, m: nat) {
    exists id :: At(w, id) == Some(Utterance(m))
  }

  /** No message is called back twice, nor spoken by two activations. */
  ghost predicate Singly(w: World) {
    && (forall i, j :: 0 <= i < j < |w.callbacks| ==> w.callbacks[i].message != w.callbacks[j].message)
    && (forall id, other :: At(w, id).Some? && At(w, id).value.Utterance? && At(w, other) == At(w, id) ==> id == other)
    && (forall i, j :: 0 <= i < j < |w.queue| ==> w.queue[i] < w.queue[j])
    && (forall i, j :: 0 <= i < j < |w.failing| ==> w.failing[i] != w.failing[j])
  }

  /** Each message is in the queue, being spoken, about to fail, or called back: one of the four. */
  ghost predicate OnePlace(w: World, m: nat) {
    if m in w.queue then m < w.enqueued && !Uttered(w, m) && m !in w.failing && !CalledBack(w, m)
    else if Uttered(w, m) then m < w.enqueued && m !in w.failing && !CalledBack(w, m)
    else if m in w.failing then m < w.enqueued && !CalledBack(w, m)
    else CalledBack(w, m) <==> m < w.enqueued
  }

  ghost predicate EachOnce(w: World) {
    Singly(w) && forall m: nat :: OnePlace(w, m)
  }

  /** The state is speaking exactly when one activation carries the current operation id. */
  ghost predicate OneSpeaker(w: World) {
    && (forall id <- w.loops :: w.loops[id].op <= w.operationId && id < w.nextLoop)
    && (forall id, other :: id in w.loops && other in w.loops && Current(w, id) && Current(w, other) ==> id == other)
    && (w.state == Speaking <==> exists id :: id in w.loops && Current(w, id))
    && (w.queue != [] ==> w.state == Speaking)
  }

  /** A message that may still succeed comes after all that have, the one being spoken before the queue. */
  ghost predicate InOrder(w: World) {
    SuccessesRise(w.callbacks) && OthersComeLater(w) && SpeakerComesFirst(w)
  }

  ghost predicate SuccessesRise(callbacks: seq<Callback>) {
    forall i, j :: 0 <= i < j < |callbacks| && callbacks[i].Success? && callbacks[j].Success? ==>
      callbacks[i].message < callbacks[j].message
  }

  ghost predicate OthersComeLater(w: World) {
    forall i, m :: 0 <= i < |w.callbacks| && w.callbacks[i].Success? && MaySucceed(w, m) ==> w.callbacks[i].message < m
  }

  ghost predicate SpeakerComesFirst(w: World) {
    forall id, m :: id in w.loops && Current(w, id) && w.loops[id].stage.Utterance? && m in w.queue ==>
      w.loops[id].stage.message < m
  }

  ghost predicate MaySucceed(w: World, m: nat) {
    m in w.queue || exists id :: id in w.loops && Current(w, id) && w.loops[id].stage == Utterance(m)
  }

  ghost predicate Inv(w: World) {
    EachOnce(w) && OneSpeaker(w) && InOrder(w)
  }

  // ---------- every step keeps it ----------

  lemma StepKeepsEachOnce(w: World, op: Op)
    requires EachOnce(w) && OneSpeaker(w)
    ensures EachOnce(Step(w, op))
  {
    match op {
      case Enqueue =>
        var queued := w.(queue := w.queue + [w.enqueued], enqueued := w.enqueued + 1);
        PushKeepsEachOnce(w);
        if w.state == Idle {
          StartKeepsEachOnce(queued);
        }
      case Cancel => FlushKeepsEachOnce(w, Step(w, op));
      case Clear => FlushKeepsEachOnce(w, Step(w, op));
      case FailNext => FailKeepsEachOnce(w);
      case Settle(id, ok) =>
        if At(w, id).Some? && At(w, id).value.Utterance? {
          SettleKeepsEachOnce(w, id, ok);
        }
      case Check(id) =>
        if At(w, id) == Some(AfterCallback) {
          QuietKeepsEachOnce(w, Step(w, op), id);
        }
      case PauseOver(id) =>
        if At(w, id) == Some(Pause) {
          QuietKeepsEachOnce(w, End(w, id), id);
          if Current(w, id) {
            StartKeepsEachOnce(End(w, id));
          }
        }
    }
  }

  lemma PushKeepsEachOnce(w: World)
    requires EachOnce(w)
    ensures EachOnce(w.(queue := w.queue + [w.enqueued], enqueued := w.enqueued + 1))
  {
    hide OnePlace;
    var after := w.(queue := w.queue + [w.enqueued], enqueued := w.enqueued + 1);
    forall m: nat | true ensures OnePlace(after, m) {
      PushPlace(w, after, m);
    }
    forall i | 0 <= i < |w.queue| ensures w.queue[i] < w.enqueued {
      InQueue(w, w.queue[i]);
    }
    assert forall id :: At(after, id) == At(w, id);
  }

  lemma InQueue(w: World, m: nat)
    requires OnePlace(w, m) && m in w.queue
    ensures m < w.enqueued
  {
  }

  lemma PushPlace(w: World, after: World, m: nat)
    requires OnePlace(w, m)
    requires after == w.(queue := w.queue + [w.enqueued], enqueued := w.enqueued + 1)
    ensures OnePlace(after, m)
  {
    assert m in after.queue <==> m in w.queue || m == w.enqueued;
    assert Uttered(after, m) <==> Uttered(w, m) by {
      assert forall id :: At(after, id) == At(w, id);
    }
  }

  lemma StartKeepsEachOnce(w: World)
    requires EachOnce(w) && w.nextLoop !in w.loops
    ensures EachOnce(Start(w))
  {
    if w.queue != [] {
      var after := Start(w);
      forall id ensures At(after, id) == if id == w.nextLoop then Some(Utterance(w.queue[0])) else At(w, id) {
      }
      assert OnePlace(w, w.queue[0]);
      forall m: nat | true ensures OnePlace(after, m) {
        StartPlace(w, m);
      }
      assert Singly(after) by {
        assert !Uttered(w, w.queue[0]);
      }
    } else {
      var after := Start(w);
      assert forall id :: At(after, id) == At(w, id);
      forall m: nat | true ensures OnePlace(after, m) {
        assert OnePlace(w, m);
        SameLoops(w, after, m);
        assert CalledBack(after, m) <==> CalledBack(w, m);
      }
    }
  }

  lemma SameLoops(w: World, after: World, m: nat)
    requires after.loops == w.loops
    ensures Uttered(after, m) <==> Uttered(w, m)
  {
    assert forall id :: At(after, id) == At(w, id);
  }

  lemma StartPlace(w: World, m: nat)
    requires w.queue != [] && Singly(w) && OnePlace(w, m) && w.nextLoop !in w.loops
    ensures OnePlace(Start(w), m)
  {
    var after, first := Start(w), w.queue[0];
    assert At(after, w.nextLoop) == Some(Utterance(first));
    assert forall id :: id != w.nextLoop ==> At(after, id) == At(w, id);
    assert Uttered(after, m) <==> Uttered(w, m) || m == first;
    assert w.queue == [first] + after.queue;
    assert CalledBack(after, m) <==> CalledBack(w, m);
  }

  lemma FlushKeepsEachOnce(w: World, after: World)
    requires EachOnce(w)
    requires after.queue == [] && after.failing == w.queue + w.failing && after.callbacks == w.callbacks
    requires after.loops == w.loops && after.enqueued == w.enqueued
    ensures EachOnce(after)
  {
    forall m: nat | true ensures OnePlace(after, m) {
      assert OnePlace(w, m);
      SameLoops(w, after, m);
      assert CalledBack(after, m) <==> CalledBack(w, m);
    }
    assert forall id :: At(after, id) == At(w, id);
    forall i, j | 0 <= i < j < |after.failing| ensures after.failing[i] != after.failing[j] {
      if i < |w.queue| <= j {
        assert OnePlace(w, w.queue[i]);
      }
    }
  }

  lemma FailKeepsEachOnce(w: World)
    requires EachOnce(w)
    ensures EachOnce(Step(w, FailNext))
  {
    if w.failing != [] {
      var after, first := Step(w, FailNext), w.failing[0];
      assert forall id :: At(after, id) == At(w, id);
      assert OnePlace(w, first);
      forall m: nat | true ensures OnePlace(after, m) {
        FailPlace(w, m);
      }
      forall i | 0 <= i < |w.callbacks| ensures w.callbacks[i].message != first {
        assert !CalledBack(w, first);
      }
    }
  }

  lemma FailPlace(w: World, m: nat)
    requires w.failing != [] && Singly(w) && OnePlace(w, m) && OnePlace(w, w.failing[0])
    ensures OnePlace(Step(w, FailNext), m)
  {
    var after, first := Step(w, FailNext), w.failing[0];
    SameLoops(w, after, m);
    assert w.failing == [first] + after.failing;
    assert CalledBack(after, m) <==> CalledBack(w, m) || m == first by {
      assert forall i :: 0 <= i < |w.callbacks| ==> after.callbacks[i] == w.callbacks[i];
      assert after.callbacks[|w.callbacks|].message == first;
    }
  }

  lemma SettleKeepsEachOnce(w: World, id: nat, ok: bool)
    requires EachOnce(w) && At(w, id).Some? && At(w, id).value.Utterance?
    ensures EachOnce(Step(w, Settle(id, ok)))
  {
    var after, message := Step(w, Settle(id, ok)), At(w, id).value.message;
    assert forall other :: other != id ==> At(after, other) == At(w, other);
    assert At(after, id) == None || At(after, id) == Some(AfterCallback);
    assert At(w, id) == Some(Utterance(message));
    assert OnePlace(w, message) && Uttered(w, message);
    forall m: nat | true ensures OnePlace(after, m) {
      SettlePlace(w, after, id, message, m);
    }
    forall i | 0 <= i < |w.callbacks| ensures w.callbacks[i].message != message {
      assert !CalledBack(w, message);
    }
  }

  lemma SettlePlace(w: World, after: World, id: nat, message: nat, m: nat)
    requires Singly(w) && OnePlace(w, m) && At(w, id) == Some(Utterance(message))
    requires after.queue == w.queue && after.failing == w.failing && after.enqueued == w.enqueued
    requires |after.callbacks| == |w.callbacks| + 1 && after.callbacks[..|w.callbacks|] == w.callbacks
    requires after.callbacks[|w.callbacks|].message == message
    requires forall other :: other != id ==> At(after, other) == At(w, other)
    requires At(after, id) == None || At(after, id) == Some(AfterCallback)
    ensures OnePlace(after, m)
  {
    assert Uttered(w, message);
    assert Uttered(after, m) <==> Uttered(w, m) && m != message;
    assert CalledBack(after, m) <==> CalledBack(w, m) || m == message by {
      assert forall i :: 0 <= i < |w.callbacks| ==> after.callbacks[i] == w.callbacks[i];
    }
  }

  /** A step of an activation that is not speaking moves no message. */
  lemma QuietKeepsEachOnce(w: World, after: World, id: nat)
    requires EachOnce(w) && At(w, id).Some? && !At(w, id).value.Utterance?
    requires after.queue == w.queue && after.failing == w.failing && after.callbacks == w.callbacks
    requires after.enqueued == w.enqueued
    requires forall other :: other != id ==> At(after, other) == At(w, other)
    requires At(after, id).Some? ==> !At(after, id).value.Utterance?
    ensures EachOnce(after)
  {
    forall m: nat | true ensures OnePlace(after, m) {
      assert OnePlace(w, m);
      assert Uttered(after, m) <==> Uttered(w, m);
      assert CalledBack(after, m) <==> CalledBack(w, m);
    }
  }

  lemma StepKeepsOneSpeaker(w: World, op: Op)
    requires OneSpeaker(w)
    ensures OneSpeaker(Step(w, op))
  {
    match op {
      case Enqueue =>
        var queued := w.(queue := w.queue + [w.enqueued], enqueued := w.enqueued + 1);
        if w.state == Idle {
          assert forall id <- queued.loops :: Current(queued, id) <==> Current(w, id);
          StartKeepsOneSpeaker(queued);
        } else {
          SameSpeaker(w, queued);
        }
      case Cancel =>
        assert forall id <- w.loops :: !Current(Step(w, op), id);
      case Clear => SameSpeaker(w, Step(w, op));
      case FailNext => SameSpeaker(w, Step(w, op));
      case Settle(id, ok) =>
        if At(w, id).Some? && At(w, id).value.Utterance? {
          StaysKeepsOneSpeaker(w, Step(w, op), id);
        }
      case Check(id) =>
        if At(w, id) == Some(AfterCallback) {
          StaysKeepsOneSpeaker(w, Step(w, op), id);
        }
      case PauseOver(id) =>
        if At(w, id) == Some(Pause) {
          var without := End(w, id);
          assert forall other <- without.loops :: Current(without, other) <==> Current(w, other);
          if Current(w, id) {
            StartKeepsOneSpeaker(without);
          } else {
            StaysKeepsOneSpeaker(w, without, id);
          }
        }
    }
  }

  lemma SameSpeaker(w: World, after: World)
    requires OneSpeaker(w)
    requires after.loops == w.loops && after.operationId == w.operationId && after.state == w.state
    requires after.nextLoop == w.nextLoop && (after.queue == [] || w.state == Speaking)
    ensures OneSpeaker(after)
  {
    assert forall id <- w.loops :: Current(after, id) <==> Current(w, id);
  }

  /** processNext is only entered when no activation carries the current operation id. */
  lemma StartKeepsOneSpeaker(w: World)
    requires forall id <- w.loops :: w.loops[id].op <= w.operationId && id < w.nextLoop && !Current(w, id)
    ensures OneSpeaker(Start(w))
  {
    var after := Start(w);
    if w.queue == [] {
      assert forall id <- after.loops :: Current(after, id) <==> Current(w, id);
    } else {
      assert w.nextLoop in after.loops && Current(after, w.nextLoop);
      assert forall id <- after.loops :: id != w.nextLoop ==> (Current(after, id) <==> Current(w, id));
    }
  }

  /** An activation that goes on, or one that a cancel has left behind and that ends. */
  lemma StaysKeepsOneSpeaker(w: World, after: World, id: nat)
    requires OneSpeaker(w) && id in w.loops
    requires after.queue == w.queue && after.state == w.state && after.operationId == w.operationId
    requires after.nextLoop == w.nextLoop
    requires forall other :: other != id ==> (other in after.loops <==> other in w.loops)
    requires forall other <- after.loops :: other in w.loops && after.loops[other].op == w.loops[other].op
    requires id in after.loops || !Current(w, id)
    ensures OneSpeaker(after)
  {
    assert forall other <- after.loops :: Current(after, other) <==> Current(w, other);
    if w.state == Speaking {
      var speaker :| speaker in w.loops && Current(w, speaker);
      assert speaker in after.loops && Current(after, speaker);
    }
  }

  lemma StepKeepsInOrder(w: World, op: Op)
    requires EachOnce(w) && OneSpeaker(w) && InOrder(w)
    ensures InOrder(Step(w, op))
  {
    match op {
      case Enqueue => EnqueueKeepsInOrder(w);
      case Cancel => FlushKeepsInOrder(w, Step(w, op));
      case Clear => FlushKeepsInOrder(w, Step(w, op));
      case FailNext => FailKeepsInOrder(w);
      case Settle(id, ok) =>
        if At(w, id).Some? && At(w, id).value.Utterance? {
          SettleKeepsInOrder(w, id, ok);
        }
      case Check(id) =>
        if At(w, id) == Some(AfterCallback) {
          QuietKeepsInOrder(w, Step(w, op), id);
        }
      case PauseOver(id) =>
        if At(w, id) == Some(Pause) {
          QuietKeepsInOrder(w, End(w, id), id);
          if Current(w, id) {
            StartKeepsInOrder(End(w, id));
          }
        }
    }
  }

  /** No new success, and nothing new that may succeed. */
  lemma FewerMaySucceed(w: World, after: World)
    requires SuccessesRise(w.callbacks) && OthersComeLater(w)
    requires |w.callbacks| <= |after.callbacks| && after.callbacks[..|w.callbacks|] == w.callbacks
    requires forall i :: |w.callbacks| <= i < |after.callbacks| ==> after.callbacks[i].Error?
    requires forall m :: MaySucceed(after, m) ==> MaySucceed(w, m)
    ensures SuccessesRise(after.callbacks) && OthersComeLater(after)
  {
    hide MaySucceed;
    assert forall i :: 0 <= i < |w.callbacks| ==> after.callbacks[i] == w.callbacks[i];
  }

  lemma FlushKeepsInOrder(w: World, after: World)
    requires InOrder(w) && OneSpeaker(w)
    requires after.queue == [] && after.callbacks == w.callbacks && after.loops == w.loops
    requires after.operationId == w.operationId || after.operationId == w.operationId + 1
    ensures InOrder(after)
  {
    assert forall id <- w.loops :: Current(after, id) ==> Current(w, id);
    FewerMaySucceed(w, after);
  }

  lemma FailKeepsInOrder(w: World)
    requires InOrder(w)
    ensures InOrder(Step(w, FailNext))
  {
    var after := Step(w, FailNext);
    assert forall id <- w.loops :: Current(after, id) <==> Current(w, id);
    FewerMaySucceed(w, after);
  }

  lemma QuietKeepsInOrder(w: World, after: World, id: nat)
    requires InOrder(w) && id in w.loops && !w.loops[id].stage.Utterance?
    requires after.queue == w.queue && after.callbacks == w.callbacks && after.operationId == w.operationId
    requires forall other :: other != id ==> (other in after.loops <==> other in w.loops)
    requires forall other <- after.loops :: other != id ==> after.loops[other] == w.loops[other]
    requires id in after.loops ==> !after.loops[id].stage.Utterance?
    ensures InOrder(after)
  {
    assert forall other <- after.loops :: other != id ==> (Current(after, other) <==> Current(w, other));
    FewerMaySucceed(w, after);
  }

  lemma StartKeepsInOrder(w: World)
    requires InOrder(w) && w.nextLoop !in w.loops
    requires forall i, j :: 0 <= i < j < |w.queue| ==> w.queue[i] < w.queue[j]
    requires forall id <- w.loops :: !Current(w, id)
    ensures InOrder(Start(w))
  {
    var after := Start(w);
    if w.queue == [] {
      assert forall id <- after.loops :: !Current(after, id);
      FewerMaySucceed(w, after);
    } else {
      assert forall id <- w.loops :: !Current(after, id);
      assert w.queue[0] in w.queue;
      assert forall m :: m in after.queue ==> m in w.queue;
      FewerMaySucceed(w, after);
    }
  }

  lemma EnqueueKeepsInOrder(w: World)
    requires EachOnce(w) && OneSpeaker(w) && InOrder(w)
    ensures InOrder(Step(w, Enqueue))
  {
    var queued := w.(queue := w.queue + [w.enqueued], enqueued := w.enqueued + 1);
    PushKeepsInOrder(w, queued);
    if w.state == Idle {
      PushKeepsEachOnce(w);
      assert forall id <- queued.loops :: Current(queued, id) <==> Current(w, id);
      StartKeepsInOrder(queued);
    }
  }

  lemma PushKeepsInOrder(w: World, queued: World)
    requires EachOnce(w) && InOrder(w)
    requires queued == w.(queue := w.queue + [w.enqueued], enqueued := w.enqueued + 1)
    ensures InOrder(queued)
  {
    assert forall id <- queued.loops :: Current(queued, id) <==> Current(w, id);
    forall i, m | 0 <= i < |queued.callbacks| && queued.callbacks[i].Success? && MaySucceed(queued, m)
      ensures queued.callbacks[i].message < m
    {
      if m == w.enqueued {
        assert CalledBack(w, w.callbacks[i].message);
        assert OnePlace(w, w.callbacks[i].message);
      } else {
        assert MaySucceed(w, m);
      }
    }
    forall id, m | id in queued.loops && Current(queued, id) && queued.loops[id].stage.Utterance? && m in queued.queue
      ensures queued.loops[id].stage.message < m
    {
      if m == w.enqueued {
        assert At(w, id) == Some(Utterance(w.loops[id].stage.message));
        assert Uttered(w, w.loops[id].stage.message);
        assert OnePlace(w, w.loops[id].stage.message);
      }
    }
  }

  lemma SettleKeepsInOrder(w: World, id: nat, ok: bool)
    requires OneSpeaker(w) && InOrder(w) && At(w, id).Some? && At(w, id).value.Utterance?
    ensures InOrder(Step(w, Settle(id, ok)))
  {
    var after, message := Step(w, Settle(id, ok)), At(w, id).value.message;
    assert forall other <- after.loops :: other in w.loops && (Current(after, other) <==> Current(w, other));
    assert forall other <- after.loops :: other != id ==> after.loops[other] == w.loops[other];
    assert forall m :: MaySucceed(after, m) ==> MaySucceed(w, m);
    if ok && Current(w, id) {
      assert MaySucceed(w, message);
      assert forall m :: MaySucceed(after, m) ==> m in w.queue;
      assert SuccessesRise(after.callbacks);
    } else {
      FewerMaySucceed(w, after);
    }
  }

  // ---------- over all runs ----------

  lemma {:induction false} Reachable(ops: seq<Op>)
    ensures Inv(Run(ops))
    decreases |ops|
  {
    if ops == [] {
      InitKeepsInv();
    } else {
      var n := |ops| - 1;
      Reachable(ops[..n]);
      Runs.Snoc(Step, INIT, ops[..n], ops[n]);
      assert ops == ops[..n] + [ops[n]];
      StepKeepsInv(Run(ops[..n]), ops[n]);
    }
  }

  lemma InitKeepsInv()
    ensures Inv(INIT)
  {
    assert forall id :: At(INIT, id) == None;
    assert forall m: nat :: !Uttered(INIT, m);
    assert forall m: nat :: OnePlace(INIT, m);
  }

  lemma StepKeepsInv(w: World, op: Op)
    requires Inv(w)
    ensures Inv(Step(w, op))
  {
    hide EachOnce, OneSpeaker, InOrder, Step;
    StepKeepsEachOnce(w, op);
    StepKeepsOneSpeaker(w, op);
    StepKeepsInOrder(w, op);
  }

  function Calls(callbacks: seq<Callback>, m: nat): nat {
    if callbacks == [] then 0
    else Calls(callbacks[..|callbacks| - 1], m) + if callbacks[|callbacks| - 1].message == m then 1 else 0
  }

  lemma {:induction false} CallsAtMostOnce(callbacks: seq<Callback>, m: nat)
    requires forall i, j :: 0 <= i < j < |callbacks| ==> callbacks[i].message != callbacks[j].message
    ensures Calls(callbacks, m) == if exists i :: 0 <= i < |callbacks| && callbacks[i].message == m then 1 else 0
    decreases |callbacks|
  {
    if callbacks == [] {
    } else {
      CallsAtMostOnce(callbacks[..|callbacks| - 1], m);
    }
  }

  /**
    In every run each message that was enqueued gets one callback once it is neither waiting nor being
    spoken nor next in line to fail, and none before.
   */
  lemma OneCallbackEach(ops: seq<Op>, m: nat)
    ensures var w := Run(ops);
            Calls(w.callbacks, m) ==
            if m < w.enqueued && m !in w.queue && !Uttered(w, m) && m !in w.failing then 1 else 0
  {
    Reachable(ops);
    var w := Run(ops);
    CallsAtMostOnce(w.callbacks, m);
    assert OnePlace(w, m);
    assert CalledBack(w, m) <==> exists i :: 0 <= i < |w.callbacks| && w.callbacks[i].message == m;
  }

  /** The state is speaking exactly when one activation carries the current operation id. */
  lemma SpeakingMeansOneSpeaker(ops: seq<Op>)
    ensures var w := Run(ops);
            w.state == Speaking <==>
            exists id :: id in w.loops && Current(w, id)
                         && forall other :: other in w.loops && Current(w, other) ==> other == id
  {
    Reachable(ops);
  }

  /** So when no activation is left, nothing is waiting and every message has had its callback. */
  lemma QuietMeansAllCalledBack(ops: seq<Op>, m: nat)
    requires Run(ops).loops == map[] && Run(ops).failing == [] && m < Run(ops).enqueued
    ensures Run(ops).queue == [] && Calls(Run(ops).callbacks, m) == 1
  {
    Reachable(ops);
    OneCallbackEach(ops, m);
    assert forall id :: At(Run(ops), id) == None;
  }

  /** Messages succeed in the order in which they were enqueued. */
  lemma SuccessesInOrder(ops: seq<Op>, i: nat, j: nat)
    requires i < j < |Run(ops).callbacks|
    requires Run(ops).callbacks[i].Success? && Run(ops).callbacks[j].Success?
    ensures Run(ops).callbacks[i].message < Run(ops).callbacks[j].message
  {
    Reachable(ops);
  }

  // ---------- which callback a message gets ----------

  /** In operation `k` the engine is done with message `m`. */
  ghost predicate SettledAt(ops: seq<Op>, k: int, m: nat) {
    0 <= k < |ops| && ops[k].Settle? &&
    var w := Run(ops[..k]);
    ops[k].id in w.loops && w.loops[ops[k].id].stage == Utterance(m)
  }

  /** It has spoken the message, and the activation carries the current operation id. */
  ghost predicate SpokenAt(ops: seq<Op>, k: int, m: nat) {
    SettledAt(ops, k, m) && ops[k].ok && Run(ops[..k]).loops[ops[k].id].op == Run(ops[..k]).operationId
  }

  /** In operation `k` the message, which waited at a cancel or a clear, is called back. */
  ghost predicate FlushedAt(ops: seq<Op>, k: int, m: nat) {
    0 <= k < |ops| && ops[k] == FailNext &&
    var failing := Run(ops[..k]).failing;
    failing != [] && failing[0] == m
  }

  lemma StepCalls(w: World, op: Op)
    ensures Step(w, op).callbacks ==
            w.callbacks +
            if op.Settle? && op.id in w.loops && w.loops[op.id].stage.Utterance? then
              var m := w.loops[op.id].stage.message;
              [if op.ok && w.loops[op.id].op == w.operationId then Success(m) else Error(m)]
            else if op == FailNext && w.failing != [] then [Error(w.failing[0])]
            else []
  {
  }

  /** In operation `k` the message fails: not spoken, spoken too late, or flushed. */
  ghost predicate FailedAt(ops: seq<Op>, k: int, m: nat) {
    (SettledAt(ops, k, m) && !SpokenAt(ops, k, m)) || FlushedAt(ops, k, m)
  }

  ghost predicate Spoken(ops: seq<Op>, m: nat) {
    exists k :: SpokenAt(ops, k, m)
  }

  ghost predicate Failed(ops: seq<Op>, m: nat) {
    exists k :: FailedAt(ops, k, m)
  }

  lemma SameMoment(ops: seq<Op>, n: nat, k: int, m: nat)
    requires n <= |ops| && k < n
    ensures SpokenAt(ops[..n], k, m) <==> SpokenAt(ops, k, m)
    ensures FailedAt(ops[..n], k, m) <==> FailedAt(ops, k, m)
  {
    hide Run;
    if 0 <= k {
      assert ops[..n][..k] == ops[..k] && ops[..n][k] == ops[k];
    }
  }

  lemma OneMoreMoment(ops: seq<Op>, n: nat, m: nat)
    requires |ops| == n + 1
    ensures Spoken(ops, m) <==> Spoken(ops[..n], m) || SpokenAt(ops, n, m)
    ensures Failed(ops, m) <==> Failed(ops[..n], m) || FailedAt(ops, n, m)
  {
    forall k: int | k < n
      ensures SpokenAt(ops[..n], k, m) <==> SpokenAt(ops, k, m)
      ensures FailedAt(ops[..n], k, m) <==> FailedAt(ops, k, m)
    {
      SameMoment(ops, n, k, m);
    }
    assert forall k: int :: k >= n ==> !SpokenAt(ops[..n], k, m) && !FailedAt(ops[..n], k, m);
    assert forall k: int :: k > n ==> !SpokenAt(ops, k, m) && !FailedAt(ops, k, m);
    if k :| SpokenAt(ops, k, m) {
      assert k == n || SpokenAt(ops[..n], k, m);
    }
    if k :| FailedAt(ops, k, m) {
      assert k == n || FailedAt(ops[..n], k, m);
    }
    hide SpokenAt, FailedAt;
  }

  /**
    In every run a message gets onSuccess if and only if the engine spoke it while its activation carried
    the current operation id, and onError if and only if the engine was done with it in any other way or
    a cancel or a clear found it waiting.
   */
  lemma {:induction false} CallbacksAreRight(ops: seq<Op>, m: nat)
    ensures Success(m) in Run(ops).callbacks <==> Spoken(ops, m)
    ensures Error(m) in Run(ops).callbacks <==> Failed(ops, m)
    decreases |ops|
  {
    hide Step, Spoken, Failed;
    if ops == [] {
      NoMoments(m);
    } else {
      var n := |ops| - 1;
      assert ops == ops[..n] + [ops[n]];
      Runs.Snoc(Step, INIT, ops[..n], ops[n]);
      CallbacksAreRight(ops[..n], m);
      StepCalls(Run(ops[..n]), ops[n]);
      OneMoreMoment(ops, n, m);
    }
  }

  lemma NoMoments(m: nat)
    ensures !Spoken([], m) && !Failed([], m)
  {
  }

  function Cancels(ops: seq<Op>): nat {
    if ops == [] then 0
    else Cancels(ops[..|ops| - 1]) + if ops[|ops| - 1] == Cancel then 1 else 0
  }

  /** The operation id counts the cancels, and an activation carries the count from when it began to speak. */
  lemma {:induction false} OperationIdCountsCancels(ops: seq<Op>)
    ensures Run(ops).operationId == Cancels(ops)
    decreases |ops|
  {
    if ops == [] {
    } else {
      var n := |ops| - 1;
      assert ops == ops[..n] + [ops[n]];
      Runs.Snoc(Step, INIT, ops[..n], ops[n]);
      OperationIdCountsCancels(ops[..n]);
    }
  }

  lemma StepKeepsOps(w: World, op: Op, id: nat)
    ensures var w' := Step(w, op);
            && w.nextLoop <= w'.nextLoop
            && (id in w'.loops && id < w.nextLoop ==> id in w.loops && w'.loops[id].op == w.loops[id].op)
            && (id in w'.loops && id !in w.loops ==> id == w.nextLoop < w'.nextLoop && w'.loops[id].op == w.operationId
                                                     && w'.operationId == w.operationId)
  {
  }

  lemma {:induction false} ActivationKeepsItsOp(ops: seq<Op>, i: nat, id: nat)
    requires i <= |ops| && id in Run(ops).loops && id < Run(ops[..i]).nextLoop
    ensures id in Run(ops[..i]).loops && Run(ops).loops[id].op == Run(ops[..i]).loops[id].op
    decreases |ops| - i
  {
    hide Step;
    if i == |ops| {
      assert ops[..i] == ops;
    } else {
      Runs.Prefix(Step, INIT, ops, i);
      StepKeepsOps(Run(ops[..i]), ops[i], id);
      ActivationKeepsItsOp(ops, i + 1, id);
    }
  }

  lemma {:induction false} NoCancelBetween(ops: seq<Op>, i: nat)
    requires i <= |ops|
    ensures Cancels(ops[..i]) <= Cancels(ops)
    ensures Cancels(ops[..i]) == Cancels(ops) <==> forall j :: i <= j < |ops| ==> ops[j] != Cancel
    decreases |ops|
  {
    if i == |ops| {
      assert ops[..i] == ops;
    } else {
      var n := |ops| - 1;
      assert ops[..n][..i] == ops[..i];
      NoCancelBetween(ops[..n], i);
    }
  }

  /** An activation carries the current operation id exactly as long as no cancel has come since it began. */
  lemma CurrentIffNoCancelSince(ops: seq<Op>, i: nat, id: nat)
    requires i < |ops| && id !in Run(ops[..i]).loops && id in Run(ops[..i + 1]).loops && id in Run(ops).loops
    ensures Run(ops).loops[id].op == Run(ops).operationId <==> forall j :: i < j < |ops| ==> ops[j] != Cancel
  {
    hide Step, Cancels;
    Runs.Prefix(Step, INIT, ops, i);
    StepKeepsOps(Run(ops[..i]), ops[i], id);
    ActivationKeepsItsOp(ops, i + 1, id);
    OperationIdCountsCancels(ops[..i + 1]);
    OperationIdCountsCancels(ops);
    NoCancelBetween(ops, i + 1);
  }

  // ---------- a cancel is final ----------

  ghost predicate OnlyLaterSucceed(w: World, n: nat, from: nat) {
    && n <= |w.callbacks| && from <= w.enqueued
    && (forall i :: n <= i < |w.callbacks| && w.callbacks[i].Success? ==> from <= w.callbacks[i].message)
    && (forall m :: MaySucceed(w, m) ==> from <= m)
  }

  lemma StartAddsNone(w: World, m: nat)
    requires MaySucceed(Start(w), m) && w.nextLoop !in w.loops
    ensures MaySucceed(w, m)
  {
    var after := Start(w);
    if m !in after.queue {
      var id :| id in after.loops && Current(after, id) && after.loops[id].stage == Utterance(m);
      if id in w.loops {
        assert Current(w, id);
      }
    }
  }

  /** Only enqueueing adds to what may succeed. */
  lemma NothingElseMaySucceed(w: World, op: Op, m: nat)
    requires OneSpeaker(w) && MaySucceed(Step(w, op), m)
    ensures MaySucceed(w, m) || m == w.enqueued
  {
    var after := Step(w, op);
    match op {
      case Enqueue =>
        var queued := w.(queue := w.queue + [w.enqueued], enqueued := w.enqueued + 1);
        if w.state == Idle {
          StartAddsNone(queued, m);
        }
        SameOpMaySucceed(w, queued, m);
      case PauseOver(id) =>
        if At(w, id) == Some(Pause) && Current(w, id) {
          StartAddsNone(End(w, id), m);
          SameOpMaySucceed(w, End(w, id), m);
        } else {
          SameOpMaySucceed(w, after, m);
        }
      case Cancel =>
      case _ => SameOpMaySucceed(w, after, m);
    }
  }

  lemma SameOpMaySucceed(w: World, after: World, m: nat)
    requires MaySucceed(after, m) && after.operationId == w.operationId
    requires m in after.queue ==> m in w.queue || m == w.enqueued
    requires forall id <- after.loops :: id in w.loops && after.loops[id].op == w.loops[id].op
    requires forall id <- after.loops :: after.loops[id].stage.Utterance? ==> after.loops[id] == w.loops[id]
    ensures MaySucceed(w, m) || m == w.enqueued
  {
    if m !in after.queue {
      var id :| id in after.loops && Current(after, id) && after.loops[id].stage == Utterance(m);
      assert Current(w, id);
    }
  }

  lemma StepKeepsOnlyLater(w: World, op: Op, n: nat, from: nat)
    requires OneSpeaker(w) && OnlyLaterSucceed(w, n, from)
    ensures OnlyLaterSucceed(Step(w, op), n, from)
  {
    var after := Step(w, op);
    forall m | MaySucceed(after, m) ensures from <= m {
      NothingElseMaySucceed(w, op, m);
    }
    forall i | n <= i < |after.callbacks| && after.callbacks[i].Success? ensures from <= after.callbacks[i].message {
      NewSuccesses(w, op, i);
    }
  }

  lemma NewSuccesses(w: World, op: Op, i: nat)
    requires i < |Step(w, op).callbacks| && Step(w, op).callbacks[i].Success?
    ensures if i < |w.callbacks| then w.callbacks[i] == Step(w, op).callbacks[i]
            else MaySucceed(w, Step(w, op).callbacks[i].message)
    ensures |w.callbacks| <= |Step(w, op).callbacks| && w.enqueued <= Step(w, op).enqueued
  {
  }

  lemma {:induction false} RunKeepsOnlyLater(w: World, ops: seq<Op>, n: nat, from: nat)
    requires Inv(w) && OnlyLaterSucceed(w, n, from)
    ensures OnlyLaterSucceed(Runs.Fold(Step, w, ops), n, from)
    decreases |ops|
  {
    hide Step, OnlyLaterSucceed, EachOnce, OneSpeaker, InOrder;
    if ops == [] {
    } else {
      StepKeepsOnlyLater(w, ops[0], n, from);
      StepKeepsInv(w, ops[0]);
      RunKeepsOnlyLater(Step(w, ops[0]), ops[1..], n, from);
    }
  }

  /** Whatever happens after a cancel, no message enqueued before it succeeds any more. */
  lemma CancelIsFinal(before: seq<Op>, after: seq<Op>, i: nat)
    requires var w := Run(before);
             |w.callbacks| <= i < |Run(before + [Cancel] + after).callbacks|
             && Run(before + [Cancel] + after).callbacks[i].Success?
    ensures Run(before + [Cancel] + after).callbacks[i].message >= Run(before).enqueued
  {
    Reachable(before);
    var w := Run(before);
    var cancelled := Step(w, Cancel);
    Runs.Snoc(Step, INIT, before, Cancel);
    Runs.Concat(Step, INIT, before + [Cancel], after);
    assert forall id <- w.loops :: !Current(cancelled, id);
    assert OnlyLaterSucceed(cancelled, |w.callbacks|, w.enqueued);
    StepKeepsInv(w, Cancel);
    RunKeepsOnlyLater(cancelled, after, |w.callbacks|, w.enqueued);
  }

  // ---------- the class ----------

  /** What the error callbacks of a cancel or a clear do, one after the other; then nothing. */
  datatype Reactions = NoMore | Then(reaction: Reaction, more: Reactions)

  /** The calls of the queue that one callback makes. */
  datatype Reaction =
    | Nothing
    | AndEnqueue(rest: Reaction)
    | AndCancel(nested: Reactions, rest: Reaction)
    | AndClear(nested: Reactions, rest: Reaction)

  /** One onError after the other, in the order in which the messages waited. */
  function Errors(messages: seq<nat>): seq<Callback> {
    seq(|messages|, i requires 0 <= i < |messages| => Error(messages[i]))
  }

  class Queue {
    var queue: seq<nat>
    ghost var failing: seq<nat>
    var state: State
    var operationId: nat
    ghost var loops: map<nat, Loop>
    ghost var nextLoop: nat
    ghost var callbacks: seq<Callback>
    var enqueued: nat
    ghost var trace: seq<Op>

    ghost function Now(): World
      reads this
    {
      World(queue, failing, state, operationId, loops, nextLoop, callbacks, enqueued)
    }

    ghost predicate Valid()
      reads this
    {
      Now() == Run(trace)
    }

    constructor ()
      ensures Valid() && trace == []
    {
      queue, state, operationId := [], Idle, 0;
      failing, loops, nextLoop, callbacks, enqueued, trace := [], map[], 0, [], 0, [];
    }

    ghost method Note(before: World, op: Op)
      requires before == Run(trace) && Now() == Step(before, op)
      modifies this`trace
      ensures trace == old(trace) + [op] && Now() == Run(trace)
    {
      Runs.Snoc(Step, INIT, trace, op);
      trace := trace + [op];
    }

    /** processNext up to its first await. */
    method ProcessNext()
      modifies this`queue, this`state, this`loops, this`nextLoop
      ensures Now() == Start(old(Now()))
      ensures old(queue) == [] ==> state == Idle && queue == [] && loops == old(loops)
      ensures old(queue) != [] ==>
                && state == Speaking && queue == old(queue)[1..]
                && loops == old(loops)[old(nextLoop) := Loop(operationId, Utterance(old(queue)[0]))]
    {
      var currentOp := operationId;
      if |queue| == 0 {
        state := Idle;
        return;
      }
      state := Speaking;
      var message := queue[0];
      queue := queue[1..];
      loops, nextLoop := loops[nextLoop := Loop(currentOp, Utterance(message))], nextLoop + 1;
    }

    method Enqueue(message: nat)
      requires Valid() && message == enqueued
      modifies this
      ensures Valid() && trace == old(trace) + [Op.Enqueue]
      ensures failing == old(failing) && callbacks == old(callbacks) && operationId == old(operationId)
      ensures state == Speaking
      ensures old(state) == Speaking ==> queue == old(queue) + [message] && loops == old(loops)
      ensures old(state) == Idle ==>
                && queue == (old(queue) + [message])[1..]
                && loops == old(loops)[old(nextLoop) := Loop(operationId, Utterance((old(queue) + [message])[0]))]
    {
      ghost var before := Now();
      queue := queue + [message];
      enqueued := enqueued + 1;
      if state == Idle {
        ProcessNext();
      }
      Note(before, Op.Enqueue);
    }

    /** The utterance of an activation that began with `currentOp` is over; says whether it goes on. */
    method SpeechSettled(ghost id: nat, currentOp: nat, message: nat, ok: bool) returns (goesOn: bool)
      requires Valid() && id in loops && loops[id] == Loop(currentOp, Utterance(message))
      modifies this`callbacks, this`loops, this`trace
      ensures Valid() && trace == old(trace) + [Settle(id, ok)]
      ensures goesOn ==> id in loops && loops[id] == Loop(currentOp, AfterCallback)
      ensures !goesOn ==> id !in loops
      ensures callbacks ==
              old(callbacks) + [if ok && operationId == currentOp then Success(message) else Error(message)]
      ensures goesOn <==> !ok || operationId == currentOp
    {
      ghost var before := Now();
      if ok {
        if operationId != currentOp {
          callbacks := callbacks + [Error(message)];
          loops := loops - {id};
          Note(before, Settle(id, ok));
          return false;
        }
        callbacks := callbacks + [Success(message)];
      } else {
        callbacks := callbacks + [Error(message)];
      }
      loops := loops[id := Loop(currentOp, AfterCallback)];
      Note(before, Settle(id, ok));
      goesOn := true;
    }

    method CheckCancelled(ghost id: nat, currentOp: nat) returns (goesOn: bool)
      requires Valid() && id in loops && loops[id] == Loop(currentOp, AfterCallback)
      modifies this`loops, this`trace
      ensures Valid() && trace == old(trace) + [Check(id)]
      ensures goesOn ==> id in loops && loops[id] == Loop(currentOp, Pause)
      ensures !goesOn ==> id !in loops
      ensures goesOn <==> operationId == currentOp
    {
      ghost var before := Now();
      goesOn := operationId == currentOp;
      loops := if goesOn then loops[id := Loop(currentOp, Pause)] else loops - {id};
      Note(before, Check(id));
    }

    method PauseEnded(ghost id: nat, currentOp: nat)
      requires Valid() && id in loops && loops[id] == Loop(currentOp, Pause)
      modifies this
      ensures Valid() && trace == old(trace) + [PauseOver(id)]
      ensures operationId == currentOp && old(queue) != [] ==>
                && state == Speaking && queue == old(queue)[1..]
                && loops == (old(loops) - {id})[old(nextLoop) := Loop(currentOp, Utterance(old(queue)[0]))]
      ensures operationId == currentOp && old(queue) == [] ==> state == Idle && loops == old(loops) - {id}
      ensures operationId != currentOp ==> state == old(state) && queue == old(queue) && loops == old(loops) - {id}
    {
      ghost var before := Now();
      loops := loops - {id};
      if operationId == currentOp {
        ProcessNext();
      }
      Note(before, PauseOver(id));
    }

    /** cancel; `reactions` says what each error callback does. */
    method Cancel(reactions: Reactions)
      requires Valid()
      modifies this
      ensures Valid() && failing == old(failing) && old(trace) <= trace
      ensures |trace| > |old(trace)| && trace[|old(trace)|] == Op.Cancel
      ensures old(callbacks) <= callbacks && forall m <- old(queue) :: Error(m) in callbacks
      ensures reactions == NoMore ==>
                && queue == [] && state == Idle && operationId == old(operationId) + 1 && loops == old(loops)
                && callbacks == old(callbacks) + Errors(old(queue))
      decreases reactions, 1
    {
      ghost var before := Now();
      operationId := operationId + 1;
      var remaining := queue;
      queue := [];
      state := Idle;
      failing := remaining + failing;
      Note(before, Op.Cancel);
      FailAll(remaining, reactions);
    }

    method Clear(reactions: Reactions)
      requires Valid()
      modifies this
      ensures Valid() && failing == old(failing) && old(trace) <= trace
      ensures |trace| > |old(trace)| && trace[|old(trace)|] == Op.Clear
      ensures old(callbacks) <= callbacks && forall m <- old(queue) :: Error(m) in callbacks
      ensures reactions == NoMore ==>
                && queue == [] && state == old(state) && operationId == old(operationId) && loops == old(loops)
                && callbacks == old(callbacks) + Errors(old(queue))
      decreases reactions, 1
    {
      ghost var before := Now();
      var remaining := queue;
      queue := [];
      failing := remaining + failing;
      Note(before, Op.Clear);
      FailAll(remaining, reactions);
    }

    /** The loop over the remaining messages, each callback free to call the queue before the next. */
    method FailAll(remaining: seq<nat>, reactions: Reactions)
      requires Valid() && remaining <= failing
      modifies this
      ensures Valid() && failing == old(failing)[|remaining|..] && old(trace) <= trace
      ensures old(callbacks) <= callbacks && forall m <- remaining :: Error(m) in callbacks
      ensures reactions == NoMore ==>
                && queue == old(queue) && state == old(state) && operationId == old(operationId) && loops == old(loops)
                && callbacks == old(callbacks) + Errors(remaining)
      decreases reactions, 0, |remaining|
    {
      if remaining == [] {
        return;
      }
      ghost var before := Now();
      callbacks := callbacks + [Error(remaining[0])];
      assert Error(remaining[0]) in callbacks;
      failing := failing[1..];
      Note(before, FailNext);
      match reactions {
        case NoMore =>
          assert Errors(remaining) == [Error(remaining[0])] + Errors(remaining[1..]);
          FailAll(remaining[1..], reactions);
        case Then(reaction, more) =>
          Perform(reaction);
          FailAll(remaining[1..], more);
      }
    }

    /** What a callback does: any calls of the queue, one after the other. */
    method Perform(reactions: Reaction)
      requires Valid()
      modifies this
      ensures Valid() && failing == old(failing) && old(trace) <= trace && old(callbacks) <= callbacks
      decreases reactions, 2
    {
      match reactions {
        case Nothing =>
        case AndEnqueue(rest) =>
          Enqueue(enqueued);
          Perform(rest);
        case AndCancel(nested, rest) =>
          Cancel(nested);
          Perform(rest);
        case AndClear(nested, rest) =>
          Clear(nested);
          Perform(rest);
      }
    }
  }
}
