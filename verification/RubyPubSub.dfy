/**
 The Ruby PubSub object: two maps, and per session one callbacks array that the subscription entry and the running
 listener share. Calls are sequential here; blocks are represented by numbers.
 */
module RubyPubSub {
  /** The shared `Concurrent::Array`. */
  class Callbacks {
    ghost const session: string            // the entry it was made for
    var blocks: seq<nat>

    constructor (ghost session: string)
      ensures blocks == [] && this.session == session
    {
      this.session, blocks := session, [];
    }
  }

  class Listener {
    const session: string
    const callbacks: Callbacks
    var running: bool

    constructor (session: string, callbacks: Callbacks)
      ensures this.session == session && this.callbacks == callbacks && !running
    {
      this.session, this.callbacks, running := session, callbacks, false;
    }

    method Start()
      modifies this
      ensures running
    {
      running := true;
    }

    method Halt()
      modifies this
      ensures !running
    {
      running := false;
    }
  }

  // ---- What a sequence of calls amounts to, without any objects ----

  /** For each session with an entry, the blocks subscribed since the entry was made; and the sessions listened to. */
  datatype View = View(blocks: map<string, seq<nat>>, listening: set<string>)

  datatype Op = Subscribe(session: string, block: nat) | Unsubscribe(session: string) | Shutdown

  const NOBODY := View(map[], {})

  function BlocksOf(v: View, session: string): seq<nat> {
    if session in v.blocks then v.blocks[session] else []
  }

  function Apply(v: View, op: Op): View {
    match op
    case Subscribe(s, b) => View(v.blocks[s := BlocksOf(v, s) + [b]], v.listening + {s})
    case Unsubscribe(s) => View(v.blocks - {s}, v.listening - {s})
    case Shutdown => v.(listening := {})
  }

  function ApplyAll(ops: seq<Op>): View {
    if ops == [] then NOBODY else Apply(ApplyAll(ops[..|ops| - 1]), ops[|ops| - 1])
  }

  /** The blocks given to `subscribe` for the session since the last `unsubscribe` of it, in call order. */
  function Since(ops: seq<Op>, session: string): seq<nat> {
    if ops == [] then []
    else
      var front, op := ops[..|ops| - 1], ops[|ops| - 1];
      if op == Unsubscribe(session) then []
      else if op.Subscribe? && op.session == session then Since(front, session) + [op.block]
      else Since(front, session)
  }

  /** A running listener calls exactly the blocks subscribed since the last unsubscribe, the ones added while it was
      already running included, and blocks survive a shutdown until then. */
  lemma {:induction false} ListenersSeeAllBlocks(ops: seq<Op>, session: string)
    ensures BlocksOf(ApplyAll(ops), session) == Since(ops, session)
    ensures session in ApplyAll(ops).listening ==> session in ApplyAll(ops).blocks && Since(ops, session) != []
  {
    if ops == [] {
    } else {
      ListenersSeeAllBlocks(ops[..|ops| - 1], session);
    }
  }

  /** The k-th call subscribed the session and none since has ended that. */
  ghost predicate LastsFrom(ops: seq<Op>, session: string, k: int, shutdownEnds: bool) {
    && 0 <= k < |ops| && ops[k].Subscribe? && ops[k].session == session
    && forall m :: k < m < |ops| ==> ops[m] != Unsubscribe(session) && (shutdownEnds ==> ops[m] != Shutdown)
  }

  lemma LastsLonger(ops: seq<Op>, session: string, k: int, shutdownEnds: bool)
    requires ops != [] && 0 <= k < |ops| - 1
    ensures LastsFrom(ops, session, k, shutdownEnds) <==>
            && LastsFrom(ops[..|ops| - 1], session, k, shutdownEnds)
            && ops[|ops| - 1] != Unsubscribe(session) && (shutdownEnds ==> ops[|ops| - 1] != Shutdown)
  {
    var n := |ops| - 1;
    assert forall m :: 0 <= m < n ==> ops[..n][m] == ops[m];
    if LastsFrom(ops, session, k, shutdownEnds) {
      assert ops[n] != Unsubscribe(session);
    }
  }

  /** A session is listened to if and only if some call subscribed it and no later call unsubscribed it or shut down; it
      has an entry if and only if some call subscribed it and no later call unsubscribed it. Calls about other sessions
      do not matter. */
  lemma {:induction false} ListenedToIff(ops: seq<Op>, session: string)
    ensures session in ApplyAll(ops).listening <==> exists k :: LastsFrom(ops, session, k, true)
    ensures session in ApplyAll(ops).blocks <==> exists k :: LastsFrom(ops, session, k, false)
  {
    if ops == [] {
    } else {
      var n := |ops| - 1;
      ListenedToIff(ops[..n], session);
      StepOfCondition(ops, session, true);
      StepOfCondition(ops, session, false);
    }
  }

  /** The condition holds now if the last call subscribed the session, or it held before and the call did not end it. */
  lemma StepOfCondition(ops: seq<Op>, session: string, shutdownEnds: bool)
    requires ops != []
    ensures var n := |ops| - 1;
            (exists k :: LastsFrom(ops, session, k, shutdownEnds)) <==>
              || (ops[n].Subscribe? && ops[n].session == session)
              || ((exists k :: LastsFrom(ops[..n], session, k, shutdownEnds))
                  && ops[n] != Unsubscribe(session) && (shutdownEnds ==> ops[n] != Shutdown))
  {
    var n := |ops| - 1;
    if k :| LastsFrom(ops, session, k, shutdownEnds) {
      if k < n {
        LastsLonger(ops, session, k, shutdownEnds);
      }
    }
    if ops[n].Subscribe? && ops[n].session == session {
      assert LastsFrom(ops, session, n, shutdownEnds);
    }
    if k :| LastsFrom(ops[..n], session, k, shutdownEnds) {
      LastsLonger(ops, session, k, shutdownEnds);
    }
  }

  class PubSub {
    var subscriptions: map<string, Callbacks>
    var listeners: map<string, Listener>
    ghost var arrays: set<Callbacks>
    ghost var tasks: set<Listener>
    ghost var view: View

    /** An array belongs to one entry and a listener to one key, so no two entries share either. */
    ghost predicate Owned()
      reads this
    {
      && (forall s :: s in subscriptions ==> subscriptions[s] in arrays && subscriptions[s].session == s)
      && (forall s :: s in listeners ==> listeners[s] in tasks && listeners[s].session == s && s in subscriptions)
    }

    /** Every listener runs, and holds the very array of its session's entry. */
    ghost predicate Shared()
      reads this, tasks
      requires Owned()
    {
      forall s :: s in listeners ==> listeners[s].callbacks == subscriptions[s] && listeners[s].running
    }

    ghost predicate Viewed()
      reads this, arrays
      requires Owned()
    {
      && view.blocks.Keys == subscriptions.Keys && view.listening == listeners.Keys
      && forall s :: s in subscriptions ==> subscriptions[s].blocks == view.blocks[s]
    }

    ghost predicate Valid()
      reads this, arrays, tasks
    {
      Owned() && Shared() && Viewed()
    }

    constructor ()
      ensures Valid() && view == NOBODY && arrays == {} && tasks == {}
    {
      subscriptions, listeners := map[], map[];
      arrays, tasks, view := {}, {}, NOBODY;
    }

    /** `subscribe`: get or create the array, push the block, make sure there is a listener. */
    method Subscribe(session: string, block: nat)
      requires Valid()
      modifies this, arrays
      ensures Valid() && view == Apply(old(view), Op.Subscribe(session, block))
      ensures session in listeners && listeners[session].callbacks.blocks == BlocksOf(old(view), session) + [block]
      ensures session in old(listeners) ==> listeners[session] == old(listeners[session])
      ensures fresh(arrays - old(arrays)) && fresh(tasks - old(tasks))
      // no other session is touched
      ensures forall s :: s in old(subscriptions) && s != session ==>
                s in subscriptions && subscriptions[s] == old(subscriptions)[s]
                && subscriptions[s].blocks == old(subscriptions[s].blocks)
      ensures forall s :: s in old(listeners) ==> s in listeners && listeners[s] == old(listeners)[s]
    {
      var callbacks := GetOrCreate(session);
      Push(session, callbacks, block);
      EnsureListenerFor(session);
    }

    /** `callbacks << block`: whoever holds the array sees the block. */
    method Push(session: string, callbacks: Callbacks, block: nat)
      requires Valid() && session in subscriptions && callbacks == subscriptions[session]
      modifies `view, callbacks
      ensures Valid() && callbacks.blocks == old(callbacks.blocks) + [block]
      ensures view == old(view).(blocks := old(view).blocks[session := callbacks.blocks])
      ensures forall s :: s in subscriptions && s != session ==> subscriptions[s].blocks == old(subscriptions[s].blocks)
    {
      callbacks.blocks := callbacks.blocks + [block];
      view := view.(blocks := view.blocks[session := callbacks.blocks]);
    }

    /** `@subscriptions.compute_if_absent(session_id) { Concurrent::Array.new }` */
    method GetOrCreate(session: string) returns (callbacks: Callbacks)
      requires Valid()
      modifies this
      ensures Valid() && session in subscriptions && callbacks == subscriptions[session]
      ensures listeners == old(listeners) && tasks == old(tasks) && fresh(arrays - old(arrays)) && old(arrays) <= arrays
      ensures view == if session in old(view.blocks) then old(view)
                      else old(view).(blocks := old(view.blocks)[session := []])
      ensures forall s :: s in old(subscriptions) ==> s in subscriptions && subscriptions[s] == old(subscriptions)[s]
    {
      if session !in subscriptions {
        Create(session);
      }
      callbacks := subscriptions[session];
    }

    method Create(session: string)
      requires Valid() && session !in subscriptions
      modifies this
      ensures Valid() && session in subscriptions && fresh(arrays - old(arrays)) && old(arrays) <= arrays
      ensures listeners == old(listeners) && tasks == old(tasks)
      ensures view == old(view).(blocks := old(view.blocks)[session := []])
      ensures subscriptions == old(subscriptions)[session := subscriptions[session]]
    {
      var created := new Callbacks(session);
      subscriptions := subscriptions[session := created];
      arrays := arrays + {created};
      view := view.(blocks := view.blocks[session := []]);
    }

    /** `@listeners.compute_if_absent(session_id)`: create and start at most one listener. */
    method EnsureListenerFor(session: string)
      requires Valid() && session in subscriptions
      modifies this
      ensures Valid() && session in listeners && view == old(view).(listening := old(view.listening) + {session})
      ensures session in old(listeners) ==> listeners == old(listeners)
      ensures subscriptions == old(subscriptions) && arrays == old(arrays) && fresh(tasks - old(tasks))
      ensures forall s :: s in old(listeners) ==> s in listeners && listeners[s] == old(listeners)[s]
    {
      if session !in listeners {
        var listener := new Listener(session, subscriptions[session]);
        listener.Start();
        listeners := listeners[session := listener];
        tasks := tasks + {listener};
      }
      view := view.(listening := view.listening + {session});
    }

    /** `unsubscribe`: drop the entry, then stop and drop the listener. */
    method Unsubscribe(session: string)
      requires Valid()
      modifies this, tasks
      ensures Valid() && view == Apply(old(view), Op.Unsubscribe(session))
      ensures session in old(listeners) ==> !old(listeners)[session].running
      ensures arrays == old(arrays) && tasks == old(tasks)
      // no other session is touched: the arrays are not modified, and the other listeners run on
      ensures subscriptions == old(subscriptions) - {session} && listeners == old(listeners) - {session}
    {
      subscriptions := subscriptions - {session};
      StopListenerFor(session);
      view := View(view.blocks - {session}, view.listening - {session});
    }

    /** `stop_listener_for`: no other listener is touched. */
    method StopListenerFor(session: string)
      modifies `listeners, if session in listeners then {listeners[session]} else {}
      ensures listeners == old(listeners) - {session}
      ensures session in old(listeners) ==> !old(listeners)[session].running
    {
      if session in listeners {
        var listener := listeners[session];
        listeners := listeners - {session};
        listener.Halt();
      }
    }

    /** `shutdown`: stop every listener; the entries stay. */
    method ShutdownAll()
      requires Valid()
      modifies this, tasks
      ensures Valid() && view == Apply(old(view), Op.Shutdown)
      ensures forall s :: s in old(listeners) ==> !old(listeners)[s].running
      ensures listeners == map[]
      ensures arrays == old(arrays) && tasks == old(tasks) && subscriptions == old(subscriptions)
    {
      HaltAll();
      listeners := map[];
      view := view.(listening := {});
    }

    method HaltAll()
      requires forall s :: s in listeners ==> listeners[s] in tasks
      modifies tasks
      ensures forall s :: s in listeners ==> !listeners[s].running
    {
      var todo := listeners.Keys;
      while todo != {}
        invariant todo <= listeners.Keys
        invariant forall s :: s in listeners && s !in todo ==> !listeners[s].running
        decreases todo
      {
        var s :| s in todo;
        listeners[s].Halt();
        todo := todo - {s};
      }
    }
  }

  /** Any sequential run of the three calls leaves the object in the state the calls denote: each listener holds an
      array with exactly the blocks subscribed for its session since the last unsubscribe. */
  method Replay(ops: seq<Op>) returns (p: PubSub)
    ensures p.Valid() && p.view == ApplyAll(ops)
    ensures forall s :: s in p.listeners ==> p.listeners[s].callbacks.blocks == Since(ops, s)
  {
    p := new PubSub();
    var i := 0;
    while i < |ops|
      invariant 0 <= i <= |ops| && p.Valid() && p.view == ApplyAll(ops[..i])
      invariant fresh(p) && fresh(p.arrays) && fresh(p.tasks)
    {
      match ops[i] {
        case Subscribe(s, b) => p.Subscribe(s, b);
        case Unsubscribe(s) => p.Unsubscribe(s);
        case Shutdown => p.ShutdownAll();
      }
      assert ops[..i + 1][..i] == ops[..i];
      i := i + 1;
    }
    assert ops[..|ops|] == ops;
    forall s | s in p.listeners ensures p.listeners[s].callbacks.blocks == Since(ops, s) {
      ListenersSeeAllBlocks(ops, s);
    }
  }
}
