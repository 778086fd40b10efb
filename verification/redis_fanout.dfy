/** The subscriber of module_redis.go: messages of a channel fan out to the functions registered for it. */
module RedisFanOut {
  type Function = nat
  type Message = string

  /** pubSubEvent, but for its state, which is the PubSub event of the loop. */
  datatype Delivery = Delivery(func: Function, argument: Message)

  /** What can happen to a subscriber: each takes the lock for as long as it lasts. */
  datatype Op = Append(fn: Function) | Arrive(msg: Message)

  /** The functions registered when the first `k` things have happened. */
  function Registered(first: seq<Function>, ops: seq<Op>, k: nat): seq<Function>
    requires k <= |ops|
  {
    if k == 0 then first
    else Registered(first, ops, k - 1) + (match ops[k - 1] case Append(fn) => [fn] case Arrive(_) => [])
  }

  function Deliveries(fns: seq<Function>, msg: Message): (ds: seq<Delivery>)
    ensures |ds| == |fns| && forall i :: 0 <= i < |fns| ==> ds[i] == Delivery(fns[i], msg)
  {
    seq(|fns|, i requires 0 <= i < |fns| => Delivery(fns[i], msg))
  }

  /** Message by message, a delivery to each function that is registered when the message comes. */
  function FanOut(first: seq<Function>, ops: seq<Op>, k: nat): seq<Delivery>
    requires k <= |ops|
  {
    if k == 0 then []
    else
      FanOut(first, ops, k - 1) +
      match ops[k - 1]
      case Append(_) => []
      case Arrive(msg) => Deliveries(Registered(first, ops, k - 1), msg)
  }

  class Subscriber {
    var functions: seq<Function>
    var eventQueue: seq<Delivery>      // what has been sent on the runtime's channel

    constructor (fn: Function)
      ensures functions == [fn] && eventQueue == []
    {
      functions, eventQueue := [fn], [];
    }

    method Append(fn: Function)
      modifies this
      ensures functions == old(functions) + [fn] && eventQueue == old(eventQueue)
    {
      functions := functions + [fn];
    }

    method Deliver(msg: Message)
      modifies this
      ensures functions == old(functions) && eventQueue == old(eventQueue) + Deliveries(functions, msg)
    {
      for i := 0 to |functions|
        invariant functions == old(functions)
        invariant eventQueue == old(eventQueue) + Deliveries(functions, msg)[..i]
      {
        eventQueue := eventQueue + [Delivery(functions[i], msg)];
      }
    }

    /** Startup beside calls of Append, in any order. */
    method Startup(ops: seq<Op>)
      modifies this
      ensures functions == Registered(old(functions), ops, |ops|)
      ensures eventQueue == old(eventQueue) + FanOut(old(functions), ops, |ops|)
    {
      for k := 0 to |ops|
        invariant functions == Registered(old(functions), ops, k)
        invariant eventQueue == old(eventQueue) + FanOut(old(functions), ops, k)
      {
        match ops[k]
        case Append(fn) => Append(fn);
        case Arrive(msg) => Deliver(msg);
      }
    }
  }

  /** Registration only ever adds at the end. */
  lemma {:induction false} RegisteredGrows(first: seq<Function>, ops: seq<Op>, j: nat, k: nat)
    requires j <= k <= |ops|
    ensures Registered(first, ops, j) <= Registered(first, ops, k)
    decreases k
  {
    if j < k {
      RegisteredGrows(first, ops, j, k - 1);
    }
  }

  /** How many functions have been appended when the first `k` things have happened. */
  function Appends(ops: seq<Op>, k: nat): nat
    requires k <= |ops|
  {
    if k == 0 then 0 else Appends(ops, k - 1) + if ops[k - 1].Append? then 1 else 0
  }

  /** The functions registered are those of the start and then the appended ones, each in its place. */
  lemma {:induction false} RegisteredIs(first: seq<Function>, ops: seq<Op>, k: nat)
    requires k <= |ops|
    ensures var fns := Registered(first, ops, k);
            && first <= fns && |fns| == |first| + Appends(ops, k)
            && forall j :: 0 <= j < k && ops[j].Append? ==>
                 Appends(ops, j) < Appends(ops, k) && fns[|first| + Appends(ops, j)] == ops[j].fn
  {
    if k > 0 {
      RegisteredIs(first, ops, k - 1);
    }
  }

  /** What has been sent stays sent, and later messages are sent behind it. */
  lemma {:induction false} FanOutGrows(first: seq<Function>, ops: seq<Op>, j: nat, k: nat)
    requires j <= k <= |ops|
    ensures FanOut(first, ops, j) <= FanOut(first, ops, k)
    decreases k
  {
    if j < k {
      FanOutGrows(first, ops, j, k - 1);
    }
  }

  function Times(ds: seq<Delivery>, d: Delivery): nat {
    multiset(ds)[d]
  }

  /** How often a function is registered when the first `k` things have happened. */
  function Registrations(first: seq<Function>, ops: seq<Op>, k: nat, fn: Function): nat
    requires k <= |ops|
  {
    multiset(Registered(first, ops, k))[fn]
  }

  /** Over the messages that are `d.argument`, how often `d.func` was registered when they came. */
  function Due(first: seq<Function>, ops: seq<Op>, k: nat, d: Delivery): nat
    requires k <= |ops|
  {
    if k == 0 then 0
    else
      Due(first, ops, k - 1, d) +
      if ops[k - 1] == Arrive(d.argument) then Registrations(first, ops, k - 1, d.func) else 0
  }

  /** Each message is delivered exactly once for each registration that precedes it, and for no other. */
  lemma {:induction false} ExactlyTheDueDeliveries(first: seq<Function>, ops: seq<Op>, k: nat, d: Delivery)
    requires k <= |ops|
    ensures Times(FanOut(first, ops, k), d) == Due(first, ops, k, d)
  {
    if k > 0 {
      ExactlyTheDueDeliveries(first, ops, k - 1, d);
      var before, fns := FanOut(first, ops, k - 1), Registered(first, ops, k - 1);
      var more := match ops[k - 1] case Append(_) => [] case Arrive(msg) => Deliveries(fns, msg);
      assert FanOut(first, ops, k) == before + more;
      hide FanOut, Registered;
      BagAdds(before, more, d);
      if ops[k - 1].Arrive? {
        DeliveriesBag(fns, ops[k - 1].msg, d);
      }
    }
  }

  lemma BagAdds(a: seq<Delivery>, b: seq<Delivery>, d: Delivery)
    ensures Times(a + b, d) == Times(a, d) + Times(b, d)
  {
  }

  lemma {:induction false} DeliveriesBag(fns: seq<Function>, msg: Message, d: Delivery)
    ensures Times(Deliveries(fns, msg), d) == if msg == d.argument then multiset(fns)[d.func] else 0
  {
    hide Deliveries, Times;
    if fns != [] {
      var one, rest := [Delivery(fns[0], msg)], Deliveries(fns[1..], msg);
      DeliveriesBag(fns[1..], msg, d);
      assert Deliveries(fns, msg) == one + rest;
      BagAdds(one, rest, d);
      BagSplits(fns, d.func);
      OneInBag(one[0], d);
    } else {
      NoneInBag(d);
      assert Deliveries(fns, msg) == [];
    }
  }

  lemma BagSplits(fns: seq<Function>, fn: Function)
    requires fns != []
    ensures multiset(fns)[fn] == (if fns[0] == fn then 1 else 0) + multiset(fns[1..])[fn]
  {
    assert fns == [fns[0]] + fns[1..];
  }

  lemma NoneInBag(d: Delivery)
    ensures Times([], d) == 0
  {
  }

  lemma OneInBag(e: Delivery, d: Delivery)
    ensures Times([e], d) == if e == d then 1 else 0
  {
  }
}
