/**
 * The broker bridge of `src/lib/mqtt.ts`: one shared client, a reconnect
 * counter capped at five, and a registry from topic name to callbacks.
 *
 * The broker and its timers are outside the model. Each thing the broker can
 * do to a client (acknowledge a connection, report an error, close it,
 * deliver a message) is a method call, and every call the dashboard makes to
 * the broker is appended to the ghost `log`. The first event that answers a
 * new connection is an argument of the call that opens it, because the
 * promise of `connectToMqtt` is settled by that event.
 */
module Mqtt {
  import opened Common
  import opened Entities
  import opened Staging
  import opened OrderProcessor

  const MaxReconnectAttempts: nat := 5
  /** Milliseconds after which an unconnected client is ended. */
  const ConnectTimeoutMs: nat := 5000
  /** Quality of service of every broker subscription. */
  const SubscribeQos: nat := 1

  /** The keys of `MQTT_TOPICS`. */
  datatype Topic = MenuCategory | MenuItems | Orders

  function TopicName(t: Topic): string
  {
    match t
    case MenuCategory => "menu/category"
    case MenuItems => "menu/update"
    case Orders => "menu/order"
  }

  /** What the dashboard and the kiosks exchange, before JSON encoding. */
  datatype Message =
    | CategoryList(categories: seq<Category>)
    | ItemList(items: seq<MenuItem>)
    | OrderMessage(order: OrderEvent)

  /** A payload on the wire: the JSON text of a message, or text that does not parse. */
  datatype Payload = Json(msg: Message) | Garbled

  /** `JSON.stringify` of a message. */
  function Stringify(m: Message): Payload
  {
    Json(m)
  }

  /** `JSON.parse` of a payload; `None` is the exception it throws. */
  function Parse(p: Payload): (r: Option<Message>)
    ensures r.Some? <==> p.Json?
  {
    if p.Json? then Some(p.msg) else None
  }

  lemma ParseStringify(m: Message)
    ensures Parse(Stringify(m)) == Some(m)
  {
  }

  /** A call from the dashboard to the broker; clients are numbered in creation order. */
  datatype BrokerCall =
    | Connect(client: nat)
    | End(client: nat)
    | Subscribe(client: nat, topic: string, qos: nat)
    | Publish(client: nat, topic: string, payload: Payload)

  /** How many broker subscriptions to `name` the log holds. */
  function SubscribeCount(log: seq<BrokerCall>, name: string): nat
  {
    if log == [] then 0
    else
      var c := log[|log| - 1];
      SubscribeCount(log[..|log| - 1], name) + (if c.Subscribe? && c.topic == name then 1 else 0)
  }

  lemma SubscribeCountAppend(log: seq<BrokerCall>, c: BrokerCall)
    ensures forall name :: (SubscribeCount(log + [c], name) ==
      SubscribeCount(log, name) + (if c.Subscribe? && c.topic == name then 1 else 0))
  {
    assert (log + [c])[..|log|] == log;
  }

  /** `Registered` is the entry made for a new name followed by the `add`. */
  lemma RegisteredSteps(subs: map<string, set<nat>>, name: string, callback: nat)
    ensures var made := if name in subs then subs else subs[name := {}];
      made[name := made[name] + {callback}] == Registered(subs, name, callback)
  {
  }

  /** Registering a callback keeps one broker subscription per registered name. */
  lemma RegisterCounts(log: seq<BrokerCall>, subs: map<string, set<nat>>, c: nat, name: string, callback: nat)
    requires forall n :: SubscribeCount(log, n) == if n in subs then 1 else 0
    ensures var log' := log + (if name in subs then [] else [Subscribe(c, name, SubscribeQos)]);
      forall n :: SubscribeCount(log', n) == if n in Registered(subs, name, callback) then 1 else 0
  {
    if name !in subs {
      SubscribeCountAppend(log, Subscribe(c, name, SubscribeQos));
    } else {
      assert log + [] == log;
    }
  }

  /**
   * One client object: whether it is connected, whether `end(true)` was called
   * on it, and how many `message` listeners are attached to it.
   */
  datatype Conn = Conn(connected: bool, ended: bool, listeners: nat)

  /** The event that answers a new connection first. */
  datatype FirstEvent = ConnAck | ConnError | ConnTimeout

  /** How the promise of `connectToMqtt` settles; `Pending` never settles. */
  datatype Settled = Resolved(client: nat) | Rejected | Pending

  /** How an awaited bridge operation ends. */
  datatype Completion = Done | Errored | Hangs

  /** The closure returned by `subscribeToTopic`. */
  datatype Unsubscriber = Unsubscriber(topic: string, callback: nat)

  datatype Subscription = Subscribed(unsubscribe: Unsubscriber) | NotSubscribed(how: Completion)

  function Ended(c: Conn): Conn
  {
    c.(connected := false, ended := true)
  }

  /** The state of a new client right after its first event. */
  function Opened(first: FirstEvent): Conn
  {
    match first
    case ConnAck => Conn(true, false, 0)
    case ConnError => Conn(false, false, 0)
    case ConnTimeout => Conn(false, true, 0)
  }

  /** The settlement the first event gives the promise of a new client `n`. */
  function Settlement(first: FirstEvent, n: nat): (s: Settled)
    ensures s.Resolved? <==> first == ConnAck
    ensures s.Rejected? <==> first == ConnError
    ensures s.Resolved? ==> s.client == n
  {
    match first
    case ConnAck => Resolved(n)
    case ConnError => Rejected
    case ConnTimeout => Pending
  }

  /** The registry after `callback` is added under `name`, creating the entry if needed. */
  function Registered(subs: map<string, set<nat>>, name: string, callback: nat): (r: map<string, set<nat>>)
    ensures r.Keys == subs.Keys + {name}
    ensures callback in r[name]
    ensures forall n :: n in subs && n != name ==> r[n] == subs[n]
  {
    subs[name := (if name in subs then subs[name] else {}) + {callback}]
  }

  /** The broker calls that retire the previous client, if there is one. */
  function Retire(cur: Option<nat>): seq<BrokerCall>
  {
    if cur.Some? then [End(cur.value)] else []
  }

  /**
   * The broker calls of opening a new client `n` when the shared client is
   * not connected: the stale client is ended, `n` connects, and a timeout
   * ends `n` again.
   */
  function ConnectCalls(cur: Option<nat>, n: nat, first: FirstEvent): seq<BrokerCall>
  {
    Retire(cur) + [Connect(n)] + (if first == ConnTimeout then [End(n)] else [])
  }

  /**
   * The counter after a `close` event and whether the handler ends the
   * current client: below the cap it counts up, at the cap it ends instead.
   */
  function CloseStep(attempts: nat): (r: (nat, bool))
    ensures r.1 <==> attempts >= MaxReconnectAttempts
    ensures !r.1 ==> r.0 == attempts + 1
    ensures r.1 ==> r.0 == attempts
    ensures attempts <= MaxReconnectAttempts ==> r.0 <= MaxReconnectAttempts
  {
    if attempts >= MaxReconnectAttempts then (attempts, true) else (attempts + 1, false)
  }

  /** The counter after `k` consecutive `close` events with no `connect` between them. */
  function AfterCloses(attempts: nat, k: nat): nat
  {
    if k == 0 then attempts else CloseStep(AfterCloses(attempts, k - 1)).0
  }

  /** Consecutive closes count up to the cap and then stay there. */
  lemma {:induction false} ClosesSaturate(attempts: nat, k: nat)
    requires attempts <= MaxReconnectAttempts
    ensures AfterCloses(attempts, k) ==
      if attempts + k <= MaxReconnectAttempts then attempts + k else MaxReconnectAttempts
  {
    if k > 0 {
      ClosesSaturate(attempts, k - 1);
    }
  }

  /**
   * From a fresh counter, a close ends the client exactly when five closes
   * came before it: the sixth consecutive close is the first that does.
   */
  lemma SixthCloseEnds(k: nat)
    ensures CloseStep(AfterCloses(0, k)).1 <==> k >= MaxReconnectAttempts
  {
    ClosesSaturate(0, k);
  }

  class MqttBridge {
    var mqttClient: Option<nat>
    var clients: seq<Conn>
    var reconnectAttempts: nat
    var subscriptions: map<string, set<nat>>
    var isInitialized: bool
    /** The callbacks created by `subscribeToOrders`, and the next callback identity. */
    var orderCallbacks: set<nat>
    var nextCallback: nat
    ghost var log: seq<BrokerCall>

    ghost predicate Valid()
      reads this
    {
      reconnectAttempts <= MaxReconnectAttempts &&
      (mqttClient.Some? ==> mqttClient.value < |clients|) &&
      (forall cb :: cb in orderCallbacks ==> cb < nextCallback) &&
      (forall name :: SubscribeCount(log, name) == if name in subscriptions then 1 else 0)
    }

    /** Whether the shared client exists and is connected. */
    predicate Live()
      reads this
    {
      mqttClient.Some? && mqttClient.value < |clients| && clients[mqttClient.value].connected
    }

    constructor ()
      ensures Valid()
      ensures mqttClient == None && clients == [] && reconnectAttempts == 0
      ensures subscriptions == map[] && !isInitialized && log == []
      ensures orderCallbacks == {} && nextCallback == 0
    {
      mqttClient := None;
      clients := [];
      reconnectAttempts := 0;
      subscriptions := map[];
      isInitialized := false;
      orderCallbacks := {};
      nextCallback := 0;
      log := [];
    }

    /**
     * `connectToMqtt`: a connected shared client is reused; otherwise any stale
     * client is ended and forgotten, exactly one new connection is opened, and
     * `first` decides the promise. A timeout ends the new client and leaves
     * the promise unsettled.
     */
    method ConnectToMqtt(first: FirstEvent) returns (s: Settled)
      requires Valid()
      modifies this
      ensures Valid()
      ensures subscriptions == old(subscriptions) && isInitialized == old(isInitialized)
      ensures orderCallbacks == old(orderCallbacks) && nextCallback == old(nextCallback)
      ensures s.Resolved? <==> Live()
      ensures s.Resolved? ==> mqttClient == Some(s.client)
      ensures s.Resolved? ==> (s.client < |clients| &&
        (old(Live()) ==> s.client < |old(clients)| && clients[s.client].listeners == old(clients)[s.client].listeners) &&
        (!old(Live()) ==> clients[s.client].listeners == 0))
      ensures old(Live()) ==>
        s == Resolved(old(mqttClient).value) && mqttClient == old(mqttClient) &&
        clients == old(clients) && log == old(log) && reconnectAttempts == old(reconnectAttempts)
      ensures !old(Live()) ==>
        var n := |old(clients)|;
        var kept := if old(mqttClient).Some?
          then old(clients)[old(mqttClient).value := Ended(old(clients)[old(mqttClient).value])]
          else old(clients);
        mqttClient == Some(n) && clients == kept + [Opened(first)] &&
        log == old(log) + ConnectCalls(old(mqttClient), n, first) &&
        reconnectAttempts == (if first == ConnAck then 0 else old(reconnectAttempts)) &&
        s == Settlement(first, n)
    {
      if mqttClient.Some? && clients[mqttClient.value].connected {
        return Resolved(mqttClient.value);
      }
      RetireStale();
      s := OpenClient(first);
    }

    /** Ends the stale shared client, if there is one, and forgets it. */
    method RetireStale()
      requires Valid()
      modifies this
      ensures Valid()
      ensures mqttClient == None
      ensures clients == if old(mqttClient).Some?
        then old(clients)[old(mqttClient).value := Ended(old(clients)[old(mqttClient).value])]
        else old(clients)
      ensures log == old(log) + Retire(old(mqttClient))
      ensures reconnectAttempts == old(reconnectAttempts)
      ensures subscriptions == old(subscriptions) && isInitialized == old(isInitialized)
      ensures orderCallbacks == old(orderCallbacks) && nextCallback == old(nextCallback)
    {
      if mqttClient.Some? {
        var stale := mqttClient.value;
        clients := clients[stale := Ended(clients[stale])];
        SubscribeCountAppend(log, End(stale));
        log := log + [End(stale)];
        mqttClient := None;
      }
    }

    /** Opens client `n`, the next one, as the shared client; `first` decides the promise. */
    method OpenClient(first: FirstEvent) returns (s: Settled)
      requires Valid()
      modifies this
      ensures Valid()
      ensures var n := |old(clients)|;
        mqttClient == Some(n) && clients == old(clients) + [Opened(first)] &&
        log == old(log) + [Connect(n)] + (if first == ConnTimeout then [End(n)] else []) &&
        reconnectAttempts == (if first == ConnAck then 0 else old(reconnectAttempts)) &&
        s == Settlement(first, n)
      ensures subscriptions == old(subscriptions) && isInitialized == old(isInitialized)
      ensures orderCallbacks == old(orderCallbacks) && nextCallback == old(nextCallback)
    {
      var n := |clients|;
      clients := clients + [Conn(false, false, 0)];
      SubscribeCountAppend(log, Connect(n));
      log := log + [Connect(n)];
      mqttClient := Some(n);
      match first
      case ConnAck =>
        clients := clients[n := clients[n].(connected := true)];
        reconnectAttempts := 0;
        s := Resolved(n);
      case ConnError =>
        s := Rejected;
      case ConnTimeout =>
        clients := clients[n := Ended(clients[n])];
        SubscribeCountAppend(log, End(n));
        log := log + [End(n)];
        s := Pending;
    }

    /** A later `connect` event of client `c` (the library reconnected it). */
    method OnConnect(c: nat)
      requires Valid() && c < |clients| && !clients[c].ended
      modifies this
      ensures Valid()
      ensures clients == old(clients)[c := old(clients)[c].(connected := true)]
      ensures reconnectAttempts == 0
      ensures mqttClient == old(mqttClient) && subscriptions == old(subscriptions) && log == old(log)
      ensures isInitialized == old(isInitialized)
      ensures orderCallbacks == old(orderCallbacks) && nextCallback == old(nextCallback)
    {
      clients := clients[c := clients[c].(connected := true)];
      reconnectAttempts := 0;
    }

    /**
     * An `error` event: it rejects the pending connection only while the
     * shared client is not connected. Nothing else changes.
     */
    method OnError() returns (rejects: bool)
      requires Valid()
      ensures rejects <==> !(mqttClient.Some? && clients[mqttClient.value].connected)
    {
      rejects := !(mqttClient.Some? && clients[mqttClient.value].connected);
    }

    /**
     * A `close` event of client `c`: below the cap the counter goes up; at the
     * cap the shared client (whichever it now is) is ended and the counter stays.
     */
    method OnClose(c: nat)
      requires Valid() && c < |clients|
      modifies this
      ensures Valid()
      ensures reconnectAttempts == CloseStep(old(reconnectAttempts)).0
      ensures mqttClient == old(mqttClient) && |clients| == |old(clients)|
      ensures var lost := old(clients)[c := old(clients)[c].(connected := false)];
        if CloseStep(old(reconnectAttempts)).1 && mqttClient.Some? then
          clients == lost[mqttClient.value := Ended(lost[mqttClient.value])] &&
          log == old(log) + [End(mqttClient.value)]
        else
          clients == lost && log == old(log)
      ensures mqttClient == old(mqttClient) && subscriptions == old(subscriptions)
      ensures isInitialized == old(isInitialized)
      ensures orderCallbacks == old(orderCallbacks) && nextCallback == old(nextCallback)
    {
      clients := clients[c := clients[c].(connected := false)];
      if reconnectAttempts >= MaxReconnectAttempts {
        if mqttClient.Some? {
          var cur := mqttClient.value;
          clients := clients[cur := Ended(clients[cur])];
          SubscribeCountAppend(log, End(cur));
          log := log + [End(cur)];
        }
        return;
      }
      reconnectAttempts := reconnectAttempts + 1;
    }

    /**
     * `publishToTopic`: sends the JSON text of `data` to the topic's name on
     * the client `connectToMqtt` gives; the broker's answer `publishErr`
     * decides the outcome, and there is no retry.
     */
    method PublishToTopic(topic: Topic, data: Message, first: FirstEvent, publishErr: bool)
      returns (r: Completion)
      requires Valid()
      modifies this
      ensures Valid()
      ensures subscriptions == old(subscriptions) && isInitialized == old(isInitialized)
      ensures orderCallbacks == old(orderCallbacks) && nextCallback == old(nextCallback)
      ensures old(Live()) ==> clients == old(clients) && mqttClient == old(mqttClient)
      ensures mqttClient.Some? && mqttClient.value < |clients|
      ensures r == Done <==> Live() && !publishErr
      ensures Live() ==> r == (if publishErr then Errored else Done)
      ensures Live() ==>
        |log| > 0 && log[|log| - 1] == Publish(mqttClient.value, TopicName(topic), Stringify(data))
      ensures old(Live()) ==>
        log == old(log) + [Publish(old(mqttClient).value, TopicName(topic), Stringify(data))]
      ensures !old(Live()) ==>
        log == old(log) + ConnectCalls(old(mqttClient), |old(clients)|, first) +
          (if first == ConnAck then [Publish(|old(clients)|, TopicName(topic), Stringify(data))] else [])
      ensures !Live() ==> r == (if first == ConnError then Errored else Hangs)
    {
      var s := ConnectToMqtt(first);
      match s
      case Resolved(c) =>
        SubscribeCountAppend(log, Publish(c, TopicName(topic), Stringify(data)));
        log := log + [Publish(c, TopicName(topic), Stringify(data))];
        r := if publishErr then Errored else Done;
      case Rejected =>
        r := Errored;
      case Pending =>
        r := Hangs;
    }

    /**
     * `subscribeToTopic`: registers `callback` under the topic's name, issuing
     * a broker subscription only for a name not yet registered, and attaches
     * one more `message` listener to the client on every call.
     */
    method SubscribeToTopic(topic: Topic, callback: nat, first: FirstEvent)
      returns (r: Subscription)
      requires Valid()
      modifies this
      ensures Valid()
      ensures isInitialized == old(isInitialized)
      ensures orderCallbacks == old(orderCallbacks) && nextCallback == old(nextCallback)
      ensures old(Live()) ==> mqttClient == old(mqttClient) && |clients| == |old(clients)|
      ensures mqttClient.Some? && mqttClient.value < |clients|
      ensures r.Subscribed? <==> Live()
      ensures !Live() ==> subscriptions == old(subscriptions)
      ensures !Live() ==> r == NotSubscribed(if first == ConnError then Errored else Hangs)
      ensures Live() ==> r == Subscribed(Unsubscriber(TopicName(topic), callback))
      ensures Live() ==> subscriptions == Registered(old(subscriptions), TopicName(topic), callback)
      ensures Live() ==> (clients[mqttClient.value].listeners ==
        if old(Live()) then old(clients)[mqttClient.value].listeners + 1 else 1)
      ensures TopicName(topic) in old(subscriptions) ==>
        SubscribeCount(log, TopicName(topic)) == SubscribeCount(old(log), TopicName(topic))
      ensures Live() && TopicName(topic) !in old(subscriptions) ==>
        |log| > 0 && log[|log| - 1] == Subscribe(mqttClient.value, TopicName(topic), SubscribeQos)
      ensures old(log) <= log
    {
      var s := ConnectToMqtt(first);
      if !s.Resolved? {
        return NotSubscribed(if s.Rejected? then Errored else Hangs);
      }
      Register(s.client, TopicName(topic), callback);
      r := Subscribed(Unsubscriber(TopicName(topic), callback));
    }

    /**
     * The part of `subscribeToTopic` after the client is obtained: the broker
     * subscription for a new name, the callback, and one more listener on `c`.
     */
    method Register(c: nat, name: string, callback: nat)
      requires Valid() && c < |clients|
      modifies this`subscriptions, this`clients, this`log
      ensures Valid()
      ensures subscriptions == Registered(old(subscriptions), name, callback)
      ensures clients == old(clients)[c := old(clients)[c].(listeners := old(clients)[c].listeners + 1)]
      ensures log == old(log) + (if name in old(subscriptions) then [] else [Subscribe(c, name, SubscribeQos)])
    {
      RegisterCounts(log, subscriptions, c, name, callback);
      RegisteredSteps(subscriptions, name, callback);
      if name !in subscriptions {
        subscriptions := subscriptions[name := {}];
        log := log + [Subscribe(c, name, SubscribeQos)];
      }
      subscriptions := subscriptions[name := subscriptions[name] + {callback}];
      clients := clients[c := clients[c].(listeners := clients[c].listeners + 1)];
    }

    /** The returned closure: drops only this callback; the topic entry and the broker subscription stay. */
    method Unsubscribe(u: Unsubscriber)
      requires Valid()
      modifies this
      ensures Valid()
      ensures subscriptions == if u.topic in old(subscriptions)
        then old(subscriptions)[u.topic := old(subscriptions)[u.topic] - {u.callback}]
        else old(subscriptions)
      ensures subscriptions.Keys == old(subscriptions).Keys
      ensures clients == old(clients) && mqttClient == old(mqttClient) && log == old(log)
      ensures reconnectAttempts == old(reconnectAttempts) && isInitialized == old(isInitialized)
      ensures orderCallbacks == old(orderCallbacks) && nextCallback == old(nextCallback)
    {
      if u.topic in subscriptions {
        subscriptions := subscriptions[u.topic := subscriptions[u.topic] - {u.callback}];
      }
    }

    /**
     * The broker delivers `p` on `received` to client `c`: each of the
     * client's listeners invokes every callback registered under `received`
     * with the parsed message, skips a name with no entry, and swallows a
     * parse error. The result counts the invocations of each callback.
     */
    method Deliver(c: nat, received: string, p: Payload) returns (calls: multiset<nat>)
      requires Valid() && c < |clients|
      ensures forall cb :: (calls[cb] ==
        if received in subscriptions && p.Json? && cb in subscriptions[received]
        then clients[c].listeners else 0)
    {
      calls := multiset{};
      var i := 0;
      while i < clients[c].listeners
        invariant i <= clients[c].listeners
        invariant forall cb :: (calls[cb] ==
          if received in subscriptions && p.Json? && cb in subscriptions[received] then i else 0)
      {
        if received in subscriptions {
          var data := Parse(p);
          if data.Some? {
            calls := calls + multiset(subscriptions[received]);
          }
        }
        i := i + 1;
      }
    }

    /**
     * An order message reaching the callbacks of `subscribeToOrders` through
     * client `c`: every listener runs `processOrder` once per registered order
     * callback, each run's store fault being `fault(run)`, and each failure
     * is caught. Because processing is idempotent, the table ends as one
     * successful run leaves it.
     */
    method DeliverOrder(table: TempOrderTable, c: nat, p: Payload, clock: string, fault: nat -> bool)
      returns (runs: nat)
      requires Valid() && table.Valid() && c < |clients|
      modifies table
      ensures table.Valid()
      ensures runs == if TopicName(Orders) in subscriptions && p.Json?
        then clients[c].listeners * |subscriptions[TopicName(Orders)] * orderCallbacks| else 0
      ensures var e := ReceivedOrder(p);
        table.rows == if Acceptable(e) && exists k :: 0 <= k < runs && !fault(k)
          then Apply(old(table.rows), e, clock) else old(table.rows)
    {
      runs := 0;
      var name := TopicName(Orders);
      if name !in subscriptions || !p.Json? {
        return;
      }
      var e := ReceivedOrder(p);
      var registered := subscriptions[name] * orderCallbacks;
      ghost var start := table.rows;
      ghost var staged := false;
      var i := 0;
      while i < clients[c].listeners
        invariant i <= clients[c].listeners
        invariant runs == i * |registered|
        invariant table.Valid()
        invariant staged <==> Acceptable(e) && exists k :: 0 <= k < runs && !fault(k)
        invariant table.rows == if staged then Apply(start, e, clock) else start
      {
        var rest := registered;
        while rest != {}
          invariant runs + |rest| == (i + 1) * |registered|
          invariant table.Valid()
          invariant staged <==> Acceptable(e) && exists k :: 0 <= k < runs && !fault(k)
          invariant table.rows == if staged then Apply(start, e, clock) else start
          decreases |rest|
        {
          var cb :| cb in rest;
          rest := rest - {cb};
          var out := ProcessOrder(table, e, clock, fault(runs), false);
          if out.Staged() {
            ApplyIdempotent(start, e, clock);
            staged := true;
          }
          runs := runs + 1;
        }
        i := i + 1;
      }
    }

    /**
     * `subscribeToOrders`: registers a new callback, which runs
     * `processOrder`, under the orders topic.
     */
    method SubscribeToOrders(first: FirstEvent) returns (r: Subscription)
      requires Valid()
      modifies this
      ensures Valid()
      ensures orderCallbacks == old(orderCallbacks) + {old(nextCallback)}
      ensures nextCallback == old(nextCallback) + 1
      ensures old(nextCallback) !in old(orderCallbacks)
      ensures r.Subscribed? <==> Live()
      ensures r.Subscribed? ==> r.unsubscribe == Unsubscriber(TopicName(Orders), old(nextCallback))
      ensures Live() ==>
        TopicName(Orders) in subscriptions && old(nextCallback) in subscriptions[TopicName(Orders)]
      ensures !Live() ==> subscriptions == old(subscriptions)
      ensures isInitialized == old(isInitialized)
      ensures old(log) <= log
    {
      var cb := nextCallback;
      orderCallbacks := orderCallbacks + {cb};
      nextCallback := nextCallback + 1;
      r := SubscribeToTopic(Orders, cb, first);
    }

    /**
     * `initializeMQTT`: a no-op once initialised; otherwise it asks the
     * initialize route, and only an ok answer sets the flag. `response` is
     * `None` when the request throws and the answer's `ok` otherwise.
     */
    method InitializeMQTT(response: Option<bool>) returns (requested: bool)
      requires Valid()
      modifies this`isInitialized
      ensures Valid()
      ensures requested == !old(isInitialized)
      ensures isInitialized == (old(isInitialized) || response == Some(true))
    {
      if isInitialized {
        return false;
      }
      requested := true;
      isInitialized := response == Some(true);
    }
  }

  /**
   * What `processOrder` receives from a message: an order message carries
   * its event; any other parsed value has no `id` and no `date`.
   */
  function ReceivedOrder(p: Payload): (e: OrderEvent)
    ensures p.Json? && p.msg.OrderMessage? ==> e == p.msg.order
    ensures !(p.Json? && p.msg.OrderMessage?) ==> !Acceptable(e)
  {
    if p.Json? && p.msg.OrderMessage? then p.msg.order
    else OrderEvent(None, None, None, Js.Undefined, Js.Undefined, "", "", [])
  }
}
