/**
 * `POST /api/mqtt/initialize`: loads the menu, publishes the category and
 * item snapshots, and subscribes to kiosk orders once per server process.
 */
module InitializeRoute {
  import opened Common
  import opened Entities
  import opened Mqtt

  /** `items.filter((item) => item.menuCategory !== null)`. */
  function ValidItems(items: seq<MenuItem>): (r: seq<MenuItem>)
    ensures |r| <= |items|
    ensures forall x :: x in r <==> x in items && x.menuCategory.Some?
  {
    if items == [] then []
    else (if items[0].menuCategory.Some? then [items[0]] else []) + ValidItems(items[1..])
  }

  /** The filter keeps the items in their order. */
  lemma {:induction false} ValidItemsAppend(a: seq<MenuItem>, b: seq<MenuItem>)
    ensures ValidItems(a + b) == ValidItems(a) + ValidItems(b)
  {
    if a == [] {
      assert a + b == b;
    } else {
      assert (a + b)[1..] == a[1..] + b;
      ValidItemsAppend(a[1..], b);
    }
  }

  /**
   * The once-only guard: with the flag set nothing is invoked; otherwise the
   * subscription is invoked and the flag becomes whether it completed.
   * The result is the new flag and whether `subscribeToOrders` was invoked.
   */
  function Guard(isSubscribed: bool, completes: bool): (r: (bool, bool))
    ensures r.1 <==> !isSubscribed
    ensures r.0 <==> isSubscribed || completes
  {
    if isSubscribed then (true, false) else (completes, true)
  }

  /**
   * How many invocations of `subscribeToOrders` complete over a run of
   * requests, `completes[i]` saying whether the i-th one would.
   */
  function CompletedSubscribes(isSubscribed: bool, completes: seq<bool>): nat
    decreases |completes|
  {
    if completes == [] then 0
    else
      var g := Guard(isSubscribed, completes[0]);
      (if g.1 && completes[0] then 1 else 0) + CompletedSubscribes(g.0, completes[1..])
  }

  /** Across any run of requests, at most one subscription to orders completes. */
  lemma {:induction false} AtMostOnce(isSubscribed: bool, completes: seq<bool>)
    ensures CompletedSubscribes(isSubscribed, completes) <= (if isSubscribed then 0 else 1)
    decreases |completes|
  {
    if completes != [] {
      var g := Guard(isSubscribed, completes[0]);
      AtMostOnce(g.0, completes[1..]);
    }
  }

  /** The broker's answers during one request, in the order the calls are made. */
  datatype BrokerAnswers = BrokerAnswers(
    categoriesFirst: FirstEvent, categoriesErr: bool,
    itemsFirst: FirstEvent, itemsErr: bool,
    ordersFirst: FirstEvent)

  /** 200 with `{ success: true }`, 500, or no answer because an await never settles. */
  datatype Reply = Success | ServerError | NoReply

  /**
   * How `Promise.all` of the two publishes ends: it rejects as soon as one
   * rejects, and settles only when both do.
   */
  function BothPublished(a: Completion, b: Completion): (r: Completion)
    ensures r == Done <==> a == Done && b == Done
    ensures r == Errored <==> a == Errored || b == Errored
  {
    if a.Errored? || b.Errored? then Errored
    else if a.Done? && b.Done? then Done
    else Hangs
  }

  /**
   * The two `publishToTopic` calls of the route, categories first, with how
   * each ended; nothing but the broker log and the client change.
   */
  method PublishMenu(bridge: MqttBridge, categories: seq<Category>, items: seq<MenuItem>, answers: BrokerAnswers)
    returns (published: seq<(Topic, Message, Completion)>)
    requires bridge.Valid()
    modifies bridge
    ensures bridge.Valid()
    ensures old(bridge.log) <= bridge.log
    ensures bridge.subscriptions == old(bridge.subscriptions) && bridge.orderCallbacks == old(bridge.orderCallbacks)
    ensures bridge.nextCallback == old(bridge.nextCallback)
    ensures |published| == 2 &&
      published[0].0 == MenuCategory && published[0].1 == CategoryList(categories) &&
      published[1].0 == MenuItems && published[1].1 == ItemList(items)
    ensures published[0].2 == Done && published[1].2 == Done ==>
      exists i, j :: |old(bridge.log)| <= i < j < |bridge.log| &&
        bridge.log[i].Publish? && bridge.log[j].Publish? && bridge.log[i].client == bridge.log[j].client &&
        bridge.log[i].topic == TopicName(MenuCategory) && bridge.log[i].payload == Stringify(CategoryList(categories)) &&
        bridge.log[j].topic == TopicName(MenuItems) && bridge.log[j].payload == Stringify(ItemList(items))
    ensures old(bridge.Live()) ==>
      |bridge.log| >= |old(bridge.log)| + 2 &&
      bridge.log[..|old(bridge.log)| + 2] == old(bridge.log) + [
        Publish(old(bridge.mqttClient).value, TopicName(MenuCategory), Stringify(CategoryList(categories))),
        Publish(old(bridge.mqttClient).value, TopicName(MenuItems), Stringify(ItemList(items)))]
    ensures old(bridge.Live()) ==>
      published[0].2 == (if answers.categoriesErr then Errored else Done) &&
      (!answers.categoriesErr ==> published[1].2 == (if answers.itemsErr then Errored else Done))
  {
    ghost var start := bridge.log;
    var a := bridge.PublishToTopic(MenuCategory, CategoryList(categories), answers.categoriesFirst, answers.categoriesErr);
    ghost var afterA := bridge.log;
    var b := bridge.PublishToTopic(MenuItems, ItemList(items), answers.itemsFirst, answers.itemsErr);
    ghost var afterB := bridge.log;
    published := [(MenuCategory, CategoryList(categories), a), (MenuItems, ItemList(items), b)];
    if a == Done && b == Done {
      var i, j := |afterA| - 1, |afterB| - 1;
      assert |start| < |afterA| < |afterB|;
      assert afterB[i] == afterA[i];
      assert |start| <= i < j < |bridge.log| && bridge.log[i].Publish? && bridge.log[j].Publish?;
    }
  }

  class Route {
    var isSubscribed: bool

    constructor ()
      ensures !isSubscribed
    {
      isSubscribed := false;
    }

    /**
     * `loaded` is the two store queries' result, `None` when one throws.
     * `published` lists what was handed to `publishToTopic`, in order, with
     * how each publish ended.
     */
    method Post(bridge: MqttBridge, loaded: Option<(seq<Category>, seq<MenuItem>)>, answers: BrokerAnswers)
      returns (reply: Reply, published: seq<(Topic, Message, Completion)>)
      requires bridge.Valid()
      modifies this, bridge
      ensures bridge.Valid()
      ensures old(bridge.log) <= bridge.log
      ensures loaded.None? ==> reply == ServerError && published == [] && bridge.log == old(bridge.log)
      ensures loaded.Some? ==>
        |published| == 2 &&
        published[0].0 == MenuCategory && published[0].1 == CategoryList(loaded.value.0) &&
        published[1].0 == MenuItems && published[1].1 == ItemList(ValidItems(loaded.value.1))
      // Only after both publishes resolve can the route answer `{ success: true }`.
      ensures reply == Success ==> published[0].2 == Done && published[1].2 == Done
      // A resolved publish went out on the broker, and the categories went first.
      ensures loaded.Some? && published[0].2 == Done && published[1].2 == Done ==>
        exists i, j :: |old(bridge.log)| <= i < j < |bridge.log| &&
          bridge.log[i].Publish? && bridge.log[j].Publish? && bridge.log[i].client == bridge.log[j].client &&
          bridge.log[i].topic == TopicName(MenuCategory) &&
          bridge.log[i].payload == Stringify(CategoryList(loaded.value.0)) &&
          bridge.log[j].topic == TopicName(MenuItems) &&
          bridge.log[j].payload == Stringify(ItemList(ValidItems(loaded.value.1)))
      // With a connected client both snapshots are published, one after the other.
      ensures loaded.Some? && old(bridge.Live()) ==>
        |bridge.log| >= |old(bridge.log)| + 2 &&
        bridge.log[..|old(bridge.log)| + 2] == old(bridge.log) + [
          Publish(old(bridge.mqttClient).value, TopicName(MenuCategory), Stringify(CategoryList(loaded.value.0))),
          Publish(old(bridge.mqttClient).value, TopicName(MenuItems), Stringify(ItemList(ValidItems(loaded.value.1))))]
      // Either publish rejecting makes the route answer 500 before the subscription step.
      ensures loaded.Some? && (published[0].2 == Errored || published[1].2 == Errored) ==>
        reply == ServerError && isSubscribed == old(isSubscribed) && bridge.subscriptions == old(bridge.subscriptions)
      ensures loaded.Some? && old(bridge.Live()) ==>
        published[0].2 == (if answers.categoriesErr then Errored else Done) &&
        (!answers.categoriesErr ==> published[1].2 == (if answers.itemsErr then Errored else Done))
      ensures isSubscribed == Guard(old(isSubscribed), reply == Success).0
      ensures old(isSubscribed) ==>
        bridge.orderCallbacks == old(bridge.orderCallbacks) && bridge.subscriptions == old(bridge.subscriptions)
      ensures !old(isSubscribed) && reply == Success ==>
        bridge.orderCallbacks == old(bridge.orderCallbacks) + {old(bridge.nextCallback)} &&
        TopicName(Orders) in bridge.subscriptions &&
        old(bridge.nextCallback) in bridge.subscriptions[TopicName(Orders)]
    {
      published := [];
      if loaded.None? {
        return ServerError, published;
      }
      published := PublishMenu(bridge, loaded.value.0, ValidItems(loaded.value.1), answers);
      var a, b := published[0].2, published[1].2;
      var both := BothPublished(a, b);
      if both != Done {
        return if both == Errored then ServerError else NoReply, published;
      }
      if !isSubscribed {
        var sub := bridge.SubscribeToOrders(answers.ordersFirst);
        if sub.NotSubscribed? {
          return if sub.how == Errored then ServerError else NoReply, published;
        }
        isSubscribed := true;
      }
      reply := Success;
    }
  }
}
