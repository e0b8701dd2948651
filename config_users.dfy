/**
 * `ConfigParserService.buildUserRolesFromResources` and `buildUserDtos`:
 * the user view that joins the users read from `acmq.yaml` with the queues
 * and topics read from `broker.xml.erb`. The per-user roles live in a
 * `HashMap` that is only ever looked up, so they are a Dafny `map`; the
 * sets and the subscription map inside each entry keep insertion order.
 */
module ConfigUsers {
  import opened Wrappers
  import opened Text
  import opened OrderedSet
  import opened OrderedMap
  import opened ConfigParser
  import ConfigCatalogue

  // ---------------------------------------------------------------------
  // buildUserRolesFromResources
  // ---------------------------------------------------------------------

  /** Which of a user's four collections a grant lands in; a subscription carries its name. */
  datatype Slot = ProducerQueue | ConsumerQueue | ProducerTopic | SubscriptionTo(subscription: string)

  /** `computeIfAbsent(user, k -> new UserRoles())` as read: the user's roles, or none yet. */
  function Held(m: map<string, UserRoles>, user: string): UserRoles {
    if user in m then m[user] else NoRoles
  }

  /** `add(name)` to a set, or `subscriptions.put(subscription, name)`. */
  function Recorded(r: UserRoles, slot: Slot, name: string): UserRoles {
    match slot
    case ProducerQueue => r.(producerQueues := Add(r.producerQueues, name))
    case ConsumerQueue => r.(consumerQueues := Add(r.consumerQueues, name))
    case ProducerTopic => r.(producerTopics := Add(r.producerTopics, name))
    case SubscriptionTo(sub) => r.(subscriptions := Put(r.subscriptions, sub, name))
  }

  function Granted(m: map<string, UserRoles>, user: string, slot: Slot, name: string): map<string, UserRoles> {
    m[user := Recorded(Held(m, user), slot, name)]
  }

  /** The loop over a resource's producers or consumers: one grant per user, in order. */
  function GrantedAll(m: map<string, UserRoles>, users: seq<string>, slot: Slot, name: string): map<string, UserRoles>
    decreases |users|
  {
    if |users| == 0 then m
    else Granted(GrantedAll(m, users[..|users| - 1], slot, name), users[|users| - 1], slot, name)
  }

  /** The loop over a topic's subscriptions: each subscriber gets that subscription to the topic. */
  function GrantedSubscriptions(m: map<string, UserRoles>, entries: seq<(string, string)>, topic: string): map<string, UserRoles>
    decreases |entries|
  {
    if |entries| == 0 then m
    else
      var e := entries[|entries| - 1];
      Granted(GrantedSubscriptions(m, entries[..|entries| - 1], topic), e.1, SubscriptionTo(e.0), topic)
  }

  /** The loop over the queues: producers, then consumers, of each. */
  function QueueGrants(m: map<string, UserRoles>, queues: seq<QueueDto>): map<string, UserRoles>
    decreases |queues|
  {
    if |queues| == 0 then m
    else
      var q := queues[|queues| - 1];
      GrantedAll(GrantedAll(QueueGrants(m, queues[..|queues| - 1]), q.producers, ProducerQueue, q.name),
                 q.consumers, ConsumerQueue, q.name)
  }

  /** The loop over the topics: producers, then subscriptions, of each. */
  function TopicGrants(m: map<string, UserRoles>, topics: seq<TopicDto>): map<string, UserRoles>
    decreases |topics|
  {
    if |topics| == 0 then m
    else
      var t := topics[|topics| - 1];
      GrantedSubscriptions(GrantedAll(TopicGrants(m, topics[..|topics| - 1]), t.producers, ProducerTopic, t.name),
                           t.subscriptions, t.name)
  }

  /** `buildUserRolesFromResources(queues, topics)` */
  function UserRolesOf(queues: seq<QueueDto>, topics: seq<TopicDto>): map<string, UserRoles> {
    TopicGrants(QueueGrants(map[], queues), topics)
  }

  method BuildUserRoles(queues: seq<QueueDto>, topics: seq<TopicDto>) returns (held: map<string, UserRoles>)
    ensures held == UserRolesOf(queues, topics)
  {
    held := map[];
    for k := 0 to |queues|
      invariant held == QueueGrants(map[], queues[..k])
    {
      assert queues[..k + 1][..k] == queues[..k];
      held := GrantEach(held, queues[k].producers, ProducerQueue, queues[k].name);
      held := GrantEach(held, queues[k].consumers, ConsumerQueue, queues[k].name);
    }
    assert queues[..|queues|] == queues;
    ghost var base := held;
    for k := 0 to |topics|
      invariant held == TopicGrants(base, topics[..k])
    {
      assert topics[..k + 1][..k] == topics[..k];
      held := GrantEach(held, topics[k].producers, ProducerTopic, topics[k].name);
      held := GrantSubscriptions(held, topics[k].subscriptions, topics[k].name);
    }
    assert topics[..|topics|] == topics;
  }

  method GrantEach(m: map<string, UserRoles>, users: seq<string>, slot: Slot, name: string) returns (r: map<string, UserRoles>)
    ensures r == GrantedAll(m, users, slot, name)
  {
    r := m;
    for j := 0 to |users|
      invariant r == GrantedAll(m, users[..j], slot, name)
    {
      assert users[..j + 1][..j] == users[..j];
      r := r[users[j] := Recorded(Held(r, users[j]), slot, name)];
    }
    assert users[..|users|] == users;
  }

  method GrantSubscriptions(m: map<string, UserRoles>, entries: seq<(string, string)>, topic: string) returns (r: map<string, UserRoles>)
    ensures r == GrantedSubscriptions(m, entries, topic)
  {
    r := m;
    for j := 0 to |entries|
      invariant r == GrantedSubscriptions(m, entries[..j], topic)
    {
      assert entries[..j + 1][..j] == entries[..j];
      var subscriber := entries[j].1;
      r := r[subscriber := Recorded(Held(r, subscriber), SubscriptionTo(entries[j].0), topic)];
    }
    assert entries[..|entries|] == entries;
  }

  // ---------------------------------------------------------------------
  // What each user ends up holding
  // ---------------------------------------------------------------------

  /** A user's four collections, as lists of names. */
  datatype Kind = ProducerQueues | ConsumerQueues | ProducerTopics | Subscriptions

  /** A collection's names: a set's elements, or the subscription names. */
  function Listed(r: UserRoles, kind: Kind): seq<string> {
    match kind
    case ProducerQueues => r.producerQueues
    case ConsumerQueues => r.consumerQueues
    case ProducerTopics => r.producerTopics
    case Subscriptions => Keys(r.subscriptions)
  }

  function KindOf(slot: Slot): Kind {
    match slot
    case ProducerQueue => ProducerQueues
    case ConsumerQueue => ConsumerQueues
    case ProducerTopic => ProducerTopics
    case SubscriptionTo(_) => Subscriptions
  }

  /** The name a grant lists: the resource, or for a subscription its own name. */
  function Entry(slot: Slot, name: string): string {
    match slot
    case SubscriptionTo(sub) => sub
    case _ => name
  }

  /** The subscription names whose subscriber is `u`, in order. */
  function SubscribedNames(entries: seq<(string, string)>, u: string): seq<string>
    decreases |entries|
  {
    if |entries| == 0 then []
    else
      var e := entries[|entries| - 1];
      SubscribedNames(entries[..|entries| - 1], u) + (if e.1 == u then [e.0] else [])
  }

  /** The names of the queues that list `u` for that kind, in order and with repetitions. */
  function QueueNamesFor(queues: seq<QueueDto>, u: string, kind: Kind): seq<string>
    decreases |queues|
  {
    if |queues| == 0 then []
    else
      var q := queues[|queues| - 1];
      QueueNamesFor(queues[..|queues| - 1], u, kind)
      + (if kind == ProducerQueues && u in q.producers then [q.name]
         else if kind == ConsumerQueues && u in q.consumers then [q.name]
         else [])
  }

  /** The names of the topics `u` produces to, or the subscriptions `u` holds, in order and with repetitions. */
  function TopicNamesFor(topics: seq<TopicDto>, u: string, kind: Kind): seq<string>
    decreases |topics|
  {
    if |topics| == 0 then []
    else
      var t := topics[|topics| - 1];
      TopicNamesFor(topics[..|topics| - 1], u, kind)
      + (if kind == ProducerTopics && u in t.producers then [t.name]
         else if kind == Subscriptions then SubscribedNames(t.subscriptions, u)
         else [])
  }

  /** A grant adds its entry to the collection of its kind and leaves the others alone. */
  lemma RecordedListed(r: UserRoles, slot: Slot, name: string, kind: Kind)
    ensures Listed(Recorded(r, slot, name), kind)
      == if KindOf(slot) == kind then Add(Listed(r, kind), Entry(slot, name)) else Listed(r, kind)
  {
    if slot.SubscriptionTo? {
      PutKeys(r.subscriptions, slot.subscription, name);
    }
  }

  /** Granting to a list of users reaches exactly the users on it, however often they appear. */
  lemma {:induction false} GrantedAllListed(m: map<string, UserRoles>, users: seq<string>, slot: Slot, name: string, u: string, kind: Kind)
    decreases |users|
    ensures Listed(Held(GrantedAll(m, users, slot, name), u), kind)
      == if u in users && KindOf(slot) == kind then Add(Listed(Held(m, u), kind), Entry(slot, name)) else Listed(Held(m, u), kind)
  {
    if |users| > 0 {
      var init, x := users[..|users| - 1], users[|users| - 1];
      GrantedAllListed(m, init, slot, name, u, kind);
      assert u in users <==> u in init || u == x;
      var prev := GrantedAll(m, init, slot, name);
      if u == x {
        RecordedListed(Held(prev, u), slot, name, kind);
      } else {
        assert Held(GrantedAll(m, users, slot, name), u) == Held(prev, u);
      }
    }
  }

  /** A topic's subscription loop gives `u` the subscription names whose subscriber is `u`. */
  lemma {:induction false} GrantedSubscriptionsListed(m: map<string, UserRoles>, entries: seq<(string, string)>, topic: string, u: string, kind: Kind)
    decreases |entries|
    ensures Listed(Held(GrantedSubscriptions(m, entries, topic), u), kind)
      == if kind == Subscriptions then AddAll(Listed(Held(m, u), kind), SubscribedNames(entries, u)) else Listed(Held(m, u), kind)
  {
    var before := Listed(Held(m, u), kind);
    if |entries| == 0 {
      assert AddAll(before, []) == before;
    } else {
      var init, e := entries[..|entries| - 1], entries[|entries| - 1];
      GrantedSubscriptionsListed(m, init, topic, u, kind);
      var prev := GrantedSubscriptions(m, init, topic);
      var mid := Listed(Held(prev, u), kind);
      var after := Listed(Held(GrantedSubscriptions(m, entries, topic), u), kind);
      if e.1 == u {
        assert after == Listed(Recorded(Held(prev, u), SubscriptionTo(e.0), topic), kind);
        RecordedListed(Held(prev, u), SubscriptionTo(e.0), topic, kind);
        if kind == Subscriptions {
          assert after == Add(mid, e.0);
          assert mid == AddAll(before, SubscribedNames(init, u));
          assert SubscribedNames(entries, u) == SubscribedNames(init, u) + [e.0];
          assert AddAll(mid, [e.0]) == Add(mid, e.0) by {
            assert [e.0][..0] == [];
          }
          AddAllConcat(before, SubscribedNames(init, u), [e.0]);
        } else {
          assert after == mid;
        }
      } else {
        assert after == mid;
        assert SubscribedNames(entries, u) == SubscribedNames(init, u) + [];
        assert SubscribedNames(init, u) + [] == SubscribedNames(init, u);
      }
    }
  }

  /** The queue loop appends, for each queue in turn, its name if it lists `u`. */
  lemma {:induction false} QueueGrantsListed(m: map<string, UserRoles>, queues: seq<QueueDto>, u: string, kind: Kind)
    decreases |queues|
    ensures Listed(Held(QueueGrants(m, queues), u), kind) == AddAll(Listed(Held(m, u), kind), QueueNamesFor(queues, u, kind))
  {
    if |queues| > 0 {
      var init, q := queues[..|queues| - 1], queues[|queues| - 1];
      QueueGrantsListed(m, init, u, kind);
      var m1 := QueueGrants(m, init);
      var m2 := GrantedAll(m1, q.producers, ProducerQueue, q.name);
      GrantedAllListed(m1, q.producers, ProducerQueue, q.name, u, kind);
      GrantedAllListed(m2, q.consumers, ConsumerQueue, q.name, u, kind);
      var here := if kind == ProducerQueues && u in q.producers then [q.name]
                  else if kind == ConsumerQueues && u in q.consumers then [q.name]
                  else [];
      AddAllConcat(Listed(Held(m, u), kind), QueueNamesFor(init, u, kind), here);
      assert [q.name][..0] == [];
    }
  }

  /** The topic loop appends, for each topic in turn, its name if `u` produces to it, or `u`'s subscriptions on it. */
  lemma {:induction false} TopicGrantsListed(m: map<string, UserRoles>, topics: seq<TopicDto>, u: string, kind: Kind)
    decreases |topics|
    ensures Listed(Held(TopicGrants(m, topics), u), kind) == AddAll(Listed(Held(m, u), kind), TopicNamesFor(topics, u, kind))
  {
    if |topics| > 0 {
      var init, t := topics[..|topics| - 1], topics[|topics| - 1];
      TopicGrantsListed(m, init, u, kind);
      var m1 := TopicGrants(m, init);
      var m2 := GrantedAll(m1, t.producers, ProducerTopic, t.name);
      GrantedAllListed(m1, t.producers, ProducerTopic, t.name, u, kind);
      GrantedSubscriptionsListed(m2, t.subscriptions, t.name, u, kind);
      var here := if kind == ProducerTopics && u in t.producers then [t.name]
                  else if kind == Subscriptions then SubscribedNames(t.subscriptions, u)
                  else [];
      AddAllConcat(Listed(Held(m, u), kind), TopicNamesFor(init, u, kind), here);
      assert [t.name][..0] == [];
    }
  }

  /**
   * Each of a user's collections lists, once each and in first-seen
   * order, the queues and then the topics that name the user that way:
   * the queues it sends to or consumes from, the topics it sends to, and
   * the subscriptions it is the subscriber of.
   */
  lemma UserRolesSpec(queues: seq<QueueDto>, topics: seq<TopicDto>, u: string, kind: Kind)
    ensures Listed(Held(UserRolesOf(queues, topics), u), kind)
      == Dedup(QueueNamesFor(queues, u, kind) + TopicNamesFor(topics, u, kind))
  {
    QueueGrantsListed(map[], queues, u, kind);
    TopicGrantsListed(QueueGrants(map[], queues), topics, u, kind);
    AddAllConcat([], QueueNamesFor(queues, u, kind), TopicNamesFor(topics, u, kind));
  }

  /** A queue's names never reach the topic collections, and a topic's never reach the queue ones. */
  lemma {:induction false} NamesForOtherKinds(queues: seq<QueueDto>, topics: seq<TopicDto>, u: string, kind: Kind)
    decreases |queues| + |topics|
    ensures kind in {ProducerTopics, Subscriptions} ==> QueueNamesFor(queues, u, kind) == []
    ensures kind in {ProducerQueues, ConsumerQueues} ==> TopicNamesFor(topics, u, kind) == []
  {
    if |queues| > 0 {
      NamesForOtherKinds(queues[..|queues| - 1], topics, u, kind);
    } else if |topics| > 0 {
      NamesForOtherKinds(queues, topics[..|topics| - 1], u, kind);
    }
  }

  /** The topic whose subscription loop last gave `u` the subscription `sub`, if any did. */
  function SubscribedTopic(topics: seq<TopicDto>, u: string, sub: string): Option<string>
    decreases |topics|
  {
    if |topics| == 0 then None
    else
      var t := topics[|topics| - 1];
      if (sub, u) in t.subscriptions then Some(t.name) else SubscribedTopic(topics[..|topics| - 1], u, sub)
  }

  /** Grants to queues and topic producers leave a user's subscription map alone. */
  lemma {:induction false} GrantedAllKeepsSubscriptions(m: map<string, UserRoles>, users: seq<string>, slot: Slot, name: string, u: string)
    requires !slot.SubscriptionTo?
    decreases |users|
    ensures Held(GrantedAll(m, users, slot, name), u).subscriptions == Held(m, u).subscriptions
  {
    if |users| > 0 {
      GrantedAllKeepsSubscriptions(m, users[..|users| - 1], slot, name, u);
    }
  }

  /** A topic's subscription loop maps every subscription it lists for `u` to that topic. */
  lemma {:induction false} GrantedSubscriptionsGet(m: map<string, UserRoles>, entries: seq<(string, string)>, topic: string, u: string, sub: string)
    decreases |entries|
    ensures Get(Held(GrantedSubscriptions(m, entries, topic), u).subscriptions, sub)
      == if (sub, u) in entries then Some(topic) else Get(Held(m, u).subscriptions, sub)
  {
    if |entries| > 0 {
      var init, e := entries[..|entries| - 1], entries[|entries| - 1];
      GrantedSubscriptionsGet(m, init, topic, u, sub);
      var prev := GrantedSubscriptions(m, init, topic);
      assert (sub, u) in entries <==> (sub, u) in init || e == (sub, u);
      if e.1 == u {
        PutGet(Held(prev, u).subscriptions, e.0, topic, sub);
      }
    }
  }

  /** The queue loop never touches a subscription map. */
  lemma {:induction false} QueueGrantsKeepSubscriptions(m: map<string, UserRoles>, queues: seq<QueueDto>, u: string)
    decreases |queues|
    ensures Held(QueueGrants(m, queues), u).subscriptions == Held(m, u).subscriptions
  {
    if |queues| > 0 {
      var init, q := queues[..|queues| - 1], queues[|queues| - 1];
      QueueGrantsKeepSubscriptions(m, init, u);
      var m1 := QueueGrants(m, init);
      GrantedAllKeepsSubscriptions(m1, q.producers, ProducerQueue, q.name, u);
      GrantedAllKeepsSubscriptions(GrantedAll(m1, q.producers, ProducerQueue, q.name), q.consumers, ConsumerQueue, q.name, u);
    }
  }

  /** The topic loop maps a subscription of `u` to the last topic that lists it for `u`. */
  lemma {:induction false} TopicGrantsGet(m: map<string, UserRoles>, topics: seq<TopicDto>, u: string, sub: string)
    decreases |topics|
    ensures Get(Held(TopicGrants(m, topics), u).subscriptions, sub)
      == if SubscribedTopic(topics, u, sub).Some? then SubscribedTopic(topics, u, sub) else Get(Held(m, u).subscriptions, sub)
  {
    if |topics| > 0 {
      var init, t := topics[..|topics| - 1], topics[|topics| - 1];
      TopicGrantsGet(m, init, u, sub);
      var m1 := TopicGrants(m, init);
      GrantedAllKeepsSubscriptions(m1, t.producers, ProducerTopic, t.name, u);
      GrantedSubscriptionsGet(GrantedAll(m1, t.producers, ProducerTopic, t.name), t.subscriptions, t.name, u, sub);
    }
  }

  /**
   * A user's subscription map sends each subscription the user holds to
   * the topic whose subscription list last named it for that user, and
   * holds nothing else: the last `put` wins.
   */
  lemma SubscriptionTopics(queues: seq<QueueDto>, topics: seq<TopicDto>, u: string, sub: string)
    ensures Get(Held(UserRolesOf(queues, topics), u).subscriptions, sub) == SubscribedTopic(topics, u, sub)
  {
    QueueGrantsKeepSubscriptions(map[], queues, u);
    TopicGrantsGet(QueueGrants(map[], queues), topics, u, sub);
  }

  // ---------------------------------------------------------------------
  // buildUserDtos
  // ---------------------------------------------------------------------

  /** One role item per name, of the given resource type, in the production environment. */
  function Items(kind: string, names: seq<string>): seq<RoleItem> {
    seq(|names|, k requires 0 <= k < |names| => RoleItem(kind, names[k], None, "prod"))
  }

  /** One topic role item per subscription, named after the topic and carrying the subscription. */
  function SubscriptionItems(subscriptions: seq<(string, string)>): seq<RoleItem> {
    seq(|subscriptions|, k requires 0 <= k < |subscriptions| =>
      RoleItem("topic", subscriptions[k].1, Some(subscriptions[k].0), "prod"))
  }

  /** The DTO of the `index`-th user (counting from 1), with the roles held for it or none. */
  function UserDtoAt(index: nat, name: string, held: map<string, UserRoles>): UserDto {
    var r := Held(held, name);
    UserDto("user-" + NatToString(index), name, "Artemis MQ user", TeamFromName(name),
            UserRolesDto(Items("queue", r.producerQueues) + Items("topic", r.producerTopics),
                         Items("queue", r.consumerQueues),
                         SubscriptionItems(r.subscriptions)))
  }

  /** `buildUserDtos(userNames, userRolesMap)` */
  function UserDtos(names: seq<string>, held: map<string, UserRoles>): seq<UserDto> {
    seq(|names|, k requires 0 <= k < |names| => UserDtoAt(k + 1, names[k], held))
  }

  method BuildUserDtos(names: seq<string>, held: map<string, UserRoles>) returns (users: seq<UserDto>)
    ensures users == UserDtos(names, held)
  {
    users := [];
    for i := 0 to |names|
      invariant |users| == i
      invariant forall k :: 0 <= k < i ==> users[k] == UserDtoAt(k + 1, names[k], held)
    {
      var user := BuildUserDto(i + 1, names[i], held);
      users := users + [user];
    }
  }

  /** One pass of the loop: the role lists of one user, then its DTO. */
  method BuildUserDto(index: nat, name: string, held: map<string, UserRoles>) returns (user: UserDto)
    ensures user == UserDtoAt(index, name, held)
  {
    var roles := Held(held, name);
    var producer := AppendItems([], "queue", roles.producerQueues);
    producer := AppendItems(producer, "topic", roles.producerTopics);
    var consumer := AppendItems([], "queue", roles.consumerQueues);
    var subscription := AppendSubscriptionItems([], roles.subscriptions);
    user := UserDto("user-" + NatToString(index), name, "Artemis MQ user", TeamFromName(name),
                    UserRolesDto(producer, consumer, subscription));
  }

  method AppendItems(items: seq<RoleItem>, kind: string, names: seq<string>) returns (r: seq<RoleItem>)
    ensures r == items + Items(kind, names)
  {
    r := items;
    for j := 0 to |names|
      invariant r == items + Items(kind, names[..j])
    {
      r := r + [RoleItem(kind, names[j], None, "prod")];
    }
    assert names[..|names|] == names;
  }

  method AppendSubscriptionItems(items: seq<RoleItem>, subscriptions: seq<(string, string)>) returns (r: seq<RoleItem>)
    ensures r == items + SubscriptionItems(subscriptions)
  {
    r := items;
    for j := 0 to |subscriptions|
      invariant r == items + SubscriptionItems(subscriptions[..j])
    {
      r := r + [RoleItem("topic", subscriptions[j].1, Some(subscriptions[j].0), "prod")];
    }
    assert subscriptions[..|subscriptions|] == subscriptions;
  }

  /** The resource names role items list. */
  function ItemNames(items: seq<RoleItem>): seq<string> {
    seq(|items|, i requires 0 <= i < |items| => items[i].name)
  }

  /** The subscription names role items carry, "" for an item without one. */
  function ItemSubscriptions(items: seq<RoleItem>): seq<string> {
    seq(|items|, i requires 0 <= i < |items| => if items[i].subscription.Some? then items[i].subscription.value else "")
  }

  /** Users keep their order and are numbered from 1, so no two share an id. */
  lemma UserIdsDistinct(names: seq<string>, held: map<string, UserRoles>, j: nat, k: nat)
    requires j < k < |names|
    ensures |UserDtos(names, held)| == |names|
    ensures UserDtos(names, held)[j].id != UserDtos(names, held)[k].id
  {
    ConfigCatalogue.NumberedIdsDiffer("user-", j + 1, k + 1);
  }

  /** A user's DTO lists the roles held for it: queues then topics it sends to, queues it consumes from, its subscriptions. */
  lemma UserDtoRoles(index: nat, name: string, held: map<string, UserRoles>)
    ensures var d := UserDtoAt(index, name, held);
            var r := Held(held, name);
            ItemNames(d.roles.producer) == Listed(r, ProducerQueues) + Listed(r, ProducerTopics)
            && (forall i :: 0 <= i < |d.roles.producer| ==> d.roles.producer[i].kind == if i < |Listed(r, ProducerQueues)| then "queue" else "topic")
            && ItemNames(d.roles.consumer) == Listed(r, ConsumerQueues)
            && (forall i :: 0 <= i < |d.roles.consumer| ==> d.roles.consumer[i].kind == "queue")
            && ItemSubscriptions(d.roles.subscription) == Listed(r, Subscriptions)
            && (forall i :: 0 <= i < |d.roles.subscription| ==> d.roles.subscription[i].kind == "topic")
            && (Distinct(Keys(r.subscriptions)) ==>
                  forall i :: 0 <= i < |d.roles.subscription| ==>
                    d.roles.subscription[i].subscription.Some?
                    && Get(r.subscriptions, d.roles.subscription[i].subscription.value) == Some(d.roles.subscription[i].name))
  {
    var r := Held(held, name);
    var d := UserDtoAt(index, name, held);
    assert ItemNames(d.roles.producer) == r.producerQueues + r.producerTopics;
    assert ItemSubscriptions(d.roles.subscription) == Keys(r.subscriptions);
    if Distinct(Keys(r.subscriptions)) {
      forall i | 0 <= i < |d.roles.subscription|
        ensures Get(r.subscriptions, d.roles.subscription[i].subscription.value) == Some(d.roles.subscription[i].name)
      {
        GetAt(r.subscriptions, i);
      }
    }
  }

  /**
   * The user view end to end: the `k`-th user is `user-(k+1)`, named and
   * teamed after its name; its producer roles are the queues it sends to
   * and then the topics it sends to, its consumer roles the queues it
   * consumes from, and its subscription roles the subscriptions it holds,
   * each once and in the order the broker configuration first names them.
   */
  lemma UserView(names: seq<string>, queues: seq<QueueDto>, topics: seq<TopicDto>, k: nat)
    requires k < |names|
    ensures |UserDtos(names, UserRolesOf(queues, topics))| == |names|
    ensures var d := UserDtos(names, UserRolesOf(queues, topics))[k];
            var u := names[k];
            var sendsTo := Dedup(QueueNamesFor(queues, u, ProducerQueues));
            d.id == "user-" + NatToString(k + 1) && d.name == u && d.team == TeamFromName(u)
            && ItemNames(d.roles.producer) == sendsTo + Dedup(TopicNamesFor(topics, u, ProducerTopics))
            && (forall i :: 0 <= i < |d.roles.producer| ==> d.roles.producer[i].kind == if i < |sendsTo| then "queue" else "topic")
            && ItemNames(d.roles.consumer) == Dedup(QueueNamesFor(queues, u, ConsumerQueues))
            && (forall i :: 0 <= i < |d.roles.consumer| ==> d.roles.consumer[i].kind == "queue")
            && ItemSubscriptions(d.roles.subscription) == Dedup(TopicNamesFor(topics, u, Subscriptions))
            && (forall i :: 0 <= i < |d.roles.subscription| ==> d.roles.subscription[i].kind == "topic")
            && (forall i :: 0 <= i < |d.roles.subscription| ==>
                  d.roles.subscription[i].subscription.Some?
                  && SubscribedTopic(topics, u, d.roles.subscription[i].subscription.value) == Some(d.roles.subscription[i].name))
  {
    var u := names[k];
    var held := UserRolesOf(queues, topics);
    var r := Held(held, u);
    assert UserDtos(names, held)[k] == UserDtoAt(k + 1, u, held);
    UserDtoRoles(k + 1, u, held);
    assert Listed(r, ProducerQueues) == Dedup(QueueNamesFor(queues, u, ProducerQueues)) by {
      NamesForOtherKinds(queues, topics, u, ProducerQueues);
      UserRolesSpec(queues, topics, u, ProducerQueues);
      assert QueueNamesFor(queues, u, ProducerQueues) + [] == QueueNamesFor(queues, u, ProducerQueues);
    }
    assert Listed(r, ConsumerQueues) == Dedup(QueueNamesFor(queues, u, ConsumerQueues)) by {
      NamesForOtherKinds(queues, topics, u, ConsumerQueues);
      UserRolesSpec(queues, topics, u, ConsumerQueues);
      assert QueueNamesFor(queues, u, ConsumerQueues) + [] == QueueNamesFor(queues, u, ConsumerQueues);
    }
    assert Listed(r, ProducerTopics) == Dedup(TopicNamesFor(topics, u, ProducerTopics)) by {
      NamesForOtherKinds(queues, topics, u, ProducerTopics);
      UserRolesSpec(queues, topics, u, ProducerTopics);
      assert [] + TopicNamesFor(topics, u, ProducerTopics) == TopicNamesFor(topics, u, ProducerTopics);
    }
    assert Listed(r, Subscriptions) == Dedup(TopicNamesFor(topics, u, Subscriptions)) by {
      NamesForOtherKinds(queues, topics, u, Subscriptions);
      UserRolesSpec(queues, topics, u, Subscriptions);
      assert [] + TopicNamesFor(topics, u, Subscriptions) == TopicNamesFor(topics, u, Subscriptions);
    }
    var d := UserDtos(names, held)[k];
    forall i | 0 <= i < |d.roles.subscription|
      ensures SubscribedTopic(topics, u, d.roles.subscription[i].subscription.value) == Some(d.roles.subscription[i].name)
    {
      SubscriptionTopics(queues, topics, u, d.roles.subscription[i].subscription.value);
    }
  }
}
