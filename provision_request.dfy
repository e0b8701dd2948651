/**
 * The provisioning request (`ProvisionRequest`, `SubscriptionInfo`) and its
 * derived predicates: which subscriptions are new, whether the request names
 * any consumer or producer, and the bean constraints on its fields.
 */
module Request {
  import opened Wrappers
  import opened Text
  import opened Identifiers

  /** One topic subscription: its name, the consuming role and whether it is to be created. */
  datatype Subscription = Subscription(subscriptionName: string, subscriber: string, isNew: bool)

  /** A request to create or extend a queue or topic. Absent lists are `None`. */
  datatype ProvisionRequest = ProvisionRequest(
    requestType: string,
    resourceType: string,
    name: string,
    consumers: Option<seq<string>>,
    producers: Option<seq<string>>,
    legacySubscriptionName: Option<string>,
    subscriptions: Option<seq<Subscription>>,
    description: Option<string>,
    team: string,
    requester: string,
    ticketNumber: string)

  /** A present, non-empty list. */
  predicate NonEmpty(xs: Option<seq<string>>) {
    xs.Some? && |xs.value| > 0
  }

  /** The list, or the empty list for an absent one. */
  function OrEmpty(xs: Option<seq<string>>): seq<string> {
    if xs.Some? then xs.value else []
  }

  // ---------------------------------------------------------------------
  // Field constraints
  // ---------------------------------------------------------------------

  /** The class `[a-zA-Z0-9._-]`. */
  predicate IsNameChar(c: char) {
    IsWordChar(c) || c == '.' || c == '-'
  }

  /** `[a-zA-Z0-9._-]+` */
  predicate IsNameToken(s: string) {
    |s| > 0 && forall i :: 0 <= i < |s| ==> IsNameChar(s[i])
  }

  /** The constraints on `name`: `[a-zA-Z0-9._-]+`, at most 255 chars. */
  predicate ValidName(name: string) {
    IsNameToken(name) && |name| <= 255
  }

  /** The constraints on `ticketNumber`: `[a-zA-Z0-9_-]+`, at most 50 chars. */
  predicate ValidTicketNumber(t: string) {
    0 < |t| <= 50 && forall i :: 0 <= i < |t| ==> IsWordChar(t[i]) || t[i] == '-'
  }

  /** A valid resource name yields a Puppet identifier and a dot-free namespace prefix. */
  lemma ValidNameVariable(name: string)
    requires ValidName(name)
    ensures |ToVariableName(name)| > 0
    ensures forall i :: 0 <= i < |name| ==> IsWordChar(ToVariableName(name)[i])
    ensures '.' !in NamespacePrefix(name)
  {
    ToVariableNameIsIdentifier(name);
  }

  /** A valid ticket number is a valid name. */
  lemma TicketNumberIsName(t: string)
    requires ValidTicketNumber(t)
    ensures ValidName(t)
  {
  }

  /** A valid name is a valid ticket number exactly when it has no '.' and at most 50 chars. */
  lemma NameIsTicketNumberIff(t: string)
    requires ValidName(t)
    ensures ValidTicketNumber(t) <==> '.' !in t && |t| <= 50
  {
    if '.' in t {
      var k :| 0 <= k < |t| && t[k] == '.';
      assert !(IsWordChar(t[k]) || t[k] == '-');
    }
  }

  // ---------------------------------------------------------------------
  // Subscriptions
  // ---------------------------------------------------------------------

  /** The subscriptions flagged `isNew`, in list order. */
  function NewOnly(xs: seq<Subscription>): (r: seq<Subscription>)
    ensures |r| <= |xs|
    ensures forall i :: 0 <= i < |r| ==> r[i].isNew && r[i] in xs
    ensures forall i :: 0 <= i < |xs| && xs[i].isNew ==> xs[i] in r
  {
    if |xs| == 0 then []
    else (if xs[0].isNew then [xs[0]] else []) + NewOnly(xs[1..])
  }

  /** The indices from `j` on of the entries flagged `isNew`, ascending. */
  function NewPositions(xs: seq<Subscription>, j: nat): (p: seq<nat>)
    requires j <= |xs|
    decreases |xs| - j
    ensures forall k :: 0 <= k < |p| ==> j <= p[k] < |xs| && xs[p[k]].isNew
    ensures forall k, l :: 0 <= k < l < |p| ==> p[k] < p[l]
    ensures forall i :: j <= i < |xs| && xs[i].isNew ==> i in p
  {
    if j == |xs| then [] else (if xs[j].isNew then [j] else []) + NewPositions(xs, j + 1)
  }

  /**
   * `filter(SubscriptionInfo::isNew)`: the result is the list read at the
   * ascending positions of exactly its `isNew` entries.
   */
  lemma {:induction false} NewOnlyIsFilter(xs: seq<Subscription>, j: nat)
    requires j <= |xs|
    decreases |xs| - j
    ensures |NewOnly(xs[j..])| == |NewPositions(xs, j)|
    ensures forall k :: 0 <= k < |NewPositions(xs, j)| ==> NewOnly(xs[j..])[k] == xs[NewPositions(xs, j)[k]]
  {
    if j < |xs| {
      NewOnlyIsFilter(xs, j + 1);
      var rest, p := NewOnly(xs[j + 1..]), NewPositions(xs, j + 1);
      assert NewOnly(xs[j..]) == (if xs[j].isNew then [xs[j]] else []) + rest by {
        var t := xs[j..];
        assert t[0] == xs[j] && t[1..] == xs[j + 1..];
      }
      assert NewPositions(xs, j) == (if xs[j].isNew then [j] else []) + p;
      PrependPicked(xs, xs[j].isNew, j, rest, p);
    }
  }

  /** Reading `xs` at positions stays aligned when one more position is picked in front. */
  lemma PrependPicked<T>(xs: seq<T>, pick: bool, j: nat, rest: seq<T>, p: seq<nat>)
    requires j < |xs| && |rest| == |p|
    requires forall k :: 0 <= k < |p| ==> p[k] < |xs| && rest[k] == xs[p[k]]
    ensures var r, q := (if pick then [xs[j]] else []) + rest, (if pick then [j] else []) + p;
      |r| == |q| && forall k :: 0 <= k < |q| ==> q[k] < |xs| && r[k] == xs[q[k]]
  {
    var r, q := (if pick then [xs[j]] else []) + rest, (if pick then [j] else []) + p;
    if pick {
      forall k | 0 <= k < |q|
        ensures q[k] < |xs| && r[k] == xs[q[k]]
      {
        if k > 0 {
          assert r[k] == rest[k - 1] && q[k] == p[k - 1];
        }
      }
    }
  }

  /** The filter keeps the order: it distributes over concatenation. */
  lemma {:induction false} NewOnlyAppend(a: seq<Subscription>, b: seq<Subscription>)
    ensures NewOnly(a + b) == NewOnly(a) + NewOnly(b)
  {
    if |a| > 0 {
      assert (a + b)[1..] == a[1..] + b;
      NewOnlyAppend(a[1..], b);
    } else {
      assert a + b == b;
    }
  }

  /** `getNewSubscriptions()`: empty for an absent or empty list, else the new entries. */
  function NewSubscriptions(r: ProvisionRequest): (s: seq<Subscription>)
    ensures r.subscriptions.None? ==> s == []
    ensures forall i :: 0 <= i < |s| ==> s[i].isNew && r.subscriptions.Some? && s[i] in r.subscriptions.value
    ensures r.subscriptions.Some? ==> forall x :: x in r.subscriptions.value && x.isNew ==> x in s
  {
    if r.subscriptions.None? || |r.subscriptions.value| == 0 then [] else NewOnly(r.subscriptions.value)
  }

  /** `hasNewSubscriptions()` */
  predicate HasNewSubscriptions(r: ProvisionRequest) {
    |NewSubscriptions(r)| > 0
  }

  /** There is a new subscription exactly when some listed subscription is flagged new. */
  lemma HasNewSubscriptionsIff(r: ProvisionRequest)
    ensures HasNewSubscriptions(r) <==> r.subscriptions.Some? && exists x :: x in r.subscriptions.value && x.isNew
  {
    if HasNewSubscriptions(r) {
      var s := NewSubscriptions(r);
      assert s[0] in r.subscriptions.value && s[0].isNew;
    }
  }

  /** `hasConsumersOrProducers()` */
  predicate HasConsumersOrProducers(r: ProvisionRequest) {
    NonEmpty(r.consumers) || NonEmpty(r.producers)
  }

  /** `hasSubscriptions()`: a non-empty list or a non-empty legacy subscription name. */
  predicate HasSubscriptions(r: ProvisionRequest) {
    (r.subscriptions.Some? && |r.subscriptions.value| > 0)
    || (r.legacySubscriptionName.Some? && |r.legacySubscriptionName.value| > 0)
  }

  /** Consumers or producers are named exactly when the two lists together hold an entry. */
  lemma HasConsumersOrProducersIff(r: ProvisionRequest)
    ensures HasConsumersOrProducers(r) <==> |OrEmpty(r.consumers)| + |OrEmpty(r.producers)| > 0
  {
  }

  /**
   * A request with a new subscription has subscriptions; one whose listed
   * subscriptions are all old has none that are new.
   */
  lemma NewImpliesHasSubscriptions(r: ProvisionRequest)
    ensures HasNewSubscriptions(r) ==> HasSubscriptions(r)
    ensures r.subscriptions.Some? && (forall i :: 0 <= i < |r.subscriptions.value| ==> !r.subscriptions.value[i].isNew)
      ==> !HasNewSubscriptions(r)
  {
    if HasNewSubscriptions(r) {
      var s := NewSubscriptions(r);
      assert s[0] in r.subscriptions.value && s[0].isNew;
    }
  }
}
