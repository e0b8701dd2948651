/**
 * The orchestration in `ProvisioningService`: the commit messages, the
 * hieradata step (no change, no pull request), the order of the steps that
 * rewrite `broker.xml.erb`, and `processProvisionRequest` as a whole. The
 * repositories are not read here: each file's text is an input and the new
 * text and commit message are the output.
 */
module ProvisioningFlow {
  import opened Wrappers
  import opened Text
  import opened Identifiers
  import opened Request
  import opened AcmqYaml
  import opened InitPp
  import opened BrokerXml
  import opened BrokerXmlInsert
  import opened BrokerXmlAddress
  import opened Provisioning

  // ---------------------------------------------------------------------
  // Commit messages
  // ---------------------------------------------------------------------

  /** `"new".equalsIgnoreCase(request.getRequestType())` */
  predicate IsNewRequest(r: ProvisionRequest) {
    EqualsIgnoreCase(r.requestType, "new")
  }

  /** `"topic".equals(resourceType) && request.hasNewSubscriptions()` */
  predicate SubscriptionFlow(r: ProvisionRequest) {
    r.resourceType == "topic" && HasNewSubscriptions(r)
  }

  /** One ` - x` line per item, in list order. */
  function Bullets(xs: seq<string>): string
    decreases |xs|
  {
    if |xs| == 0 then [] else Bullets(xs[..|xs| - 1]) + (" - " + xs[|xs| - 1] + "\n")
  }

  /** The bullets of a concatenation are the bullets of each part, in order. */
  lemma {:induction false} BulletsAppend(a: seq<string>, b: seq<string>)
    decreases |b|
    ensures Bullets(a + b) == Bullets(a) + Bullets(b)
  {
    if |b| == 0 {
      assert a + b == a;
    } else {
      assert (a + b)[..|a + b| - 1] == a + b[..|b| - 1];
      BulletsAppend(a, b[..|b| - 1]);
    }
  }

  /** A heading followed by the bullets of a present, non-empty list; nothing otherwise. */
  function Listed(heading: string, xs: Option<seq<string>>): string {
    if NonEmpty(xs) then heading + Bullets(xs.value) else []
  }

  /** The three lines describing one new subscription. */
  function SubscriptionEntry(sub: Subscription, isNewUser: bool): string {
    "Ny Subscription med " + (if isNewUser then "ny användare" else "existerande användare") + " som subscriber:\n"
    + " - " + sub.subscriptionName + "\n"
    + " - " + sub.subscriber + " " + (if isNewUser then "(new user)" else "(existing user)") + "\n"
  }

  /** The entries for the new subscriptions, in order; `newUser` says whose subscriber is new. */
  function SubscriptionEntries(subs: seq<Subscription>, newUser: Subscription -> bool): string
    decreases |subs|
  {
    if |subs| == 0 then []
    else SubscriptionEntries(subs[..|subs| - 1], newUser) + SubscriptionEntry(subs[|subs| - 1], newUser(subs[|subs| - 1]))
  }

  /** The requester, team and ticket lines that open every message. */
  function Header(r: ProvisionRequest): string {
    "Beställare: " + r.requester + "\n" + "Team: " + r.team + "\n" + "Ärende: " + r.ticketNumber + "\n"
  }

  /** What the order is for: a new resource, a new subscription on a topic, or an update. */
  function KindLine(r: ProvisionRequest, newResource: bool): string {
    if newResource then " - Ny " + r.resourceType + "\n"
    else if SubscriptionFlow(r) then " - Ny subscription för befintlig topic\n"
    else " - Uppdatering av " + r.resourceType + "\n"
  }

  /** The resource's kind and name, its publishers, and its consumers outside the subscription flow. */
  function ResourceLines(r: ProvisionRequest): string {
    "\n" + (if r.resourceType == "topic" then "Topic" else "Queue") + ":\n" + " - " + r.name + "\n"
    + Listed("Publisher:\n", r.producers)
    + (if SubscriptionFlow(r) then [] else Listed("Consumer:\n", r.consumers))
  }

  /** The change list: the new subscriptions, or (when `listChanges`) the new producers and consumers. */
  function Changes(r: ProvisionRequest, listChanges: bool, newUser: Subscription -> bool): string {
    if SubscriptionFlow(r) then SubscriptionEntries(NewSubscriptions(r), newUser)
    else if listChanges then Listed("Nya producers:\n", r.producers) + Listed("Nya consumers:\n", r.consumers)
    else []
  }

  /** Everything after the header: what is ordered, the resource, and the changes. */
  function Summary(r: ProvisionRequest, newResource: bool, listChanges: bool, newUser: Subscription -> bool): string {
    "\nBeställning avser:\n" + KindLine(r, newResource) + ResourceLines(r)
    + "\nÄndring:\n" + Changes(r, listChanges, newUser)
  }

  /** The message before the final `trim()`. */
  function MessageText(r: ProvisionRequest, newResource: bool, listChanges: bool, newUser: Subscription -> bool): string {
    Header(r) + Summary(r, newResource, listChanges, newUser)
  }

  /** The shared shape of both commit messages. */
  function CommitMessage(r: ProvisionRequest, newResource: bool, listChanges: bool, newUser: Subscription -> bool): string {
    Trim(MessageText(r, newResource, listChanges, newUser))
  }

  /** `!userExistsInHieradata(existingAcmqContent, sub.getSubscriber())` */
  function SubscriberIsNew(existingAcmq: string): Subscription -> bool {
    (sub: Subscription) => !UserExistsInHieradata(existingAcmq, sub.subscriber)
  }

  /** `generateHieradataCommitMessage(request, existingAcmqContent)` */
  function HieradataCommitMessage(r: ProvisionRequest, existingAcmq: string): string {
    CommitMessage(r, IsNewRequest(r), true, SubscriberIsNew(existingAcmq))
  }

  /**
   * `generatePuppetCommitMessage(request, resourceSecurityExists)`; `newUser`
   * stands for the `isNewSubscriber` flags set by the hieradata step.
   */
  function PuppetCommitMessage(r: ProvisionRequest, resourceSecurityExists: bool, newUser: Subscription -> bool): string {
    CommitMessage(r, IsNewRequest(r) && !resourceSecurityExists, !IsNewRequest(r) || resourceSecurityExists, newUser)
  }

  /** `message.append(String.format(" - %s\n", x))` for each item. */
  method AppendBullets(message: string, xs: seq<string>) returns (r: string)
    ensures r == message + Bullets(xs)
  {
    r := message;
    for i := 0 to |xs|
      invariant r == message + Bullets(xs[..i])
    {
      assert xs[..i + 1][..i] == xs[..i];
      r := r + (" - " + xs[i] + "\n");
    }
    assert xs[..|xs|] == xs;
  }

  /** The heading and its bullets, when the list is present and non-empty. */
  method AppendListed(message: string, heading: string, xs: Option<seq<string>>) returns (r: string)
    ensures r == message + Listed(heading, xs)
  {
    r := message;
    if xs.Some? && |xs.value| > 0 {
      r := AppendBullets(r + heading, xs.value);
    }
  }

  /** Appending to a builder is associative. */
  lemma AppendAssoc(a: string, b: string, c: string)
    ensures (a + b) + c == a + (b + c)
  {
  }

  /** One more subscription adds its entry at the end. */
  lemma EntriesSnoc(subs: seq<Subscription>, i: nat, newUser: Subscription -> bool)
    requires i < |subs|
    ensures SubscriptionEntries(subs[..i + 1], newUser) == SubscriptionEntries(subs[..i], newUser) + SubscriptionEntry(subs[i], newUser(subs[i]))
  {
    assert subs[..i + 1][..i] == subs[..i];
  }

  /** The loop over `getNewSubscriptions()` in both message builders. */
  method AppendSubscriptionEntries(message: string, subs: seq<Subscription>, newUser: Subscription -> bool) returns (r: string)
    ensures r == message + SubscriptionEntries(subs, newUser)
  {
    r := message;
    for i := 0 to |subs|
      invariant r == message + SubscriptionEntries(subs[..i], newUser)
    {
      var entry := SubscriptionEntry(subs[i], newUser(subs[i]));
      EntriesSnoc(subs, i, newUser);
      AppendAssoc(message, SubscriptionEntries(subs[..i], newUser), entry);
      r := r + entry;
    }
    assert subs[..|subs|] == subs;
  }

  /** The resource section: kind and name, then the publisher and consumer lists. */
  method AppendResourceLines(message: string, r: ProvisionRequest) returns (m: string)
    ensures m == message + ResourceLines(r)
  {
    var sb := "\n" + (if r.resourceType == "topic" then "Topic" else "Queue") + ":\n" + " - " + r.name + "\n";
    sb := AppendListed(sb, "Publisher:\n", r.producers);
    if !SubscriptionFlow(r) {
      sb := AppendListed(sb, "Consumer:\n", r.consumers);
    } else {
      sb := sb + [];
    }
    m := message + sb;
  }

  /** The change section. */
  method AppendChanges(message: string, r: ProvisionRequest, listChanges: bool, newUser: Subscription -> bool) returns (m: string)
    ensures m == message + Changes(r, listChanges, newUser)
  {
    if SubscriptionFlow(r) {
      m := AppendSubscriptionEntries(message, NewSubscriptions(r), newUser);
    } else if listChanges {
      var producers := AppendListed([], "Nya producers:\n", r.producers);
      var both := AppendListed(producers, "Nya consumers:\n", r.consumers);
      assert producers == Listed("Nya producers:\n", r.producers);
      m := message + both;
    } else {
      m := message;
      assert Changes(r, listChanges, newUser) == [];
    }
  }

  /** The StringBuilder code shared by both generators. */
  method BuildCommitMessage(r: ProvisionRequest, newResource: bool, listChanges: bool, newUser: Subscription -> bool)
    returns (message: string)
    ensures message == CommitMessage(r, newResource, listChanges, newUser)
  {
    var sb := "\nBeställning avser:\n" + KindLine(r, newResource);
    sb := AppendResourceLines(sb, r);
    sb := AppendChanges(sb + "\nÄndring:\n", r, listChanges, newUser);
    message := Trim(Header(r) + sb);
  }

  /** `generateHieradataCommitMessage` */
  method GenerateHieradataCommitMessage(r: ProvisionRequest, existingAcmq: string) returns (message: string)
    ensures message == HieradataCommitMessage(r, existingAcmq)
  {
    message := BuildCommitMessage(r, IsNewRequest(r), true, SubscriberIsNew(existingAcmq));
  }

  /** `generatePuppetCommitMessage` */
  method GeneratePuppetCommitMessage(r: ProvisionRequest, resourceSecurityExists: bool, newUser: Subscription -> bool)
    returns (message: string)
    ensures message == PuppetCommitMessage(r, resourceSecurityExists, newUser)
  {
    message := BuildCommitMessage(r, IsNewRequest(r) && !resourceSecurityExists,
                                  !IsNewRequest(r) || resourceSecurityExists, newUser);
  }

  /** `trim()` keeps every char up to and including a kept (non-trimmable) one. */
  lemma TrimKeepsUpTo(s: string, k: nat)
    requires k < |s| && !IsTrimmable(s[0]) && !IsTrimmable(s[k])
    ensures s[..k + 1] <= Trim(s)
  {
    assert StripStart(s, IsTrimmable) == s;
    StripEndRemoved(s, IsTrimmable);
    assert k < |StripEnd(s, IsTrimmable)|;
  }

  /** The header starts with the (kept) letter of `Beställare`. */
  lemma HeaderStart(r: ProvisionRequest)
    ensures |Header(r)| > 0 && !IsTrimmable(Header(r)[0])
  {
    assert Header(r) == "Beställare: " + (r.requester + "\n" + "Team: " + r.team + "\n" + "Ärende: " + r.ticketNumber + "\n");
  }

  /** Whatever follows the header, the trim cannot reach into it. */
  lemma TrimKeepsHeader(h: string, t: string)
    requires |h| > 0 && !IsTrimmable(h[0])
    requires |t| > 1 && !IsTrimmable(t[1])
    ensures h <= Trim(h + t)
  {
    var s := h + t;
    assert s[0] == h[0] && s[|h| + 1] == t[1];
    TrimKeepsUpTo(s, |h| + 1);
    assert s[..|h| + 2][..|h|] == h;
  }

  /** Both messages open with the requester, team and ticket lines, untouched by the trim. */
  lemma CommitMessageStartsWithHeader(r: ProvisionRequest, newResource: bool, listChanges: bool, newUser: Subscription -> bool)
    ensures Header(r) <= CommitMessage(r, newResource, listChanges, newUser)
  {
    var t := Summary(r, newResource, listChanges, newUser);
    assert t[1] == 'B';
    HeaderStart(r);
    TrimKeepsHeader(Header(r), t);
  }

  /** For an order that is not `new` both messages read the same, whatever the broker file holds. */
  lemma CommitMessagesAgreeOnUpdates(r: ProvisionRequest, existingAcmq: string, resourceSecurityExists: bool)
    requires !IsNewRequest(r)
    ensures HieradataCommitMessage(r, existingAcmq) == PuppetCommitMessage(r, resourceSecurityExists, SubscriberIsNew(existingAcmq))
  {
  }

  /**
   * A new resource whose security setting already exists in the broker file is
   * described in the Puppet message exactly as an update would be.
   */
  lemma ExistingResourceDescribedAsUpdate(r: ProvisionRequest, newUser: Subscription -> bool)
    ensures PuppetCommitMessage(r, true, newUser) == PuppetCommitMessage(r.(requestType := "update"), false, newUser)
  {
    var u := r.(requestType := "update");
    assert !IsNewRequest(u);
    assert NewSubscriptions(u) == NewSubscriptions(r);
    assert Header(u) == Header(r);
    assert Summary(u, false, true, newUser) == Summary(r, false, true, newUser);
  }

  // ---------------------------------------------------------------------
  // The pull-request description
  // ---------------------------------------------------------------------

  /** One markdown `- x` line per item, in list order. */
  function DashItems(xs: seq<string>): string
    decreases |xs|
  {
    if |xs| == 0 then [] else DashItems(xs[..|xs| - 1]) + ("- " + xs[|xs| - 1] + "\n")
  }

  /** The markdown list of a concatenation is the lists of the parts, in order. */
  lemma {:induction false} DashItemsAppend(a: seq<string>, b: seq<string>)
    decreases |b|
    ensures DashItems(a + b) == DashItems(a) + DashItems(b)
  {
    if |b| == 0 {
      assert a + b == a;
    } else {
      assert (a + b)[..|a + b| - 1] == a + b[..|b| - 1];
      DashItemsAppend(a, b[..|b| - 1]);
    }
  }

  /** Each item has its own line: the list is one `- x` line followed by the list of the rest. */
  lemma DashItemsCons(x: string, xs: seq<string>)
    ensures DashItems([x] + xs) == "- " + x + "\n" + DashItems(xs)
  {
    DashItemsAppend([x], xs);
    assert [x][..0] == [];
  }

  /** The heading and the request id line. */
  function PrOpening(requestId: string): string {
    "## MQ Provisioning Request\n\n**Request ID:** " + requestId + "\n"
  }

  /** The type, name, requester and team lines, then a blank line. */
  function PrFields(r: ProvisionRequest): string {
    "**Type:** " + r.resourceType + "\n" + "**Name:** " + r.name + "\n" + "**Requestor:** " + r.requester + "\n"
    + "**Team:** " + r.team + "\n\n"
  }

  /** A titled markdown list and a blank line, for a present, non-empty list; nothing otherwise. */
  function PrList(title: string, xs: Option<seq<string>>): string {
    if NonEmpty(xs) then title + DashItems(xs.value) + "\n" else []
  }

  /** The description paragraph, for a present, non-empty description. */
  function PrNotes(d: Option<string>): string {
    if d.Some? && |d.value| > 0 then "**Description:**\n" + d.value + "\n" else []
  }

  /** Everything after the opening, up to the description paragraph. */
  function PrMiddle(r: ProvisionRequest): string {
    PrFields(r) + PrList("**Consumers:**\n", r.consumers) + PrList("**Producers:**\n", r.producers)
  }

  /** `generatePRDescription(request, requestId)`: opening, fields, consumers, producers, description. */
  function PrDescription(r: ProvisionRequest, requestId: string): string {
    PrOpening(requestId) + PrMiddle(r) + PrNotes(r.description)
  }

  /** The `forEach` that appends one markdown line per item. */
  method AppendDashItems(sb: string, xs: seq<string>) returns (r: string)
    ensures r == sb + DashItems(xs)
  {
    r := sb;
    for i := 0 to |xs|
      invariant r == sb + DashItems(xs[..i])
    {
      assert xs[..i + 1][..i] == xs[..i];
      r := r + ("- " + xs[i] + "\n");
    }
    assert xs[..|xs|] == xs;
  }

  /** `if (list != null && !list.isEmpty())`: the title, one line per item, and a blank line. */
  method AppendPrList(sb: string, title: string, xs: Option<seq<string>>) returns (r: string)
    ensures r == sb + PrList(title, xs)
  {
    r := sb;
    if xs.Some? && |xs.value| > 0 {
      r := AppendDashItems(r + title, xs.value);
      r := r + "\n";
    }
  }

  /** `generatePRDescription`: the StringBuilder code. */
  method GeneratePrDescription(r: ProvisionRequest, requestId: string) returns (description: string)
    ensures description == PrDescription(r, requestId)
  {
    var opening := PrOpening(requestId);
    var fields := PrFields(r);
    var consumers := AppendPrList(fields, "**Consumers:**\n", r.consumers);
    var middle := AppendPrList(consumers, "**Producers:**\n", r.producers);
    assert middle == PrMiddle(r);
    description := opening + middle;
    if r.description.Some? && |r.description.value| > 0 {
      description := description + ("**Description:**\n" + r.description.value + "\n");
    }
  }

  /** A concatenation starts with its first part and ends with its last. */
  lemma ConcatEnds(a: string, b: string, c: string)
    ensures a <= a + b + c
    ensures EndsWith(a + b + c, c)
  {
    assert (a + b + c)[..|a|] == a;
    assert (a + b + c)[|a + b + c| - |c|..] == c;
  }

  /**
   * The description opens with the heading and the request id and closes
   * with the request's own description when it has one.
   */
  lemma PrDescriptionEnds(r: ProvisionRequest, requestId: string)
    ensures "## MQ Provisioning Request\n\n**Request ID:** " + requestId + "\n" <= PrDescription(r, requestId)
    ensures r.description.Some? && |r.description.value| > 0 ==>
      EndsWith(PrDescription(r, requestId), "**Description:**\n" + r.description.value + "\n")
  {
    ConcatEnds(PrOpening(requestId), PrMiddle(r), PrNotes(r.description));
  }

  /** Without consumers, producers or description only the fixed lines remain. */
  lemma PrDescriptionBare(r: ProvisionRequest, requestId: string)
    requires !NonEmpty(r.consumers) && !NonEmpty(r.producers) && (r.description.None? || r.description.value == [])
    ensures PrDescription(r, requestId) == PrOpening(requestId) + PrFields(r)
  {
    assert PrMiddle(r) == PrFields(r) + [] + [];
    assert PrNotes(r.description) == [];
  }

  /**
   * The consumers are listed one per line, in order: for a list `[c] + cs`
   * the fields are followed by the title, `- c`, and the lines of `cs`.
   */
  lemma PrConsumersListed(r: ProvisionRequest, requestId: string, c: string, cs: seq<string>)
    requires r.consumers == Some([c] + cs)
    ensures PrOpening(requestId) + PrFields(r) + ("**Consumers:**\n- " + c + "\n" + DashItems(cs) + "\n") <= PrDescription(r, requestId)
  {
    var list := "**Consumers:**\n- " + c + "\n" + DashItems(cs) + "\n";
    assert PrList("**Consumers:**\n", r.consumers) == list by {
      DashItemsCons(c, cs);
    }
    PrefixOfParts(PrOpening(requestId), PrFields(r), list, PrList("**Producers:**\n", r.producers), PrNotes(r.description));
  }

  /** Regrouping a five-part concatenation: the first three parts are a prefix. */
  lemma PrefixOfParts(o: string, f: string, c: string, p: string, n: string)
    ensures o + f + c <= o + (f + c + p) + n
  {
    assert o + (f + c + p) + n == (o + f + c) + (p + n);
  }

  // ---------------------------------------------------------------------
  // The broker.xml.erb pipeline (`updateBrokerXmlRepo`, steps 4 to 5b)
  // ---------------------------------------------------------------------

  /**
   * Step 4: an existing resource block is updated in place; otherwise the
   * missing namespace and resource blocks are generated and, when that text
   * is not blank, inserted into the original text.
   */
  function SecuredXml(existing: string, request: ProvisionRequest): string {
    if ResourceSettingExists(existing, ToVariableName(request.name)) then SettingUpdated(existing, request)
    else
      var settings := SecuritySettingsToAdd(existing, request);
      if IsBlank(settings) then existing else SecuritySettingsInserted(existing, settings)
  }

  /** Step 4b, second half: the subscription's own block, only when the text lacks it. */
  function SubscriptionSettingAdded(xml: string, request: ProvisionRequest, sub: Subscription): string {
    if SubscriptionSettingExists(xml, request.name, sub.subscriptionName) then xml
    else
      var setting := SubscriptionSetting(request, sub);
      if IsBlank(setting) then xml else SettingAfterTopic(xml, request.name, setting)
  }

  /**
   * Step 4b for one subscription. `addSubscriber` stands for
   * `addSubscriberToTopicSecuritySetting(xml, topic, subscriber)`, which the
   * template service does not define; it runs only for a non-empty subscriber.
   */
  function SubscriptionSecured(xml: string, request: ProvisionRequest, sub: Subscription,
                               addSubscriber: (string, string, string) -> string): string {
    var withSubscriber := if sub.subscriber != [] then addSubscriber(xml, request.name, sub.subscriber) else xml;
    SubscriptionSettingAdded(withSubscriber, request, sub)
  }

  /** Step 4b over the subscriptions, in order, each seeing the text the previous one left. */
  function SubscriptionsSecured(xml: string, request: ProvisionRequest, subs: seq<Subscription>,
                                addSubscriber: (string, string, string) -> string): string
    decreases |subs|
  {
    if |subs| == 0 then xml
    else SubscriptionSecured(SubscriptionsSecured(xml, request, subs[..|subs| - 1], addSubscriber),
                             request, subs[|subs| - 1], addSubscriber)
  }

  /** Step 4b runs only for a topic with new subscriptions. */
  function SubscribedXml(xml: string, request: ProvisionRequest, addSubscriber: (string, string, string) -> string): string {
    if SubscriptionFlow(request) then SubscriptionsSecured(xml, request, NewSubscriptions(request), addSubscriber) else xml
  }

  /** Step 5b for one subscription: its queue, only when the text lacks it. */
  function QueueAddedIfMissing(xml: string, request: ProvisionRequest, sub: Subscription): string {
    if SubscriptionQueueExists(xml, request.name, sub.subscriptionName) then xml
    else QueueAddedAsWritten(xml, request.name, sub.subscriptionName)
  }

  /** Step 5b over the subscriptions, in order. */
  function QueuesAdded(xml: string, request: ProvisionRequest, subs: seq<Subscription>): string
    decreases |subs|
  {
    if |subs| == 0 then xml
    else QueueAddedIfMissing(QueuesAdded(xml, request, subs[..|subs| - 1]), request, subs[|subs| - 1])
  }

  /**
   * Step 5: a new address entry when the ORIGINAL text has none for the
   * resource; otherwise, for a topic with new subscriptions, the missing queues.
   */
  function AddressedXml(existing: string, xml: string, request: ProvisionRequest): string {
    if !AddressExists(existing, request) then AddressInserted(xml, AddressEntry(request))
    else if SubscriptionFlow(request) then QueuesAdded(xml, request, NewSubscriptions(request))
    else xml
  }

  /** The text `updateBrokerXmlRepo` writes back to `broker.xml.erb`. */
  function UpdatedBrokerXml(existing: string, request: ProvisionRequest, addSubscriber: (string, string, string) -> string): string {
    AddressedXml(existing, SubscribedXml(SecuredXml(existing, request), request, addSubscriber), request)
  }

  /** Step 4 of `updateBrokerXmlRepo`. */
  method SecureXml(existing: string, request: ProvisionRequest) returns (updated: string)
    ensures updated == SecuredXml(existing, request)
  {
    updated := existing;
    if ResourceSettingExists(existing, ToVariableName(request.name)) {
      updated := SettingUpdated(updated, request);
    } else {
      var settings := SecuritySettingsToAdd(existing, request);
      if !IsBlank(settings) {
        updated := InsertSecuritySettings(existing, settings);
      }
    }
  }

  /** Step 4b of `updateBrokerXmlRepo`: the loop over the new subscriptions. */
  method SecureSubscriptions(xml: string, request: ProvisionRequest, addSubscriber: (string, string, string) -> string)
    returns (updated: string)
    ensures updated == SubscribedXml(xml, request, addSubscriber)
  {
    updated := xml;
    if request.resourceType == "topic" && HasNewSubscriptions(request) {
      var subs := NewSubscriptions(request);
      for i := 0 to |subs|
        invariant updated == SubscriptionsSecured(xml, request, subs[..i], addSubscriber)
      {
        assert subs[..i + 1][..i] == subs[..i];
        var sub := subs[i];
        if sub.subscriber != [] {
          updated := addSubscriber(updated, request.name, sub.subscriber);
        }
        if !SubscriptionSettingExists(updated, request.name, sub.subscriptionName) {
          var setting := SubscriptionSetting(request, sub);
          if !IsBlank(setting) {
            updated := SettingAfterTopic(updated, request.name, setting);
          }
        }
      }
      assert subs[..|subs|] == subs;
    }
  }

  /** Step 5 and 5b of `updateBrokerXmlRepo`; the address test reads the original text. */
  method AddAddress(existing: string, xml: string, request: ProvisionRequest) returns (updated: string)
    ensures updated == AddressedXml(existing, xml, request)
  {
    updated := xml;
    if !AddressExists(existing, request) {
      updated := InsertAddress(updated, AddressEntry(request));
    } else if request.resourceType == "topic" && HasNewSubscriptions(request) {
      var subs := NewSubscriptions(request);
      for i := 0 to |subs|
        invariant updated == QueuesAdded(xml, request, subs[..i])
      {
        assert subs[..i + 1][..i] == subs[..i];
        if !SubscriptionQueueExists(updated, request.name, subs[i].subscriptionName) {
          updated := AddSubscriptionQueueToExistingAddress(updated, request.name, subs[i].subscriptionName);
        }
      }
      assert subs[..|subs|] == subs;
    }
  }

  /** `updateBrokerXmlRepo`, steps 4 to 5b, in the source's order. */
  method UpdateBrokerXml(existing: string, request: ProvisionRequest, addSubscriber: (string, string, string) -> string)
    returns (updated: string)
    ensures updated == UpdatedBrokerXml(existing, request, addSubscriber)
  {
    updated := SecureXml(existing, request);
    updated := SecureSubscriptions(updated, request, addSubscriber);
    updated := AddAddress(existing, updated, request);
  }

  /** A text holding a `<security-setting` match is not blank. */
  lemma SettingTextNotBlank(s: string, rest: string)
    requires Occurs(s, SettingOpen, rest)
    ensures !IsBlank(s)
  {
    var i := OccursFromWitness(s, 0, SettingOpen, rest);
    assert s[i] == SettingOpen[0];
    BlankIff(s);
  }

  /**
   * After step 4 the resource has its own block; a namespace block that was
   * missing (while the resource block was missing too) is there as well.
   */
  lemma SecuredXmlHasResource(existing: string, request: ProvisionRequest)
    requires OneLineRequest(request)
    ensures var prefix, v, r := NamespacePrefix(request.name), ToVariableName(request.name), SecuredXml(existing, request);
      && ResourceSettingExists(r, v)
      && (!ResourceSettingExists(existing, v) && !NamespaceExists(existing, prefix) ==> NamespaceExists(r, prefix))
  {
    var v := ToVariableName(request.name);
    if ResourceSettingExists(existing, v) {
      match FirstResourceBlock(existing, v)
      case Some((i, b)) => SettingUpdatedStillExists(existing, request, i, b);
      case None => assert SettingUpdated(existing, request) == existing;
    } else {
      var settings := SecuritySettingsToAdd(existing, request);
      SettingsToAddRecognised(existing, request, [], []);
      assert [] + settings + [] == settings;
      SettingTextNotBlank(settings, ResourceMatch(v));
      SecuritySettingsInsertedRecognised(existing, request);
    }
  }

  /**
   * Step 4b adds the subscription's block only when absent: afterwards the
   * block is there, and a second pass changes nothing.
   */
  lemma SubscriptionSettingAddedRecognised(xml: string, request: ProvisionRequest, sub: Subscription)
    requires sub.subscriptionName != []
    requires '\n' !in request.name && '\n' !in sub.subscriptionName && '\n' !in sub.subscriber
    requires TopicBlockEnd(xml, ToVariableName(request.name)).Some? || Contains(xml, SettingsClose)
    ensures var r := SubscriptionSettingAdded(xml, request, sub);
      && SubscriptionSettingExists(r, request.name, sub.subscriptionName)
      && SubscriptionSettingAdded(r, request, sub) == r
  {
    if !SubscriptionSettingExists(xml, request.name, sub.subscriptionName) {
      var setting := SubscriptionSetting(request, sub);
      SubscriptionSettingEmpty(request, sub);
      BlankIff(setting);
      assert !IsTrimmable(setting[0]);
      SettingAfterTopicRecognised(xml, request, sub);
    }
  }

  /**
   * Step 5b adds a subscription's queue only when absent: afterwards the
   * queue is there, and a second pass changes nothing.
   */
  lemma QueueAddedIfMissingRecognised(xml: string, request: ProvisionRequest, sub: Subscription)
    requires sub.subscriptionName != []
    requires FirstMulticastBlock(xml, ToVariableName(request.name)).Some?
    ensures var r := QueueAddedIfMissing(xml, request, sub);
      && SubscriptionQueueExists(r, request.name, sub.subscriptionName)
      && QueueAddedIfMissing(r, request, sub) == r
  {
    if !SubscriptionQueueExists(xml, request.name, sub.subscriptionName) {
      QueueAddedRecognised(xml, request.name, sub.subscriptionName, QueueIndentAsWritten);
    }
  }

  /**
   * Step 5: when the original text has no address for the resource, the new
   * entry (with a queue per new subscription of a topic) is recognised in the
   * result; when it has one and no subscription flow is under way, the text
   * is left as it is.
   */
  lemma AddressedXmlRecognised(existing: string, xml: string, request: ProvisionRequest)
    requires OneLineRequest(request)
    ensures var r := AddressedXml(existing, xml, request);
      && (!AddressExists(existing, request) && Contains(xml, AddressesClose) ==>
            AddressExists(r, request)
            && (request.resourceType != "queue" ==>
                  forall sub :: sub in NewSubscriptions(request) ==>
                    SubscriptionQueueExists(r, request.name, sub.subscriptionName)))
      && (AddressExists(existing, request) && !SubscriptionFlow(request) ==> r == xml)
  {
    if !AddressExists(existing, request) && Contains(xml, AddressesClose) {
      AddressInsertedRecognised(xml, request);
      if request.resourceType != "queue" {
        forall sub | sub in NewSubscriptions(request)
          ensures SubscriptionQueueExists(AddressInserted(xml, AddressEntry(request)), request.name, sub.subscriptionName)
        {
          AddressInsertedHasQueue(xml, request, sub);
        }
      }
    }
  }

  // ---------------------------------------------------------------------
  // The two repository updates and the whole request
  // ---------------------------------------------------------------------

  /** A file's new text and the commit message that goes with it. */
  datatype Change = Change(content: string, message: string)

  /**
   * `updateHieradataRepo`: the reconciled `acmq.yaml` and its message, or
   * nothing (no pull request) when the text would not change.
   */
  function HieradataUpdate(existingAcmq: string, request: ProvisionRequest): Result<Option<Change>> {
    match UpdatedAcmqYaml(existingAcmq, request)
    case Failure(e) => Failure(e)
    case Success(updated) =>
      if updated == existingAcmq then Success(None)
      else Success(Some(Change(updated, HieradataCommitMessage(request, existingAcmq))))
  }

  /** No change is published exactly when the reconciled text equals the original. */
  lemma HieradataUpdateNoChange(existingAcmq: string, request: ProvisionRequest)
    ensures HieradataUpdate(existingAcmq, request).Failure? <==> IsBlank(existingAcmq)
    ensures HieradataUpdate(existingAcmq, request) == Success(None) <==> UpdatedAcmqYaml(existingAcmq, request) == Success(existingAcmq)
    ensures HieradataUpdate(existingAcmq, request).Success? && HieradataUpdate(existingAcmq, request).value.Some? ==>
      var c := HieradataUpdate(existingAcmq, request).value.value;
      && c.content != existingAcmq && UpdatedAcmqYaml(existingAcmq, request) == Success(c.content)
      && c.message == HieradataCommitMessage(request, existingAcmq)
  {
  }

  /** What `updateBrokerXmlRepo` writes: the new `init.pp`, the new `broker.xml.erb` and one message. */
  datatype PuppetChange = PuppetChange(initPp: string, brokerXml: string, message: string)

  /**
   * `updateBrokerXmlRepo`; `newUser` stands for the subscribers' `isNewSubscriber`
   * flags and `addSubscriber` for the undefined template call.
   */
  function PuppetUpdate(existingInitPp: string, existingXml: string, request: ProvisionRequest,
                        newUser: Subscription -> bool, addSubscriber: (string, string, string) -> string): Result<PuppetChange> {
    match UpdatedInitPp(existingInitPp, request)
    case Failure(e) => Failure(e)
    case Success(initPp) =>
      var settingExists := ResourceSettingExists(existingXml, ToVariableName(request.name));
      Success(PuppetChange(initPp, UpdatedBrokerXml(existingXml, request, addSubscriber),
                           PuppetCommitMessage(request, settingExists, newUser)))
  }

  /** The message `processProvisionRequest` rethrows for any failure after validation. */
  const ProcessingFailed: string := "Kunde inte skapa provisioning request"

  /** The two changes of a processed request; the hieradata one may be absent. */
  datatype Outcome = Outcome(hieradata: Option<Change>, puppet: PuppetChange)

  /**
   * `processProvisionRequest` over the three files' texts: validation, the
   * admin filter, the hieradata step, then the Puppet step with the subscriber
   * flags the hieradata step computed from the original `acmq.yaml`.
   */
  function ProcessedRequest(request: ProvisionRequest, acmq: string, initPp: string, brokerXml: string,
                            addSubscriber: (string, string, string) -> string): Result<Outcome> {
    match ValidateRequest(request)
    case Failure(e) => Failure(e)
    case Success(_) =>
      var r := FilterAdminFromRequest(request);
      match HieradataUpdate(acmq, r)
      case Failure(_) => Failure(ProcessingFailed)
      case Success(h) =>
        match PuppetUpdate(initPp, brokerXml, r, SubscriberIsNew(acmq), addSubscriber)
        case Failure(_) => Failure(ProcessingFailed)
        case Success(p) => Success(Outcome(h, p))
  }

  /**
   * A request is processed exactly when it is valid and both the `acmq.yaml`
   * and the `init.pp` texts are non-blank; the Puppet change is always
   * produced, the hieradata one only when that text changes.
   */
  lemma ProcessedRequestIff(request: ProvisionRequest, acmq: string, initPp: string, brokerXml: string,
                            addSubscriber: (string, string, string) -> string)
    ensures var o, r := ProcessedRequest(request, acmq, initPp, brokerXml, addSubscriber), FilterAdminFromRequest(request);
      && (o.Success? <==> ValidateRequest(request).Success? && !IsBlank(acmq) && !IsBlank(initPp))
      && (o.Success? ==> (o.value.hieradata.None? <==> UpdatedAcmqYaml(acmq, r) == Success(acmq)))
      && (o.Success? ==> o.value.puppet.brokerXml == UpdatedBrokerXml(brokerXml, r, addSubscriber))
  {
    var o, r := ProcessedRequest(request, acmq, initPp, brokerXml, addSubscriber), FilterAdminFromRequest(request);
    if ValidateRequest(request).Success? {
      var h := HieradataUpdate(acmq, r);
      var p := PuppetUpdate(initPp, brokerXml, r, SubscriberIsNew(acmq), addSubscriber);
      assert o == if h.Failure? || p.Failure? then Failure(ProcessingFailed) else Success(Outcome(h.value, p.value));
      assert (h.Failure? <==> IsBlank(acmq))
          && (h == Success(None) <==> UpdatedAcmqYaml(acmq, r) == Success(acmq)) by {
        HieradataUpdateNoChange(acmq, r);
      }
      assert (p.Failure? <==> IsBlank(initPp))
          && (p.Success? ==> p.value.brokerXml == UpdatedBrokerXml(brokerXml, r, addSubscriber)) by {
        PuppetUpdateFails(initPp, brokerXml, r, SubscriberIsNew(acmq), addSubscriber);
      }
    } else {
      assert o.Failure?;
    }
  }

  /** The Puppet step fails exactly on a blank `init.pp` and otherwise writes the updated `broker.xml.erb`. */
  lemma PuppetUpdateFails(initPp: string, brokerXml: string, request: ProvisionRequest,
                          newUser: Subscription -> bool, addSubscriber: (string, string, string) -> string)
    ensures var p := PuppetUpdate(initPp, brokerXml, request, newUser, addSubscriber);
      && (p.Failure? <==> IsBlank(initPp))
      && (p.Success? ==> p.value.brokerXml == UpdatedBrokerXml(brokerXml, request, addSubscriber))
  {
  }
}
