/**
 * The address side of `BrokerXmlTemplateService`: the address entry
 * written for a new queue or topic (`generateAddressEntry`) and the
 * subscription queue added to a topic's existing multicast block
 * (`addSubscriptionQueueToExistingAddress`).
 */
module BrokerXmlAddress {
  import opened Wrappers
  import opened Text
  import opened Identifiers
  import opened Request
  import opened BrokerXml
  import opened BrokerXmlInsert

  // ---------------------------------------------------------------------
  // generateAddressEntry
  // ---------------------------------------------------------------------

  /** `<queue name="<%= @multicast_<sub>%>"/>` */
  function MulticastQueueLine(sv: string): string {
    QueueOpen + " " + QueueName(sv) + "/>"
  }

  /** `<queue name="<%= @anycast_<var>%>"/>` */
  function AnycastQueueLine(v: string): string {
    QueueOpen + " name=\"<%= @anycast_" + v + "%>\"/>"
  }

  /** One multicast queue line per subscription, in list order. */
  function QueueLines(subs: seq<Subscription>): (r: seq<string>)
    ensures |r| == |subs|
  {
    if |subs| == 0 then [] else QueueLines(subs[..|subs| - 1]) + [MulticastQueueLine(ToVariableName(subs[|subs| - 1].subscriptionName))]
  }

  /** The k-th queue line names the k-th subscription. */
  lemma {:induction false} QueueLinesAt(subs: seq<Subscription>, k: nat)
    requires k < |subs|
    ensures QueueLines(subs)[k] == MulticastQueueLine(ToVariableName(subs[k].subscriptionName))
  {
    if k < |subs| - 1 {
      QueueLinesAt(subs[..|subs| - 1], k);
    }
  }

  /**
   * The queues of a topic's multicast block: one per new subscription when
   * the list is present and non-empty, else one for a non-empty legacy
   * subscription name, else none.
   */
  function TopicQueueLines(request: ProvisionRequest): seq<string> {
    if request.subscriptions.Some? && |request.subscriptions.value| > 0 then QueueLines(NewSubscriptions(request))
    else if request.legacySubscriptionName.Some? && request.legacySubscriptionName.value != [] then
      [MulticastQueueLine(ToVariableName(request.legacySubscriptionName.value))]
    else []
  }

  /** The lines of the entry between the address tags. */
  function RoutingLines(request: ProvisionRequest): seq<string> {
    if request.resourceType == "queue" then
      ["<anycast>", AnycastQueueLine(ToVariableName(request.name)), "</anycast>"]
    else
      [MulticastOpen] + TopicQueueLines(request) + [MulticastClose]
  }

  /** The open tag of the entry. */
  function AddressOpenLine(request: ProvisionRequest): string {
    AddressOpen + " " + AddressName(ToVariableName(request.name))
  }

  /** Every line of the entry, open tag first and close tag last. */
  function AddressEntryLines(request: ProvisionRequest): seq<string> {
    [AddressOpenLine(request)] + RoutingLines(request) + ["</address>"]
  }

  /** `generateAddressEntry(request)`: the lines, unindented, joined with newlines. */
  function AddressEntry(request: ProvisionRequest): string {
    Join(AddressEntryLines(request), "\n")
  }

  /** `generateAddressEntry` */
  method GenerateAddressEntry(request: ProvisionRequest) returns (xml: string)
    ensures xml == AddressEntry(request)
  {
    var v := ToVariableName(request.name);
    ghost var written;
    xml, written := AppendLine([], [], AddressOpen + " " + AddressName(v));
    assert written == [AddressOpenLine(request)];
    if request.resourceType == "queue" {
      xml := AppendAnycastBlock(xml, written, v);
    } else {
      xml := AppendMulticastBlock(xml, written, request);
    }
    EntryClosed(request, written + RoutingLines(request), xml);
    xml := xml + "</address>";
  }

  /** The queue branch of `generateAddressEntry`: the anycast block. */
  method AppendAnycastBlock(xml: string, ghost written: seq<string>, v: string) returns (r: string)
    requires xml == Lines(written)
    ensures r == Lines(written + ["<anycast>", AnycastQueueLine(v), "</anycast>"])
  {
    ghost var now;
    r, now := AppendLine(xml, written, "<anycast>");
    r, now := AppendLine(r, now, AnycastQueueLine(v));
    r, now := AppendLine(r, now, "</anycast>");
    SnocThree(written, "<anycast>", AnycastQueueLine(v), "</anycast>");
  }

  /** The topic branch of `generateAddressEntry`: the multicast block and its queues. */
  method AppendMulticastBlock(xml: string, ghost written: seq<string>, request: ProvisionRequest) returns (r: string)
    requires xml == Lines(written)
    ensures r == Lines(written + ([MulticastOpen] + TopicQueueLines(request) + [MulticastClose]))
  {
    ghost var head, now;
    r, head := AppendLine(xml, written, MulticastOpen);
    if request.subscriptions.Some? && |request.subscriptions.value| > 0 {
      r := AppendQueueLines(r, head, NewSubscriptions(request));
    } else if request.legacySubscriptionName.Some? && request.legacySubscriptionName.value != [] {
      r, now := AppendLine(r, head, MulticastQueueLine(ToVariableName(request.legacySubscriptionName.value)));
    } else {
      assert head + [] == head;
    }
    r, now := AppendLine(r, head + TopicQueueLines(request), MulticastClose);
    SnocFramed(written, MulticastOpen, TopicQueueLines(request), MulticastClose);
  }

  /** The loop of `generateAddressEntry` over the new subscriptions: one queue line each. */
  method AppendQueueLines(xml: string, ghost written: seq<string>, subs: seq<Subscription>) returns (r: string)
    requires xml == Lines(written)
    ensures r == Lines(written + QueueLines(subs))
  {
    r := xml;
    var i := 0;
    assert written + QueueLines(subs[..0]) == written;
    while i < |subs|
      invariant i <= |subs|
      invariant r == Lines(written + QueueLines(subs[..i]))
    {
      var line := MulticastQueueLine(ToVariableName(subs[i].subscriptionName));
      ghost var now;
      r, now := AppendLine(r, written + QueueLines(subs[..i]), line);
      assert subs[..i + 1][..i] == subs[..i];
      assert written + QueueLines(subs[..i]) + [line] == written + QueueLines(subs[..i + 1]);
      i := i + 1;
    }
    assert subs[..|subs|] == subs;
  }

  /** Closing the address tag after the open tag and routing lines gives the entry. */
  lemma EntryClosed(request: ProvisionRequest, written: seq<string>, xml: string)
    requires written == [AddressOpenLine(request)] + RoutingLines(request)
    requires xml == Lines(written)
    ensures xml + "</address>" == AddressEntry(request)
  {
    JoinAsLines(written, "</address>");
  }

  /** Three lines appended one at a time. */
  lemma SnocThree<T>(xs: seq<T>, b: T, c: T, d: T)
    ensures xs + [b] + [c] + [d] == xs + [b, c, d]
  {
  }

  /** A framed block appended in three steps. */
  lemma SnocFramed<T>(xs: seq<T>, b: T, ys: seq<T>, c: T)
    ensures xs + [b] + ys + [c] == xs + ([b] + ys + [c])
  {
  }

  /** The entry is what `checkAddressExists` looks for, wherever it is placed. */
  lemma AddressEntryRecognised(request: ProvisionRequest, a: string, c: string)
    ensures AddressExists(a + AddressEntry(request) + c, request)
  {
    var lines := AddressEntryLines(request);
    var rest := AddressName(ToVariableName(request.name));
    TagOccurs(AddressOpen, rest);
    OccursInJoin(lines, 0, a, c, AddressOpen, rest);
    OccursNonEmpty(a + AddressEntry(request) + c, AddressOpen, rest);
  }

  /**
   * A topic's entry lists a queue for every new subscription, so
   * `checkSubscriptionQueueExistsInAddress` holds for each of them.
   */
  lemma AddressEntryHasQueues(request: ProvisionRequest, sub: Subscription, a: string, c: string)
    requires request.resourceType != "queue"
    requires request.subscriptions.Some? && sub in NewSubscriptions(request)
    ensures SubscriptionQueueExists(a + AddressEntry(request) + c, request.name, sub.subscriptionName)
  {
    if sub.subscriptionName != [] {
      var subs := NewSubscriptions(request);
      var k :| 0 <= k < |subs| && subs[k] == sub;
      var lines := AddressEntryLines(request);
      var sv := ToVariableName(sub.subscriptionName);
      TopicEntryQueues(request);
      assert TopicQueueLines(request) == QueueLines(subs);
      QueueLinesAt(subs, k);
      assert lines[2..|lines| - 2][k] == lines[k + 2];
      QueueLineOccurs(sv);
      OccursInJoin(lines, k + 2, a, c, QueueOpen, QueueName(sv));
      OccursNonEmpty(a + AddressEntry(request) + c, QueueOpen, QueueName(sv));
    }
  }

  /** A multicast queue line is what the queue check looks for. */
  lemma QueueLineOccurs(sv: string)
    ensures Occurs(MulticastQueueLine(sv), QueueOpen, QueueName(sv))
  {
    OccursAtTag([], QueueOpen, QueueName(sv), "/>", []);
    assert [] + (QueueOpen + " " + QueueName(sv) + "/>") + [] == MulticastQueueLine(sv);
  }

  /** A queue's entry routes anycast to the single queue of the same name. */
  lemma QueueEntryAnycast(request: ProvisionRequest)
    requires request.resourceType == "queue"
    ensures |AddressEntryLines(request)| == 5
    ensures AddressEntryLines(request)[2] == AnycastQueueLine(ToVariableName(request.name))
    ensures forall k :: 0 <= k < 5 ==> !StartsAt(AddressEntryLines(request)[k], "<multicast", 0)
  {
  }

  /** A topic's entry holds one multicast queue per queue it lists, and nothing else between its tags. */
  lemma TopicEntryQueues(request: ProvisionRequest)
    requires request.resourceType != "queue"
    ensures var lines := AddressEntryLines(request);
      |lines| == |TopicQueueLines(request)| + 4
      && lines[1] == MulticastOpen && lines[|lines| - 2] == MulticastClose
      && lines[2..|lines| - 2] == TopicQueueLines(request)
  {
    Framed(AddressOpenLine(request), MulticastOpen, TopicQueueLines(request), MulticastClose, "</address>");
  }

  /** The middle of a list framed by two items on each side. */
  lemma Framed<T>(a: T, b: T, xs: seq<T>, c: T, d: T)
    ensures var l := [a] + ([b] + xs + [c]) + [d];
      |l| == |xs| + 4 && l[1] == b && l[|l| - 2] == c && l[2..|l| - 2] == xs
  {
    var l := [a] + ([b] + xs + [c]) + [d];
    assert l == [a, b] + xs + [c, d];
  }

  // ---------------------------------------------------------------------
  // addSubscriptionQueueToExistingAddress
  // ---------------------------------------------------------------------

  /** Where group 2 (the multicast body) of an address block starts and ends; `</multicast>` starts at `innerEnd`. */
  datatype MulticastSpan = MulticastSpan(innerStart: nat, innerEnd: nat)

  /**
   * `(<address\s+name="<%= @address_<var>%>">.*?<multicast>)(.*?)(</multicast>)`
   * with DOTALL at index `i`: the first `<multicast>` after the open tag,
   * then the first `</multicast>` after that.
   */
  function MulticastMatch(s: string, i: nat, v: string): (r: Option<MulticastSpan>)
    ensures r.Some? ==> i < r.value.innerStart <= r.value.innerEnd && StartsAt(s, MulticastClose, r.value.innerEnd)
  {
    if !SpacedAt(s, i, AddressOpen, AddressName(v)) then None
    else
      var o := SpacedEnd(s, i, AddressOpen, AddressName(v));
      match IndexOfFrom(s, MulticastOpen, o)
        case None => None
        case Some(m) =>
          match IndexOfFrom(s, MulticastClose, m + |MulticastOpen|)
            case None => None
            case Some(c) => Some(MulticastSpan(m + |MulticastOpen|, c))
  }

  /** `matcher.find()` with the address block pattern. */
  function FirstMulticastBlock(s: string, v: string): (r: Option<(nat, MulticastSpan)>)
    ensures r.Some? ==> r.value.0 < r.value.1.innerStart <= r.value.1.innerEnd
                        && StartsAt(s, MulticastClose, r.value.1.innerEnd)
  {
    FirstMatch(s, 0, (i: nat) => MulticastMatch(s, i, v))
  }

  /** `^(\s*)<queue` (MULTILINE), as written: group 1 may run over line breaks. */
  function QueueIndentMatchAsWritten(g: string, i: nat): Option<nat> {
    if i > |g| || !AtLineStart(g, i) then None
    else
      var e := WsEnd(g, i);
      if StartsAt(g, QueueOpen, e) then Some(e) else None
  }

  /** `^([ \t]*)<queue` (MULTILINE): group 1 is the indent of a queue line. */
  function QueueIndentMatch(g: string, i: nat): Option<nat> {
    if i > |g| || !AtLineStart(g, i) then None
    else
      var e := IndentEnd(g, i);
      if StartsAt(g, QueueOpen, e) then Some(e) else None
  }

  /** The queue indent as written: group 1 of the first match, or fourteen spaces. */
  function QueueIndentAsWritten(g: string): string {
    DetectedIndent(g, (i: nat) => QueueIndentMatchAsWritten(g, i), Repeat(' ', 14))
  }

  /** The queue indent: the indent of the first queue line of the body, or fourteen spaces. */
  function QueueIndent(g: string): string {
    DetectedIndent(g, (i: nat) => QueueIndentMatch(g, i), Repeat(' ', 14))
  }

  /** The new queue line after its indent. */
  function QueueTag(indent: string, sv: string): string {
    indent + MulticastQueueLine(sv)
  }

  /** The body with its trailing whitespace stripped, the new line, and twelve spaces before `</multicast>`. */
  function UpdatedMulticast(g: string, tag: string): string {
    StripTrailing(g) + "\n" + tag + ("\n" + Repeat(' ', 12))
  }

  /**
   * `addSubscriptionQueueToExistingAddress` with the queue indent taken by
   * `indentOf` from the multicast body: an empty subscription name or a
   * missing block leaves the text as it is; otherwise the first block's
   * body is replaced by its updated form.
   */
  function QueueAddedWith(content: string, topic: string, subscription: string, indentOf: string -> string): string {
    if subscription == [] then content
    else match FirstMulticastBlock(content, ToVariableName(topic))
      case None => content
      case Some((i, b)) =>
        var g := content[b.innerStart..b.innerEnd];
        content[..b.innerStart] + UpdatedMulticast(g, QueueTag(indentOf(g), ToVariableName(subscription))) + content[b.innerEnd..]
  }

  /** The operation as written, with `^(\s*)<queue`. */
  function QueueAddedAsWritten(content: string, topic: string, subscription: string): string {
    QueueAddedWith(content, topic, subscription, QueueIndentAsWritten)
  }

  /** The operation with the indent limited to spaces and tabs. */
  function QueueAdded(content: string, topic: string, subscription: string): string {
    QueueAddedWith(content, topic, subscription, QueueIndent)
  }

  /** `addSubscriptionQueueToExistingAddress`, as written (`^(\s*)<queue`). */
  method AddSubscriptionQueueToExistingAddress(content: string, topic: string, subscription: string) returns (r: string)
    ensures r == QueueAddedAsWritten(content, topic, subscription)
  {
    if subscription == [] {
      return content;
    }
    var found := FirstMulticastBlock(content, ToVariableName(topic));
    if found.None? {
      return content;
    }
    var b := found.value.1;
    var g := content[b.innerStart..b.innerEnd];
    var tag := QueueIndentAsWritten(g) + MulticastQueueLine(ToVariableName(subscription));
    var updated := StripTrailing(g) + "\n" + tag + ("\n" + Repeat(' ', 12));
    r := content[..b.innerStart] + updated + content[b.innerEnd..];
  }

  /** An empty subscription name, or a topic without an address block, changes nothing. */
  lemma QueueAddedUnchanged(content: string, topic: string, subscription: string, indentOf: string -> string)
    ensures subscription == [] ==> QueueAddedWith(content, topic, subscription, indentOf) == content
    ensures FirstMulticastBlock(content, ToVariableName(topic)).None? ==> QueueAddedWith(content, topic, subscription, indentOf) == content
  {
  }

  /**
   * Only the first block's body changes: the text up to it and the text
   * from its `</multicast>` on are kept around the updated body, which
   * begins with the old body stripped of its trailing whitespace.
   */
  lemma QueueAddedKeeps(content: string, topic: string, subscription: string, indentOf: string -> string, i: nat, b: MulticastSpan)
    requires subscription != [] && FirstMulticastBlock(content, ToVariableName(topic)) == Some((i, b))
    ensures var r, g := QueueAddedWith(content, topic, subscription, indentOf), content[b.innerStart..b.innerEnd];
      var mid := UpdatedMulticast(g, QueueTag(indentOf(g), ToVariableName(subscription)));
      && StripTrailing(g) <= mid
      && r[..b.innerStart] == content[..b.innerStart]
      && r[b.innerStart..b.innerStart + |mid|] == mid
      && r[b.innerStart + |mid|..] == content[b.innerEnd..]
  {
    var g := content[b.innerStart..b.innerEnd];
    var mid := UpdatedMulticast(g, QueueTag(indentOf(g), ToVariableName(subscription)));
    var r := content[..b.innerStart] + mid + content[b.innerEnd..];
    assert QueueAddedWith(content, topic, subscription, indentOf) == r;
    SpliceFrame(content, b.innerStart, b.innerEnd, mid);
  }

  /** After the queue is added, `checkSubscriptionQueueExistsInAddress` holds, so a second run adds nothing. */
  lemma QueueAddedRecognised(content: string, topic: string, subscription: string, indentOf: string -> string)
    requires subscription != [] && FirstMulticastBlock(content, ToVariableName(topic)).Some?
    ensures SubscriptionQueueExists(QueueAddedWith(content, topic, subscription, indentOf), topic, subscription)
  {
    var b := FirstMulticastBlock(content, ToVariableName(topic)).value.1;
    var g := content[b.innerStart..b.innerEnd];
    var rest := QueueName(ToVariableName(subscription));
    var a := content[..b.innerStart] + (StripTrailing(g) + "\n" + indentOf(g));
    var c := ("\n" + Repeat(' ', 12)) + content[b.innerEnd..];
    OccursAtTag(a, QueueOpen, rest, "/>", c);
    RegroupTag(content[..b.innerStart], StripTrailing(g) + "\n", indentOf(g), QueueOpen + " " + rest + "/>",
               "\n" + Repeat(' ', 12), content[b.innerEnd..]);
    OccursNonEmpty(QueueAddedWith(content, topic, subscription, indentOf), QueueOpen, rest);
  }

  /** Regrouping a splice around the tag inside the replacement. */
  lemma RegroupTag(p: string, s: string, i: string, t: string, e: string, x: string)
    ensures p + (s + (i + t) + e) + x == (p + (s + i)) + t + (e + x)
  {
  }

  /** The corrected indent is spaces and tabs only, so the new queue line follows the body directly. */
  lemma QueueIndentOneLine(g: string, sv: string)
    ensures forall k :: 0 <= k < |QueueIndent(g)| ==> QueueIndent(g)[k] == ' ' || QueueIndent(g)[k] == '\t'
    ensures QueueTag(QueueIndent(g), sv)[0] != '\n'
  {
    var m := (i: nat) => QueueIndentMatch(g, i);
    match FirstMatch(g, 0, m)
      case None =>
      case Some((i, e)) =>
        assert QueueIndentMatch(g, i) == Some(e);
  }

  /** In the updated body the new line follows the last non-blank one after exactly one line break. */
  lemma UpdatedMulticastNoBlankLine(g: string, sv: string)
    ensures var u := UpdatedMulticast(g, QueueTag(QueueIndent(g), sv));
      u[|StripTrailing(g)|] == '\n' && u[|StripTrailing(g)| + 1] != '\n'
  {
    QueueIndentOneLine(g, sv);
  }

  /**
   * With the corrected indent the added queue line follows the kept body
   * after exactly one line break.
   */
  lemma QueueAddedNoBlankLine(content: string, topic: string, subscription: string, i: nat, b: MulticastSpan)
    requires subscription != [] && FirstMulticastBlock(content, ToVariableName(topic)) == Some((i, b))
    ensures var r, n := QueueAdded(content, topic, subscription), b.innerStart + |StripTrailing(content[b.innerStart..b.innerEnd])|;
      n + 1 < |r| && r[n] == '\n' && r[n + 1] != '\n'
  {
    var g := content[b.innerStart..b.innerEnd];
    var sv := ToVariableName(subscription);
    var mid := UpdatedMulticast(g, QueueTag(QueueIndent(g), sv));
    var r := QueueAdded(content, topic, subscription);
    QueueAddedKeeps(content, topic, subscription, QueueIndent, i, b);
    UpdatedMulticastNoBlankLine(g, sv);
    var n := |StripTrailing(g)|;
    assert r[b.innerStart + n] == mid[n];
    assert r[b.innerStart + n + 1] == mid[n + 1];
  }

  /**
   * As written, `\s*` at the start of the body swallows the line break
   * before the first queue, so the detected indent starts with a newline
   * and the added queue line is preceded by an empty line.
   */
  lemma QueueIndentAsWrittenBlankLine()
    ensures QueueIndentAsWritten("\n <queue") == "\n "
    ensures var g := "\n <queue";
      var u := UpdatedMulticast(g, QueueTag(QueueIndentAsWritten(g), "s"));
      u[|StripTrailing(g)|] == '\n' && u[|StripTrailing(g)| + 1] == '\n'
    ensures QueueIndent("\n <queue") == " "
  {
    var g := "\n <queue";
    assert WsEnd(g, 2) == 2 by { assert g[2] == '<'; }
    assert WsEnd(g, 0) == 2;
    StartsAtIff(g, QueueOpen, 2);
    assert g[2..8] == QueueOpen;
    assert QueueIndentMatchAsWritten(g, 0) == Some(2);
    assert g[1] == ' ' && g[2] == '<';
    assert IndentEnd(g, 0) == 0;
    assert IndentEnd(g, 1) == 2;
    assert QueueIndentMatch(g, 0) == None;
    assert QueueIndentMatch(g, 1) == Some(2);
  }
}
