/**
 * The broker.xml ERB template (`BrokerXmlTemplateService`). The template
 * holds, among the Artemis broker settings, a `<security-settings>` list of
 *   `<security-setting match="..."> <permission type="T" roles="r1,r2"/> ... </security-setting>`
 * blocks and an `<addresses>` list of
 *   `<address name="<%= @address_<var>%>"> <anycast>|<multicast> <queue name=.../> ... </address>`
 * entries. A request adds the blocks it still lacks (found with the existence
 * patterns below), rewrites the role lists of an existing block, and adds
 * subscription queues and subscription security settings to a topic.
 *
 * Every regular expression of the service is a per-position matcher here;
 * `FirstMatch` gives the position `find()` reports.
 */
module BrokerXml {
  import opened Wrappers
  import opened Text
  import opened Identifiers
  import opened Request
  import OrderedSet

  const SettingOpen: string := "<security-setting"
  const SettingClose: string := "</security-setting>"
  const SettingsClose: string := "</security-settings>"
  const AddressOpen: string := "<address"
  const QueueOpen: string := "<queue"
  const MulticastOpen: string := "<multicast>"
  const MulticastClose: string := "</multicast>"

  // ---------------------------------------------------------------------
  // The `<tag\s+attribute...` patterns and the existence checks
  // ---------------------------------------------------------------------

  /**
   * `open\s+rest` at index `i`. Every `rest` used below starts with a
   * letter, so the whitespace run is the maximal one: a shorter run would
   * leave a space where the letter must be.
   */
  predicate SpacedAt(s: string, i: nat, open: string, rest: string) {
    StartsAt(s, open, i) && WsEnd(s, i + |open|) > i + |open| && StartsAt(s, rest, WsEnd(s, i + |open|))
  }

  /** Where a match of `open\s+rest` at `i` ends. */
  function SpacedEnd(s: string, i: nat, open: string, rest: string): (e: nat)
    requires SpacedAt(s, i, open, rest)
    ensures i + |open| < e <= |s| && e - |rest| >= i + |open|
  {
    WsEnd(s, i + |open|) + |rest|
  }

  /** A match of `open\s+rest` at `i` or after it. */
  predicate OccursFrom(s: string, i: nat, open: string, rest: string)
    decreases |s| - i
  {
    i <= |s| && (SpacedAt(s, i, open, rest) || OccursFrom(s, i + 1, open, rest))
  }

  /** `Pattern.compile("open\\s+rest").matcher(s).find()` */
  predicate Occurs(s: string, open: string, rest: string) {
    OccursFrom(s, 0, open, rest)
  }

  /** A match at `i` is found by a search that starts at or before `i`. */
  lemma {:induction false} OccursFromAt(s: string, j: nat, i: nat, open: string, rest: string)
    requires j <= i <= |s| && SpacedAt(s, i, open, rest)
    decreases i - j
    ensures OccursFrom(s, j, open, rest)
  {
    if j < i {
      OccursFromAt(s, j + 1, i, open, rest);
    }
  }

  /** The search finds a match only where there is one. */
  lemma {:induction false} OccursFromWitness(s: string, j: nat, open: string, rest: string) returns (i: nat)
    requires OccursFrom(s, j, open, rest)
    decreases |s| - j
    ensures j <= i <= |s| && SpacedAt(s, i, open, rest)
  {
    if SpacedAt(s, j, open, rest) {
      i := j;
    } else {
      i := OccursFromWitness(s, j + 1, open, rest);
    }
  }

  /** The attribute part of `<security-setting\s+match="<prefix>\.#">`. */
  function NamespaceMatch(prefix: string): string {
    "match=\"" + prefix + ".#\">"
  }

  /** The attribute part of `<security-setting\s+match="<%= @address_<var>%>\.#">`. */
  function ResourceMatch(v: string): string {
    "match=\"<%= @address_" + v + "%>.#\">"
  }

  /** The attribute part of `<security-setting\s+match="<%= @address_<var>%>::<%= @multicast_<sub>%>">`. */
  function SubscriptionMatch(v: string, sv: string): string {
    "match=\"<%= @address_" + v + "%>::<%= @multicast_" + sv + "%>\">"
  }

  /** The attribute part of `<address\s+name="<%= @address_<var>%>">`. */
  function AddressName(v: string): string {
    "name=\"<%= @address_" + v + "%>\">"
  }

  /** The attribute part of `<queue\s+name="<%= @multicast_<sub>%>"`. */
  function QueueName(sv: string): string {
    "name=\"<%= @multicast_" + sv + "%>\""
  }

  /** `checkNamespaceExists`: the namespace's wildcard block is present. */
  predicate NamespaceExists(content: string, prefix: string) {
    content != [] && Occurs(content, SettingOpen, NamespaceMatch(prefix))
  }

  /** `checkResourceSecuritySettingExists`: the resource's own block is present. */
  predicate ResourceSettingExists(content: string, v: string) {
    content != [] && Occurs(content, SettingOpen, ResourceMatch(v))
  }

  /** `checkSubscriptionSecuritySettingExists(content, topic, subscription)`; an empty subscription counts as present. */
  predicate SubscriptionSettingExists(content: string, topic: string, subscription: string) {
    content != []
    && (subscription == []
        || Occurs(content, SettingOpen, SubscriptionMatch(ToVariableName(topic), ToVariableName(subscription))))
  }

  /** `checkAddressExists`: the resource's address entry is present. */
  predicate AddressExists(content: string, request: ProvisionRequest) {
    content != [] && Occurs(content, AddressOpen, AddressName(ToVariableName(request.name)))
  }

  /**
   * `checkSubscriptionQueueExistsInAddress(content, topic, subscription)`:
   * a queue of that name anywhere in the text; the topic is not consulted.
   */
  predicate SubscriptionQueueExists(content: string, topic: string, subscription: string) {
    content != [] && (subscription == [] || Occurs(content, QueueOpen, QueueName(ToVariableName(subscription))))
  }

  /** The tag as the generators write it, with one space, is a match. */
  lemma SpacedLiteral(open: string, rest: string, tail: string)
    requires rest != [] && !IsSpace(rest[0])
    ensures SpacedAt(open + " " + rest + tail, 0, open, rest)
    ensures SpacedEnd(open + " " + rest + tail, 0, open, rest) == |open| + 1 + |rest|
  {
    var s := open + " " + rest + tail;
    assert s[..|open|] == open;
    assert s[|open|] == ' ' && s[|open| + 1] == rest[0];
    WsEndIs(s, |open|, |open| + 1);
    assert s[|open| + 1..|open| + 1 + |rest|] == rest;
    StartsAtIff(s, open, 0);
    StartsAtIff(s, rest, |open| + 1);
  }

  /** A match inside a piece of text is a match, at the shifted index, of any text around it. */
  lemma SpacedWithin(a: string, b: string, c: string, i: nat, open: string, rest: string)
    requires rest != [] && !IsSpace(rest[0])
    requires SpacedAt(b, i, open, rest)
    ensures SpacedAt(a + b + c, |a| + i, open, rest)
    ensures SpacedEnd(a + b + c, |a| + i, open, rest) == |a| + SpacedEnd(b, i, open, rest)
  {
    var e := WsEnd(b, i + |open|);
    assert b[e] == rest[0];
    WsEndWithin(a, b, c, i + |open|);
    StartsAtWithin(a, b, c, open, i);
    StartsAtWithin(a, b, c, rest, e);
  }

  /** A match that ends inside a slice is, at the shifted index, a match of the slice. */
  lemma SpacedSlice(s: string, lo: nat, hi: nat, i: nat, open: string, rest: string)
    requires rest != [] && lo <= i && SpacedAt(s, i, open, rest) && SpacedEnd(s, i, open, rest) <= hi <= |s|
    ensures SpacedAt(s[lo..hi], i - lo, open, rest)
    ensures SpacedEnd(s[lo..hi], i - lo, open, rest) == SpacedEnd(s, i, open, rest) - lo
  {
    var e := WsEnd(s, i + |open|);
    StartsAtSlice(s, lo, hi, open, i);
    WsEndSlice(s, lo, hi, i + |open|);
    StartsAtSlice(s, lo, hi, rest, e);
  }

  /** A match inside a slice is a match of the whole text, at the shifted index. */
  lemma SpacedUnslice(s: string, lo: nat, hi: nat, t: string, i: nat, open: string, rest: string)
    requires lo <= hi <= |s| && s[lo..hi] == t && rest != [] && SpacedAt(t, i, open, rest)
    ensures SpacedAt(s, lo + i, open, rest)
    ensures SpacedEnd(s, lo + i, open, rest) == lo + SpacedEnd(t, i, open, rest)
  {
    var e := WsEnd(t, i + |open|);
    StartsAtUnslice(s, lo, hi, t, open, i);
    WsEndUnslice(s, lo, hi, t, i + |open|);
    StartsAtUnslice(s, lo, hi, t, rest, e);
  }

  /** `open\s+mid\s*last` at `i` where `last` starts with a letter, so both runs are maximal: where the match ends. */
  function SpacedPairEnd(s: string, i: nat, open: string, mid: string, last: string): (r: Option<nat>)
    ensures r.Some? ==> i < r.value <= |s|
  {
    if !SpacedAt(s, i, open, mid) then None
    else
      var t := SpacedEnd(s, i, open, mid);
      if SpacedAt(s, t, [], last) then Some(SpacedEnd(s, t, [], last)) else None
  }

  /** A slice that is exactly a pair match is one in the whole text. */
  lemma SpacedPairUnslice(x: string, i: nat, rs: nat, h: string, open: string, mid: string, last: string)
    requires mid != [] && last != []
    requires i <= rs <= |x| && x[i..rs] == h && SpacedPairEnd(h, 0, open, mid, last) == Some(|h|)
    ensures SpacedPairEnd(x, i, open, mid, last) == Some(rs)
  {
    SpacedUnslice(x, i, rs, h, 0, open, mid);
    SpacedUnslice(x, i, rs, h, SpacedEnd(h, 0, open, mid), [], last);
  }

  /** A pair match found in a text is, cut out, a pair match on its own. */
  lemma SpacedPairSlice(s: string, i: nat, open: string, mid: string, last: string)
    requires mid != [] && last != [] && SpacedPairEnd(s, i, open, mid, last).Some?
    ensures var rs := SpacedPairEnd(s, i, open, mid, last).value;
      SpacedPairEnd(s[i..rs], 0, open, mid, last) == Some(rs - i)
  {
    var rs := SpacedPairEnd(s, i, open, mid, last).value;
    SpacedSlice(s, i, rs, i, open, mid);
    SpacedSlice(s, i, rs, SpacedEnd(s, i, open, mid), [], last);
  }

  /** A match inside a piece of text is a match of any text around it. */
  lemma OccursWithin(a: string, b: string, c: string, open: string, rest: string)
    requires rest != [] && !IsSpace(rest[0])
    requires Occurs(b, open, rest)
    ensures Occurs(a + b + c, open, rest)
  {
    var i := OccursFromWitness(b, 0, open, rest);
    SpacedWithin(a, b, c, i, open, rest);
    OccursFromAt(a + b + c, 0, |a| + i, open, rest);
  }

  /** A line holding the tag as the generators write it makes its surroundings match. */
  lemma OccursAtTag(a: string, open: string, rest: string, tail: string, c: string)
    requires rest != [] && !IsSpace(rest[0])
    ensures Occurs(a + (open + " " + rest + tail) + c, open, rest)
  {
    SpacedLiteral(open, rest, tail);
    OccursWithin(a, open + " " + rest + tail, c, open, rest);
  }

  /** Each line of a joined list, with the text around the list, matches what the line matches. */
  lemma OccursInJoin(lines: seq<string>, k: nat, a: string, c: string, open: string, rest: string)
    requires k < |lines| && rest != [] && !IsSpace(rest[0])
    requires Occurs(lines[k], open, rest)
    ensures Occurs(a + Join(lines, "\n") + c, open, rest)
  {
    var x, y := JoinAround(lines, "\n", k);
    OccursWithin(a + x, lines[k], y + c, open, rest);
    Regroup(a, x, lines[k], y, c);
  }

  /** The tag as the generators write it, alone, is a match. */
  lemma TagOccurs(open: string, rest: string)
    requires rest != [] && !IsSpace(rest[0])
    ensures Occurs(open + " " + rest, open, rest)
  {
    SpacedLiteral(open, rest, []);
    assert open + " " + rest + [] == open + " " + rest;
    OccursFromAt(open + " " + rest, 0, 0, open, rest);
  }

  // ---------------------------------------------------------------------
  // Permission lines
  // ---------------------------------------------------------------------

  const PermissionOpen: string := "<permission"
  const RolesAttr: string := "roles=\""

  /** `type="T"` */
  function TypeAttr(permission: string): string {
    "type=\"" + permission + "\""
  }

  /** `<permission type="T" roles="`, the part of a permission line before its role list. */
  function PermissionHeadText(permission: string): string {
    PermissionOpen + " " + TypeAttr(permission) + " " + RolesAttr
  }

  /** `<permission type="T" roles="R"/>` */
  function PermissionLine(permission: string, roles: string): string {
    PermissionHeadText(permission) + roles + "\"/>"
  }

  /** `<prefix>-admin`, the role every generated permission starts with. */
  function AdminRole(prefix: string): string {
    prefix + "-admin"
  }

  /** The permission with the admin role first and then `roles`. */
  function RolePermission(permission: string, admin: string, roles: seq<string>): string {
    PermissionLine(permission, Join([admin] + roles, ","))
  }

  /** What `appendRoles` writes for a list: a comma and the role, for each role. */
  function CommaRoles(roles: seq<string>): string {
    if |roles| == 0 then [] else CommaRoles(roles[..|roles| - 1]) + "," + roles[|roles| - 1]
  }

  /** The admin role followed by what `appendRoles` writes is the comma-joined role list. */
  lemma {:induction false} AdminThenRoles(admin: string, roles: seq<string>)
    ensures admin + CommaRoles(roles) == Join([admin] + roles, ",")
  {
    if |roles| > 0 {
      var init, last := roles[..|roles| - 1], roles[|roles| - 1];
      AdminThenRoles(admin, init);
      JoinAppend([admin] + init, [last], ",");
      assert [admin] + roles == ([admin] + init) + [last];
    }
  }

  /** Appending two lists in turn writes their concatenation. */
  lemma {:induction false} CommaRolesAppend(a: seq<string>, b: seq<string>)
    ensures CommaRoles(a + b) == CommaRoles(a) + CommaRoles(b)
  {
    if |b| > 0 {
      var init := b[..|b| - 1];
      CommaRolesAppend(a, init);
      assert (a + b)[..|a + b| - 1] == a + init;
    } else {
      assert a + b == a;
    }
  }

  /** `appendRoles(xml, roles)`: nothing for an absent or empty list. */
  method AppendRoles(xml: string, roles: Option<seq<string>>) returns (out: string)
    ensures out == xml + CommaRoles(OrEmpty(roles))
  {
    out := xml;
    if roles.Some? && |roles.value| > 0 {
      var rs := roles.value;
      var i := 0;
      while i < |rs|
        invariant i <= |rs|
        invariant out == xml + CommaRoles(rs[..i])
      {
        assert rs[..i + 1][..i] == rs[..i];
        out := out + "," + rs[i];
        i := i + 1;
      }
      assert rs[..|rs|] == rs;
    }
  }

  /**
   * One permission line as the generators write it: the admin role, then
   * `appendRoles` for each of up to two lists.
   */
  method WritePermission(permission: string, admin: string, first: Option<seq<string>>, second: Option<seq<string>>)
    returns (line: string)
    ensures line == RolePermission(permission, admin, OrEmpty(first) + OrEmpty(second))
  {
    var roles := AppendRoles(admin, first);
    roles := AppendRoles(roles, second);
    CommaRolesAppend(OrEmpty(first), OrEmpty(second));
    AdminThenRoles(admin, OrEmpty(first) + OrEmpty(second));
    line := PermissionLine(permission, roles);
  }

  // ---------------------------------------------------------------------
  // The generated security settings
  // ---------------------------------------------------------------------

  /** The comment the namespace block carries above its `manage` grant. */
  const DataImportComment: string := "<!-- we need this otherwise " + "./artemis data imp wouldn't work -->"

  /** `generateNamespaceSecuritySetting`: the namespace's wildcard block with its fixed role grants. */
  function NamespaceSettingLines(prefix: string): seq<string> {
    var admin, read, write := AdminRole(prefix), prefix + "-read", prefix + "-write";
    [SettingOpen + " " + NamespaceMatch(prefix),
     "    " + RolePermission("createNonDurableQueue", admin, [write, read]),
     "    " + PermissionLine("deleteNonDurableQueue", admin),
     "    " + RolePermission("createDurableQueue", admin, [write, read]),
     "    " + PermissionLine("deleteDurableQueue", admin),
     "    " + RolePermission("createAddress", admin, [write, read]),
     "    " + PermissionLine("deleteAddress", admin),
     "    " + RolePermission("consume", admin, [read]),
     "    " + RolePermission("browse", admin, [read]),
     "    " + RolePermission("send", admin, [write]),
     "    " + DataImportComment,
     "    " + PermissionLine("manage", admin),
     SettingClose]
  }

  function NamespaceSetting(prefix: string): string {
    Join(NamespaceSettingLines(prefix), "\n")
  }

  /** A subscription's block: its `::` match and the consume and browse grants. */
  function SubscriptionSettingLines(v: string, sv: string, roles: string): seq<string> {
    [SettingOpen + " " + SubscriptionMatch(v, sv),
     PermissionLine("consume", roles),
     PermissionLine("browse", roles),
     SettingClose]
  }

  /** Send to the producers, consume and browse to the consumers, each after the admin role. */
  function GrantLines(admin: string, request: ProvisionRequest): seq<string> {
    var consumers, producers := OrEmpty(request.consumers), OrEmpty(request.producers);
    [RolePermission("send", admin, producers),
     RolePermission("consume", admin, consumers),
     RolePermission("browse", admin, consumers)]
  }

  /** `generateQueueSecuritySetting` */
  function QueueSettingLines(v: string, prefix: string, request: ProvisionRequest): seq<string> {
    [SettingOpen + " " + ResourceMatch(v)] + GrantLines(AdminRole(prefix), request) + [SettingClose]
  }

  /** The legacy single subscription name of a request, "" when absent. */
  function LegacyName(request: ProvisionRequest): string {
    request.legacySubscriptionName.GetOr([])
  }

  /** A topic's create rights for consumers and producers, and its delete rights for the admin alone. */
  function CreateDeleteLines(admin: string, request: ProvisionRequest): seq<string> {
    var both := OrEmpty(request.consumers) + OrEmpty(request.producers);
    [RolePermission("createNonDurableQueue", admin, both),
     PermissionLine("deleteNonDurableQueue", admin),
     RolePermission("createDurableQueue", admin, both),
     PermissionLine("deleteDurableQueue", admin),
     RolePermission("createAddress", admin, both),
     PermissionLine("deleteAddress", admin)]
  }

  /** The topic's own block in `generateTopicSecuritySettings`. */
  function TopicMainLines(v: string, prefix: string, request: ProvisionRequest): seq<string> {
    var admin := AdminRole(prefix);
    [SettingOpen + " " + ResourceMatch(v)] + GrantLines(admin, request) + CreateDeleteLines(admin, request) + [SettingClose]
  }

  /** `generateTopicSecuritySettings`: the topic's block, then the legacy subscription's block when the request names one. */
  function TopicSettingLines(v: string, prefix: string, request: ProvisionRequest): seq<string> {
    TopicMainLines(v, prefix, request)
    + (if LegacyName(request) == [] then []
       else SubscriptionSettingLines(v, ToVariableName(LegacyName(request)),
                                     Join([AdminRole(prefix)] + OrEmpty(request.consumers), ",")))
  }

  /** `generateResourceSecuritySetting`: the topic block for "topic", the queue block otherwise. */
  function ResourceSettingLines(v: string, prefix: string, request: ProvisionRequest): seq<string> {
    if request.resourceType == "topic" then TopicSettingLines(v, prefix, request) else QueueSettingLines(v, prefix, request)
  }

  function ResourceSetting(v: string, prefix: string, request: ProvisionRequest): string {
    Join(ResourceSettingLines(v, prefix, request), "\n")
  }

  /** The send, consume and browse lines, each built with `appendRoles`. */
  method AppendGrants(xml: string, ghost written: seq<string>, admin: string, request: ProvisionRequest)
    returns (out: string, ghost now: seq<string>)
    requires xml == Lines(written)
    ensures now == written + GrantLines(admin, request) && out == Lines(now)
  {
    var consumers, producers := OrEmpty(request.consumers), OrEmpty(request.producers);
    assert producers + [] == producers && consumers + [] == consumers;
    var line := WritePermission("send", admin, request.producers, None);
    out, now := AppendLine(xml, written, line);
    line := WritePermission("consume", admin, request.consumers, None);
    out, now := AppendLine(out, now, line);
    line := WritePermission("browse", admin, request.consumers, None);
    out, now := AppendLine(out, now, line);
  }

  /** A topic's create and delete lines. */
  method AppendCreateDelete(xml: string, ghost written: seq<string>, admin: string, request: ProvisionRequest)
    returns (out: string, ghost now: seq<string>)
    requires xml == Lines(written)
    ensures now == written + CreateDeleteLines(admin, request) && out == Lines(now)
  {
    var line := WritePermission("createNonDurableQueue", admin, request.consumers, request.producers);
    out, now := AppendLine(xml, written, line);
    out, now := AppendLine(out, now, PermissionLine("deleteNonDurableQueue", admin));
    line := WritePermission("createDurableQueue", admin, request.consumers, request.producers);
    out, now := AppendLine(out, now, line);
    out, now := AppendLine(out, now, PermissionLine("deleteDurableQueue", admin));
    line := WritePermission("createAddress", admin, request.consumers, request.producers);
    out, now := AppendLine(out, now, line);
    out, now := AppendLine(out, now, PermissionLine("deleteAddress", admin));
  }

  /** `generateQueueSecuritySetting` */
  method GenerateQueueSetting(v: string, prefix: string, request: ProvisionRequest) returns (xml: string)
    ensures xml == Join(QueueSettingLines(v, prefix, request), "\n")
  {
    ghost var written: seq<string>;
    xml, written := AppendLine([], [], SettingOpen + " " + ResourceMatch(v));
    xml, written := AppendGrants(xml, written, AdminRole(prefix), request);
    JoinAsLines(written, SettingClose);
    xml := xml + SettingClose;
    assert written + [SettingClose] == QueueSettingLines(v, prefix, request);
  }

  /** The first part of `generateTopicSecuritySettings`: the topic's own block. */
  method GenerateTopicMain(v: string, prefix: string, request: ProvisionRequest) returns (xml: string)
    ensures xml == Join(TopicMainLines(v, prefix, request), "\n")
  {
    ghost var written: seq<string>;
    xml, written := AppendLine([], [], SettingOpen + " " + ResourceMatch(v));
    xml, written := AppendGrants(xml, written, AdminRole(prefix), request);
    xml, written := AppendCreateDelete(xml, written, AdminRole(prefix), request);
    JoinAsLines(written, SettingClose);
    xml := xml + SettingClose;
    assert written + [SettingClose] == TopicMainLines(v, prefix, request);
  }

  /** A subscription's block, given its role list. */
  method WriteSubscriptionSetting(v: string, sv: string, roles: string) returns (xml: string)
    ensures xml == Join(SubscriptionSettingLines(v, sv, roles), "\n")
  {
    ghost var written: seq<string>;
    xml, written := AppendLine([], [], SettingOpen + " " + SubscriptionMatch(v, sv));
    xml, written := AppendLine(xml, written, PermissionLine("consume", roles));
    xml, written := AppendLine(xml, written, PermissionLine("browse", roles));
    JoinAsLines(written, SettingClose);
    xml := xml + SettingClose;
    assert written + [SettingClose] == SubscriptionSettingLines(v, sv, roles);
  }

  /** `generateTopicSecuritySettings` */
  method GenerateTopicSettings(v: string, prefix: string, request: ProvisionRequest) returns (xml: string)
    ensures xml == Join(TopicSettingLines(v, prefix, request), "\n")
  {
    xml := GenerateTopicMain(v, prefix, request);
    if LegacyName(request) != [] {
      var roles := AppendRoles(AdminRole(prefix), request.consumers);
      AdminThenRoles(AdminRole(prefix), OrEmpty(request.consumers));
      var subscription := WriteSubscriptionSetting(v, ToVariableName(LegacyName(request)), roles);
      JoinAppend(TopicMainLines(v, prefix, request), SubscriptionSettingLines(v, ToVariableName(LegacyName(request)), roles), "\n");
      xml := xml + "\n" + subscription;
      assert TopicSettingLines(v, prefix, request)
          == TopicMainLines(v, prefix, request) + SubscriptionSettingLines(v, ToVariableName(LegacyName(request)), roles);
    } else {
      assert TopicSettingLines(v, prefix, request) == TopicMainLines(v, prefix, request) + [] == TopicMainLines(v, prefix, request);
    }
  }

  /** `generateResourceSecuritySetting` */
  method GenerateResourceSetting(v: string, prefix: string, request: ProvisionRequest) returns (xml: string)
    ensures xml == ResourceSetting(v, prefix, request)
  {
    if request.resourceType == "topic" {
      xml := GenerateTopicSettings(v, prefix, request);
    } else {
      xml := GenerateQueueSetting(v, prefix, request);
    }
  }

  /** A generated block starts with its open tag and ends with the closing tag. */
  lemma BlockEnds(lines: seq<string>, rest: string)
    requires |lines| >= 2 && lines[0] == SettingOpen + " " + rest && lines[|lines| - 1] == SettingClose
    ensures var t := Join(lines, "\n"); |t| > 0 && t[0] == '<' && t[|t| - 1] == '>'
  {
    JoinEnds(lines, "\n");
    var t := Join(lines, "\n");
    assert t[0] == lines[0][0];
    assert t[|t| - 1] == SettingClose[|SettingClose| - 1];
  }

  lemma ResourceSettingEnds(v: string, prefix: string, request: ProvisionRequest)
    ensures var t := ResourceSetting(v, prefix, request); |t| > 0 && t[0] == '<' && t[|t| - 1] == '>'
  {
    var lines := ResourceSettingLines(v, prefix, request);
    assert lines[|lines| - 1] == SettingClose;
    BlockEnds(lines, ResourceMatch(v));
  }

  /** The resource block names the resource, and a topic's names its legacy subscription, in any surrounding text. */
  lemma ResourceSettingRecognised(v: string, prefix: string, request: ProvisionRequest, a: string, b: string)
    ensures Occurs(a + ResourceSetting(v, prefix, request) + b, SettingOpen, ResourceMatch(v))
    ensures request.resourceType == "topic" && LegacyName(request) != [] ==>
      Occurs(a + ResourceSetting(v, prefix, request) + b, SettingOpen,
             SubscriptionMatch(v, ToVariableName(LegacyName(request))))
  {
    var lines := ResourceSettingLines(v, prefix, request);
    TagOccurs(SettingOpen, ResourceMatch(v));
    OccursInJoin(lines, 0, a, b, SettingOpen, ResourceMatch(v));
    if request.resourceType == "topic" && LegacyName(request) != [] {
      var sv := ToVariableName(LegacyName(request));
      assert lines[11] == SettingOpen + " " + SubscriptionMatch(v, sv);
      TagOccurs(SettingOpen, SubscriptionMatch(v, sv));
      OccursInJoin(lines, 11, a, b, SettingOpen, SubscriptionMatch(v, sv));
    }
  }

  /** A text holding the namespace block passes the namespace check. */
  lemma NamespaceSettingIn(x: string, prefix: string, a: string, b: string)
    requires x == a + NamespaceSetting(prefix) + b
    ensures NamespaceExists(x, prefix)
  {
    TagOccurs(SettingOpen, NamespaceMatch(prefix));
    OccursInJoin(NamespaceSettingLines(prefix), 0, a, b, SettingOpen, NamespaceMatch(prefix));
  }

  /** A text holding the resource block passes the resource check, and for a topic the legacy subscription's check. */
  lemma ResourceSettingIn(x: string, v: string, prefix: string, request: ProvisionRequest, a: string, b: string)
    requires x == a + ResourceSetting(v, prefix, request) + b
    ensures ResourceSettingExists(x, v)
    ensures v == ToVariableName(request.name) && request.resourceType == "topic" && LegacyName(request) != [] ==>
      SubscriptionSettingExists(x, request.name, LegacyName(request))
  {
    ResourceSettingRecognised(v, prefix, request, a, b);
    ResourceSettingEnds(v, prefix, request);
  }

  /** `generateSecuritySettingsToAdd`: the namespace block (and a newline) unless present, then the resource block unless present, trimmed. */
  function SecuritySettingsToAdd(content: string, request: ProvisionRequest): string {
    var prefix, v := NamespacePrefix(request.name), ToVariableName(request.name);
    Trim((if NamespaceExists(content, prefix) then [] else NamespaceSetting(prefix) + "\n")
         + (if ResourceSettingExists(content, v) then [] else ResourceSetting(v, prefix, request)))
  }

  /** `generateSecuritySettingsToAdd` */
  method GenerateSecuritySettingsToAdd(content: string, request: ProvisionRequest) returns (xml: string)
    ensures xml == SecuritySettingsToAdd(content, request)
  {
    var prefix := NamespacePrefix(request.name);
    var v := ToVariableName(request.name);
    var namespace: string := [];
    if !NamespaceExists(content, prefix) {
      namespace := NamespaceSetting(prefix) + "\n";
    }
    var resource: string := [];
    if !ResourceSettingExists(content, v) {
      resource := GenerateResourceSetting(v, prefix, request);
    }
    xml := Trim(namespace + resource);
  }

  /** Trimming the assembled blocks removes only the newline after a lone namespace block. */
  lemma TrimBlocks(ns: string, rs: string, hasNs: bool, hasRs: bool)
    requires |ns| > 0 && ns[0] == '<' && ns[|ns| - 1] == '>'
    requires |rs| > 0 && rs[0] == '<' && rs[|rs| - 1] == '>'
    ensures Trim((if hasNs then [] else ns + "\n") + (if hasRs then [] else rs))
         == (if hasNs then [] else ns) + (if !hasNs && !hasRs then "\n" else []) + (if hasRs then [] else rs)
  {
    var x := (if hasNs then [] else ns + "\n") + (if hasRs then [] else rs);
    var y := (if hasNs then [] else ns) + (if !hasNs && !hasRs then "\n" else []) + (if hasRs then [] else rs);
    if !hasNs && !hasRs {
      assert x == y == ns + "\n" + rs;
      assert x[0] == ns[0] && x[|x| - 1] == rs[|rs| - 1];
      TrimVisible(x, []);
      assert x + [] == x;
    } else if !hasNs {
      assert x == ns + "\n" && y == ns;
      TrimVisible(ns, "\n");
    } else if !hasRs {
      assert x == rs + [] && y == rs;
      TrimVisible(rs, []);
    } else {
      assert x == [] && y == [];
    }
  }

  /** What the trimmed result is, case by case. */
  lemma SettingsToAddCases(content: string, request: ProvisionRequest)
    ensures var prefix, v := NamespacePrefix(request.name), ToVariableName(request.name);
      var hasNs, hasRs := NamespaceExists(content, prefix), ResourceSettingExists(content, v);
      SecuritySettingsToAdd(content, request)
      == (if hasNs then [] else NamespaceSetting(prefix))
         + (if !hasNs && !hasRs then "\n" else [])
         + (if hasRs then [] else ResourceSetting(v, prefix, request))
  {
    var prefix, v := NamespacePrefix(request.name), ToVariableName(request.name);
    BlockEnds(NamespaceSettingLines(prefix), NamespaceMatch(prefix));
    ResourceSettingEnds(v, prefix, request);
    TrimBlocks(NamespaceSetting(prefix), ResourceSetting(v, prefix, request),
               NamespaceExists(content, prefix), ResourceSettingExists(content, v));
  }

  /** Where each block sits in the assembled text, with text around it. */
  lemma PlacedBlocks(ns: string, rs: string, hasNs: bool, hasRs: bool, a: string, b: string)
    ensures var r := (if hasNs then [] else ns) + (if !hasNs && !hasRs then "\n" else []) + (if hasRs then [] else rs);
      && (!hasNs ==> a + r + b == a + ns + ((if hasRs then [] else "\n" + rs) + b))
      && (!hasRs ==> a + r + b == (a + (if hasNs then [] else ns + "\n")) + rs + b)
  {
  }

  /**
   * Whatever text the result is placed in, the namespace and resource
   * checks then succeed: a second run adds nothing. Nothing is added when
   * both blocks are present.
   */
  lemma SettingsToAddRecognised(content: string, request: ProvisionRequest, a: string, b: string)
    ensures var prefix, v, r := NamespacePrefix(request.name), ToVariableName(request.name), SecuritySettingsToAdd(content, request);
      && (NamespaceExists(content, prefix) && ResourceSettingExists(content, v) ==> r == [])
      && (!NamespaceExists(content, prefix) ==> NamespaceExists(a + r + b, prefix))
      && (!ResourceSettingExists(content, v) ==> ResourceSettingExists(a + r + b, v))
      && (!ResourceSettingExists(content, v) && request.resourceType == "topic" && LegacyName(request) != [] ==>
            SubscriptionSettingExists(a + r + b, request.name, LegacyName(request)))
  {
    var prefix, v, r := NamespacePrefix(request.name), ToVariableName(request.name), SecuritySettingsToAdd(content, request);
    var ns, rs := NamespaceSetting(prefix), ResourceSetting(v, prefix, request);
    var hasNs, hasRs := NamespaceExists(content, prefix), ResourceSettingExists(content, v);
    SettingsToAddCases(content, request);
    PlacedBlocks(ns, rs, hasNs, hasRs, a, b);
    if !hasNs {
      NamespaceSettingIn(a + r + b, prefix, a, (if hasRs then [] else "\n" + rs) + b);
    }
    if !hasRs {
      ResourceSettingIn(a + r + b, v, prefix, request, a + (if hasNs then [] else ns + "\n"), b);
    }
  }

  // ---------------------------------------------------------------------
  // Reading and replacing a permission's role list:
  // `(<permission\s+type="T"\s+roles=")([^"]*)("\s*/>)`
  // ---------------------------------------------------------------------

  /** Where group 2 (the role list) of a permission match starts and ends, and where the match ends. */
  datatype PermissionSpan = PermissionSpan(rolesStart: nat, rolesEnd: nat, end: nat)

  /**
   * Groups 2 and 3 from index `rs`: `[^"]*` runs to the first quote, then
   * a whitespace run and `/>` must follow. Gives where the role list ends
   * and where the match ends.
   */
  function TailFrom(s: string, rs: nat): (r: Option<(nat, nat)>)
    requires rs <= |s|
    ensures r.Some? ==> rs <= r.value.0 < r.value.1 <= |s| && s[r.value.0] == '"'
  {
    match FindCharIn(s, '"', rs, |s|)
      case None => None
      case Some(q) =>
        var e := WsEnd(s, q + 1);
        if StartsAt(s, "/>", e) then Some((q, e + 2)) else None
  }

  /**
   * `(open\s+mid\s+last)([^"]*)` and then group 3 (a quote, `\s*` and
   * `/>`) at index `i`, for literals `mid` and `last` that start with a
   * letter (so both whitespace runs are maximal).
   */
  function AttrMatch(s: string, i: nat, open: string, mid: string, last: string): (r: Option<PermissionSpan>)
    ensures r.Some? ==> i < r.value.rolesStart <= r.value.rolesEnd < r.value.end <= |s| && s[r.value.rolesEnd] == '"'
  {
    match SpacedPairEnd(s, i, open, mid, last)
      case None => None
      case Some(rs) =>
        match TailFrom(s, rs)
          case None => None
          case Some((q, e)) => Some(PermissionSpan(rs, q, e))
  }

  /** The permission pattern at index `i`. */
  function PermissionMatch(s: string, i: nat, permission: string): (r: Option<PermissionSpan>)
    ensures r.Some? ==> i < r.value.rolesStart <= r.value.rolesEnd < r.value.end <= |s| && s[r.value.rolesEnd] == '"'
  {
    AttrMatch(s, i, PermissionOpen, TypeAttr(permission), RolesAttr)
  }

  /** The permission pattern is the attribute pattern with the permission's literals. */
  lemma PermissionMatchIs(s: string, i: nat, permission: string)
    ensures PermissionMatch(s, i, permission) == AttrMatch(s, i, PermissionOpen, TypeAttr(permission), RolesAttr)
  {
  }

  function PermissionAt(s: string, permission: string): nat -> Option<PermissionSpan> {
    (i: nat) => PermissionMatch(s, i, permission)
  }

  /** `matcher.find()` with the permission pattern: the first match and its groups. */
  function FirstPermission(s: string, permission: string): Option<(nat, PermissionSpan)> {
    FirstMatch(s, 0, PermissionAt(s, permission))
  }

  /** What `find()` reports is a match at the index it reports. */
  lemma FirstPermissionFound(s: string, permission: string, i: nat, m: PermissionSpan)
    requires FirstPermission(s, permission) == Some((i, m))
    ensures PermissionMatch(s, i, permission) == Some(m)
  {
    assert PermissionAt(s, permission)(i) == PermissionMatch(s, i, permission);
  }

  /** The role list of a match holds no quote. */
  lemma AttrQuoteFree(s: string, i: nat, open: string, mid: string, last: string, m: PermissionSpan)
    requires AttrMatch(s, i, open, mid, last) == Some(m)
    ensures forall k :: m.rolesStart <= k < m.rolesEnd ==> s[k] != '"'
  {
    assert FindCharIn(s, '"', m.rolesStart, |s|).Some?;
    FindCharInFacts(s, '"', m.rolesStart, |s|);
  }

  /** A quote-free role list up to a slice that is exactly a group 3 gives groups 2 and 3 of the whole text. */
  lemma TailUnslice(x: string, rs: nat, q: nat, e: nat, tl: string)
    requires rs <= q <= e <= |x| && x[q..e] == tl && TailFrom(tl, 0) == Some((0, |tl|))
    requires forall k :: rs <= k < q ==> x[k] != '"'
    ensures TailFrom(x, rs) == Some((q, e))
  {
    assert x[q] == tl[0];
    FindCharInIs(x, '"', rs, |x|, q);
    WsEndUnslice(x, q, e, tl, 1);
    StartsAtUnslice(x, q, e, tl, "/>", |tl| - 2);
  }

  /** Group 3 of a match is, cut out, a group 3 on its own. */
  lemma TailSlice(s: string, rs: nat)
    requires rs <= |s| && TailFrom(s, rs).Some?
    ensures var (q, e) := TailFrom(s, rs).value; TailFrom(s[q..e], 0) == Some((0, e - q))
  {
    var (q, e) := TailFrom(s, rs).value;
    var tl := s[q..e];
    FindCharInIs(tl, '"', 0, |tl|, 0);
    WsEndSlice(s, q, e, q + 1);
    StartsAtSlice(s, q, e, "/>", e - 2);
  }

  /** A group 1, a quote-free role list and a group 3, one after the other, make a match. */
  lemma AttrFrom(x: string, i: nat, rs: nat, q: nat, e: nat, h: string, tl: string, open: string, mid: string, last: string)
    requires mid != [] && last != []
    requires i <= rs <= q <= e <= |x| && x[i..rs] == h && x[q..e] == tl
    requires SpacedPairEnd(h, 0, open, mid, last) == Some(|h|) && TailFrom(tl, 0) == Some((0, |tl|))
    requires forall k :: rs <= k < q ==> x[k] != '"'
    ensures AttrMatch(x, i, open, mid, last) == Some(PermissionSpan(rs, q, e))
  {
    SpacedPairUnslice(x, i, rs, h, open, mid, last);
    TailUnslice(x, rs, q, e, tl);
  }

  /** Every match splits into its group 1, its role list and its group 3. */
  lemma AttrParts(s: string, i: nat, open: string, mid: string, last: string, m: PermissionSpan)
    requires mid != [] && last != [] && AttrMatch(s, i, open, mid, last) == Some(m)
    ensures SpacedPairEnd(s[i..m.rolesStart], 0, open, mid, last) == Some(m.rolesStart - i)
    ensures TailFrom(s[m.rolesEnd..m.end], 0) == Some((0, m.end - m.rolesEnd))
  {
    SpacedPairSlice(s, i, open, mid, last);
    TailSlice(s, m.rolesStart);
  }

  /** Replacing the role list of a match by a quote-free one leaves a match with the new role list. */
  lemma SpliceMatch(s: string, i: nat, open: string, mid: string, last: string, m: PermissionSpan, roles: string)
    requires mid != [] && last != [] && AttrMatch(s, i, open, mid, last) == Some(m)
    requires forall k :: 0 <= k < |roles| ==> roles[k] != '"'
    ensures var re := m.rolesStart + |roles|;
      AttrMatch(s[..m.rolesStart] + roles + s[m.rolesEnd..], i, open, mid, last)
      == Some(PermissionSpan(m.rolesStart, re, re + (m.end - m.rolesEnd)))
  {
    AttrParts(s, i, open, mid, last, m);
    SplicedMatch(s[..m.rolesStart] + roles + s[m.rolesEnd..], s, i, m.rolesStart, m.rolesEnd, m.end, roles, open, mid, last);
  }

  /** `SpliceMatch` with the spliced text named and the match's groups taken as facts about slices. */
  lemma SplicedMatch(x: string, s: string, i: nat, lo: nat, hi: nat, end: nat, roles: string, open: string, mid: string, last: string)
    requires mid != [] && last != [] && i <= lo <= hi <= end <= |s| && x == s[..lo] + roles + s[hi..]
    requires forall k :: 0 <= k < |roles| ==> roles[k] != '"'
    requires SpacedPairEnd(s[i..lo], 0, open, mid, last) == Some(lo - i)
    requires TailFrom(s[hi..end], 0) == Some((0, end - hi))
    ensures AttrMatch(x, i, open, mid, last) == Some(PermissionSpan(lo, lo + |roles|, lo + |roles| + (end - hi)))
  {
    SplicedParts(x, s, i, lo, hi, end, roles);
    AttrFrom(x, i, lo, lo + |roles|, lo + |roles| + (end - hi), s[i..lo], s[hi..end], open, mid, last);
  }

  /** The spliced text keeps group 1 and group 3 of the match and holds no quote in the new role list. */
  lemma SplicedParts(x: string, s: string, i: nat, lo: nat, hi: nat, end: nat, roles: string)
    requires i <= lo <= hi <= end <= |s| && x == s[..lo] + roles + s[hi..]
    requires forall k :: 0 <= k < |roles| ==> roles[k] != '"'
    ensures |x| == |s| - (hi - lo) + |roles|
    ensures x[i..lo] == s[i..lo] && x[lo + |roles|..lo + |roles| + (end - hi)] == s[hi..end]
    ensures forall k :: lo <= k < lo + |roles| ==> x[k] != '"'
  {
    SpliceAround(s, lo, hi, roles, i, end - hi);
    SpliceAvoids(s, lo, hi, roles, '"');
  }

  /** Group 1 of a generated permission line. */
  lemma GeneratedHead(permission: string)
    ensures SpacedPairEnd(PermissionHeadText(permission), 0, PermissionOpen, TypeAttr(permission), RolesAttr)
         == Some(|PermissionHeadText(permission)|)
  {
    var x, y := PermissionOpen + " " + TypeAttr(permission), " " + RolesAttr;
    SpacedLiteral(PermissionOpen, TypeAttr(permission), y);
    SpacedLiteral([], RolesAttr, []);
    assert [] + " " + RolesAttr + [] == y;
    SpacedWithin(x, y, [], 0, [], RolesAttr);
    assert x + y + [] == x + y == PermissionHeadText(permission);
  }

  /** Group 3 of a generated permission line. */
  lemma GeneratedTail()
    ensures TailFrom("\"/>", 0) == Some((0, 3))
  {
    var tl := "\"/>";
    FindCharInIs(tl, '"', 0, 3, 0);
    WsEndIs(tl, 1, 1);
  }

  /** A generated permission line is a match whose role list is the one written. */
  lemma PermissionLineMatch(permission: string, roles: string)
    requires forall k :: 0 <= k < |roles| ==> roles[k] != '"'
    ensures var rs := |PermissionHeadText(permission)|;
      PermissionMatch(PermissionLine(permission, roles), 0, permission)
      == Some(PermissionSpan(rs, rs + |roles|, |PermissionLine(permission, roles)|))
  {
    var h, tl := PermissionHeadText(permission), "\"/>";
    var x := PermissionLine(permission, roles);
    GeneratedHead(permission);
    GeneratedTail();
    assert x[0..|h|] == h;
    assert x[|h| + |roles|..|x|] == tl;
    assert forall k :: |h| <= k < |h| + |roles| ==> x[k] == roles[k - |h|];
    AttrFrom(x, 0, |h|, |h| + |roles|, |x|, h, tl, PermissionOpen, TypeAttr(permission), RolesAttr);
  }

  // ---------------------------------------------------------------------
  // replacePermissionRoles
  // ---------------------------------------------------------------------

  /** A role that `replacePermissionRoles` keeps: once trimmed, it ends with `-admin`. */
  predicate IsAdminRole(role: string) {
    EndsWith(Trim(role), "-admin")
  }

  /** The index of the first admin role at or after `from`. */
  function FirstAdminIndex(roles: seq<string>, from: nat): (r: Option<nat>)
    decreases |roles| - from
    ensures r.Some? ==> from <= r.value < |roles| && IsAdminRole(roles[r.value])
    ensures r.Some? ==> forall k :: from <= k < r.value ==> !IsAdminRole(roles[k])
    ensures r.None? ==> forall k :: from <= k < |roles| ==> !IsAdminRole(roles[k])
  {
    if from >= |roles| then None
    else if IsAdminRole(roles[from]) then Some(from)
    else FirstAdminIndex(roles, from + 1)
  }

  /** The admin role kept from a role list: the first comma-separated entry that is an admin role, trimmed. */
  function ExistingAdmin(existing: string): (r: Option<string>)
    ensures r.Some? ==> EndsWith(r.value, "-admin")
    ensures r.Some? ==> forall c :: c in r.value ==> c in existing
  {
    if existing == [] then None
    else
      var pieces := JavaSplit(existing, ',');
      match FirstAdminIndex(pieces, 0)
        case None => None
        case Some(k) =>
          assert forall c :: c in Trim(pieces[k]) ==> c in existing by {
            forall c | c in Trim(pieces[k]) ensures c in existing {
              TrimChars(pieces[k], c);
              JavaSplitChars(existing, ',', k, c);
            }
          }
          Some(Trim(pieces[k]))
  }

  /**
   * The `LinkedHashSet` of new roles: the kept admin role first, then the
   * new roles in first-seen order, each once.
   */
  function RoleSet(existing: string, newRoles: seq<string>): seq<string> {
    var init := if ExistingAdmin(existing).Some? then [ExistingAdmin(existing).value] else [];
    OrderedSet.AddAll(init, newRoles)
  }

  /**
   * The role set holds each role once: the kept admin role, first, and
   * every new role, and nothing else.
   */
  lemma RoleSetSpec(existing: string, newRoles: seq<string>)
    ensures var r := RoleSet(existing, newRoles);
      && OrderedSet.Distinct(r)
      && (forall x :: x in r <==> x in newRoles || ExistingAdmin(existing) == Some(x))
      && (ExistingAdmin(existing).Some? ==> |r| > 0 && r[0] == ExistingAdmin(existing).value)
      && |r| <= |newRoles| + 1
  {
  }

  /** `String.join(",", roleSet)`. */
  function RoleList(existing: string, newRoles: seq<string>): string {
    Join(RoleSet(existing, newRoles), ",")
  }

  /** The role list of the first permission of that type; empty when there is none. */
  function ExistingRoles(s: string, permission: string): string {
    match FirstPermission(s, permission)
      case None => []
      case Some((_, m)) => s[m.rolesStart..m.rolesEnd]
  }

  /**
   * `matcher.replaceFirst(prefix + roles + suffix)`: the role list of the
   * first permission of that type becomes `roles`; without one the text is
   * returned as it is.
   */
  function WithRoles(s: string, permission: string, roles: string): (r: string)
    ensures FirstPermission(s, permission).None? ==> r == s
  {
    match FirstPermission(s, permission)
      case None => s
      case Some((_, m)) => s[..m.rolesStart] + roles + s[m.rolesEnd..]
  }

  /** `replacePermissionRoles(inner, permission, newRoles)`. */
  function RolesReplaced(s: string, permission: string, newRoles: seq<string>): string {
    WithRoles(s, permission, RoleList(ExistingRoles(s, permission), newRoles))
  }

  /** The admin-role loop of `replacePermissionRoles`. */
  method KeptAdmin(existing: string) returns (admin: Option<string>)
    ensures admin == ExistingAdmin(existing)
  {
    admin := None;
    if existing != [] {
      var pieces := JavaSplit(existing, ',');
      var k := 0;
      while k < |pieces|
        invariant k <= |pieces|
        invariant FirstAdminIndex(pieces, 0) == FirstAdminIndex(pieces, k)
      {
        var trimmed := Trim(pieces[k]);
        if EndsWith(trimmed, "-admin") {
          admin := Some(trimmed);
          return;
        }
        k := k + 1;
      }
    }
  }

  /** `replacePermissionRoles` */
  method ReplacePermissionRoles(inner: string, permission: string, newRoles: seq<string>) returns (out: string)
    ensures out == RolesReplaced(inner, permission, newRoles)
  {
    var found := FirstPermission(inner, permission);
    if found.None? {
      return inner;
    }
    var m := found.value.1;
    var admin := KeptAdmin(inner[m.rolesStart..m.rolesEnd]);
    var roleSet: seq<string> := if admin.Some? then [admin.value] else [];
    roleSet := OrderedSet.AddEach(roleSet, newRoles);
    out := inner[..m.rolesStart] + Join(roleSet, ",") + inner[m.rolesEnd..];
  }

  /** The role list holds no quote when the existing and the new roles hold none. */
  lemma RoleListQuoteFree(existing: string, newRoles: seq<string>)
    requires forall k :: 0 <= k < |existing| ==> existing[k] != '"'
    requires forall k :: 0 <= k < |newRoles| ==> '"' !in newRoles[k]
    ensures forall k :: 0 <= k < |RoleList(existing, newRoles)| ==> RoleList(existing, newRoles)[k] != '"'
  {
    var rs := RoleSet(existing, newRoles);
    RoleSetSpec(existing, newRoles);
    forall k | 0 <= k < |rs|
      ensures '"' !in rs[k]
    {
      assert rs[k] in rs;
    }
    JoinAvoids(rs, ",", '"');
  }

  /** The role list of a permission match, cut out, holds no quote. */
  lemma PermissionRolesQuoteFree(s: string, i: nat, permission: string, m: PermissionSpan)
    requires PermissionMatch(s, i, permission) == Some(m)
    ensures var existing := s[m.rolesStart..m.rolesEnd]; forall k :: 0 <= k < |existing| ==> existing[k] != '"'
  {
    PermissionMatchIs(s, i, permission);
    AttrQuoteFree(s, i, PermissionOpen, TypeAttr(permission), RolesAttr, m);
    var existing := s[m.rolesStart..m.rolesEnd];
    forall k | 0 <= k < |existing|
      ensures existing[k] != '"'
    {
      assert existing[k] == s[m.rolesStart + k];
    }
  }

  /** The role list `replacePermissionRoles` writes holds no quote when the new roles hold none. */
  lemma RolesReplacedQuoteFree(s: string, permission: string, newRoles: seq<string>)
    requires forall k :: 0 <= k < |newRoles| ==> '"' !in newRoles[k]
    ensures var roles := RoleList(ExistingRoles(s, permission), newRoles);
      forall k :: 0 <= k < |roles| ==> roles[k] != '"'
  {
    if FirstPermission(s, permission).Some? {
      var (i, m) := FirstPermission(s, permission).value;
      FirstPermissionFound(s, permission, i, m);
      PermissionRolesQuoteFree(s, i, permission, m);
    }
    RoleListQuoteFree(ExistingRoles(s, permission), newRoles);
  }

  /**
   * A quote-free role list put in place of the role list of a permission
   * match is read back by the same match; the text before and after it is
   * kept.
   */
  lemma PermissionSplice(s: string, i: nat, permission: string, m: PermissionSpan, roles: string)
    requires PermissionMatch(s, i, permission) == Some(m)
    requires forall k :: 0 <= k < |roles| ==> roles[k] != '"'
    ensures var r, re := s[..m.rolesStart] + roles + s[m.rolesEnd..], m.rolesStart + |roles|;
      && PermissionMatch(r, i, permission) == Some(PermissionSpan(m.rolesStart, re, re + (m.end - m.rolesEnd)))
      && r[m.rolesStart..re] == roles
      && r[..m.rolesStart] == s[..m.rolesStart]
      && r[re..] == s[m.rolesEnd..]
  {
    PermissionMatchIs(s, i, permission);
    PermissionMatchIs(s[..m.rolesStart] + roles + s[m.rolesEnd..], i, permission);
    SpliceMatch(s, i, PermissionOpen, TypeAttr(permission), RolesAttr, m, roles);
    SpliceFrame(s, m.rolesStart, m.rolesEnd, roles);
  }

  /**
   * After the replacement the same permission, at the same index, reads
   * back the new (quote-free) role list; the text before the role list and
   * after it is kept.
   */
  lemma WithRolesReadBack(s: string, permission: string, roles: string, i: nat, m: PermissionSpan)
    requires FirstPermission(s, permission) == Some((i, m))
    requires forall k :: 0 <= k < |roles| ==> roles[k] != '"'
    ensures var r, re := WithRoles(s, permission, roles), m.rolesStart + |roles|;
      && PermissionMatch(r, i, permission) == Some(PermissionSpan(m.rolesStart, re, re + (m.end - m.rolesEnd)))
      && r[m.rolesStart..re] == roles
      && r[..m.rolesStart] == s[..m.rolesStart]
      && r[re..] == s[m.rolesEnd..]
  {
    FirstPermissionFound(s, permission, i, m);
    SplicedReadBack(s, i, permission, m, roles, WithRoles(s, permission, roles));
  }

  /** `PermissionSplice`, for a text known to be that splice. */
  lemma SplicedReadBack(s: string, i: nat, permission: string, m: PermissionSpan, roles: string, r: string)
    requires PermissionMatch(s, i, permission) == Some(m)
    requires forall k :: 0 <= k < |roles| ==> roles[k] != '"'
    requires r == s[..m.rolesStart] + roles + s[m.rolesEnd..]
    ensures var re := m.rolesStart + |roles|;
      && PermissionMatch(r, i, permission) == Some(PermissionSpan(m.rolesStart, re, re + (m.end - m.rolesEnd)))
      && r[m.rolesStart..re] == roles
      && r[..m.rolesStart] == s[..m.rolesStart]
      && r[re..] == s[m.rolesEnd..]
  {
    PermissionSplice(s, i, permission, m, roles);
  }

  // ---------------------------------------------------------------------
  // updateExistingSecuritySetting
  // ---------------------------------------------------------------------

  /** Where group 2 (the inner text) of a resource block starts and ends; the close tag starts at `innerEnd`. */
  datatype BlockSpan = BlockSpan(innerStart: nat, innerEnd: nat)

  /**
   * `(<security-setting\s+match="<%= @address_<var>%>\.#">)(.*?)(</security-setting>)`
   * with DOTALL at index `i`: the lazy group 2 runs up to the first close
   * tag after the open tag.
   */
  function ResourceBlockMatch(s: string, i: nat, v: string): (r: Option<BlockSpan>)
    ensures r.Some? ==> i < r.value.innerStart <= r.value.innerEnd && StartsAt(s, SettingClose, r.value.innerEnd)
  {
    if !SpacedAt(s, i, SettingOpen, ResourceMatch(v)) then None
    else
      var o := SpacedEnd(s, i, SettingOpen, ResourceMatch(v));
      match IndexOfFrom(s, SettingClose, o)
        case None => None
        case Some(c) => Some(BlockSpan(o, c))
  }

  function ResourceBlockAt(s: string, v: string): nat -> Option<BlockSpan> {
    (i: nat) => ResourceBlockMatch(s, i, v)
  }

  /** `matcher.find()` with the resource block pattern. */
  function FirstResourceBlock(s: string, v: string): Option<(nat, BlockSpan)> {
    FirstMatch(s, 0, ResourceBlockAt(s, v))
  }

  /** What `find()` reports is a block at the index it reports. */
  lemma FirstResourceBlockFound(s: string, v: string, i: nat, b: BlockSpan)
    requires FirstResourceBlock(s, v) == Some((i, b))
    ensures ResourceBlockMatch(s, i, v) == Some(b)
  {
    assert ResourceBlockAt(s, v)(i) == ResourceBlockMatch(s, i, v);
  }

  /**
   * The inner text with the role lists the request gives replaced: `send`
   * gets the producers, `consume` and then `browse` the consumers; a list
   * the request leaves out (null) keeps its permissions as they are.
   */
  function UpdatedInner(inner: string, request: ProvisionRequest): string {
    var sent := if request.producers.Some? then RolesReplaced(inner, "send", request.producers.value) else inner;
    if request.consumers.Some? then
      RolesReplaced(RolesReplaced(sent, "consume", request.consumers.value), "browse", request.consumers.value)
    else sent
  }

  /**
   * `updateExistingSecuritySetting(existingContent, request)`: the first
   * block of the resource is replaced by its open tag, the updated inner
   * text and its close tag.
   */
  function SettingUpdated(content: string, request: ProvisionRequest): string {
    if request.producers.None? && request.consumers.None? then content
    else match FirstResourceBlock(content, ToVariableName(request.name))
      case None => content
      case Some((i, b)) => WithInner(content, i, b, UpdatedInner(content[b.innerStart..b.innerEnd], request))
  }

  /** `matcher.replaceFirst(openTag + inner + closeTag)` for the block at `i`. */
  function WithInner(content: string, i: nat, b: BlockSpan, inner: string): string
    requires i <= b.innerStart <= b.innerEnd && b.innerEnd + |SettingClose| <= |content|
  {
    var openTag := content[i..b.innerStart];
    var closeTag := content[b.innerEnd..b.innerEnd + |SettingClose|];
    content[..i] + (openTag + inner + closeTag) + content[b.innerEnd + |SettingClose|..]
  }

  /** Replacing the block's match by its own tags around a new inner text replaces only the inner text. */
  lemma WithInnerSplice(content: string, i: nat, b: BlockSpan, inner: string)
    requires i <= b.innerStart <= b.innerEnd && b.innerEnd + |SettingClose| <= |content|
    ensures WithInner(content, i, b, inner) == content[..b.innerStart] + inner + content[b.innerEnd..]
  {
    var e := b.innerEnd + |SettingClose|;
    assert content[..i] + content[i..b.innerStart] == content[..b.innerStart];
    assert content[b.innerEnd..e] + content[e..] == content[b.innerEnd..];
    Regroup(content[..i], content[i..b.innerStart], inner, content[b.innerEnd..e], content[e..]);
  }

  /** `updateExistingSecuritySetting` */
  method UpdateExistingSecuritySetting(content: string, request: ProvisionRequest) returns (r: string)
    ensures r == SettingUpdated(content, request)
  {
    if request.producers.None? && request.consumers.None? {
      return content;
    }
    var found := FirstResourceBlock(content, ToVariableName(request.name));
    if found.None? {
      return content;
    }
    var i, b := found.value.0, found.value.1;
    var inner := UpdateInner(content[b.innerStart..b.innerEnd], request);
    SettingUpdatedIs(content, request, i, b);
    r := WithInner(content, i, b, inner);
  }

  /** With a list to apply and the resource's block found, the update is that block's replacement. */
  lemma SettingUpdatedIs(content: string, request: ProvisionRequest, i: nat, b: BlockSpan)
    requires request.producers.Some? || request.consumers.Some?
    requires FirstResourceBlock(content, ToVariableName(request.name)) == Some((i, b))
    ensures i <= b.innerStart <= b.innerEnd && b.innerEnd + |SettingClose| <= |content|
    ensures SettingUpdated(content, request) == WithInner(content, i, b, UpdatedInner(content[b.innerStart..b.innerEnd], request))
  {
    FirstResourceBlockFound(content, ToVariableName(request.name), i, b);
  }

  /** The role replacements of `updateExistingSecuritySetting`. */
  method UpdateInner(inner: string, request: ProvisionRequest) returns (r: string)
    ensures r == UpdatedInner(inner, request)
  {
    r := inner;
    if request.producers.Some? {
      r := ReplacePermissionRoles(r, "send", request.producers.value);
    }
    if request.consumers.Some? {
      r := ReplacePermissionRoles(r, "consume", request.consumers.value);
      r := ReplacePermissionRoles(r, "browse", request.consumers.value);
    }
  }

  /** Without a list to apply, or without the resource's block, the text is returned as it is. */
  lemma SettingUpdatedUnchanged(content: string, request: ProvisionRequest)
    requires (request.producers.None? && request.consumers.None?)
      || FirstResourceBlock(content, ToVariableName(request.name)).None?
    ensures SettingUpdated(content, request) == content
  {
  }

  /**
   * Only the inner text of the first block changes: the text up to the end
   * of its open tag, and from its close tag on, is kept.
   */
  lemma SettingUpdatedSplice(content: string, request: ProvisionRequest, i: nat, b: BlockSpan)
    requires request.producers.Some? || request.consumers.Some?
    requires FirstResourceBlock(content, ToVariableName(request.name)) == Some((i, b))
    ensures b.innerEnd + |SettingClose| <= |content|
    ensures SettingUpdated(content, request)
      == content[..b.innerStart] + UpdatedInner(content[b.innerStart..b.innerEnd], request) + content[b.innerEnd..]
  {
    FirstResourceBlockFound(content, ToVariableName(request.name), i, b);
    WithInnerSplice(content, i, b, UpdatedInner(content[b.innerStart..b.innerEnd], request));
  }

  /** After the update the resource's block is still there. */
  lemma SettingUpdatedStillExists(content: string, request: ProvisionRequest, i: nat, b: BlockSpan)
    requires FirstResourceBlock(content, ToVariableName(request.name)) == Some((i, b))
    ensures ResourceSettingExists(SettingUpdated(content, request), ToVariableName(request.name))
  {
    var v := ToVariableName(request.name);
    var r := SettingUpdated(content, request);
    FirstResourceBlockFound(content, v, i, b);
    if request.producers.Some? || request.consumers.Some? {
      SettingUpdatedSplice(content, request, i, b);
      SpliceKeepsPrefix(content, b.innerStart, b.innerEnd, UpdatedInner(content[b.innerStart..b.innerEnd], request), r);
    }
    OpenTagKept(content, r, i, b.innerStart, v);
  }

  /** A splice keeps the text before it. */
  lemma SpliceKeepsPrefix(s: string, lo: nat, hi: nat, mid: string, r: string)
    requires lo <= hi <= |s| && r == s[..lo] + mid + s[hi..]
    ensures lo <= |r| && r[..lo] == s[..lo]
  {
  }

  /** A text that keeps everything up to the end of a resource block's open tag still has that block. */
  lemma OpenTagKept(s: string, r: string, i: nat, o: nat, v: string)
    requires SpacedAt(s, i, SettingOpen, ResourceMatch(v)) && SpacedEnd(s, i, SettingOpen, ResourceMatch(v)) == o
    requires o <= |r| && r[..o] == s[..o]
    ensures ResourceSettingExists(r, v)
  {
    SpacedSlice(s, 0, o, i, SettingOpen, ResourceMatch(v));
    SpacedUnslice(r, 0, o, s[..o], i, SettingOpen, ResourceMatch(v));
    OccursFromAt(r, 0, i, SettingOpen, ResourceMatch(v));
  }
}
