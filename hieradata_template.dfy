/**
 * The hieradata snippets generated for a request (`HieradataTemplateService`):
 * the per-user role blocks and the queue or topic definition. Each snippet
 * is a list of lines, each followed by '\n'; the StringBuilder methods are
 * proved to write exactly those lines, and small readers that take the
 * lines apart again show that a snippet says what the request asks for.
 */
module HieradataTemplate {
  import opened Wrappers
  import opened Text
  import opened Request

  // ---------------------------------------------------------------------
  // Role blocks (generateRolesContent, generateUserRole)
  // ---------------------------------------------------------------------

  /** The permission a role is granted: `consume` for a consumer, `send` for anything else. */
  function Permission(role: string): string {
    if role == "consumer" then "consume" else "send"
  }

  /** The nine lines `generateUserRole` writes, the last one empty. */
  function UserRoleLines(username: string, role: string, name: string): seq<string> {
    [ username + "_" + role + ":",
      "  users:",
      "    - '" + username + "'",
      "  roles:",
      "    - name: '" + name + "_" + role + "_role'",
      "      permissions:",
      "        - type: '" + Permission(role) + "'",
      "          match: '" + name + "'",
      "" ]
  }

  /** The role entries of several users, in list order. */
  function UserRolesLines(users: seq<string>, role: string, name: string): (r: seq<string>)
    ensures |r| == 9 * |users|
  {
    if |users| == 0 then []
    else UserRolesLines(users[..|users| - 1], role, name) + UserRoleLines(users[|users| - 1], role, name)
  }

  /** A commented block of role entries closed by an empty line, or nothing for an absent or empty list. */
  function RoleBlock(title: string, role: string, users: Option<seq<string>>, name: string): (r: seq<string>)
    ensures |r| == if NonEmpty(users) then 9 * |users.value| + 2 else 0
  {
    if NonEmpty(users) then ["# " + title + " for " + name] + UserRolesLines(users.value, role, name) + [""]
    else []
  }

  /** The lines of `generateRolesContent`: the consumer block, then the producer block. */
  function RolesContentLines(request: ProvisionRequest): seq<string> {
    RoleBlock("Consumers", "consumer", request.consumers, request.name)
    + RoleBlock("Producers", "producer", request.producers, request.name)
  }

  function RolesContent(request: ProvisionRequest): string {
    Lines(RolesContentLines(request))
  }

  /** The entry of user `i` occupies lines `9 * i` to `9 * i + 8` of the entries of a list. */
  lemma {:induction false} UserRolesLinesAt(users: seq<string>, role: string, name: string, i: nat)
    requires i < |users|
    decreases |users|
    ensures UserRolesLines(users, role, name)[9 * i..9 * i + 9] == UserRoleLines(users[i], role, name)
  {
    var n := |users|;
    var front := UserRolesLines(users[..n - 1], role, name);
    if i < n - 1 {
      UserRolesLinesAt(users[..n - 1], role, name, i);
      assert UserRolesLines(users, role, name)[9 * i..9 * i + 9] == front[9 * i..9 * i + 9];
    } else {
      assert UserRolesLines(users, role, name)[9 * i..] == UserRoleLines(users[i], role, name);
    }
  }

  /** In a role block the entry of user `i` is the nine lines starting at line `1 + 9 * i`. */
  lemma RoleBlockEntry(title: string, role: string, users: Option<seq<string>>, name: string, i: nat)
    requires NonEmpty(users) && i < |users.value|
    ensures RoleBlock(title, role, users, name)[1 + 9 * i..10 + 9 * i] == UserRoleLines(users.value[i], role, name)
  {
    var entries := UserRolesLines(users.value, role, name);
    UserRolesLinesAt(users.value, role, name, i);
    assert RoleBlock(title, role, users, name)[1 + 9 * i..10 + 9 * i] == entries[9 * i..9 * i + 9];
  }

  /**
   * The consumer block comes first and is headed `# Consumers for <name>`;
   * the entry of consumer `i` is the user role of that consumer with role
   * `consumer` (so it grants `consume` on the request name).
   */
  lemma RolesContentConsumers(request: ProvisionRequest)
    requires NonEmpty(request.consumers)
    ensures RolesContentLines(request)[0] == "# Consumers for " + request.name
    ensures forall i :: 0 <= i < |request.consumers.value| ==>
              RolesContentLines(request)[1 + 9 * i..10 + 9 * i]
              == UserRoleLines(request.consumers.value[i], "consumer", request.name)
  {
    var cb := RoleBlock("Consumers", "consumer", request.consumers, request.name);
    var lines := RolesContentLines(request);
    forall i | 0 <= i < |request.consumers.value|
      ensures lines[1 + 9 * i..10 + 9 * i] == UserRoleLines(request.consumers.value[i], "consumer", request.name)
    {
      RoleBlockEntry("Consumers", "consumer", request.consumers, request.name, i);
      assert lines[1 + 9 * i..10 + 9 * i] == cb[1 + 9 * i..10 + 9 * i];
    }
  }

  /** Where the producer block starts: after `9 * n + 2` lines for `n` consumers, at 0 without them. */
  function ProducersOffset(request: ProvisionRequest): nat {
    if NonEmpty(request.consumers) then 9 * |request.consumers.value| + 2 else 0
  }

  /**
   * The producer block follows the consumer block (which takes `9 * n + 2`
   * lines for `n` consumers, none without them) and is headed
   * `# Producers for <name>`; the entry of producer `j` is the user role of
   * that producer with role `producer` (so it grants `send`).
   */
  lemma RolesContentProducers(request: ProvisionRequest)
    requires NonEmpty(request.producers)
    ensures RolesContentLines(request)[ProducersOffset(request)] == "# Producers for " + request.name
    ensures forall j :: 0 <= j < |request.producers.value| ==>
              RolesContentLines(request)[ProducersOffset(request) + 1 + 9 * j..ProducersOffset(request) + 10 + 9 * j]
              == UserRoleLines(request.producers.value[j], "producer", request.name)
  {
    var cb := RoleBlock("Consumers", "consumer", request.consumers, request.name);
    var pb := RoleBlock("Producers", "producer", request.producers, request.name);
    var off := |cb|;
    forall j | 0 <= j < |request.producers.value|
      ensures RolesContentLines(request)[off + 1 + 9 * j..off + 10 + 9 * j]
              == UserRoleLines(request.producers.value[j], "producer", request.name)
    {
      var e := 1 + 9 * j;
      RoleBlockEntry("Producers", "producer", request.producers, request.name, j);
      SliceOfAppend(cb, pb, e, e + 9);
    }
  }

  lemma SliceOfAppend(a: seq<string>, b: seq<string>, i: nat, j: nat)
    requires i <= j <= |b|
    ensures (a + b)[|a| + i..|a| + j] == b[i..j]
  {
  }

  /** A request without consumers and producers yields no role content, and any other yields some. */
  lemma RolesContentEmptyIff(request: ProvisionRequest)
    ensures RolesContent(request) == [] <==> !NonEmpty(request.consumers) && !NonEmpty(request.producers)
  {
    var lines := RolesContentLines(request);
    if |lines| > 0 {
      LinesCons(lines[0], lines[1..]);
      assert [lines[0]] + lines[1..] == lines;
    }
  }

  /** The StringBuilder of `generateUserRole`. */
  method GenerateUserRole(username: string, role: string, request: ProvisionRequest) returns (yaml: string)
    ensures yaml == Lines(UserRoleLines(username, role, request.name))
  {
    var permission: string;
    if role == "consumer" {
      permission := "consume";
    } else {
      permission := "send";
    }
    var name := request.name;
    ghost var written: seq<string> := [];
    yaml := [];
    var line := username + "_" + role + ":";
    LinesSnoc(written, line); written := written + [line]; yaml := yaml + line + "\n";
    line := "  users:";
    LinesSnoc(written, line); written := written + [line]; yaml := yaml + line + "\n";
    line := "    - '" + username + "'";
    LinesSnoc(written, line); written := written + [line]; yaml := yaml + line + "\n";
    line := "  roles:";
    LinesSnoc(written, line); written := written + [line]; yaml := yaml + line + "\n";
    line := "    - name: '" + name + "_" + role + "_role'";
    LinesSnoc(written, line); written := written + [line]; yaml := yaml + line + "\n";
    line := "      permissions:";
    LinesSnoc(written, line); written := written + [line]; yaml := yaml + line + "\n";
    line := "        - type: '" + permission + "'";
    LinesSnoc(written, line); written := written + [line]; yaml := yaml + line + "\n";
    line := "          match: '" + name + "'";
    LinesSnoc(written, line); written := written + [line]; yaml := yaml + line + "\n";
    line := "";
    LinesSnoc(written, line); written := written + [line]; yaml := yaml + line + "\n";
    assert written == UserRoleLines(username, role, name);
  }

  /** The `for` loop over one list of users, each writing its role entry. */
  method AppendUserRoles(yaml: string, users: seq<string>, role: string, request: ProvisionRequest) returns (out: string)
    ensures out == yaml + Lines(UserRolesLines(users, role, request.name))
  {
    out := yaml;
    var i := 0;
    while i < |users|
      invariant 0 <= i <= |users|
      invariant out == yaml + Lines(UserRolesLines(users[..i], role, request.name))
    {
      var entry := GenerateUserRole(users[i], role, request);
      UserRolesLinesSnoc(users, i, role, request.name);
      out := out + entry;
      i := i + 1;
    }
    assert users[..|users|] == users;
  }

  /** The text of the first `i + 1` entries extends that of the first `i`. */
  lemma UserRolesLinesSnoc(users: seq<string>, i: nat, role: string, name: string)
    requires i < |users|
    ensures Lines(UserRolesLines(users[..i + 1], role, name))
            == Lines(UserRolesLines(users[..i], role, name)) + Lines(UserRoleLines(users[i], role, name))
  {
    assert users[..i + 1][..i] == users[..i];
    LinesAppend(UserRolesLines(users[..i], role, name), UserRoleLines(users[i], role, name));
  }

  /** One optional block of `generateRolesContent`. */
  method AppendRoleBlock(yaml: string, title: string, role: string, users: Option<seq<string>>, request: ProvisionRequest)
    returns (out: string)
    ensures out == yaml + Lines(RoleBlock(title, role, users, request.name))
  {
    out := yaml;
    if NonEmpty(users) {
      var header := "# " + title + " for " + request.name;
      var entries := UserRolesLines(users.value, role, request.name);
      out := out + header + "\n";
      out := AppendUserRoles(out, users.value, role, request);
      out := out + "\n";
      LinesCons(header, entries);
      LinesSnoc([header] + entries, "");
    }
  }

  /** `generateRolesContent`. */
  method GenerateRolesContent(request: ProvisionRequest) returns (yaml: string)
    ensures yaml == RolesContent(request)
  {
    yaml := AppendRoleBlock([], "Consumers", "consumer", request.consumers, request);
    yaml := AppendRoleBlock(yaml, "Producers", "producer", request.producers, request);
    LinesAppend(RoleBlock("Consumers", "consumer", request.consumers, request.name),
                RoleBlock("Producers", "producer", request.producers, request.name));
  }

  // ---------------------------------------------------------------------
  // Queue and topic definitions (generateAcmqContent and its two helpers)
  // ---------------------------------------------------------------------

  /** `s.replace("'", "''")`: a single-quoted YAML scalar doubles its quotes. */
  function DoubleQuotes(s: string): string {
    Replace(s, '\'', "''")
  }

  /** How a YAML reader undoes the doubling: each `''` is one quote. */
  function UndoubleQuotes(s: string): string {
    if |s| == 0 then []
    else if |s| >= 2 && s[0] == '\'' && s[1] == '\'' then "'" + UndoubleQuotes(s[2..])
    else [s[0]] + UndoubleQuotes(s[1..])
  }

  /** Doubling the quotes of a description loses nothing: a YAML reader gets it back. */
  lemma {:induction false} UndoubleDoubleQuotes(s: string)
    ensures UndoubleQuotes(DoubleQuotes(s)) == s
  {
    if |s| > 0 {
      UndoubleDoubleQuotes(s[1..]);
      assert s == [s[0]] + s[1..];
      var rest := DoubleQuotes(s[1..]);
      if s[0] == '\'' {
        assert DoubleQuotes(s) == "''" + rest;
        assert ("''" + rest)[2..] == rest;
      } else {
        assert DoubleQuotes(s) == [s[0]] + rest;
        assert ([s[0]] + rest)[1..] == rest;
      }
    }
  }

  /** A line `<key>'<value>'` of a definition. */
  function FieldLine(key: string, value: string): string {
    key + "'" + value + "'"
  }

  const NameKey := "  - name: "
  const DescriptionKey := "    description: "
  const RoutingKey := "    routing_type: "
  const TeamKey := "      team: "
  const OwnerKey := "      owner: "
  const ItemKey := "        - "

  predicate HasDescription(request: ProvisionRequest) {
    request.description.Some? && |request.description.value| > 0
  }

  function FirstLine(queue: bool): string {
    if queue then "queues:" else "topics:"
  }

  function NameLine(request: ProvisionRequest): string {
    FieldLine(NameKey, request.name)
  }

  /** The description line, present only for a non-empty description. */
  function DescriptionLines(request: ProvisionRequest): seq<string> {
    if HasDescription(request) then [FieldLine(DescriptionKey, DoubleQuotes(request.description.value))] else []
  }

  /** Only a queue is durable. */
  function DurableLines(queue: bool): seq<string> {
    if queue then ["    durable: true"] else []
  }

  function RoutingLine(queue: bool): string {
    FieldLine(RoutingKey, if queue then "ANYCAST" else "MULTICAST")
  }

  function TeamLine(request: ProvisionRequest): string {
    FieldLine(TeamKey, request.team)
  }

  function OwnerLine(request: ProvisionRequest): string {
    FieldLine(OwnerKey, request.requester)
  }

  /** A list entry of the metadata block. */
  function ItemLine(x: string): string {
    FieldLine(ItemKey, x)
  }

  function ItemLines(xs: seq<string>): (r: seq<string>)
    ensures |r| == |xs|
  {
    seq(|xs|, i requires 0 <= i < |xs| => ItemLine(xs[i]))
  }

  /** A header followed by one entry per element, or nothing for an absent or empty list. */
  function ListBlock(header: string, xs: Option<seq<string>>): seq<string> {
    if NonEmpty(xs) then [header] + ItemLines(xs.value) else []
  }

  /** A queue lists its consumers as `consumers`, a topic as `subscribers`. */
  function ConsumersHeader(queue: bool): string {
    if queue then "      consumers:" else "      subscribers:"
  }

  /** A queue lists its producers as `producers`, a topic as `publishers`. */
  function ProducersHeader(queue: bool): string {
    if queue then "      producers:" else "      publishers:"
  }

  /** The lines up to the routing type. */
  function HeadLines(request: ProvisionRequest, queue: bool): seq<string> {
    [FirstLine(queue), NameLine(request)] + DescriptionLines(request) + DurableLines(queue) + [RoutingLine(queue)]
  }

  /** The metadata block: team, owner, and the two optional lists. */
  function MetadataLines(request: ProvisionRequest, queue: bool): seq<string> {
    ["    metadata:", TeamLine(request), OwnerLine(request)]
    + ListBlock(ConsumersHeader(queue), request.consumers)
    + ListBlock(ProducersHeader(queue), request.producers)
  }

  /** The lines of `generateQueueDefinition` (`queue`) or `generateTopicDefinition`. */
  function DefinitionLines(request: ProvisionRequest, queue: bool): seq<string> {
    HeadLines(request, queue) + MetadataLines(request, queue)
  }

  /** `generateAcmqContent`: a queue definition for resource type `queue`, a topic definition otherwise. */
  function AcmqContent(request: ProvisionRequest): string {
    Lines(DefinitionLines(request, request.resourceType == "queue"))
  }

  // ---------------------------------------------------------------------
  // Reading a definition back
  // ---------------------------------------------------------------------

  /** The value of a line `<key>'<value>'`. */
  function FieldValue(line: string, key: string): (r: Option<string>)
    ensures r.Some? ==> line == FieldLine(key, r.value)
  {
    if |line| >= |key| + 2 && line[..|key| + 1] == key + "'" && line[|line| - 1] == '\'' then
      assert line == line[..|key| + 1] + line[|key| + 1..|line| - 1] + [line[|line| - 1]];
      Some(line[|key| + 1..|line| - 1])
    else None
  }

  /** The value of the first line of the form `<key>'<value>'`. */
  function Field(lines: seq<string>, key: string): Option<string> {
    if |lines| == 0 then None
    else if FieldValue(lines[0], key).Some? then FieldValue(lines[0], key)
    else Field(lines[1..], key)
  }

  /** The index of the first line equal to `x`. */
  function IndexOfLine(lines: seq<string>, x: string): (r: Option<nat>)
    ensures r.Some? ==> r.value < |lines| && lines[r.value] == x && x !in lines[..r.value]
    ensures r.None? ==> x !in lines
  {
    if |lines| == 0 then None
    else if lines[0] == x then Some(0)
    else
      var r := IndexOfLine(lines[1..], x);
      assert lines == [lines[0]] + lines[1..];
      if r.Some? then
        assert lines[..r.value + 1] == [lines[0]] + lines[1..][..r.value];
        Some(r.value + 1)
      else None
  }

  /** The values of the list entries at the front of `lines`. */
  function ReadItems(lines: seq<string>): seq<string> {
    if |lines| == 0 || FieldValue(lines[0], ItemKey).None? then []
    else [FieldValue(lines[0], ItemKey).value] + ReadItems(lines[1..])
  }

  /** The entries listed under the first `header` line, or none without one. */
  function ListedUnder(lines: seq<string>, header: string): seq<string> {
    var k := IndexOfLine(lines, header);
    if k.None? then [] else ReadItems(lines[k.value + 1..])
  }

  /** No line of `lines` has char `c` at index `k`. */
  predicate DiffersAt(lines: seq<string>, k: nat, c: char) {
    forall i :: 0 <= i < |lines| && k < |lines[i]| ==> lines[i][k] != c
  }

  lemma FieldValueNone(line: string, key: string, k: nat)
    requires k < |key| && (k < |line| ==> line[k] != key[k])
    ensures FieldValue(line, key).None?
  {
    if |line| >= |key| + 2 {
      assert line[..|key| + 1][k] == line[k];
      assert (key + "'")[k] == key[k];
    }
  }

  /** A key whose char at `k` no line has is found nowhere. */
  lemma {:induction false} NoField(lines: seq<string>, key: string, k: nat)
    requires k < |key| && DiffersAt(lines, k, key[k])
    ensures Field(lines, key).None?
  {
    if |lines| > 0 {
      FieldValueNone(lines[0], key, k);
      NoField(lines[1..], key, k);
    }
  }

  /** A line whose char at `k` no line has is not among them. */
  lemma NotALine(lines: seq<string>, x: string, k: nat)
    requires k < |x| && DiffersAt(lines, k, x[k])
    ensures x !in lines
  {
  }

  lemma {:induction false} FieldAppend(a: seq<string>, b: seq<string>, key: string)
    ensures Field(a + b, key) == if Field(a, key).Some? then Field(a, key) else Field(b, key)
  {
    if |a| > 0 {
      assert (a + b)[1..] == a[1..] + b;
      FieldAppend(a[1..], b, key);
    } else {
      assert a + b == b;
    }
  }

  /** The first `key` line after a stretch without one is the one read. */
  lemma FieldAfter(a: seq<string>, line: string, b: seq<string>, key: string)
    requires Field(a, key).None? && FieldValue(line, key).Some?
    ensures Field(a + [line] + b, key) == FieldValue(line, key)
  {
    FieldAppend(a, [line] + b, key);
    assert a + [line] + b == a + ([line] + b);
  }

  /** A field line reads back as its value. */
  lemma FieldLineValue(key: string, value: string)
    ensures FieldValue(FieldLine(key, value), key) == Some(value)
  {
    var l := FieldLine(key, value);
    assert l[..|key| + 1] == key + "'";
    assert l[|key| + 1..|l| - 1] == value;
  }

  lemma {:induction false} ReadItemsOf(xs: seq<string>, rest: seq<string>)
    ensures ReadItems(ItemLines(xs) + rest) == xs + ReadItems(rest)
  {
    if |xs| > 0 {
      FieldLineValue(ItemKey, xs[0]);
      assert (ItemLines(xs) + rest)[0] == ItemLine(xs[0]);
      assert (ItemLines(xs) + rest)[1..] == ItemLines(xs[1..]) + rest;
      ReadItemsOf(xs[1..], rest);
      assert xs == [xs[0]] + xs[1..];
    } else {
      assert ItemLines(xs) + rest == rest;
    }
  }

  /** The first line equal to `x` is found. */
  lemma {:induction false} IndexOfLineAt(lines: seq<string>, x: string, i: nat)
    requires i < |lines| && lines[i] == x && x !in lines[..i]
    ensures IndexOfLine(lines, x) == Some(i)
  {
    if i > 0 {
      assert lines[0] == lines[..i][0];
      assert lines[1..][..i - 1] == lines[..i][1..];
      IndexOfLineAt(lines[1..], x, i - 1);
    }
  }

  /** A list block read back under its header gives the list, when nothing before holds the header. */
  lemma ListedUnderBlock(front: seq<string>, header: string, xs: Option<seq<string>>, rest: seq<string>)
    requires NonEmpty(xs) && header !in front
    requires |rest| == 0 || FieldValue(rest[0], ItemKey).None?
    ensures ListedUnder(front + ListBlock(header, xs) + rest, header) == xs.value
  {
    var items := ItemLines(xs.value);
    var lines := (front + [header]) + (items + rest);
    assert front + ListBlock(header, xs) + rest == lines;
    assert lines[..|front|] == front;
    IndexOfLineAt(lines, header, |front|);
    assert lines[|front| + 1..] == items + rest;
    ReadItemsOf(xs.value, rest);
  }

  /** Every entry line starts with the fixed `        - '`. */
  lemma ItemsDiffer(xs: seq<string>, k: nat, c: char)
    requires k < 10 && c != ItemKey[k]
    ensures DiffersAt(ItemLines(xs), k, c)
  {
    forall i | 0 <= i < |xs|
      ensures ItemLines(xs)[i][k] == ItemKey[k]
    {
      assert ItemLines(xs)[i] == FieldLine(ItemKey, xs[i]);
    }
  }

  lemma DiffersAtAppend(a: seq<string>, b: seq<string>, k: nat, c: char)
    requires DiffersAt(a, k, c) && DiffersAt(b, k, c)
    ensures DiffersAt(a + b, k, c)
  {
    forall i | 0 <= i < |a + b| && k < |(a + b)[i]|
      ensures (a + b)[i][k] != c
    {
      if i < |a| {
        assert (a + b)[i] == a[i];
      } else {
        assert (a + b)[i] == b[i - |a|];
      }
    }
  }

  /** A list block differs from `c` at `k` when its header and the entry prefix do. */
  lemma BlockDiffers(header: string, xs: Option<seq<string>>, k: nat, c: char)
    requires k < 10 && c != ItemKey[k] && k < |header| && header[k] != c
    ensures DiffersAt(ListBlock(header, xs), k, c)
  {
    if NonEmpty(xs) {
      ItemsDiffer(xs.value, k, c);
      DiffersAtAppend([header], ItemLines(xs.value), k, c);
    }
  }

  /** The metadata block differs from `c` at `k` when its fixed lines and headers do. */
  lemma MetadataDiffers(request: ProvisionRequest, queue: bool, k: nat, c: char)
    requires k < 10 && c != ItemKey[k]
    requires "    metadata:"[k] != c && TeamLine(request)[k] != c && OwnerLine(request)[k] != c
    requires ConsumersHeader(queue)[k] != c && ProducersHeader(queue)[k] != c
    ensures DiffersAt(MetadataLines(request, queue), k, c)
  {
    var meta := ["    metadata:", TeamLine(request), OwnerLine(request)];
    BlockDiffers(ConsumersHeader(queue), request.consumers, k, c);
    BlockDiffers(ProducersHeader(queue), request.producers, k, c);
    DiffersAtAppend(meta, ListBlock(ConsumersHeader(queue), request.consumers), k, c);
    DiffersAtAppend(meta + ListBlock(ConsumersHeader(queue), request.consumers),
                    ListBlock(ProducersHeader(queue), request.producers), k, c);
  }

  /** Read back, a definition names the resource. */
  lemma DefinitionReadsName(request: ProvisionRequest, queue: bool)
    ensures Field(DefinitionLines(request, queue), NameKey) == Some(request.name)
  {
    var key := NameKey;
    var l := NameLine(request);
    FieldLineValue(key, request.name);
    FieldValueNone(FirstLine(queue), key, 2);
    assert Field([FirstLine(queue)], key).None?;
    var rest := DescriptionLines(request) + DurableLines(queue) + [RoutingLine(queue)] + MetadataLines(request, queue);
    assert DefinitionLines(request, queue) == [FirstLine(queue)] + [l] + rest;
    FieldAfter([FirstLine(queue)], l, rest, key);
  }

  /**
   * Read back, a definition carries a description exactly when the request
   * has a non-empty one, with its quotes doubled so that a YAML reader
   * recovers it.
   */
  lemma DefinitionReadsDescription(request: ProvisionRequest, queue: bool)
    ensures Field(DefinitionLines(request, queue), DescriptionKey).Some? <==> HasDescription(request)
    ensures HasDescription(request) ==>
              UndoubleQuotes(Field(DefinitionLines(request, queue), DescriptionKey).value) == request.description.value
  {
    var key := DescriptionKey;
    var front := [FirstLine(queue), NameLine(request)];
    var back := DurableLines(queue) + [RoutingLine(queue)] + MetadataLines(request, queue);
    assert DefinitionLines(request, queue) == front + DescriptionLines(request) + back;
    // Every other line has something else at index 7.
    assert DiffersAt(front, 7, 'c');
    MetadataDiffers(request, queue, 7, 'c');
    DiffersAtAppend(DurableLines(queue), [RoutingLine(queue)], 7, 'c');
    DiffersAtAppend(DurableLines(queue) + [RoutingLine(queue)], MetadataLines(request, queue), 7, 'c');
    NoField(front, key, 7);
    NoField(back, key, 7);
    if HasDescription(request) {
      var l := DescriptionLines(request)[0];
      var d := DoubleQuotes(request.description.value);
      FieldLineValue(key, d);
      FieldAfter(front, l, back, key);
      UndoubleDoubleQuotes(request.description.value);
    } else {
      FieldAppend(front, back, key);
      assert front + DescriptionLines(request) + back == front + back;
    }
  }

  /** Read back, a queue is routed ANYCAST and a topic MULTICAST. */
  lemma DefinitionReadsRouting(request: ProvisionRequest, queue: bool)
    ensures Field(DefinitionLines(request, queue), RoutingKey) == Some(if queue then "ANYCAST" else "MULTICAST")
  {
    var key := RoutingKey;
    var front := [FirstLine(queue), NameLine(request)] + DescriptionLines(request) + DurableLines(queue);
    var l := RoutingLine(queue);
    assert DiffersAt(front, 4, 'r');
    NoField(front, key, 4);
    var v := if queue then "ANYCAST" else "MULTICAST";
    FieldLineValue(key, v);
    FieldAfter(front, l, MetadataLines(request, queue), key);
  }

  /** Read back, a definition names the owning team. */
  lemma DefinitionReadsTeam(request: ProvisionRequest, queue: bool)
    ensures Field(DefinitionLines(request, queue), TeamKey) == Some(request.team)
  {
    var meta := MetadataLines(request, queue);
    HeadDiffers(request, queue, 8, 'a');
    NoField(HeadLines(request, queue), TeamKey, 8);
    FieldAppend(HeadLines(request, queue), meta, TeamKey);
    FieldValueNone(meta[0], TeamKey, 8);
    FieldLineValue(TeamKey, request.team);
    assert meta[1..][0] == TeamLine(request);
  }

  /** Only a queue definition has the line `    durable: true`. */
  lemma DefinitionDurableIff(request: ProvisionRequest, queue: bool)
    ensures "    durable: true" in DefinitionLines(request, queue) <==> queue
  {
    var lines := DefinitionLines(request, queue);
    if queue {
      assert lines[2 + |DescriptionLines(request)|] == "    durable: true";
    } else {
      var head := HeadLines(request, queue);
      assert DiffersAt(head, 5, 'u');
      MetadataDiffers(request, queue, 5, 'u');
      DiffersAtAppend(head, MetadataLines(request, queue), 5, 'u');
      NotALine(lines, "    durable: true", 5);
    }
  }

  /**
   * An optional list block read back under its header gives the list, or
   * nothing when the block is absent, when no other line has the header's
   * char at `k`.
   */
  lemma ListedUnderOrAbsent(front: seq<string>, header: string, xs: Option<seq<string>>, rest: seq<string>, k: nat)
    requires k < |header| && DiffersAt(front, k, header[k]) && DiffersAt(rest, k, header[k])
    requires |rest| == 0 || FieldValue(rest[0], ItemKey).None?
    ensures ListedUnder(front + ListBlock(header, xs) + rest, header) == OrEmpty(xs)
    ensures !NonEmpty(xs) ==> header !in front + ListBlock(header, xs) + rest
  {
    NotALine(front, header, k);
    if NonEmpty(xs) {
      ListedUnderBlock(front, header, xs, rest);
    } else {
      DiffersAtAppend(front, rest, k, header[k]);
      assert front + ListBlock(header, xs) + rest == front + rest;
      NotALine(front + rest, header, k);
    }
  }

  /** The lines up to the routing type differ from `c` at `k` when each fixed prefix does. */
  lemma HeadDiffers(request: ProvisionRequest, queue: bool, k: nat, c: char)
    requires k < 10
    requires (k < 7 ==> FirstLine(queue)[k] != c) && NameKey[k] != c
    requires DescriptionKey[k] != c && "    durable: true"[k] != c && RoutingKey[k] != c
    ensures DiffersAt(HeadLines(request, queue), k, c)
  {
    var a := [FirstLine(queue), NameLine(request)];
    var b := DescriptionLines(request);
    var d := DurableLines(queue);
    var r := [RoutingLine(queue)];
    assert NameLine(request)[k] == NameKey[k];
    assert DiffersAt(a, k, c);
    if HasDescription(request) {
      assert b[0][k] == DescriptionKey[k];
    }
    assert DiffersAt(b, k, c);
    assert DiffersAt(d, k, c);
    assert RoutingLine(queue)[k] == RoutingKey[k];
    assert DiffersAt(r, k, c);
    DiffersAtAppend(a, b, k, c);
    DiffersAtAppend(a + b, d, k, c);
    DiffersAtAppend(a + b + d, r, k, c);
  }

  /** The lines before the two lists differ from `c` at `k` when each fixed prefix does. */
  lemma FixedLinesDiffer(request: ProvisionRequest, queue: bool, k: nat, c: char)
    requires k < 10
    requires (k < 7 ==> FirstLine(queue)[k] != c) && NameKey[k] != c
    requires DescriptionKey[k] != c && "    durable: true"[k] != c && RoutingKey[k] != c
    requires "    metadata:"[k] != c && TeamKey[k] != c && OwnerKey[k] != c
    ensures DiffersAt(HeadLines(request, queue) + ["    metadata:", TeamLine(request), OwnerLine(request)], k, c)
  {
    var m := ["    metadata:", TeamLine(request), OwnerLine(request)];
    HeadDiffers(request, queue, k, c);
    assert TeamLine(request)[k] == TeamKey[k];
    assert OwnerLine(request)[k] == OwnerKey[k];
    assert DiffersAt(m, k, c);
    DiffersAtAppend(HeadLines(request, queue), m, k, c);
  }

  /**
   * Read back, a definition lists exactly the request's consumers under the
   * consumers (`subscribers`) header; an absent or empty list has no header.
   */
  lemma DefinitionReadsConsumers(request: ProvisionRequest, queue: bool)
    ensures ListedUnder(DefinitionLines(request, queue) + [""], ConsumersHeader(queue)) == OrEmpty(request.consumers)
    ensures !NonEmpty(request.consumers) ==> ConsumersHeader(queue) !in DefinitionLines(request, queue)
  {
    var ch := ConsumersHeader(queue);
    var head := HeadLines(request, queue) + ["    metadata:", TeamLine(request), OwnerLine(request)];
    var pb := ListBlock(ProducersHeader(queue), request.producers);
    var rest := pb + [""];
    assert DefinitionLines(request, queue) + [""] == head + ListBlock(ch, request.consumers) + rest;
    // No other line has the consumers header's char at `k`.
    var k := if queue then 6 else 9;
    FixedLinesDiffer(request, queue, k, ch[k]);
    BlockDiffers(ProducersHeader(queue), request.producers, k, ch[k]);
    DiffersAtAppend(pb, [""], k, ch[k]);
    FieldValueNone(rest[0], ItemKey, 6);
    ListedUnderOrAbsent(head, ch, request.consumers, rest, k);
  }

  /**
   * Read back, a definition lists exactly the request's producers under the
   * producers (`publishers`) header; an absent or empty list has no header.
   */
  lemma DefinitionReadsProducers(request: ProvisionRequest, queue: bool)
    ensures ListedUnder(DefinitionLines(request, queue) + [""], ProducersHeader(queue)) == OrEmpty(request.producers)
    ensures !NonEmpty(request.producers) ==> ProducersHeader(queue) !in DefinitionLines(request, queue)
  {
    var ph := ProducersHeader(queue);
    var head := HeadLines(request, queue) + ["    metadata:", TeamLine(request), OwnerLine(request)];
    var cb := ListBlock(ConsumersHeader(queue), request.consumers);
    assert DefinitionLines(request, queue) + [""] == (head + cb) + ListBlock(ph, request.producers) + [""];
    // No other line has `p` at index 6.
    FixedLinesDiffer(request, queue, 6, 'p');
    BlockDiffers(ConsumersHeader(queue), request.consumers, 6, 'p');
    DiffersAtAppend(head, cb, 6, 'p');
    ListedUnderOrAbsent(head + cb, ph, request.producers, [""], 6);
  }

  /** With no line break inside any field, splitting the generated text at '\n' gives the lines back. */
  lemma AcmqContentLines(request: ProvisionRequest)
    requires forall l :: l in DefinitionLines(request, request.resourceType == "queue") ==> '\n' !in l
    ensures SplitOn(AcmqContent(request), '\n') == DefinitionLines(request, request.resourceType == "queue") + [""]
  {
    var lines := DefinitionLines(request, request.resourceType == "queue");
    assert forall i :: 0 <= i < |lines| ==> lines[i] in lines;
    SplitOnLines(lines);
  }

  // ---------------------------------------------------------------------
  // The StringBuilder methods
  // ---------------------------------------------------------------------

  /** The `for` loop writing one `        - '<x>'` line per element. */
  method AppendItems(yaml: string, xs: seq<string>) returns (out: string)
    ensures out == yaml + Lines(ItemLines(xs))
  {
    out := yaml;
    var i := 0;
    while i < |xs|
      invariant 0 <= i <= |xs|
      invariant out == yaml + Lines(ItemLines(xs[..i]))
    {
      assert ItemLines(xs[..i + 1]) == ItemLines(xs[..i]) + [ItemLine(xs[i])];
      LinesSnoc(ItemLines(xs[..i]), ItemLine(xs[i]));
      out := out + "        - '" + xs[i] + "'\n";
      i := i + 1;
    }
    assert xs[..|xs|] == xs;
  }

  /** An optional list: its header and entries, or nothing. */
  method AppendListBlock(yaml: string, header: string, xs: Option<seq<string>>) returns (out: string)
    ensures out == yaml + Lines(ListBlock(header, xs))
  {
    out := yaml;
    if NonEmpty(xs) {
      out := out + header + "\n";
      out := AppendItems(out, xs.value);
      LinesCons(header, ItemLines(xs.value));
    }
  }

  /** The first part of `generateQueueDefinition` and `generateTopicDefinition`, up to the routing type. */
  method AppendHead(request: ProvisionRequest, queue: bool) returns (yaml: string)
    ensures yaml == Lines(HeadLines(request, queue))
  {
    ghost var written: seq<string> := [];
    yaml := [];
    var line := if queue then "queues:" else "topics:";
    LinesSnoc(written, line); written := written + [line]; yaml := yaml + line + "\n";
    line := FieldLine(NameKey, request.name);
    LinesSnoc(written, line); written := written + [line]; yaml := yaml + line + "\n";
    if request.description.Some? && |request.description.value| > 0 {
      line := FieldLine(DescriptionKey, DoubleQuotes(request.description.value));
      LinesSnoc(written, line); written := written + [line]; yaml := yaml + line + "\n";
    }
    assert written == [FirstLine(queue), NameLine(request)] + DescriptionLines(request);
    if queue {
      line := "    durable: true";
      LinesSnoc(written, line); written := written + [line]; yaml := yaml + line + "\n";
    }
    assert written == [FirstLine(queue), NameLine(request)] + DescriptionLines(request) + DurableLines(queue);
    line := FieldLine(RoutingKey, if queue then "ANYCAST" else "MULTICAST");
    LinesSnoc(written, line); written := written + [line]; yaml := yaml + line + "\n";
  }

  /** The metadata part: team, owner and the two optional lists. */
  method AppendMetadata(yaml: string, request: ProvisionRequest, queue: bool) returns (out: string)
    ensures out == yaml + Lines(MetadataLines(request, queue))
  {
    ghost var written;
    var block;
    block, written := AppendLine([], [], "    metadata:");
    block, written := AppendLine(block, written, FieldLine(TeamKey, request.team));
    block, written := AppendLine(block, written, FieldLine(OwnerKey, request.requester));
    var lists := AppendLists(request, queue);
    ghost var listLines := ListBlock(ConsumersHeader(queue), request.consumers) + ListBlock(ProducersHeader(queue), request.producers);
    assert written == [] + ["    metadata:"] + [TeamLine(request)] + [OwnerLine(request)];
    assert MetadataLines(request, queue) == ["    metadata:", TeamLine(request), OwnerLine(request)] + listLines;
    LinesAppend(written, listLines);
    ThreeFirst("    metadata:", TeamLine(request), OwnerLine(request), listLines);
    out := yaml + (block + lists);
  }

  /** Three lines written one at a time, then a block. */
  lemma ThreeFirst<T>(a: T, b: T, c: T, xs: seq<T>)
    ensures [] + [a] + [b] + [c] + xs == [a, b, c] + xs
  {
  }

  /** The two optional lists closing the metadata block. */
  method AppendLists(request: ProvisionRequest, queue: bool) returns (yaml: string)
    ensures yaml == Lines(ListBlock(ConsumersHeader(queue), request.consumers) + ListBlock(ProducersHeader(queue), request.producers))
  {
    yaml := AppendListBlock([], ConsumersHeader(queue), request.consumers);
    yaml := AppendListBlock(yaml, ProducersHeader(queue), request.producers);
    LinesAppend(ListBlock(ConsumersHeader(queue), request.consumers), ListBlock(ProducersHeader(queue), request.producers));
  }

  /** `generateQueueDefinition` (`queue`) and `generateTopicDefinition`. */
  method GenerateDefinition(request: ProvisionRequest, queue: bool) returns (yaml: string)
    ensures yaml == Lines(DefinitionLines(request, queue))
  {
    yaml := AppendHead(request, queue);
    yaml := AppendMetadata(yaml, request, queue);
    LinesAppend(HeadLines(request, queue), MetadataLines(request, queue));
  }

  /** `generateAcmqContent`. */
  method GenerateAcmqContent(request: ProvisionRequest) returns (yaml: string)
    ensures yaml == AcmqContent(request)
  {
    if request.resourceType == "queue" {
      yaml := GenerateDefinition(request, true);
    } else {
      yaml := GenerateDefinition(request, false);
    }
  }
}
