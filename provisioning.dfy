/**
 * The text work of `ProvisioningService`: checking a request, removing the
 * `admin` role from it, placing generated blocks into broker.xml.erb with
 * the file's own indentation, the user-exists check on acmq.yaml, the two
 * repository updates with every Git call replaced by the text it reads or
 * writes, and the commit messages.
 */
module Provisioning {
  import opened Wrappers
  import opened Text
  import opened Identifiers
  import opened Request
  import opened AcmqYaml
  import opened InitPp
  import opened BrokerXml
  import opened BrokerXmlInsert
  import opened BrokerXmlAddress

  // ---------------------------------------------------------------------
  // validateRequest, validateQueueName
  // ---------------------------------------------------------------------

  const NothingRequested: string := "Minst en konsument, producent eller ny subscription måste anges"
  const BadResourceType: string := "Resource type måste vara 'queue' eller 'topic'"

  /**
   * `validateRequest`: a request must name a consumer, a producer or a new
   * subscription, and its resource type must be "queue" or "topic"; the
   * first rule is checked first. The request passes through unchanged.
   */
  function ValidateRequest(r: ProvisionRequest): (v: Result<ProvisionRequest>)
    ensures v.Success? ==> v.value == r
  {
    if !HasConsumersOrProducers(r) && !HasNewSubscriptions(r) then Failure(NothingRequested)
    else if r.resourceType != "queue" && r.resourceType != "topic" then Failure(BadResourceType)
    else Success(r)
  }

  /**
   * A request is accepted exactly when its two lists hold an entry or some
   * listed subscription is flagged new, and its type is one of the two; a
   * request that names nothing is refused for that reason, whatever its type.
   */
  lemma ValidateRequestIff(r: ProvisionRequest)
    ensures ValidateRequest(r).Success? <==>
      (|OrEmpty(r.consumers)| + |OrEmpty(r.producers)| > 0
       || (r.subscriptions.Some? && exists x :: x in r.subscriptions.value && x.isNew))
      && (r.resourceType == "queue" || r.resourceType == "topic")
    ensures |OrEmpty(r.consumers)| + |OrEmpty(r.producers)| == 0 && !HasNewSubscriptions(r) ==>
      ValidateRequest(r) == Failure(NothingRequested)
  {
    HasConsumersOrProducersIff(r);
    HasNewSubscriptionsIff(r);
  }

  /** `validateQueueName`: present and made of `[a-zA-Z0-9._-]` only, at least one char. */
  predicate ValidateQueueName(queueName: Option<string>) {
    queueName.Some? && IsNameToken(queueName.value)
  }

  /** A queue name passes exactly when it is present, non-empty and every char is a letter, digit, '.', '_' or '-'. */
  lemma ValidateQueueNameIff(queueName: Option<string>)
    ensures ValidateQueueName(queueName) <==>
      queueName.Some? && |queueName.value| > 0
      && forall i :: 0 <= i < |queueName.value| ==>
           var c := queueName.value[i];
           ('a' <= c <= 'z') || ('A' <= c <= 'Z') || ('0' <= c <= '9') || c == '.' || c == '_' || c == '-'
  {
  }

  // ---------------------------------------------------------------------
  // filterAdminFromRequest
  // ---------------------------------------------------------------------

  /**
   * `equalsIgnoreCase` for one char against a lower-case ASCII letter `l`:
   * the same char, its upper-case form, or (for 'i') the dotless and the
   * dotted I, which upper-case and lower-case to the letter.
   */
  predicate SameLetterIgnoringCase(c: char, l: char) {
    c == l || c as int == l as int - 32 || (l == 'i' && (c == '\U{0131}' || c == '\U{0130}'))
  }

  /** `lit.equalsIgnoreCase(s)` for a lower-case ASCII literal `lit`. */
  predicate EqualsIgnoreCase(s: string, lit: string) {
    |s| == |lit| && forall i :: 0 <= i < |s| ==> SameLetterIgnoringCase(s[i], lit[i])
  }

  /** `"admin".equalsIgnoreCase(s)` */
  predicate IsAdmin(s: string) {
    EqualsIgnoreCase(s, "admin")
  }

  /** The stream filter of `filterAdminFromRequest`: every entry but the `admin` ones, in order. */
  function WithoutAdmin(xs: seq<string>): (r: seq<string>)
    ensures |r| <= |xs|
  {
    if |xs| == 0 then []
    else WithoutAdmin(xs[..|xs| - 1]) + (if IsAdmin(xs[|xs| - 1]) then [] else [xs[|xs| - 1]])
  }

  /** The filter keeps exactly the entries that are not `admin`. */
  lemma {:induction false} WithoutAdminMembers(xs: seq<string>)
    ensures forall x :: x in WithoutAdmin(xs) <==> x in xs && !IsAdmin(x)
  {
    if |xs| > 0 {
      var init, last := xs[..|xs| - 1], xs[|xs| - 1];
      WithoutAdminMembers(init);
      assert xs == init + [last];
    }
  }

  /** Filtering a concatenation filters each part: the kept entries stay in their order. */
  lemma {:induction false} WithoutAdminAppend(a: seq<string>, b: seq<string>)
    ensures WithoutAdmin(a + b) == WithoutAdmin(a) + WithoutAdmin(b)
    decreases |b|
  {
    if |b| > 0 {
      var b' := b[..|b| - 1];
      assert (a + b)[..|a + b| - 1] == a + b';
      WithoutAdminAppend(a, b');
    } else {
      assert a + b == a;
    }
  }

  /** A list with no `admin` entry is kept whole, and a list keeps its length only then. */
  lemma {:induction false} WithoutAdminKeepsAll(xs: seq<string>)
    ensures WithoutAdmin(xs) == xs <==> forall i :: 0 <= i < |xs| ==> !IsAdmin(xs[i])
    ensures |WithoutAdmin(xs)| == |xs| ==> WithoutAdmin(xs) == xs
  {
    if |xs| > 0 {
      var init, last := xs[..|xs| - 1], xs[|xs| - 1];
      WithoutAdminKeepsAll(init);
      var w := WithoutAdmin(init);
      var admin := IsAdmin(last);
      assert WithoutAdmin(xs) == w + (if admin then [] else [last]);
      assert xs == init + [last];
      NoAdminSnoc(init, last);
      if admin {
        assert |WithoutAdmin(xs)| < |xs|;
      } else {
        assert WithoutAdmin(xs) == xs <==> w == init by {
          if WithoutAdmin(xs) == xs {
            assert w == (w + [last])[..|w|];
          }
        }
      }
    }
  }

  /** No entry of `init + [last]` is `admin` exactly when none of `init` is and `last` is not. */
  lemma NoAdminSnoc(init: seq<string>, last: string)
    ensures var xs := init + [last];
      (forall i :: 0 <= i < |xs| ==> !IsAdmin(xs[i]))
      <==> (forall i :: 0 <= i < |init| ==> !IsAdmin(init[i])) && !IsAdmin(last)
  {
    var xs := init + [last];
    if forall i :: 0 <= i < |xs| ==> !IsAdmin(xs[i]) {
      assert xs[|init|] == last;
      forall i | 0 <= i < |init|
        ensures !IsAdmin(init[i])
      {
        assert xs[i] == init[i];
      }
    }
  }

  /** Filtering twice is filtering once. */
  lemma WithoutAdminIdempotent(xs: seq<string>)
    ensures WithoutAdmin(WithoutAdmin(xs)) == WithoutAdmin(xs)
  {
    var r := WithoutAdmin(xs);
    WithoutAdminMembers(xs);
    forall i | 0 <= i < |r|
      ensures !IsAdmin(r[i])
    {
      assert r[i] in r;
    }
    WithoutAdminKeepsAll(r);
  }

  /** `filterAdminFromRequest`: each present list loses its `admin` entries; absent lists stay absent. */
  function FilterAdminFromRequest(r: ProvisionRequest): (f: ProvisionRequest)
    ensures f.producers.Some? <==> r.producers.Some?
    ensures f.consumers.Some? <==> r.consumers.Some?
    ensures f.producers.Some? ==> f.producers.value == WithoutAdmin(r.producers.value)
    ensures f.consumers.Some? ==> f.consumers.value == WithoutAdmin(r.consumers.value)
    ensures f.(producers := r.producers, consumers := r.consumers) == r
  {
    var producers := if r.producers.Some? then Some(WithoutAdmin(r.producers.value)) else None;
    var consumers := if r.consumers.Some? then Some(WithoutAdmin(r.consumers.value)) else None;
    r.(producers := producers, consumers := consumers)
  }

  /** No `admin` entry is left, every other entry stays, and filtering again changes nothing. */
  lemma FilterAdminFromRequestSpec(r: ProvisionRequest)
    ensures var f := FilterAdminFromRequest(r);
      && (forall x :: x in OrEmpty(f.producers) <==> x in OrEmpty(r.producers) && !IsAdmin(x))
      && (forall x :: x in OrEmpty(f.consumers) <==> x in OrEmpty(r.consumers) && !IsAdmin(x))
      && FilterAdminFromRequest(f) == f
  {
    if r.producers.Some? {
      WithoutAdminMembers(r.producers.value);
      WithoutAdminIdempotent(r.producers.value);
    }
    if r.consumers.Some? {
      WithoutAdminMembers(r.consumers.value);
      WithoutAdminIdempotent(r.consumers.value);
    }
  }

  /**
   * Validation runs before the filter, so a request whose only consumer is
   * "Admin" is accepted and goes on with an empty consumer list.
   */
  lemma AdminOnlyRequestAccepted(r: ProvisionRequest)
    requires r.consumers == Some(["Admin"]) && r.producers.None? && r.resourceType == "queue"
    ensures ValidateRequest(r).Success?
    ensures FilterAdminFromRequest(r).consumers == Some([])
  {
    assert IsAdmin("Admin");
    assert WithoutAdmin(["Admin"]) == WithoutAdmin([]) + [];
  }

  // ---------------------------------------------------------------------
  // applyIndentation, applyAddressIndentation
  // ---------------------------------------------------------------------

  /**
   * `applyIndentation`'s choice for a trimmed line: the outer tags at the
   * base indent, permissions, comments and every other tag two spaces
   * deeper, text that is not a tag with no indent.
   */
  function SettingLineIndent(base: string): string -> string {
    (t: string) =>
      if IsSettingTag(t) then base
      else if StartsWith(t, "<permission") || StartsWith(t, "<!--") then base + "  "
      else if StartsWith(t, "<") then base + "  "
      else []
  }

  /** `applyIndentation(content, base)`: newlines normalised, each line trimmed and re-indented, blank lines kept as newlines. */
  function Indented(content: string, base: string): string {
    var lines := JavaSplit(NormalizeNewlines(content), '\n');
    Reindented(TrimmedLines(lines, Trim), |lines|, SettingLineIndent(base), true)
  }

  /** `applyIndentation` */
  method ApplyIndentation(content: string, base: string) returns (r: string)
    ensures r == Indented(content, base)
  {
    var normalized := NormalizeNewlines(content);
    var lines := JavaSplit(normalized, '\n');
    r := Reindent(lines, Trim, SettingLineIndent(base), true);
  }

  /**
   * `applyAddressIndentation`'s choice for a trimmed line: the address tags
   * at the base indent, the routing tags two spaces deeper, queues four
   * spaces deeper and anything else two spaces deeper.
   */
  function AddressLineIndent(base: string): string -> string {
    (t: string) =>
      if StartsWith(t, "<address") || StartsWith(t, "</address") then base
      else if StartsWith(t, "<anycast") || StartsWith(t, "</anycast")
           || StartsWith(t, "<multicast") || StartsWith(t, "</multicast") then base + "  "
      else if StartsWith(t, QueueOpen) then base + "    "
      else base + "  "
  }

  /** `applyAddressIndentation(content, base)` */
  function AddressIndented(content: string, base: string): string {
    var lines := JavaSplit(NormalizeNewlines(content), '\n');
    Reindented(TrimmedLines(lines, Trim), |lines|, AddressLineIndent(base), true)
  }

  /** `applyAddressIndentation` */
  method ApplyAddressIndentation(content: string, base: string) returns (r: string)
    ensures r == AddressIndented(content, base)
  {
    var normalized := NormalizeNewlines(content);
    var lines := JavaSplit(normalized, '\n');
    r := Reindent(lines, Trim, AddressLineIndent(base), true);
  }

  /** No line break of either kind. */
  predicate OneLine(s: string) {
    '\n' !in s && '\r' !in s
  }

  /** Line `i` of `lines`; quantifiers over lines hang on it, so that a list written out in full is not searched line by line. */
  function LineAt(lines: seq<string>, i: nat): string
    requires i < |lines|
  {
    lines[i]
  }

  /** Lines that splitting on newlines gives back one by one. */
  predicate OneLines(lines: seq<string>) {
    forall i {:trigger LineAt(lines, i)} :: 0 <= i < |lines| ==> LineAt(lines, i) != [] && OneLine(LineAt(lines, i))
  }

  /** One line of a list of one-line lines. */
  lemma OneLineAt(lines: seq<string>, i: nat)
    requires OneLines(lines) && i < |lines|
    ensures lines[i] != [] && OneLine(lines[i])
  {
    assert LineAt(lines, i) == lines[i];
  }

  /** Re-indenting joined one-line lines re-indents exactly those lines, trimmed. */
  lemma IndentJoined(lines: seq<string>, indent: string -> string)
    requires |lines| >= 1 && OneLines(lines)
    ensures var lines' := JavaSplit(NormalizeNewlines(Join(lines, "\n")), '\n');
      lines' == lines
  {
    forall i | 0 <= i < |lines|
      ensures lines[i] != [] && '\n' !in lines[i] && '\r' !in lines[i]
    {
      OneLineAt(lines, i);
    }
    JoinAvoids(lines, "\n", '\r');
    JavaSplitJoinNonEmpty(lines, '\n');
  }

  /** The pieces of the first `k` lines are a prefix of the pieces of any longer run. */
  lemma {:induction false} ReindentedPrefix(ts: seq<string>, k: nat, j: nat, indent: string -> string, blankNewline: bool)
    returns (rest: string)
    requires k <= j <= |ts|
    ensures Reindented(ts, j, indent, blankNewline) == Reindented(ts, k, indent, blankNewline) + rest
    decreases j
  {
    if j == k {
      rest := [];
    } else {
      var r := ReindentedPrefix(ts, k, j - 1, indent, blankNewline);
      rest := r + LinePiece(ts, j - 1, indent, blankNewline);
    }
  }

  /** A non-blank trimmed line appears, after its indent, in the re-indented block. */
  lemma ReindentedAround(ts: seq<string>, k: nat, indent: string -> string, blankNewline: bool)
    returns (a: string, c: string)
    requires k < |ts| && ts[k] != []
    ensures Reindented(ts, |ts|, indent, blankNewline) == a + (indent(ts[k]) + ts[k]) + c
  {
    var rest := ReindentedPrefix(ts, k + 1, |ts|, indent, blankNewline);
    a := Reindented(ts, k, indent, blankNewline);
    c := (if k < |ts| - 1 then "\n" else []) + rest;
  }

  /**
   * A tag line `open rest tail` of a block of one-line lines is, after any
   * re-indentation, a match of `open\s+rest` in any text around the block.
   */
  lemma TagLineSurvives(lines: seq<string>, k: nat, indent: string -> string, x: string, y: string,
                        open: string, rest: string, tail: string)
    requires |lines| >= 1 && OneLines(lines) && k < |lines|
    requires lines[k] == open + " " + rest + tail && PlainLine(lines[k])
    requires rest != [] && !IsSpace(rest[0])
    ensures var ls := JavaSplit(NormalizeNewlines(Join(lines, "\n")), '\n');
      Occurs(x + Reindented(TrimmedLines(ls, Trim), |ls|, indent, true) + y, open, rest)
  {
    IndentJoined(lines, indent);
    var ts := TrimmedLines(lines, Trim);
    TrimPlain(lines[k]);
    var a, c := ReindentedAround(ts, k, indent, true);
    TagInPieces(x, a, indent(ts[k]), ts[k], c, y, open, rest, tail);
  }

  /** A tag line between other pieces of text is a match of the whole. */
  lemma TagInPieces(x: string, a: string, ind: string, line: string, c: string, y: string,
                    open: string, rest: string, tail: string)
    requires line == open + " " + rest + tail && rest != [] && !IsSpace(rest[0])
    ensures Occurs(x + (a + (ind + line) + c) + y, open, rest)
  {
    OccursAtTag(x + a + ind, open, rest, tail, c + y);
    assert x + (a + (ind + line) + c) + y == (x + a + ind) + (open + " " + rest + tail) + (c + y);
  }

  // ---------------------------------------------------------------------
  // Generated blocks are made of one-line lines
  // ---------------------------------------------------------------------

  /** The request's names and role lists hold no line break. */
  predicate OneLineRequest(r: ProvisionRequest) {
    && OneLine(r.name) && OneLine(LegacyName(r))
    && (forall i :: 0 <= i < |OrEmpty(r.consumers)| ==> OneLine(OrEmpty(r.consumers)[i]))
    && (forall i :: 0 <= i < |OrEmpty(r.producers)| ==> OneLine(OrEmpty(r.producers)[i]))
    && (r.subscriptions.Some? ==>
          forall i :: 0 <= i < |r.subscriptions.value| ==> OneLine(r.subscriptions.value[i].subscriptionName))
  }

  /** A role list joined with commas after the admin role has no line break. */
  lemma RoleListOneLine(admin: string, roles: seq<string>)
    requires OneLine(admin) && forall i :: 0 <= i < |roles| ==> OneLine(roles[i])
    ensures OneLine(Join([admin] + roles, ","))
  {
    var xs := [admin] + roles;
    assert forall i :: 0 <= i < |xs| ==> OneLine(xs[i]) by {
      forall i | 0 <= i < |xs|
        ensures OneLine(xs[i])
      {
        if i > 0 {
          assert xs[i] == roles[i - 1];
        }
      }
    }
    JoinAvoids(xs, ",", '\n');
    JoinAvoids(xs, ",", '\r');
  }

  /** A permission line over a one-line role list is one line. */
  lemma PermissionLineOneLine(permission: string, roles: string)
    requires OneLine(permission) && OneLine(roles)
    ensures PermissionLine(permission, roles) != [] && OneLine(PermissionLine(permission, roles))
  {
  }

  /** A permission line with the admin role first is one line. */
  lemma RolePermissionOneLine(permission: string, admin: string, roles: seq<string>)
    requires OneLine(permission) && OneLine(admin) && forall i :: 0 <= i < |roles| ==> OneLine(roles[i])
    ensures RolePermission(permission, admin, roles) != [] && OneLine(RolePermission(permission, admin, roles))
  {
    RoleListOneLine(admin, roles);
    PermissionLineOneLine(permission, Join([admin] + roles, ","));
  }

  /** Converting a name to a Puppet variable name adds no line break. */
  lemma VariableOneLine(name: string)
    requires OneLine(name)
    ensures OneLine(ToVariableName(name))
  {
  }

  /** The namespace prefix of a one-line name is one line. */
  lemma PrefixIsOneLine(name: string)
    requires OneLine(name)
    ensures OneLine(NamespacePrefix(name))
  {
  }

  /** A list whose every member is a non-empty one-line string. */
  lemma OneLinesByMember(lines: seq<string>)
    requires forall x :: x in lines ==> x != [] && OneLine(x)
    ensures OneLines(lines)
  {
    forall i | 0 <= i < |lines|
      ensures LineAt(lines, i) != [] && OneLine(LineAt(lines, i))
    {
      assert lines[i] in lines;
    }
  }

  /** A permission line indented by four spaces is a non-empty line without a break. */
  predicate IndentedGrant(x: string) {
    "    " + x != [] && OneLine("    " + x)
  }

  /** The namespace block's grants, each indented by four spaces, are one line each. */
  lemma NamespaceGrantsOneLine(prefix: string)
    requires OneLine(prefix)
    ensures var admin, read, write := AdminRole(prefix), prefix + "-read", prefix + "-write";
      && IndentedGrant(RolePermission("createNonDurableQueue", admin, [write, read]))
      && IndentedGrant(RolePermission("createDurableQueue", admin, [write, read]))
      && IndentedGrant(RolePermission("createAddress", admin, [write, read]))
      && IndentedGrant(RolePermission("consume", admin, [read]))
      && IndentedGrant(RolePermission("browse", admin, [read]))
      && IndentedGrant(RolePermission("send", admin, [write]))
      && IndentedGrant(PermissionLine("deleteNonDurableQueue", admin))
      && IndentedGrant(PermissionLine("deleteDurableQueue", admin))
      && IndentedGrant(PermissionLine("deleteAddress", admin))
      && IndentedGrant(PermissionLine("manage", admin))
      && IndentedGrant(DataImportComment)
  {
    var admin, read, write := AdminRole(prefix), prefix + "-read", prefix + "-write";
    CreateDeleteNamesOneLine();
    UseNamesOneLine();
    IndentedRolePermission("createNonDurableQueue", admin, [write, read]);
    IndentedRolePermission("createDurableQueue", admin, [write, read]);
    IndentedRolePermission("createAddress", admin, [write, read]);
    IndentedRolePermission("consume", admin, [read]);
    IndentedRolePermission("browse", admin, [read]);
    IndentedRolePermission("send", admin, [write]);
    IndentedPermission("deleteNonDurableQueue", admin);
    IndentedPermission("deleteDurableQueue", admin);
    IndentedPermission("deleteAddress", admin);
    IndentedPermission("manage", admin);
    CommentOneLine();
  }

  /** The permission types that create and delete queues and addresses hold no line break. */
  lemma CreateDeleteNamesOneLine()
    ensures OneLine("createNonDurableQueue") && OneLine("createDurableQueue") && OneLine("createAddress")
    ensures OneLine("deleteNonDurableQueue") && OneLine("deleteDurableQueue") && OneLine("deleteAddress")
  {
    CreateNamesOneLine();
    DeleteNamesOneLine();
  }

  lemma CreateNamesOneLine()
    ensures OneLine("createNonDurableQueue") && OneLine("createDurableQueue") && OneLine("createAddress")
  {
  }

  lemma DeleteNamesOneLine()
    ensures OneLine("deleteNonDurableQueue") && OneLine("deleteDurableQueue") && OneLine("deleteAddress")
  {
  }

  /** The permission types for sending, reading and managing hold no line break. */
  lemma UseNamesOneLine()
    ensures OneLine("send") && OneLine("consume") && OneLine("browse") && OneLine("manage")
  {
  }

  /** The namespace block's comment, indented, is a line without a break. */
  lemma CommentOneLine()
    ensures IndentedGrant(DataImportComment)
  {
    assert OneLine("<!-- we need this otherwise ") && OneLine("./artemis data imp wouldn't work -->");
  }

  lemma IndentedRolePermission(permission: string, admin: string, roles: seq<string>)
    requires OneLine(permission) && OneLine(admin) && forall i :: 0 <= i < |roles| ==> OneLine(roles[i])
    ensures IndentedGrant(RolePermission(permission, admin, roles))
  {
    RolePermissionOneLine(permission, admin, roles);
  }

  lemma IndentedPermission(permission: string, roles: string)
    requires OneLine(permission) && OneLine(roles)
    ensures IndentedGrant(PermissionLine(permission, roles))
  {
  }

  /** Every line of the namespace block is one line. */
  lemma NamespaceLinesOneLine(prefix: string)
    requires OneLine(prefix)
    ensures OneLines(NamespaceSettingLines(prefix))
  {
    NamespaceGrantsOneLine(prefix);
    MatchesOneLine(prefix, [], []);
    OpenLineOneLine(NamespaceMatch(prefix));
    CloseOneLine();
    OneLinesByMember(NamespaceSettingLines(prefix));
  }

  /** Every line of the send, consume and browse grants is one line. */
  lemma GrantLinesOneLine(admin: string, request: ProvisionRequest)
    requires OneLine(admin) && OneLineRequest(request)
    ensures OneLines(GrantLines(admin, request))
  {
    UseNamesOneLine();
    RolePermissionOneLine("send", admin, OrEmpty(request.producers));
    RolePermissionOneLine("consume", admin, OrEmpty(request.consumers));
    RolePermissionOneLine("browse", admin, OrEmpty(request.consumers));
  }

  /** Every line of a topic's create and delete rights is one line. */
  lemma CreateDeleteLinesOneLine(admin: string, request: ProvisionRequest)
    requires OneLine(admin) && OneLineRequest(request)
    ensures OneLines(CreateDeleteLines(admin, request))
  {
    CreateDeleteNamesOneLine();
    var consumers, producers := OrEmpty(request.consumers), OrEmpty(request.producers);
    var both := consumers + producers;
    forall i | 0 <= i < |both|
      ensures OneLine(both[i])
    {
      if i >= |consumers| {
        assert both[i] == producers[i - |consumers|];
      }
    }
    RolePermissionOneLine("createNonDurableQueue", admin, both);
    RolePermissionOneLine("createDurableQueue", admin, both);
    RolePermissionOneLine("createAddress", admin, both);
    PermissionLineOneLine("deleteNonDurableQueue", admin);
    PermissionLineOneLine("deleteDurableQueue", admin);
    PermissionLineOneLine("deleteAddress", admin);
  }

  /** Lists of one-line lines stay so when concatenated. */
  lemma OneLinesAppend(a: seq<string>, b: seq<string>)
    requires OneLines(a) && OneLines(b)
    ensures OneLines(a + b)
  {
    forall i | 0 <= i < |a + b|
      ensures LineAt(a + b, i) != [] && OneLine(LineAt(a + b, i))
    {
      if i >= |a| {
        assert (a + b)[i] == b[i - |a|];
        OneLineAt(b, i - |a|);
      } else {
        OneLineAt(a, i);
      }
    }
  }

  /** The closing tag of a block is one line. */
  lemma CloseOneLine()
    ensures SettingClose != [] && OneLine(SettingClose)
  {
  }

  /** A block's open tag over a one-line match attribute is one line. */
  lemma OpenLineOneLine(rest: string)
    requires OneLine(rest)
    ensures OneLine(SettingOpen + " " + rest)
  {
  }

  /** The match attributes of the namespace, resource and subscription blocks are one line. */
  lemma MatchesOneLine(prefix: string, v: string, sv: string)
    requires OneLine(prefix) && OneLine(v) && OneLine(sv)
    ensures OneLine(NamespaceMatch(prefix)) && OneLine(ResourceMatch(v)) && OneLine(SubscriptionMatch(v, sv))
  {
  }

  /** The open tag, the grants and the closing tag of a resource block are one line each. */
  lemma HeadLinesOneLine(v: string, admin: string, request: ProvisionRequest)
    requires OneLine(v) && OneLine(admin) && OneLineRequest(request)
    ensures OneLines([SettingOpen + " " + ResourceMatch(v)] + GrantLines(admin, request))
    ensures OneLines([SettingClose])
  {
    CloseOneLine();
    MatchesOneLine([], v, []);
    OpenLineOneLine(ResourceMatch(v));
    GrantLinesOneLine(admin, request);
    OneLinesAppend([SettingOpen + " " + ResourceMatch(v)], GrantLines(admin, request));
  }

  /** Every line of a topic's own block is one line. */
  lemma TopicMainLinesOneLine(v: string, prefix: string, request: ProvisionRequest)
    requires OneLine(v) && OneLine(prefix) && OneLineRequest(request)
    ensures OneLines(TopicMainLines(v, prefix, request))
  {
    var admin := AdminRole(prefix);
    var head := [SettingOpen + " " + ResourceMatch(v)] + GrantLines(admin, request);
    HeadLinesOneLine(v, admin, request);
    CreateDeleteLinesOneLine(admin, request);
    OneLinesAppend(head, CreateDeleteLines(admin, request));
    OneLinesAppend(head + CreateDeleteLines(admin, request), [SettingClose]);
  }

  /** Every line of a subscription block over a one-line role list is one line. */
  lemma SubscriptionLinesOneLine(v: string, sv: string, roles: string)
    requires OneLine(v) && OneLine(sv) && OneLine(roles)
    ensures OneLines(SubscriptionSettingLines(v, sv, roles))
  {
    MatchesOneLine([], v, sv);
    OpenLineOneLine(SubscriptionMatch(v, sv));
    UseNamesOneLine();
    PermissionLineOneLine("consume", roles);
    PermissionLineOneLine("browse", roles);
    OneLinesByMember(SubscriptionSettingLines(v, sv, roles));
  }

  /** Every line of the resource block is one line. */
  lemma ResourceLinesOneLine(request: ProvisionRequest)
    requires OneLineRequest(request)
    ensures var v, prefix := ToVariableName(request.name), NamespacePrefix(request.name);
      OneLines(ResourceSettingLines(v, prefix, request))
  {
    var v, prefix := ToVariableName(request.name), NamespacePrefix(request.name);
    VariableOneLine(request.name);
    PrefixIsOneLine(request.name);
    var admin := AdminRole(prefix);
    if request.resourceType == "topic" {
      TopicMainLinesOneLine(v, prefix, request);
      if LegacyName(request) == [] {
        assert ResourceSettingLines(v, prefix, request) == TopicMainLines(v, prefix, request);
      } else {
        var sv := ToVariableName(LegacyName(request));
        VariableOneLine(LegacyName(request));
        var roles := Join([admin] + OrEmpty(request.consumers), ",");
        RoleListOneLine(admin, OrEmpty(request.consumers));
        SubscriptionLinesOneLine(v, sv, roles);
        OneLinesAppend(TopicMainLines(v, prefix, request), SubscriptionSettingLines(v, sv, roles));
        assert ResourceSettingLines(v, prefix, request) == TopicMainLines(v, prefix, request) + SubscriptionSettingLines(v, sv, roles);
      }
    } else {
      HeadLinesOneLine(v, admin, request);
      OneLinesAppend([SettingOpen + " " + ResourceMatch(v)] + GrantLines(admin, request), [SettingClose]);
    }
  }

  /** The open tag of a generated block is a plain line. */
  lemma OpenTagPlain(rest: string)
    requires OneLine(rest) && |rest| > 0 && rest[|rest| - 1] == '>'
    ensures PlainLine(SettingOpen + " " + rest)
  {
    var t := SettingOpen + " " + rest;
    assert t[0] == '<' && t[|t| - 1] == '>';
    TagLinePlain(t);
  }

  // ---------------------------------------------------------------------
  // insertSecuritySettings, insertAddress
  // ---------------------------------------------------------------------

  const AddressesClose: string := "</addresses>"

  /** `detectSecuritySettingIndent` less one trailing space, the base indent of `insertSecuritySettings`. */
  function BaseSettingIndent(existing: string): (r: string)
    ensures |r| <= |SettingIndent(existing)|
  {
    var d := SettingIndent(existing);
    if |d| > 0 && d[|d| - 1] == ' ' then d[..|d| - 1] else d
  }

  /**
   * `insertSecuritySettings(existing, settings)`: an empty file becomes the
   * block; a file without `</security-settings>` gets the block after a
   * blank line; otherwise the re-indented block goes on its own line just
   * before the last `</security-settings>`, the whitespace before that tag
   * collapsed to one newline.
   */
  function SecuritySettingsInserted(existing: string, settings: string): string {
    if existing == [] then settings
    else match LastIndexOf(existing, SettingsClose)
      case None => existing + "\n\n" + settings
      case Some(p) =>
        (StripTrailingSpaceRegex(existing[..p]) + "\n") + Indented(settings, BaseSettingIndent(existing)) + ("\n" + existing[p..])
  }

  /** `insertSecuritySettings` */
  method InsertSecuritySettings(existing: string, settings: string) returns (r: string)
    ensures r == SecuritySettingsInserted(existing, settings)
  {
    if existing == [] {
      return settings;
    }
    var p := LastIndexOf(existing, SettingsClose);
    if p.None? {
      return existing + "\n\n" + settings;
    }
    var base := SettingIndent(existing);
    if |base| > 0 && base[|base| - 1] == ' ' {
      base := base[..|base| - 1];
    }
    var indented := ApplyIndentation(settings, base);
    var before := StripTrailingSpaceRegex(existing[..p.value]) + "\n";
    r := before + indented + ("\n" + existing[p.value..]);
  }

  /**
   * `insertAddress(existing, entry)`: an empty file or one without
   * `</addresses>` is returned as it is; otherwise the re-indented entry
   * goes on its own line just before the last `</addresses>`.
   */
  function AddressInserted(existing: string, entry: string): string {
    if existing == [] then existing
    else match LastIndexOf(existing, AddressesClose)
      case None => existing
      case Some(p) =>
        (StripTrailingSpaceRegex(existing[..p]) + "\n") + AddressIndented(entry, AddressIndent(existing)) + ("\n" + existing[p..])
  }

  /** `insertAddress` */
  method InsertAddress(existing: string, entry: string) returns (r: string)
    ensures r == AddressInserted(existing, entry)
  {
    if existing == [] {
      return existing;
    }
    var p := LastIndexOf(existing, AddressesClose);
    if p.None? {
      return existing;
    }
    var base := AddressIndent(existing);
    var indented := ApplyAddressIndentation(entry, base);
    var before := StripTrailingSpaceRegex(existing[..p.value]) + "\n";
    r := before + indented + ("\n" + existing[p.value..]);
  }

  /** `insertSecuritySettings` when the closing tag is found at `p`. */
  lemma SettingsInsertedAt(existing: string, settings: string, p: nat)
    requires existing != [] && LastIndexOf(existing, SettingsClose) == Some(p)
    ensures SecuritySettingsInserted(existing, settings)
      == (StripTrailingSpaceRegex(existing[..p]) + "\n") + Indented(settings, BaseSettingIndent(existing)) + ("\n" + existing[p..])
  {
  }

  /** `insertAddress` when the closing tag is found at `p`. */
  lemma AddressInsertedAt(existing: string, entry: string, p: nat)
    requires existing != [] && LastIndexOf(existing, AddressesClose) == Some(p)
    ensures AddressInserted(existing, entry)
      == (StripTrailingSpaceRegex(existing[..p]) + "\n") + AddressIndented(entry, AddressIndent(existing)) + ("\n" + existing[p..])
  {
  }

  /** From the last `</security-settings>` on, the text is kept as it was. */
  lemma SettingsInsertedKeepsTail(existing: string, settings: string, p: nat)
    requires existing != [] && LastIndexOf(existing, SettingsClose) == Some(p)
    ensures var r := SecuritySettingsInserted(existing, settings);
      |existing| - p <= |r| && r[|r| - (|existing| - p)..] == existing[p..] && StartsAt(r, SettingsClose, |r| - (|existing| - p))
  {
    SettingsInsertedAt(existing, settings, p);
    TailAfter(SecuritySettingsInserted(existing, settings), StripTrailingSpaceRegex(existing[..p]),
              Indented(settings, BaseSettingIndent(existing)), existing, p, SettingsClose);
  }

  /** From the last `</addresses>` on, the text is kept as it was. */
  lemma AddressInsertedKeepsTail(existing: string, entry: string, p: nat)
    requires existing != [] && LastIndexOf(existing, AddressesClose) == Some(p)
    ensures var r := AddressInserted(existing, entry);
      |existing| - p <= |r| && r[|r| - (|existing| - p)..] == existing[p..] && StartsAt(r, AddressesClose, |r| - (|existing| - p))
  {
    AddressInsertedAt(existing, entry, p);
    TailAfter(AddressInserted(existing, entry), StripTrailingSpaceRegex(existing[..p]),
              AddressIndented(entry, AddressIndent(existing)), existing, p, AddressesClose);
  }

  /** A text ending in the tail of `s` from a tag on keeps that tail and the tag. */
  lemma TailAfter(r: string, a: string, m: string, s: string, p: nat, tag: string)
    requires p <= |s| && StartsAt(s, tag, p)
    requires r == (a + "\n") + m + ("\n" + s[p..])
    ensures |s| - p <= |r| && r[|r| - (|s| - p)..] == s[p..] && StartsAt(r, tag, |r| - (|s| - p))
  {
    var x := (a + "\n") + m + "\n";
    assert r == x + s[p..];
    TailKept(x, s, p, tag);
  }

  /** Text placed before a tail keeps the tail, and a tag at its start. */
  lemma TailKept(x: string, s: string, p: nat, tag: string)
    requires p <= |s| && StartsAt(s, tag, p)
    ensures var r := x + s[p..]; |r| - (|s| - p) == |x| && r[|x|..] == s[p..] && StartsAt(r, tag, |x|)
  {
    StartsAtIff(s, tag, p);
    StartsAtIff(s[p..], tag, 0);
    assert s[p..][0..|tag|] == s[p..p + |tag|];
    StartsAtConcat(x, s[p..], tag, 0);
  }

  /** Without its closing tag, `insertAddress` changes nothing; an empty file gets the block alone. */
  lemma InsertedUnchanged(existing: string, settings: string, entry: string)
    ensures !Contains(existing, AddressesClose) ==> AddressInserted(existing, entry) == existing
    ensures existing == [] ==> AddressInserted(existing, entry) == existing && SecuritySettingsInserted(existing, settings) == settings
    ensures existing != [] && !Contains(existing, SettingsClose) ==>
      SecuritySettingsInserted(existing, settings) == existing + "\n\n" + settings
  {
  }

  /**
   * A tag line of a block placed by `insertSecuritySettings` before the
   * closing tag is a match in the result.
   */
  lemma InsertedSettingTag(existing: string, settings: string, lines: seq<string>, k: nat, open: string, rest: string, tail: string, p: nat)
    requires existing != [] && LastIndexOf(existing, SettingsClose) == Some(p)
    requires settings == Join(lines, "\n") && |lines| >= 1 && OneLines(lines) && k < |lines|
    requires lines[k] == open + " " + rest + tail && PlainLine(lines[k]) && rest != [] && !IsSpace(rest[0])
    ensures Occurs(SecuritySettingsInserted(existing, settings), open, rest)
  {
    var x, y := StripTrailingSpaceRegex(existing[..p]) + "\n", "\n" + existing[p..];
    var base := BaseSettingIndent(existing);
    assert SecuritySettingsInserted(existing, settings) == x + Indented(settings, base) + y by {
      SettingsInsertedAt(existing, settings, p);
    }
    TagLineSurvives(lines, k, SettingLineIndent(base), x, y, open, rest, tail);
  }


  /** A tag line of an entry placed by `insertAddress` before the closing tag is a match in the result. */
  lemma InsertedAddressTag(existing: string, entry: string, lines: seq<string>, k: nat, open: string, rest: string, tail: string, p: nat)
    requires existing != [] && LastIndexOf(existing, AddressesClose) == Some(p)
    requires entry == Join(lines, "\n") && |lines| >= 1 && OneLines(lines) && k < |lines|
    requires lines[k] == open + " " + rest + tail && PlainLine(lines[k]) && rest != [] && !IsSpace(rest[0])
    ensures Occurs(AddressInserted(existing, entry), open, rest)
  {
    var x, y := StripTrailingSpaceRegex(existing[..p]) + "\n", "\n" + existing[p..];
    var base := AddressIndent(existing);
    assert AddressInserted(existing, entry) == x + AddressIndented(entry, base) + y by {
      AddressInsertedAt(existing, entry, p);
    }
    TagLineSurvives(lines, k, AddressLineIndent(base), x, y, open, rest, tail);
  }


  /** The match attributes of the namespace and resource blocks start with `m` and end with `>`. */
  lemma MatchShapes(prefix: string, v: string)
    ensures var n, m := NamespaceMatch(prefix), ResourceMatch(v);
      && |n| > 0 && n[0] == 'm' && n[|n| - 1] == '>'
      && |m| > 0 && m[0] == 'm' && m[|m| - 1] == '>'
  {
  }

  /** A resource block starts with its open tag. */
  lemma ResourceFirstLine(v: string, prefix: string, request: ProvisionRequest)
    ensures var ls := ResourceSettingLines(v, prefix, request);
      |ls| >= 1 && ls[0] == SettingOpen + " " + ResourceMatch(v) + []
  {
    var admin := AdminRole(prefix);
    var head := [SettingOpen + " " + ResourceMatch(v)];
    if request.resourceType == "topic" {
      assert TopicMainLines(v, prefix, request) == head + (GrantLines(admin, request) + CreateDeleteLines(admin, request) + [SettingClose]);
    } else {
      assert QueueSettingLines(v, prefix, request) == head + (GrantLines(admin, request) + [SettingClose]);
    }
  }

  /** A namespace block starts with its open tag. */
  lemma NamespaceFirstLine(prefix: string)
    ensures var ls := NamespaceSettingLines(prefix);
      |ls| >= 1 && ls[0] == SettingOpen + " " + NamespaceMatch(prefix) + []
  {
  }

  /** Zero, one or two blocks of one-line lines, joined by a line break, are the join of their lines. */
  lemma BlocksLines(ns: string, rs: string, nsL: seq<string>, rsL: seq<string>, hasNs: bool, hasRs: bool, settings: string)
    returns (lines: seq<string>, kn: nat, kr: nat)
    requires ns == Join(nsL, "\n") && |nsL| >= 1 && OneLines(nsL)
    requires rs == Join(rsL, "\n") && |rsL| >= 1 && OneLines(rsL)
    requires settings == (if hasNs then [] else ns) + (if !hasNs && !hasRs then "\n" else []) + (if hasRs then [] else rs)
    requires !hasNs || !hasRs
    ensures |lines| >= 1 && OneLines(lines) && settings == Join(lines, "\n")
    ensures !hasNs ==> kn < |lines| && lines[kn] == nsL[0]
    ensures !hasRs ==> kr < |lines| && lines[kr] == rsL[0]
  {
    if !hasNs && !hasRs {
      lines, kn, kr := nsL + rsL, 0, |nsL|;
      JoinAppend(nsL, rsL, "\n");
      OneLinesAppend(nsL, rsL);
    } else if !hasNs {
      lines, kn, kr := nsL, 0, 0;
      assert settings == ns + [] + [];
    } else {
      lines, kn, kr := rsL, 0, 0;
      assert settings == [] + [] + rs;
    }
  }

  /** The namespace block as its lines, which are one line each, the first being its open tag. */
  lemma NamespaceBlock(prefix: string) returns (nsL: seq<string>)
    requires OneLine(prefix)
    ensures NamespaceSetting(prefix) == Join(nsL, "\n") && |nsL| >= 1 && OneLines(nsL)
    ensures nsL[0] == SettingOpen + " " + NamespaceMatch(prefix) + []
  {
    nsL := NamespaceSettingLines(prefix);
    NamespaceLinesOneLine(prefix);
    NamespaceFirstLine(prefix);
  }

  /** The resource block as its lines, which are one line each, the first being its open tag. */
  lemma ResourceBlock(request: ProvisionRequest) returns (rsL: seq<string>)
    requires OneLineRequest(request)
    ensures var prefix, v := NamespacePrefix(request.name), ToVariableName(request.name);
      ResourceSetting(v, prefix, request) == Join(rsL, "\n") && |rsL| >= 1 && OneLines(rsL)
      && rsL[0] == SettingOpen + " " + ResourceMatch(v) + []
  {
    var prefix, v := NamespacePrefix(request.name), ToVariableName(request.name);
    rsL := ResourceSettingLines(v, prefix, request);
    ResourceLinesOneLine(request);
    ResourceFirstLine(v, prefix, request);
  }

  /**
   * The text `generateSecuritySettingsToAdd` returns, when something is
   * missing, as the lines of the namespace block and the resource block,
   * with the index of each missing block's open tag.
   */
  lemma SettingsToAddLines(existing: string, request: ProvisionRequest) returns (lines: seq<string>, kn: nat, kr: nat)
    requires OneLineRequest(request)
    ensures !NamespaceExists(existing, NamespacePrefix(request.name)) || !ResourceSettingExists(existing, ToVariableName(request.name)) ==>
      |lines| >= 1 && OneLines(lines) && SecuritySettingsToAdd(existing, request) == Join(lines, "\n")
    ensures !NamespaceExists(existing, NamespacePrefix(request.name)) ==>
      kn < |lines| && lines[kn] == SettingOpen + " " + NamespaceMatch(NamespacePrefix(request.name)) + []
    ensures !ResourceSettingExists(existing, ToVariableName(request.name)) ==>
      kr < |lines| && lines[kr] == SettingOpen + " " + ResourceMatch(ToVariableName(request.name)) + []
  {
    var prefix, v := NamespacePrefix(request.name), ToVariableName(request.name);
    var hasNs, hasRs := NamespaceExists(existing, prefix), ResourceSettingExists(existing, v);
    var ns, rs := NamespaceSetting(prefix), ResourceSetting(v, prefix, request);
    var settings := SecuritySettingsToAdd(existing, request);
    assert settings == (if hasNs then [] else ns) + (if !hasNs && !hasRs then "\n" else []) + (if hasRs then [] else rs) by {
      SettingsToAddCases(existing, request);
    }
    PrefixIsOneLine(request.name);
    var nsL := NamespaceBlock(prefix);
    var rsL := ResourceBlock(request);
    if !hasNs || !hasRs {
      lines, kn, kr := BlocksLines(ns, rs, nsL, rsL, hasNs, hasRs, settings);
    } else {
      lines, kn, kr := [], 0, 0;
    }
  }

  /**
   * After `insertSecuritySettings` places the text
   * `generateSecuritySettingsToAdd` returned, the namespace block and the
   * resource block that were missing are recognised, whichever of the three
   * insertion paths is taken.
   */
  lemma SecuritySettingsInsertedRecognised(existing: string, request: ProvisionRequest)
    requires OneLineRequest(request)
    ensures var prefix, v := NamespacePrefix(request.name), ToVariableName(request.name);
      var r := SecuritySettingsInserted(existing, SecuritySettingsToAdd(existing, request));
      && (!NamespaceExists(existing, prefix) ==> NamespaceExists(r, prefix))
      && (!ResourceSettingExists(existing, v) ==> ResourceSettingExists(r, v))
  {
    if existing == [] || LastIndexOf(existing, SettingsClose).None? {
      AppendedSettingsRecognised(existing, request);
    } else {
      SettingsBeforeCloseRecognised(existing, request, LastIndexOf(existing, SettingsClose).value);
    }
  }

  /** The two paths of `insertSecuritySettings` that do not re-indent: the missing blocks are recognised. */
  lemma AppendedSettingsRecognised(existing: string, request: ProvisionRequest)
    requires existing == [] || LastIndexOf(existing, SettingsClose).None?
    ensures var prefix, v := NamespacePrefix(request.name), ToVariableName(request.name);
      var r := SecuritySettingsInserted(existing, SecuritySettingsToAdd(existing, request));
      && (!NamespaceExists(existing, prefix) ==> NamespaceExists(r, prefix))
      && (!ResourceSettingExists(existing, v) ==> ResourceSettingExists(r, v))
  {
    var prefix, v := NamespacePrefix(request.name), ToVariableName(request.name);
    var settings := SecuritySettingsToAdd(existing, request);
    var a := if existing == [] then [] else existing + "\n\n";
    var r := SecuritySettingsInserted(existing, settings);
    assert r == a + settings + [] by {
      if existing == [] {
        assert r == settings;
      } else {
        assert r == existing + "\n\n" + settings;
      }
    }
    assert (!NamespaceExists(existing, prefix) ==> NamespaceExists(a + settings + [], prefix))
        && (!ResourceSettingExists(existing, v) ==> ResourceSettingExists(a + settings + [], v)) by {
      SettingsToAddRecognised(existing, request, a, []);
    }
  }

  /** The path of `insertSecuritySettings` that re-indents before the closing tag: the missing blocks are recognised. */
  lemma SettingsBeforeCloseRecognised(existing: string, request: ProvisionRequest, p: nat)
    requires OneLineRequest(request)
    requires existing != [] && LastIndexOf(existing, SettingsClose) == Some(p)
    ensures var prefix, v := NamespacePrefix(request.name), ToVariableName(request.name);
      var r := SecuritySettingsInserted(existing, SecuritySettingsToAdd(existing, request));
      && (!NamespaceExists(existing, prefix) ==> NamespaceExists(r, prefix))
      && (!ResourceSettingExists(existing, v) ==> ResourceSettingExists(r, v))
  {
    var prefix, v := NamespacePrefix(request.name), ToVariableName(request.name);
    var hasNs, hasRs := NamespaceExists(existing, prefix), ResourceSettingExists(existing, v);
    if !hasNs || !hasRs {
      var settings := SecuritySettingsToAdd(existing, request);
      var r := SecuritySettingsInserted(existing, settings);
      var lines, kn, kr := SettingsToAddLines(existing, request);
      PrefixIsOneLine(request.name);
      VariableOneLine(request.name);
      MatchesOneLine(prefix, v, v);
      MatchShapes(prefix, v);
      if !hasNs {
        InsertedOpenTag(existing, settings, lines, kn, NamespaceMatch(prefix), p);
      }
      if !hasRs {
        InsertedOpenTag(existing, settings, lines, kr, ResourceMatch(v), p);
      }
    }
  }

  /** The open tag of a block placed by `insertSecuritySettings` before the closing tag is a match in the result. */
  lemma InsertedOpenTag(existing: string, settings: string, lines: seq<string>, k: nat, rest: string, p: nat)
    requires existing != [] && LastIndexOf(existing, SettingsClose) == Some(p)
    requires settings == Join(lines, "\n") && |lines| >= 1 && OneLines(lines) && k < |lines|
    requires lines[k] == SettingOpen + " " + rest + [] && OneLine(rest)
    requires |rest| > 0 && rest[0] == 'm' && rest[|rest| - 1] == '>'
    ensures var r := SecuritySettingsInserted(existing, settings); r != [] && Occurs(r, SettingOpen, rest)
  {
    var r := SecuritySettingsInserted(existing, settings);
    assert PlainLine(lines[k]) && !IsSpace(rest[0]) by {
      OpenTagPlain(rest);
      assert lines[k] == SettingOpen + " " + rest;
    }
    assert Occurs(r, SettingOpen, rest) by {
      InsertedSettingTag(existing, settings, lines, k, SettingOpen, rest, [], p);
    }
    OccursNonEmpty(r, SettingOpen, rest);
  }

  /** A multicast queue line over a one-line subscription variable is one non-empty line. */
  lemma QueueLineOneLine(sv: string)
    requires OneLine(sv)
    ensures MulticastQueueLine(sv) != [] && OneLine(MulticastQueueLine(sv))
  {
  }

  /** The queue lines of one-line subscription names are one line each. */
  lemma {:induction false} QueueLinesOneLine(subs: seq<Subscription>)
    requires forall i :: 0 <= i < |subs| ==> OneLine(subs[i].subscriptionName)
    ensures OneLines(QueueLines(subs))
  {
    if |subs| > 0 {
      var init, last := subs[..|subs| - 1], subs[|subs| - 1];
      assert OneLines(QueueLines(init)) by {
        assert forall i :: 0 <= i < |init| ==> init[i] == subs[i];
        QueueLinesOneLine(init);
      }
      var line := MulticastQueueLine(ToVariableName(last.subscriptionName));
      assert OneLines([line]) by {
        VariableOneLine(last.subscriptionName);
        QueueLineOneLine(ToVariableName(last.subscriptionName));
        OneLinesByMember([line]);
      }
      assert QueueLines(subs) == QueueLines(init) + [line];
      OneLinesAppend(QueueLines(init), [line]);
    }
  }

  /** A topic's queue lines are one line each. */
  lemma TopicQueueLinesOneLine(request: ProvisionRequest)
    requires OneLineRequest(request)
    ensures OneLines(TopicQueueLines(request))
  {
    if request.subscriptions.Some? && |request.subscriptions.value| > 0 {
      var subs, all := NewSubscriptions(request), request.subscriptions.value;
      forall i | 0 <= i < |subs|
        ensures OneLine(subs[i].subscriptionName)
      {
        var j :| 0 <= j < |all| && all[j] == subs[i];
      }
      QueueLinesOneLine(subs);
    } else if request.legacySubscriptionName.Some? && request.legacySubscriptionName.value != [] {
      var line := MulticastQueueLine(ToVariableName(request.legacySubscriptionName.value));
      VariableOneLine(LegacyName(request));
      QueueLineOneLine(ToVariableName(LegacyName(request)));
      OneLinesByMember([line]);
    }
  }

  /** The fixed lines of an address entry are one line each. */
  lemma RoutingTagsOneLine()
    ensures OneLines([MulticastOpen]) && OneLines([MulticastClose]) && OneLines(["</address>"])
    ensures "<anycast>" != [] && OneLine("<anycast>") && "</anycast>" != [] && OneLine("</anycast>")
  {
    OneLinesByMember([MulticastOpen]);
    OneLinesByMember([MulticastClose]);
    OneLinesByMember(["</address>"]);
  }

  /** Every line of an address entry is one line. */
  lemma AddressLinesOneLine(request: ProvisionRequest)
    requires OneLineRequest(request)
    ensures OneLines(AddressEntryLines(request))
  {
    var v := ToVariableName(request.name);
    VariableOneLine(request.name);
    var open := AddressOpen + " " + AddressName(v);
    assert open != [] && OneLine(open);
    OneLinesByMember([open]);
    RoutingTagsOneLine();
    var routing := RoutingLines(request);
    if request.resourceType == "queue" {
      assert AnycastQueueLine(v) != [] && OneLine(AnycastQueueLine(v));
      OneLinesByMember(routing);
    } else {
      TopicQueueLinesOneLine(request);
      OneLinesAppend([MulticastOpen], TopicQueueLines(request));
      OneLinesAppend([MulticastOpen] + TopicQueueLines(request), [MulticastClose]);
    }
    OneLinesAppend([open], routing);
    OneLinesAppend([open] + routing, ["</address>"]);
  }

  /** An address entry as its lines, which are one line each, the first being its open tag. */
  lemma AddressBlock(request: ProvisionRequest) returns (lines: seq<string>)
    requires OneLineRequest(request)
    ensures AddressEntry(request) == Join(lines, "\n") && |lines| >= 1 && OneLines(lines)
    ensures lines[0] == AddressOpen + " " + AddressName(ToVariableName(request.name)) + []
  {
    lines := AddressEntryLines(request);
    AddressLinesOneLine(request);
  }

  /** A topic's entry as its lines, with the index of a new subscription's queue line. */
  lemma AddressQueueBlock(request: ProvisionRequest, sub: Subscription) returns (lines: seq<string>, k: nat)
    requires OneLineRequest(request)
    requires request.resourceType != "queue" && sub in NewSubscriptions(request)
    ensures AddressEntry(request) == Join(lines, "\n") && |lines| >= 1 && OneLines(lines) && k < |lines|
    ensures lines[k] == QueueOpen + " " + QueueName(ToVariableName(sub.subscriptionName)) + "/>"
  {
    lines := AddressEntryLines(request);
    AddressLinesOneLine(request);
    var subs := NewSubscriptions(request);
    var j :| 0 <= j < |subs| && subs[j] == sub;
    TopicEntryQueues(request);
    assert TopicQueueLines(request) == QueueLines(subs);
    QueueLinesAt(subs, j);
    assert lines[2..|lines| - 2][j] == lines[j + 2];
    k := j + 2;
  }

  /** A tag line of an entry placed by `insertAddress` makes the result non-empty and holds a match. */
  lemma InsertedAddressLine(existing: string, entry: string, lines: seq<string>, k: nat, open: string, rest: string, tail: string)
    requires Contains(existing, AddressesClose)
    requires entry == Join(lines, "\n") && |lines| >= 1 && OneLines(lines) && k < |lines|
    requires lines[k] == open + " " + rest + tail && open != [] && open[0] == '<' && rest != [] && !IsSpace(rest[0])
    requires |lines[k]| >= 2 && lines[k][|lines[k]| - 1] == '>'
    ensures var r := AddressInserted(existing, entry); r != [] && Occurs(r, open, rest)
  {
    var p := LastIndexOf(existing, AddressesClose).value;
    OneLineAt(lines, k);
    TagLinePlain(lines[k]);
    InsertedAddressTag(existing, entry, lines, k, open, rest, tail, p);
    OccursNonEmpty(AddressInserted(existing, entry), open, rest);
  }

  /**
   * `insertAddress` with the entry `generateAddressEntry` builds: when the
   * file has `</addresses>`, the address is recognised afterwards.
   */
  lemma AddressInsertedRecognised(existing: string, request: ProvisionRequest)
    requires OneLineRequest(request) && Contains(existing, AddressesClose)
    ensures AddressExists(AddressInserted(existing, AddressEntry(request)), request)
  {
    var lines := AddressBlock(request);
    InsertedAddressLine(existing, AddressEntry(request), lines, 0, AddressOpen, AddressName(ToVariableName(request.name)), []);
  }

  /** After `insertAddress`, each new subscription of a topic has its queue in the inserted entry. */
  lemma AddressInsertedHasQueue(existing: string, request: ProvisionRequest, sub: Subscription)
    requires OneLineRequest(request) && Contains(existing, AddressesClose)
    requires request.resourceType != "queue" && sub in NewSubscriptions(request)
    ensures SubscriptionQueueExists(AddressInserted(existing, AddressEntry(request)), request.name, sub.subscriptionName)
  {
    var sv := ToVariableName(sub.subscriptionName);
    var lines, k := AddressQueueBlock(request, sub);
    InsertedAddressLine(existing, AddressEntry(request), lines, k, QueueOpen, QueueName(sv), "/>");
  }

  // ---------------------------------------------------------------------
  // userExistsInHieradata
  // ---------------------------------------------------------------------

  /** The characters other than `\n` and `\r` that Java's `$` accepts as a final line terminator. */
  predicate IsOtherLineTerminator(c: char) {
    c == '\U{0085}' || c == '\U{2028}' || c == '\U{2029}'
  }

  /** `-\s*` then `q u q`: the whitespace run after the dash is maximal, since a quote is not whitespace. */
  predicate QuotedUserAt(s: string, i: nat, u: string, q: char) {
    i < |s| && s[i] == '-' && StartsAt(s, [q] + u + [q], WsEnd(s, i + 1))
  }

  /** What `(?:\s|$|\r?\n)` accepts at `k`: whitespace, the end, or a final line terminator. */
  predicate BareUserEnd(s: string, k: nat) {
    k == |s| || (k < |s| && IsSpace(s[k])) || (k == |s| - 1 && IsOtherLineTerminator(s[k]))
  }

  /** `-\s*u(?:\s|$|\r?\n)` with the whitespace run ending at `j` (any length, as backtracking allows). */
  predicate BareUserAt(s: string, i: nat, j: nat, u: string) {
    i < |s| && s[i] == '-' && i + 1 <= j <= WsEnd(s, i + 1) && StartsAt(s, u, j) && BareUserEnd(s, j + |u|)
  }

  /**
   * `userExistsInHieradata(content, username)`: one of `-\s*'u'`,
   * `-\s*"u"` or `-\s*u(?:\s|$|\r?\n)` is found anywhere in the text,
   * the user name taken literally.
   */
  predicate UserExistsInHieradata(content: string, u: string) {
    || (exists i | 0 <= i < |content| :: QuotedUserAt(content, i, u, '\''))
    || (exists i | 0 <= i < |content| :: QuotedUserAt(content, i, u, '"'))
    || (exists i, j | 0 <= i < |content| && 0 <= j <= |content| :: BareUserAt(content, i, j, u))
  }

  /** Every pattern starts with a dash: text without one holds no user. */
  lemma NoDashNoUser(content: string, u: string)
    requires '-' !in content
    ensures !UserExistsInHieradata(content, u)
  {
    forall i | 0 <= i < |content|
      ensures content[i] != '-'
    {
      assert content[i] in content;
    }
  }

  /** A user line as `updateAcmqYaml` writes it, `  - 'u'`, is found wherever it stands. */
  lemma UserLineFound(a: string, b: string, u: string)
    ensures UserExistsInHieradata(a + UserLine(u) + b, u)
  {
    var s := a + UserLine(u) + b;
    var q := "'" + u + "'";
    var x, y := a + "  - ", "\n" + b;
    assert s == x + q + y;
    var i := |a| + 2;
    assert s[i] == '-' && s[i + 1] == ' ' && s[i + 2] == '\'';
    assert WsEnd(s, i + 2) == i + 2;
    assert WsEnd(s, i + 1) == i + 2;
    StartsAtIff(q, q, 0);
    StartsAtWithin(x, q, y, q, 0);
    assert ['\''] + u + ['\''] == q;
    assert QuotedUserAt(s, i, u, '\'');
  }

  /** The quoted forms `- "u"` and the bare form `- u` at the end of a line are found too. */
  lemma OtherUserFormsFound(a: string, b: string, u: string)
    ensures UserExistsInHieradata(a + "- \"" + u + "\"" + b, u)
    ensures UserExistsInHieradata(a + "- " + u + "\n" + b, u)
  {
    var q := "\"" + u + "\"";
    var s := a + "- \"" + u + "\"" + b;
    assert s == (a + "- ") + q + b;
    assert s[|a|] == '-' && s[|a| + 1] == ' ' && s[|a| + 2] == '"';
    assert WsEnd(s, |a| + 2) == |a| + 2;
    StartsAtIff(q, q, 0);
    StartsAtWithin(a + "- ", q, b, q, 0);
    assert ['"'] + u + ['"'] == q;
    assert QuotedUserAt(s, |a|, u, '"');
    var t := a + "- " + u + "\n" + b;
    assert t == (a + "- ") + u + ("\n" + b);
    assert t[|a|] == '-' && t[|a| + 1] == ' ';
    StartsAtIff(u, u, 0);
    StartsAtWithin(a + "- ", u, "\n" + b, u, 0);
    assert t[|a| + 2 + |u|] == '\n';
    assert WsEnd(t, |a| + 2) >= |a| + 2;
    assert WsEnd(t, |a| + 1) == WsEnd(t, |a| + 2);
    assert BareUserAt(t, |a|, |a| + 2, u);
  }
}
