/**
 * The insertion side of the broker template (`BrokerXmlTemplateService`):
 * a subscription's own security block, the indent detection and the
 * line-by-line re-indentation of generated blocks, the insertion of a
 * subscription block after its topic's block, the subscription queue added
 * to an existing address, and the generated address entry.
 */
module BrokerXmlInsert {
  import opened Wrappers
  import opened Text
  import opened Identifiers
  import opened Request
  import opened BrokerXml

  // ---------------------------------------------------------------------
  // generateSubscriptionSecuritySetting(request, subscription)
  // ---------------------------------------------------------------------

  /** The role list of both grants of a subscription's block: the namespace admin, then the subscriber. */
  function SubscriberRoles(request: ProvisionRequest, sub: Subscription): string {
    AdminRole(NamespacePrefix(request.name)) + "," + sub.subscriber
  }

  /** The lines of the block for a named subscription. */
  function SubscriptionBlockLines(request: ProvisionRequest, sub: Subscription): seq<string> {
    SubscriptionSettingLines(ToVariableName(request.name), ToVariableName(sub.subscriptionName), SubscriberRoles(request, sub))
  }

  /** `generateSubscriptionSecuritySetting(request, subscription)`: nothing for an unnamed subscription. */
  function SubscriptionSetting(request: ProvisionRequest, sub: Subscription): string {
    if sub.subscriptionName == [] then [] else Join(SubscriptionBlockLines(request, sub), "\n")
  }

  /** `generateSubscriptionSecuritySetting(request, subscription)` */
  method GenerateSubscriptionSecuritySetting(request: ProvisionRequest, sub: Subscription) returns (xml: string)
    ensures xml == SubscriptionSetting(request, sub)
  {
    if sub.subscriptionName == [] {
      return [];
    }
    var roles := AdminRole(NamespacePrefix(request.name)) + "," + sub.subscriber;
    xml := WriteSubscriptionSetting(ToVariableName(request.name), ToVariableName(sub.subscriptionName), roles);
  }

  /** The block is empty exactly when the subscription has no name; otherwise it is a tag pair. */
  lemma SubscriptionSettingEmpty(request: ProvisionRequest, sub: Subscription)
    ensures var x := SubscriptionSetting(request, sub);
      && (x == [] <==> sub.subscriptionName == [])
      && (x != [] ==> x[0] == '<' && x[|x| - 1] == '>')
  {
    if sub.subscriptionName != [] {
      BlockEnds(SubscriptionBlockLines(request, sub),
                SubscriptionMatch(ToVariableName(request.name), ToVariableName(sub.subscriptionName)));
    }
  }

  /** Wherever the block is placed, the subscription check then finds it. */
  lemma SubscriptionSettingRecognised(request: ProvisionRequest, sub: Subscription, a: string, b: string)
    requires sub.subscriptionName != []
    ensures SubscriptionSettingExists(a + SubscriptionSetting(request, sub) + b, request.name, sub.subscriptionName)
  {
    var rest := SubscriptionMatch(ToVariableName(request.name), ToVariableName(sub.subscriptionName));
    TagOccurs(SettingOpen, rest);
    OccursInJoin(SubscriptionBlockLines(request, sub), 0, a, b, SettingOpen, rest);
  }

  /** The role list of the permission `permission` matched at index `i`. */
  function PermissionRolesAt(s: string, i: nat, permission: string): Option<string> {
    match PermissionMatch(s, i, permission)
      case None => None
      case Some(m) => Some(s[m.rolesStart..m.rolesEnd])
  }

  /** A permission line as the generators write it reads back, in any text, as its role list. */
  lemma PermissionLineIn(a: string, permission: string, roles: string, b: string)
    requires forall k :: 0 <= k < |roles| ==> roles[k] != '"'
    ensures PermissionRolesAt(a + PermissionLine(permission, roles) + b, |a|, permission) == Some(roles)
  {
    var h, tl := PermissionHeadText(permission), "\"/>";
    GeneratedHead(permission);
    GeneratedTail();
    assert a + PermissionLine(permission, roles) + b == a + h + roles + tl + b;
    PartsReadBack(a + h + roles + tl + b, a, h, roles, tl, b, permission);
  }

  /** A text made of a matching head, a quote-free role list and a matching tail reads back as that list. */
  lemma PartsReadBack(x: string, a: string, h: string, roles: string, tl: string, b: string, permission: string)
    requires x == a + h + roles + tl + b
    requires forall k :: 0 <= k < |roles| ==> roles[k] != '"'
    requires SpacedPairEnd(h, 0, PermissionOpen, TypeAttr(permission), RolesAttr) == Some(|h|)
    requires TailFrom(tl, 0) == Some((0, |tl|))
    ensures PermissionRolesAt(x, |a|, permission) == Some(roles)
  {
    var rs := |a| + |h|;
    var q, e := rs + |roles|, rs + |roles| + |tl|;
    assert x[|a|..rs] == h;
    assert x[rs..q] == roles;
    assert x[q..e] == tl;
    AttrFrom(x, |a|, rs, q, e, h, tl, PermissionOpen, TypeAttr(permission), RolesAttr);
    RolesAtSpan(x, |a|, permission, rs, q, e);
  }

  /** A permission match reads back as the text between its role list's bounds. */
  lemma RolesAtSpan(x: string, i: nat, permission: string, rs: nat, q: nat, e: nat)
    requires AttrMatch(x, i, PermissionOpen, TypeAttr(permission), RolesAttr) == Some(PermissionSpan(rs, q, e))
    ensures rs <= q <= |x| && PermissionRolesAt(x, i, permission) == Some(x[rs..q])
  {
    PermissionMatchIs(x, i, permission);
  }

  /** No quote in the request name or the subscriber leaves none in the role list. */
  lemma SubscriberRolesQuoteFree(request: ProvisionRequest, sub: Subscription)
    requires '"' !in request.name && '"' !in sub.subscriber
    ensures forall k :: 0 <= k < |SubscriberRoles(request, sub)| ==> SubscriberRoles(request, sub)[k] != '"'
  {
    var p := NamespacePrefix(request.name);
    var r := SubscriberRoles(request, sub);
    assert r == p + "-admin," + sub.subscriber;
    forall k | 0 <= k < |r| ensures r[k] != '"' {
      if k < |p| {
        assert r[k] == request.name[k];
      } else if k >= |p| + 7 {
        assert r[k] == sub.subscriber[k - |p| - 7];
      }
    }
  }

  /** Four lines joined with newlines, grouped around the second and around the third line. */
  lemma JoinFour(l0: string, l1: string, l2: string, l3: string)
    ensures Join([l0, l1, l2, l3], "\n") == (l0 + "\n") + l1 + ("\n" + l2 + "\n" + l3)
    ensures Join([l0, l1, l2, l3], "\n") == (l0 + "\n" + l1 + "\n") + l2 + ("\n" + l3)
  {
    JoinCons(l0, [l1, l2, l3], "\n");
    JoinCons(l1, [l2, l3], "\n");
    JoinCons(l2, [l3], "\n");
    assert [l0] + [l1, l2, l3] == [l0, l1, l2, l3];
    assert [l1] + [l2, l3] == [l1, l2, l3];
    assert [l2] + [l3] == [l2, l3];
    var x := l0 + "\n" + l1 + "\n" + l2 + "\n" + l3;
    assert Join([l0, l1, l2, l3], "\n") == x;
    assert x == (l0 + "\n") + l1 + ("\n" + l2 + "\n" + l3);
    assert x == (l0 + "\n" + l1 + "\n") + l2 + ("\n" + l3);
  }

  /** In a block of a head line, a consume and a browse line and a last line, both lines read back. */
  lemma GrantBlockReadBack(x: string, l0: string, l1: string, l2: string, l3: string, roles: string, c: nat, b: nat)
    requires forall k :: 0 <= k < |roles| ==> roles[k] != '"'
    requires l1 == PermissionLine("consume", roles) && l2 == PermissionLine("browse", roles)
    requires x == Join([l0, l1, l2, l3], "\n") && c == |l0| + 1 && b == c + |l1| + 1
    ensures PermissionRolesAt(x, c, "consume") == Some(roles)
    ensures PermissionRolesAt(x, b, "browse") == Some(roles)
  {
    JoinFour(l0, l1, l2, l3);
    LineInJoin(x, l0 + "\n", l1, "\n" + l2 + "\n" + l3, "consume", roles, c);
    LineInJoin(x, l0 + "\n" + l1 + "\n", l2, "\n" + l3, "browse", roles, b);
  }

  /** `PermissionLineIn` for a text already known to be split around the line. */
  lemma LineInJoin(x: string, a: string, line: string, b: string, permission: string, roles: string, j: nat)
    requires forall k :: 0 <= k < |roles| ==> roles[k] != '"'
    requires line == PermissionLine(permission, roles) && x == a + line + b && j == |a|
    ensures PermissionRolesAt(x, j, permission) == Some(roles)
  {
    PermissionLineIn(a, permission, roles, b);
  }

  /** Where the `consume` line of a subscription block starts: after the open tag line. */
  function ConsumeLineStart(request: ProvisionRequest, sub: Subscription): nat {
    |SettingOpen + " " + SubscriptionMatch(ToVariableName(request.name), ToVariableName(sub.subscriptionName))| + 1
  }

  /** Where the `browse` line of a subscription block starts: after the `consume` line. */
  function BrowseLineStart(request: ProvisionRequest, sub: Subscription): nat {
    ConsumeLineStart(request, sub) + |PermissionLine("consume", SubscriberRoles(request, sub))| + 1
  }

  /**
   * Both grants of the block read back as exactly the admin role and the
   * subscriber: `consume` on the line after the open tag and `browse` on
   * the one after it.
   */
  lemma SubscriptionSettingGrants(request: ProvisionRequest, sub: Subscription)
    requires sub.subscriptionName != []
    requires '"' !in request.name && '"' !in sub.subscriber
    ensures PermissionRolesAt(SubscriptionSetting(request, sub), ConsumeLineStart(request, sub), "consume")
      == Some(SubscriberRoles(request, sub))
    ensures PermissionRolesAt(SubscriptionSetting(request, sub), BrowseLineStart(request, sub), "browse")
      == Some(SubscriberRoles(request, sub))
  {
    SubscriberRolesQuoteFree(request, sub);
    var roles := SubscriberRoles(request, sub);
    var x := SubscriptionSetting(request, sub);
    var l0 := SettingOpen + " " + SubscriptionMatch(ToVariableName(request.name), ToVariableName(sub.subscriptionName));
    var l1, l2 := PermissionLine("consume", roles), PermissionLine("browse", roles);
    assert x == Join([l0, l1, l2, SettingClose], "\n");
    GrantBlockReadBack(x, l0, l1, l2, SettingClose, roles, ConsumeLineStart(request, sub), BrowseLineStart(request, sub));
  }

  // ---------------------------------------------------------------------
  // Indent detection: `^([ \t]*)<security-setting\s` and `^([ \t]*)<address\s+name=`
  // ---------------------------------------------------------------------

  /** `^([ \t]*)<security-setting\s` (MULTILINE) at index `i`: where group 1 ends. */
  function SettingIndentMatch(s: string, i: nat): Option<nat> {
    if i > |s| || !AtLineStart(s, i) then None
    else
      var e := IndentEnd(s, i);
      if StartsAt(s, SettingOpen, e) && e + |SettingOpen| < |s| && IsSpace(s[e + |SettingOpen|]) then Some(e) else None
  }

  /** `^([ \t]*)<address\s+name=` (MULTILINE) at index `i`: where group 1 ends. */
  function AddressIndentMatch(s: string, i: nat): Option<nat> {
    if i > |s| || !AtLineStart(s, i) then None
    else
      var e := IndentEnd(s, i);
      if SpacedAt(s, e, AddressOpen, "name=") then Some(e) else None
  }

  /** Group 1 of the first match of an indent pattern, or `fallback` when there is none. */
  function DetectedIndent(s: string, m: nat -> Option<nat>, fallback: string): (r: string) {
    match FirstMatch(s, 0, m)
      case None => fallback
      case Some((i, e)) => if i <= e <= |s| then s[i..e] else fallback
  }

  /** `detectSecuritySettingIndent`: eight spaces when no block starts a line. */
  function SettingIndent(s: string): string {
    DetectedIndent(s, (i: nat) => SettingIndentMatch(s, i), Repeat(' ', 8))
  }

  /** `detectAddressIndent`: twelve spaces when no address starts a line. */
  function AddressIndent(s: string): string {
    DetectedIndent(s, (i: nat) => AddressIndentMatch(s, i), Repeat(' ', 12))
  }

  /** A detected security-setting indent is spaces and tabs only. */
  lemma SettingIndentBlank(s: string)
    ensures forall k :: 0 <= k < |SettingIndent(s)| ==> SettingIndent(s)[k] == ' ' || SettingIndent(s)[k] == '\t'
  {
    var m := (i: nat) => SettingIndentMatch(s, i);
    match FirstMatch(s, 0, m)
      case None =>
      case Some((i, e)) =>
        assert SettingIndentMatch(s, i) == Some(e);
  }

  /** A detected address indent is spaces and tabs only. */
  lemma AddressIndentBlank(s: string)
    ensures forall k :: 0 <= k < |AddressIndent(s)| ==> AddressIndent(s)[k] == ' ' || AddressIndent(s)[k] == '\t'
  {
    var m := (i: nat) => AddressIndentMatch(s, i);
    match FirstMatch(s, 0, m)
      case None =>
      case Some((i, e)) =>
        assert AddressIndentMatch(s, i) == Some(e);
  }

  /** Without a block at the start of a line the indent is the default one. */
  lemma SettingIndentDefault(s: string)
    requires forall i :: 0 <= i <= |s| ==> SettingIndentMatch(s, i).None?
    ensures SettingIndent(s) == "        "
  {
    var m := (i: nat) => SettingIndentMatch(s, i);
    if FirstMatch(s, 0, m).Some? {
      assert false;
    }
  }

  /** A text whose first line is an indented block yields that indent. */
  lemma SettingIndentFirstLine(indent: string, rest: string)
    requires forall k :: 0 <= k < |indent| ==> indent[k] == ' ' || indent[k] == '\t'
    requires |rest| > 0 && IsSpace(rest[0])
    ensures SettingIndent(indent + SettingOpen + rest) == indent
  {
    var s := indent + SettingOpen + rest;
    assert forall k :: 0 <= k < |indent| ==> s[k] == indent[k];
    assert s[|indent|] == '<';
    assert IndentEnd(s, 0) == |indent|;
    StartsAtLiteral(indent, SettingOpen, rest);
    assert s[|indent| + |SettingOpen|] == rest[0];
    assert SettingIndentMatch(s, 0) == Some(|indent|);
    assert s[0..|indent|] == indent;
  }

  // ---------------------------------------------------------------------
  // Re-indenting a generated block line by line
  // ---------------------------------------------------------------------

  /** Every line of a split block after `trim`. */
  function TrimmedLines(lines: seq<string>, trim: string -> string): (r: seq<string>)
    ensures |r| == |lines| && forall i :: 0 <= i < |lines| ==> r[i] == trim(lines[i])
  {
    if |lines| == 0 then [] else TrimmedLines(lines[..|lines| - 1], trim) + [trim(lines[|lines| - 1])]
  }

  /**
   * What trimmed line `i` of a split block becomes: a blank line gives
   * nothing or (when `blankNewline`) a lone newline; any other line gives
   * its text after the indent that `indent` picks for it, and a newline
   * unless it is the last line.
   */
  function LinePiece(ts: seq<string>, i: nat, indent: string -> string, blankNewline: bool): string
    requires i < |ts|
  {
    if ts[i] == [] then (if blankNewline then "\n" else [])
    else indent(ts[i]) + ts[i] + (if i < |ts| - 1 then "\n" else [])
  }

  /** The pieces of the first `k` trimmed lines, in order. */
  function Reindented(ts: seq<string>, k: nat, indent: string -> string, blankNewline: bool): string
    requires k <= |ts|
  {
    if k == 0 then [] else Reindented(ts, k - 1, indent, blankNewline) + LinePiece(ts, k - 1, indent, blankNewline)
  }

  /** Each trimmed line after its indent. */
  function IndentedLines(ts: seq<string>, indent: string -> string): (r: seq<string>)
    ensures |r| == |ts| && forall i :: 0 <= i < |ts| ==> r[i] == indent(ts[i]) + ts[i]
  {
    if |ts| == 0 then [] else IndentedLines(ts[..|ts| - 1], indent) + [indent(ts[|ts| - 1]) + ts[|ts| - 1]]
  }

  /**
   * The loop of the indentation helpers over the split lines, each line
   * trimmed by `trim` (`String.trim` at every use).
   */
  method Reindent(lines: seq<string>, trim: string -> string, indent: string -> string, blankNewline: bool) returns (r: string)
    ensures r == Reindented(TrimmedLines(lines, trim), |lines|, indent, blankNewline)
  {
    ghost var ts := TrimmedLines(lines, trim);
    r := [];
    var i := 0;
    while i < |lines|
      invariant i <= |lines|
      invariant r == Reindented(ts, i, indent, blankNewline)
    {
      var t := trim(lines[i]);
      var piece := Piece(ts, i, t, i < |lines| - 1, indent, blankNewline);
      r := r + piece;
      i := i + 1;
    }
  }

  /** The body of the indentation loop for one trimmed line `t`. */
  method Piece(ghost ts: seq<string>, i: nat, t: string, more: bool, indent: string -> string, blankNewline: bool)
    returns (piece: string)
    requires i < |ts| && t == ts[i] && more == (i < |ts| - 1)
    ensures piece == LinePiece(ts, i, indent, blankNewline)
  {
    piece := [];
    if t == [] {
      if blankNewline {
        piece := "\n";
      }
    } else {
      piece := indent(t) + t;
      if more {
        piece := piece + "\n";
      }
    }
  }

  /**
   * Without blank lines, re-indenting is joining the lines, each after its
   * indent, with newlines: nothing is dropped, added or reordered.
   */
  lemma ReindentedJoin(ts: seq<string>, indent: string -> string, blankNewline: bool)
    requires forall i :: 0 <= i < |ts| ==> ts[i] != []
    ensures Reindented(ts, |ts|, indent, blankNewline) == Join(IndentedLines(ts, indent), "\n")
  {
    if |ts| > 0 {
      var k := |ts|;
      var t := ts[k - 1];
      var line := indent(t) + t;
      ReindentedLines(ts, k - 1, indent, blankNewline);
      IndentedSnoc(ts, k, indent);
      assert line + [] == line;
      assert LinePiece(ts, k - 1, indent, blankNewline) == line;
      assert ts[..k] == ts;
      JoinAsLines(IndentedLines(ts[..k - 1], indent), line);
    }
  }

  /** Before the last line, every re-indented line ends with its newline. */
  lemma {:induction false} ReindentedLines(ts: seq<string>, k: nat, indent: string -> string, blankNewline: bool)
    requires k < |ts|
    requires forall i :: 0 <= i < |ts| ==> ts[i] != []
    ensures Reindented(ts, k, indent, blankNewline) == Lines(IndentedLines(ts[..k], indent))
  {
    if k > 0 {
      var t := ts[k - 1];
      var line := indent(t) + t;
      ReindentedLines(ts, k - 1, indent, blankNewline);
      IndentedSnoc(ts, k, indent);
      assert LinePiece(ts, k - 1, indent, blankNewline) == line + "\n";
      LinesSnoc(IndentedLines(ts[..k - 1], indent), line);
      Assoc(Lines(IndentedLines(ts[..k - 1], indent)), line, "\n");
    }
  }

  /** Indenting one more line of the block adds that line, indented, at the end. */
  lemma IndentedSnoc(ts: seq<string>, k: nat, indent: string -> string)
    requires 0 < k <= |ts|
    ensures IndentedLines(ts[..k], indent) == IndentedLines(ts[..k - 1], indent) + [indent(ts[k - 1]) + ts[k - 1]]
  {
    assert ts[..k][..k - 1] == ts[..k - 1];
  }

  /** `trimmedLine.startsWith(pat)` */
  predicate StartsWith(t: string, pat: string) {
    StartsAt(t, pat, 0)
  }

  /** The outer tags of a security block. */
  predicate IsSettingTag(t: string) {
    StartsWith(t, SettingOpen) || StartsWith(t, "</security-setting")
  }

  /** `applySecuritySettingIndentation`: outer tags at the base indent, every other line two spaces deeper. */
  function SubscriptionLineIndent(base: string): string -> string {
    (t: string) => if IsSettingTag(t) then base else base + "  "
  }

  /** `applySecuritySettingIndentation(content, baseIndent)`: blank lines are dropped. */
  function SubscriptionIndented(content: string, base: string): string {
    var lines := JavaSplit(content, '\n');
    Reindented(TrimmedLines(lines, Trim), |lines|, SubscriptionLineIndent(base), false)
  }

  /** `applySecuritySettingIndentation` */
  method ApplySecuritySettingIndentation(content: string, base: string) returns (r: string)
    ensures r == SubscriptionIndented(content, base)
  {
    var lines := JavaSplit(content, '\n');
    r := Reindent(lines, Trim, SubscriptionLineIndent(base), false);
  }

  // ---------------------------------------------------------------------
  // A generated block survives splitting, trimming and re-indenting
  // ---------------------------------------------------------------------

  /** A line that splitting on newlines and trimming leave as it is. */
  predicate PlainLine(t: string) {
    t != [] && '\n' !in t && !IsTrimmable(t[0]) && !IsTrimmable(t[|t| - 1])
  }

  /** Trimming leaves a plain line as it is. */
  lemma TrimPlain(t: string)
    requires PlainLine(t)
    ensures Trim(t) == t
  {
    TrimVisible(t, []);
    assert t + [] == t;
  }

  /** Trimming leaves plain lines as they are. */
  lemma TrimmedPlain(lines: seq<string>)
    requires forall i :: 0 <= i < |lines| ==> PlainLine(lines[i])
    ensures TrimmedLines(lines, Trim) == lines
  {
    var ts := TrimmedLines(lines, Trim);
    assert |ts| == |lines|;
    forall i | 0 <= i < |lines|
      ensures ts[i] == lines[i]
    {
      assert ts[i] == Trim(lines[i]);
      TrimPlain(lines[i]);
    }
  }

  /** Re-indenting plain lines joined with newlines joins the same lines, each after its indent. */
  lemma ReindentPlainBlock(lines: seq<string>, indent: string -> string, blankNewline: bool)
    requires |lines| >= 1 && forall i :: 0 <= i < |lines| ==> PlainLine(lines[i])
    ensures JavaSplit(Join(lines, "\n"), '\n') == lines
    ensures Reindented(TrimmedLines(lines, Trim), |lines|, indent, blankNewline) == Join(IndentedLines(lines, indent), "\n")
  {
    JavaSplitJoinNonEmpty(lines, '\n');
    TrimmedPlain(lines);
    ReindentedJoin(lines, indent, blankNewline);
  }

  /** No newline in a name leaves none in its Puppet variable name. */
  lemma VariableNameOneLine(name: string)
    requires '\n' !in name
    ensures '\n' !in ToVariableName(name)
  {
  }

  /** No newline in a name leaves none in its namespace prefix. */
  lemma PrefixOneLine(name: string)
    requires '\n' !in name
    ensures '\n' !in NamespacePrefix(name)
  {
  }

  /** A line written as a tag: it opens with '<' and closes with '>'. */
  lemma TagLinePlain(t: string)
    requires |t| >= 2 && t[0] == '<' && t[|t| - 1] == '>' && '\n' !in t
    ensures PlainLine(t)
  {
  }

  /** Every line of a subscription block is plain when the names and the subscriber are one line each. */
  lemma SubscriptionLinesPlain(request: ProvisionRequest, sub: Subscription)
    requires '\n' !in request.name && '\n' !in sub.subscriptionName && '\n' !in sub.subscriber
    ensures var lines := SubscriptionBlockLines(request, sub);
      |lines| == 4 && forall i :: 0 <= i < |lines| ==> PlainLine(lines[i])
  {
    var v, sv := ToVariableName(request.name), ToVariableName(sub.subscriptionName);
    var roles := SubscriberRoles(request, sub);
    assert '\n' !in v && '\n' !in sv && '\n' !in roles by {
      VariableNameOneLine(request.name);
      VariableNameOneLine(sub.subscriptionName);
      PrefixOneLine(request.name);
    }
    var l0 := SettingOpen + " " + SubscriptionMatch(v, sv);
    var l1, l2 := PermissionLine("consume", roles), PermissionLine("browse", roles);
    assert PlainLine(l0) by {
      SubscriptionOpenPlain(v, sv);
    }
    assert PlainLine(l1) && PlainLine(l2) by {
      PermissionLinePlain("consume", roles);
      PermissionLinePlain("browse", roles);
    }
    assert PlainLine(SettingClose) by {
      TagLinePlain(SettingClose);
    }
    assert SubscriptionBlockLines(request, sub) == [l0, l1, l2, SettingClose];
  }

  /** The open tag of a subscription block over one-line variables is a plain line. */
  lemma SubscriptionOpenPlain(v: string, sv: string)
    requires '\n' !in v && '\n' !in sv
    ensures PlainLine(SettingOpen + " " + SubscriptionMatch(v, sv))
  {
    var l0 := SettingOpen + " " + SubscriptionMatch(v, sv);
    assert l0[0] == '<' && l0[|l0| - 1] == '>';
    TagLinePlain(l0);
  }

  /** A permission line over a one-line role list is a plain line. */
  lemma PermissionLinePlain(permission: string, roles: string)
    requires '\n' !in permission && '\n' !in roles
    ensures PlainLine(PermissionLine(permission, roles))
  {
    var l := PermissionLine(permission, roles);
    assert l[0] == '<' && l[|l| - 1] == '>';
    TagLinePlain(l);
  }

  /** Re-indenting a block of plain lines puts each line after its indent. */
  lemma SubscriptionIndentedPlain(lines: seq<string>, base: string)
    requires |lines| >= 1 && forall i :: 0 <= i < |lines| ==> PlainLine(lines[i])
    ensures SubscriptionIndented(Join(lines, "\n"), base) == Join(IndentedLines(lines, SubscriptionLineIndent(base)), "\n")
  {
    ReindentPlainBlock(lines, SubscriptionLineIndent(base), false);
  }

  /** An open tag as the generators write it is an outer tag, so it gets the base indent. */
  lemma OpenTagAtBase(base: string, rest: string)
    ensures SubscriptionLineIndent(base)(SettingOpen + " " + rest) == base
  {
    StartsAtLiteral([], SettingOpen, " " + rest);
    assert [] + SettingOpen + (" " + rest) == SettingOpen + " " + rest;
  }

  /** A match in a text is a match after any prefix. */
  lemma OccursAfter(a: string, b: string, open: string, rest: string)
    requires rest != [] && !IsSpace(rest[0]) && Occurs(b, open, rest)
    ensures Occurs(a + b, open, rest)
  {
    OccursWithin(a, b, [], open, rest);
    assert a + b + [] == a + b;
  }

  /** Any text holding a match is non-empty. */
  lemma OccursNonEmpty(s: string, open: string, rest: string)
    requires open != [] && Occurs(s, open, rest)
    ensures s != []
  {
    var i := OccursFromWitness(s, 0, open, rest);
  }

  /**
   * The generated subscription block, re-indented and placed anywhere, is
   * what `checkSubscriptionSecuritySettingExists` looks for.
   */
  lemma IndentedSettingRecognised(request: ProvisionRequest, sub: Subscription, base: string, a: string, c: string)
    requires sub.subscriptionName != []
    requires '\n' !in request.name && '\n' !in sub.subscriptionName && '\n' !in sub.subscriber
    ensures SubscriptionSettingExists(a + SubscriptionIndented(SubscriptionSetting(request, sub), base) + c,
                                      request.name, sub.subscriptionName)
  {
    var lines := SubscriptionBlockLines(request, sub);
    SubscriptionLinesPlain(request, sub);
    SubscriptionIndentedPlain(lines, base);
    var ind := IndentedLines(lines, SubscriptionLineIndent(base));
    var rest := SubscriptionMatch(ToVariableName(request.name), ToVariableName(sub.subscriptionName));
    OpenTagAtBase(base, rest);
    assert ind[0] == base + (SettingOpen + " " + rest);
    TagOccurs(SettingOpen, rest);
    OccursAfter(base, SettingOpen + " " + rest, SettingOpen, rest);
    OccursInJoin(ind, 0, a, c, SettingOpen, rest);
    OccursNonEmpty(a + Join(ind, "\n") + c, SettingOpen, rest);
  }

  // ---------------------------------------------------------------------
  // insertSubscriptionSecuritySettingAfterTopic and its fallback
  // ---------------------------------------------------------------------

  /** `matcher.end()` for the topic's block `<security-setting\s+match="<%= @address_<var>%>\.#">.*?</security-setting>`. */
  function TopicBlockEnd(content: string, v: string): (r: Option<nat>)
    ensures r.Some? ==> |SettingClose| <= r.value <= |content|
    ensures r.Some? ==> StartsAt(content, SettingClose, r.value - |SettingClose|)
  {
    match FirstResourceBlock(content, v)
      case None => None
      case Some((i, b)) =>
        FirstResourceBlockFound(content, v, i, b);
        Some(b.innerEnd + |SettingClose|)
  }

  /**
   * `insertAtEndOfSecuritySettings(content, setting)`: the re-indented block
   * goes on its own line before the last `</security-settings>`, after the
   * text before it with its trailing whitespace stripped; without that tag
   * the text is returned as it is.
   */
  function SettingAtEnd(content: string, setting: string): string {
    match LastIndexOf(content, SettingsClose)
      case None => content
      case Some(p) =>
        (StripTrailing(content[..p]) + "\n") + SubscriptionIndented(setting, SettingIndent(content)) + ("\n" + content[p..])
  }

  /**
   * `insertSubscriptionSecuritySettingAfterTopic(content, topic, setting)`:
   * a blank block changes nothing; otherwise the re-indented block goes on a
   * new line right after the topic's own block, or at the end of the
   * security settings when the topic has no block.
   */
  function SettingAfterTopic(content: string, topic: string, setting: string): string {
    if IsBlank(setting) then content
    else match TopicBlockEnd(content, ToVariableName(topic))
      case None => SettingAtEnd(content, setting)
      case Some(e) => content[..e] + ("\n" + SubscriptionIndented(setting, SettingIndent(content))) + content[e..]
  }

  /** `insertAtEndOfSecuritySettings` */
  method InsertAtEndOfSecuritySettings(content: string, setting: string) returns (r: string)
    ensures r == SettingAtEnd(content, setting)
  {
    var p := LastIndexOf(content, SettingsClose);
    if p.None? {
      return content;
    }
    var indented := ApplySecuritySettingIndentation(setting, SettingIndent(content));
    r := (StripTrailing(content[..p.value]) + "\n") + indented + ("\n" + content[p.value..]);
  }

  /** `insertSubscriptionSecuritySettingAfterTopic` */
  method InsertSubscriptionSecuritySettingAfterTopic(content: string, topic: string, setting: string) returns (r: string)
    ensures r == SettingAfterTopic(content, topic, setting)
  {
    if IsBlank(setting) {
      return content;
    }
    var e := TopicBlockEnd(content, ToVariableName(topic));
    if e.None? {
      r := InsertAtEndOfSecuritySettings(content, setting);
      return;
    }
    var indented := ApplySecuritySettingIndentation(setting, SettingIndent(content));
    r := content[..e.value] + ("\n" + indented) + content[e.value..];
  }

  /** A blank block, or a text with neither the topic's block nor the closing tag, is left as it is. */
  lemma SettingAfterTopicUnchanged(content: string, topic: string, setting: string)
    ensures IsBlank(setting) ==> SettingAfterTopic(content, topic, setting) == content
    ensures TopicBlockEnd(content, ToVariableName(topic)).None? && !Contains(content, SettingsClose)
            ==> SettingAfterTopic(content, topic, setting) == content
  {
  }

  /** Text spliced in at `e` keeps what comes before `e` and what comes after it. */
  lemma SpliceAt(s: string, e: nat, mid: string)
    requires e <= |s|
    ensures var r := s[..e] + mid + s[e..];
      |r| == |s| + |mid| && r[..e] == s[..e] && r[|r| - (|s| - e)..] == s[e..]
  {
    var r := s[..e] + mid + s[e..];
    assert r == s[..e] + (mid + s[e..]);
  }

  /**
   * After the topic's block, the text before and after the insertion point
   * is kept; the block itself, which ends at `e`, is part of what comes before.
   */
  lemma SettingAfterTopicKeeps(content: string, topic: string, setting: string, e: nat)
    requires !IsBlank(setting) && TopicBlockEnd(content, ToVariableName(topic)) == Some(e)
    ensures var r := SettingAfterTopic(content, topic, setting);
      |r| > |content| && r[..e] == content[..e] && r[|r| - (|content| - e)..] == content[e..]
  {
    var mid := "\n" + SubscriptionIndented(setting, SettingIndent(content));
    SettingAfterTopicAt(content, topic, setting, e, mid);
    var r := SettingAfterTopic(content, topic, setting);
    SpliceAt(content, e, mid);
    assert |mid| > 0;
    assert r == content[..e] + mid + content[e..];
  }

  /** With the topic's block in place, the block goes right after it. */
  lemma SettingAfterTopicAt(content: string, topic: string, setting: string, e: nat, mid: string)
    requires !IsBlank(setting) && TopicBlockEnd(content, ToVariableName(topic)) == Some(e)
    requires mid == "\n" + SubscriptionIndented(setting, SettingIndent(content))
    ensures e <= |content| && SettingAfterTopic(content, topic, setting) == content[..e] + mid + content[e..]
  {
  }

  /**
   * Inserting a generated subscription block makes
   * `checkSubscriptionSecuritySettingExists` hold, so a second run does not
   * insert it again; this needs the topic's block or the closing tag.
   */
  lemma SettingAfterTopicRecognised(content: string, request: ProvisionRequest, sub: Subscription)
    requires sub.subscriptionName != []
    requires '\n' !in request.name && '\n' !in sub.subscriptionName && '\n' !in sub.subscriber
    requires TopicBlockEnd(content, ToVariableName(request.name)).Some? || Contains(content, SettingsClose)
    ensures SubscriptionSettingExists(SettingAfterTopic(content, request.name, SubscriptionSetting(request, sub)),
                                      request.name, sub.subscriptionName)
  {
    var setting := SubscriptionSetting(request, sub);
    var base := SettingIndent(content);
    SubscriptionSettingEmpty(request, sub);
    BlankIff(setting);
    assert !IsTrimmable(setting[0]);
    match TopicBlockEnd(content, ToVariableName(request.name))
      case Some(e) =>
        IndentedSettingRecognised(request, sub, base, content[..e] + "\n", content[e..]);
        Regroup3(content[..e], "\n", SubscriptionIndented(setting, base), content[e..]);
      case None =>
        var p := LastIndexOf(content, SettingsClose).value;
        IndentedSettingRecognised(request, sub, base, StripTrailing(content[..p]) + "\n", "\n" + content[p..]);
  }

  lemma Regroup3(a: string, b: string, x: string, c: string)
    ensures (a + b) + x + c == a + (b + x) + c
  {
  }
}
