/**
 * `ConfigParserService.parseUsers` and `parseRoles`: the line scanners that
 * read the users list and the role groups back from `acmq.yaml`. Each is a
 * loop over the lines of the file from the section's key onwards; the loop
 * is proved against a fold (`UsersFold`, `RolesFold`) that takes one line
 * at a time, and the folds are proved to read back the sections that
 * `AcmqYamlService` writes.
 */
module ConfigLedger {
  import opened Wrappers
  import opened Text
  import opened OrderedMap
  import OrderedSet
  import opened AcmqYaml

  // ---------------------------------------------------------------------
  // Line patterns
  // ---------------------------------------------------------------------

  /** A trimmed line that closes the section: empty, or a `key::name:` header. */
  predicate EndsSection(t: string) {
    t == [] || (Contains(t, "::") && EndsWith(t, ":"))
  }

  /** `\s*'([^']*)'` matched at `i`: the quoted text. */
  function QuotedAfter(t: string, i: nat): (r: Option<string>)
    requires i <= |t|
    ensures r.Some? ==> '\'' !in r.value
  {
    var w := WsEnd(t, i);
    if w < |t| && t[w] == '\'' then
      match FindCharIn(t, '\'', w + 1, |t|)
      case Some(q) => FindCharInFacts(t, '\'', w + 1, |t|); Some(t[w + 1..q])
      case None => None
    else None
  }

  /** `^-\s*'([^']*)'` on a trimmed line: a users list item. */
  function UserItem(t: string): Option<string> {
    if |t| > 0 && t[0] == '-' then QuotedAfter(t, 1) else None
  }

  /** `^-?\s*group:\s*'([^']*)'` on a trimmed line: a role group's name. */
  function GroupItem(t: string): Option<string> {
    var i := if |t| > 0 && t[0] == '-' then 1 else 0;
    var w := WsEnd(t, i);
    if StartsAt(t, "group:", w) then QuotedAfter(t, w + 6) else None
  }

  /** `^users:\s*'([^']*)'` on a trimmed line: a role group's members. */
  function UsersItem(t: string): Option<string> {
    if StartsAt(t, "users:", 0) then QuotedAfter(t, 6) else None
  }

  /** The trimmed, non-empty pieces, in order. */
  function TrimmedMembers(parts: seq<string>): (r: seq<string>)
    ensures forall i :: 0 <= i < |r| ==> r[i] != []
  {
    if |parts| == 0 then []
    else
      var t := Trim(parts[0]);
      (if t == [] then [] else [t]) + TrimmedMembers(parts[1..])
  }

  /** `users.split(",")`, each piece trimmed, the empty ones dropped. */
  function SplitMembers(users: string): (r: seq<string>)
    ensures forall i :: 0 <= i < |r| ==> r[i] != []
  {
    TrimmedMembers(JavaSplit(users, ','))
  }

  // ---------------------------------------------------------------------
  // parseUsers
  // ---------------------------------------------------------------------

  /**
   * One pass of the `parseUsers` loop on the trimmed line `t`: `None` where it breaks, otherwise
   * whether the section has started and the users read so far.
   */
  function UsersStep(t: string, inSection: bool, users: seq<string>): Option<(bool, seq<string>)> {
    if UsersKey <= t then Some((true, users))
    else if !inSection then Some((false, users))
    else if EndsSection(t) then None
    else match UserItem(t)
      case Some(u) => Some((true, users + [u]))
      case None => Some((true, users))
  }

  /** The users the loop has read once it has run over `lines`. */
  function UsersFold(lines: seq<string>, inSection: bool, users: seq<string>): (r: seq<string>)
    ensures users <= r
    ensures forall i :: |users| <= i < |r| ==> '\'' !in r[i]
  {
    if |lines| == 0 then users
    else match UsersStep(Trim(lines[0]), inSection, users)
      case None => users
      case Some((b, us)) => UsersFold(lines[1..], b, us)
  }

  /** One pass of the fold from line `k`. */
  lemma UsersFoldAt(lines: seq<string>, k: nat, inSection: bool, users: seq<string>)
    requires k < |lines|
    ensures UsersFold(lines[k..], inSection, users)
      == match UsersStep(Trim(lines[k]), inSection, users)
         case None => users
         case Some((b, us)) => UsersFold(lines[k + 1..], b, us)
  {
    assert lines[k..][0] == lines[k] && lines[k..][1..] == lines[k + 1..];
  }

  /** What `parseUsers` returns for the file `content`. */
  function ParsedUsers(content: string): (r: seq<string>)
    ensures forall i :: 0 <= i < |r| ==> '\'' !in r[i]
  {
    if content == [] then []
    else match IndexOf(content, UsersKey + ":")
      case None => []
      case Some(i) => UsersFold(SplitLines(content[i..]), false, [])
  }

  /** `parseUsers`: the loop over the lines from the users key. */
  method ParseUsers(content: string) returns (users: seq<string>)
    ensures users == ParsedUsers(content)
  {
    users := [];
    if content == [] {
      return;
    }
    var start := IndexOf(content, UsersKey + ":");
    if start.None? {
      return;
    }
    var lines := SplitLines(content[start.value..]);
    var inSection := false;
    var k := 0;
    while k < |lines|
      invariant k <= |lines|
      invariant UsersFold(lines[k..], inSection, users) == UsersFold(lines, false, [])
    {
      UsersFoldAt(lines, k, inSection, users);
      var trimmed := Trim(lines[k]);
      if UsersKey <= trimmed {
        inSection := true;
      } else if inSection {
        if EndsSection(trimmed) {
          break;
        }
        var item := UserItem(trimmed);
        if item.Some? {
          users := users + [item.value];
        }
      }
      k := k + 1;
    }
  }

  // ---------------------------------------------------------------------
  // parseRoles
  // ---------------------------------------------------------------------

  /** The state of the `parseRoles` loop. */
  datatype RolesScan = RolesScan(inSection: bool, current: Option<string>, roles: seq<(string, seq<string>)>)

  /**
   * A line inside the section: a `group:` line names the current group; a
   * `users:` line after one puts that group's members and clears it.
   */
  function RoleItemStep(t: string, current: Option<string>, roles: seq<(string, seq<string>)>): RolesScan {
    match GroupItem(t)
    case Some(g) => RolesScan(true, Some(g), roles)
    case None =>
      match UsersItem(t)
      case Some(u) =>
        if current.Some? then RolesScan(true, None, Put(roles, current.value, SplitMembers(u)))
        else RolesScan(true, current, roles)
      case None => RolesScan(true, current, roles)
  }

  /** One pass of the `parseRoles` loop on the trimmed line `t`: `None` where it breaks. */
  function RolesStep(t: string, st: RolesScan): Option<RolesScan> {
    if RolesKey <= t then Some(st.(inSection := true))
    else if !st.inSection then Some(st)
    else if EndsSection(t) then None
    else Some(RoleItemStep(t, st.current, st.roles))
  }

  /** The groups the loop has read once it has run over `lines`; a group is never listed twice. */
  function RolesFold(lines: seq<string>, st: RolesScan): (r: seq<(string, seq<string>)>)
    ensures OrderedSet.Distinct(Keys(st.roles)) ==> OrderedSet.Distinct(Keys(r))
  {
    if |lines| == 0 then st.roles
    else match RolesStep(Trim(lines[0]), st)
      case None => st.roles
      case Some(next) => RoleItemDistinct(Trim(lines[0]), st.current, st.roles); RolesFold(lines[1..], next)
  }

  /** A line either keeps the groups or puts one, so distinct keys stay distinct. */
  lemma RoleItemDistinct(t: string, current: Option<string>, roles: seq<(string, seq<string>)>)
    ensures OrderedSet.Distinct(Keys(roles)) ==> OrderedSet.Distinct(Keys(RoleItemStep(t, current, roles).roles))
  {
    if OrderedSet.Distinct(Keys(roles)) && current.Some? && UsersItem(t).Some? {
      PutDistinct(roles, current.value, SplitMembers(UsersItem(t).value));
    }
  }

  /** One pass of the fold from line `k`. */
  lemma RolesFoldAt(lines: seq<string>, k: nat, st: RolesScan)
    requires k < |lines|
    ensures RolesFold(lines[k..], st)
      == match RolesStep(Trim(lines[k]), st)
         case None => st.roles
         case Some(next) => RolesFold(lines[k + 1..], next)
  {
    assert lines[k..][0] == lines[k] && lines[k..][1..] == lines[k + 1..];
  }

  const RolesStart: RolesScan := RolesScan(false, None, [])

  /** What `parseRoles` returns for the file `content`. */
  function ParsedRoles(content: string): (r: seq<(string, seq<string>)>)
    ensures OrderedSet.Distinct(Keys(r))
  {
    if content == [] then []
    else match IndexOf(content, RolesKey + ":")
      case None => []
      case Some(i) => RolesFold(SplitLines(content[i..]), RolesStart)
  }

  /** `parseRoles`: the loop over the lines from the roles key. */
  method ParseRoles(content: string) returns (roles: seq<(string, seq<string>)>)
    ensures roles == ParsedRoles(content)
  {
    roles := [];
    if content == [] {
      return;
    }
    var start := IndexOf(content, RolesKey + ":");
    if start.None? {
      return;
    }
    var lines := SplitLines(content[start.value..]);
    var inSection := false;
    var current: Option<string> := None;
    var k := 0;
    while k < |lines|
      invariant k <= |lines|
      invariant RolesFold(lines[k..], RolesScan(inSection, current, roles)) == RolesFold(lines, RolesStart)
    {
      RolesFoldAt(lines, k, RolesScan(inSection, current, roles));
      var trimmed := Trim(lines[k]);
      if RolesKey <= trimmed {
        inSection := true;
      } else if inSection {
        if EndsSection(trimmed) {
          break;
        }
        current, roles := ReadRoleItem(trimmed, current, roles);
      }
      k := k + 1;
    }
  }

  /** The body of the `parseRoles` loop for a line inside the section. */
  method ReadRoleItem(trimmed: string, current: Option<string>, roles: seq<(string, seq<string>)>)
    returns (current': Option<string>, roles': seq<(string, seq<string>)>)
    ensures RolesScan(true, current', roles') == RoleItemStep(trimmed, current, roles)
  {
    current', roles' := current, roles;
    var group := GroupItem(trimmed);
    if group.Some? {
      current' := group;
      return;
    }
    var users := UsersItem(trimmed);
    if users.Some? && current.Some? {
      roles' := Put(roles, current.value, SplitMembers(users.value));
      current' := None;
    }
  }

  // ---------------------------------------------------------------------
  // Reading back what AcmqYamlService writes
  // ---------------------------------------------------------------------

  /** Empty lines after the last one change nothing: the loop either skips them or stops at them. */
  lemma {:induction false} UsersFoldEmpties(r: seq<string>, e: seq<string>, inSection: bool, users: seq<string>)
    requires AllEmpty(e)
    ensures UsersFold(r + e, inSection, users) == UsersFold(r, inSection, users)
    decreases |r| + |e|
  {
    if |r| > 0 {
      assert (r + e)[0] == r[0] && (r + e)[1..] == r[1..] + e;
      match UsersStep(Trim(r[0]), inSection, users)
      case None =>
      case Some((b, us)) =>
        calc {
          UsersFold(r + e, inSection, users);
          UsersFold(r[1..] + e, b, us);
          { UsersFoldEmpties(r[1..], e, b, us); }
          UsersFold(r[1..], b, us);
          UsersFold(r, inSection, users);
        }
    } else {
      assert r + e == e;
      UsersFoldAllEmpty(e, inSection, users);
    }
  }

  /** Over empty lines alone the loop reads nothing. */
  lemma {:induction false} UsersFoldAllEmpty(e: seq<string>, inSection: bool, users: seq<string>)
    requires AllEmpty(e)
    ensures UsersFold(e, inSection, users) == users
    decreases |e|
  {
    if |e| > 0 && !inSection {
      assert e[0] == [];
      UsersFoldAllEmpty(e[1..], false, users);
    }
  }

  /** The loop reads the same from `split("\\r?\\n")` as from the raw pieces. */
  lemma UsersFoldSplitLines(s: string, inSection: bool, users: seq<string>)
    ensures UsersFold(SplitLines(s), inSection, users) == UsersFold(RawLines(s), inSection, users)
  {
    SplitLinesRaw(s);
    var xs := RawLines(s);
    var r := DropTrailingEmpty(xs);
    DropTrailingEmptySplit(xs);
    UsersFoldEmpties(r, xs[|r|..], inSection, users);
  }

  /** A users list item as `AcmqYamlService` writes it, without its newline. */
  function UserText(u: string): (r: string)
    ensures r + "\n" == UserLine(u)
  {
    "  - '" + u + "'"
  }

  function UserTexts(users: seq<string>): (r: seq<string>)
    ensures |r| == |users|
  {
    if |users| == 0 then [] else [UserText(users[0])] + UserTexts(users[1..])
  }

  lemma {:induction false} UserTextsAt(users: seq<string>, i: nat)
    requires i < |users|
    ensures UserTexts(users)[i] == UserText(users[i])
  {
    if i > 0 {
      UserTextsAt(users[1..], i - 1);
    }
  }

  lemma UserTextPlain(u: string)
    requires '\n' !in u
    ensures WrittenLine(UserText(u))
  {
    assert UserText(u) == "  - '" + u + "'";
  }

  lemma {:induction false} UserLinesAsLines(users: seq<string>)
    ensures UserLines(users) == Lines(UserTexts(users))
  {
    if |users| > 0 {
      UserLinesAsLines(users[1..]);
      LinesCons(UserText(users[0]), UserTexts(users[1..]));
    }
  }

  /** `\s*'v'` after the spaces that close `pre` reads `v` back. */
  lemma QuotedAfterLiteral(pre: string, i: nat, v: string, post: string)
    requires i < |pre| && pre[|pre| - 1] == '\''
    requires forall k :: i <= k < |pre| - 1 ==> IsSpace(pre[k])
    requires '\'' !in v
    ensures QuotedAfter(pre + v + "'" + post, i) == Some(v)
  {
    var t := pre + v + "'" + post;
    var q := |pre| + |v|;
    assert forall k :: 0 <= k < |pre| ==> t[k] == pre[k];
    WsEndIs(t, i, |pre| - 1);
    assert forall k :: |pre| <= k < q ==> t[k] == v[k - |pre|];
    FindCharInIs(t, '\'', |pre|, |t|, q);
    assert t[|pre|..q] == v;
  }

  /** The loop reads a written users item as that user. */
  lemma UserTextRead(u: string, users: seq<string>)
    requires '\'' !in u
    ensures UsersStep(Trim(UserText(u)), true, users) == Some((true, users + [u]))
  {
    UserLineRead(u);
  }

  /** A written user line trims to an item line that names the user. */
  lemma UserLineRead(u: string)
    requires '\'' !in u
    ensures var t := Trim(UserText(u));
      !(UsersKey <= t) && !EndsSection(t) && UserItem(t) == Some(u)
  {
    var t := "- '" + u + "'";
    UserLineTrimmed(u, t);
    UserItemOf(u, t);
    ItemLineInside(t);
  }

  lemma UserLineTrimmed(u: string, t: string)
    requires t == "- '" + u + "'"
    ensures Trim(UserText(u)) == t
  {
    assert UserText(u) == "  " + t;
    TrimPadded("  ", t);
  }

  lemma UserItemOf(u: string, t: string)
    requires '\'' !in u && t == "- '" + u + "'"
    ensures |t| > 0 && t[0] == '-' && t[|t| - 1] == '\'' && UserItem(t) == Some(u)
  {
    QuotedAfterLiteral("- '", 1, u, "");
    assert t == "- '" + u + "'" + "";
  }

  /** The fold after one line is the fold from the state that line leaves. */
  lemma UsersFoldCons(line: string, rest: seq<string>, inSection: bool, users: seq<string>, next: bool, users': seq<string>)
    requires UsersStep(Trim(line), inSection, users) == Some((next, users'))
    ensures UsersFold([line] + rest, inSection, users) == UsersFold(rest, next, users')
  {
    assert ([line] + rest)[0] == line && ([line] + rest)[1..] == rest;
  }

  /** The loop reads written users items in order. */
  lemma {:induction false} UsersFoldItems(users: seq<string>, rest: seq<string>, acc: seq<string>)
    requires forall i :: 0 <= i < |users| ==> '\'' !in users[i]
    ensures UsersFold(UserTexts(users) + rest, true, acc) == UsersFold(rest, true, acc + users)
  {
    if |users| > 0 {
      var u, more := users[0], UserTexts(users[1..]) + rest;
      assert UserTexts(users) + rest == [UserText(u)] + more;
      UserTextRead(u, acc);
      UsersFoldCons(UserText(u), more, true, acc, true, acc + [u]);
      UsersFoldItems(users[1..], rest, acc + [u]);
      SnocHead(acc, users);
    } else {
      assert UserTexts(users) + rest == rest && acc + users == acc;
    }
  }

  /** The users section `AcmqYamlService` writes, line by line. */
  function UsersSectionTexts(users: seq<string>): seq<string> {
    [UsersKey + ":"] + UserTexts(users) + [""]
  }

  lemma UsersSectionAsLines(users: seq<string>)
    requires forall i :: 0 <= i < |users| ==> '\n' !in users[i]
    ensures UsersSection(users) == Lines(UsersSectionTexts(users))
    ensures AllWritten(UsersSectionTexts(users))
  {
    var header, items := UsersKey + ":", UserTexts(users);
    UserLinesAsLines(users);
    LinesAppend([header] + items, [""]);
    LinesAppend([header], items);
    var xs := UsersSectionTexts(users);
    forall i | 0 <= i < |xs|
      ensures WrittenLine(xs[i])
    {
      if 0 < i <= |items| {
        assert xs[i] == items[i - 1];
        UserTextsAt(users, i - 1);
        UserTextPlain(users[i - 1]);
      }
    }
  }

  /** The header line opens the section. */
  lemma UsersHeaderRead()
    ensures UsersStep(Trim(UsersKey + ":"), false, []) == Some((true, []))
  {
    TrimVisible(UsersKey + ":", "");
    assert UsersKey + ":" + "" == UsersKey + ":";
  }

  /** A blank line closes the section. */
  lemma UsersBlankStops(rest: seq<string>, users: seq<string>)
    ensures UsersFold([""] + rest, true, users) == users
  {
    assert ([""] + rest)[0] == "";
  }

  /** The loop reads the written section, whatever follows it, as its users. */
  lemma UsersFoldSection(users: seq<string>, tail: seq<string>)
    requires forall i :: 0 <= i < |users| ==> '\'' !in users[i]
    ensures UsersFold(UsersSectionTexts(users) + tail, false, []) == users
  {
    var header, items, rest := UsersKey + ":", UserTexts(users), [""] + tail;
    RegroupRight([header], items, [""], tail);
    UsersHeaderRead();
    UsersFoldCons(header, items + rest, false, [], true, []);
    UsersFoldItems(users, rest, []);
    UsersBlankStops(tail, users);
  }

  /**
   * `parseUsers` reads back the users section `AcmqYamlService` writes, in
   * order, wherever it stands in the file, as long as it is where the key
   * first occurs.
   */
  lemma ParsedUsersRoundTrip(a: string, users: seq<string>, b: string)
    requires forall i :: 0 <= i < |users| ==> '\'' !in users[i] && '\n' !in users[i]
    requires IndexOf(a + UsersSection(users) + b, UsersKey + ":") == Some(|a|)
    ensures ParsedUsers(a + UsersSection(users) + b) == users
  {
    var xs := UsersSectionTexts(users);
    UsersSectionAsLines(users);
    var content := a + UsersSection(users) + b;
    assert content[|a|..] == Lines(xs) + b;
    RawLinesThen(xs, b);
    UsersFoldSplitLines(Lines(xs) + b, false, []);
    UsersFoldSection(users, RawLines(b));
  }

  // The roles section

  /** The two lines `AcmqYamlService` writes for a role group, without their newlines. */
  function GroupText(group: string): string {
    "  - group: '" + group + "'"
  }

  function MembersText(users: string): string {
    "    users: '" + users + "'"
  }

  function RoleTexts(roles: seq<RoleEntry>): (r: seq<string>)
    ensures |r| == 2 * |roles|
  {
    if |roles| == 0 then [] else [GroupText(roles[0].group), MembersText(roles[0].users)] + RoleTexts(roles[1..])
  }

  /** The fold after one line is the fold from the state that line leaves. */
  lemma RolesFoldCons(line: string, rest: seq<string>, st: RolesScan, next: RolesScan)
    requires RolesStep(Trim(line), st) == Some(next)
    ensures RolesFold([line] + rest, st) == RolesFold(rest, next)
  {
    assert ([line] + rest)[0] == line && ([line] + rest)[1..] == rest;
  }

  lemma GroupItemOf(group: string)
    requires '\'' !in group
    ensures GroupItem("- group: '" + group + "'") == Some(group)
  {
    var t := "- group: '" + group + "'";
    WsEndIs(t, 1, 2);
    StartsAtIff(t, "group:", 2);
    assert t[2..8] == "group:";
    QuotedAfterLiteral("- group: '", 8, group, "");
    assert t == "- group: '" + group + "'" + "";
  }

  lemma UsersItemOf(users: string)
    requires '\'' !in users
    ensures GroupItem("users: '" + users + "'") == None
    ensures UsersItem("users: '" + users + "'") == Some(users)
  {
    var t := "users: '" + users + "'";
    WsEndIs(t, 0, 0);
    StartsAtIff(t, "group:", 0);
    StartsAtIff(t, "users:", 0);
    assert t[0..6] == "users:";
    QuotedAfterLiteral("users: '", 6, users, "");
    assert t == "users: '" + users + "'" + "";
  }

  /** A written item line, trimmed, neither opens nor closes the section. */
  lemma ItemLineInside(t: string)
    requires |t| > 0 && t[0] != 'i' && t[|t| - 1] == '\''
    ensures !(UsersKey <= t) && !(RolesKey <= t) && !EndsSection(t)
  {
    assert UsersKey[0] == 'i' && RolesKey[0] == 'i';
  }

  /** The loop reads a written `group:` line as the current group. */
  lemma GroupTextRead(group: string, current: Option<string>, roles: seq<(string, seq<string>)>)
    requires '\'' !in group
    ensures RolesStep(Trim(GroupText(group)), RolesScan(true, current, roles)) == Some(RolesScan(true, Some(group), roles))
  {
    GroupLineRead(group);
  }

  /** A written `group:` line trims to an item line that names the group. */
  lemma GroupLineRead(group: string)
    requires '\'' !in group
    ensures var t := Trim(GroupText(group));
      !(RolesKey <= t) && !EndsSection(t) && GroupItem(t) == Some(group)
  {
    var t := "- group: '" + group + "'";
    assert Trim(GroupText(group)) == t by {
      assert "  - group: '" == "  " + "- group: '";
      assert GroupText(group) == "  " + t;
      TrimPadded("  ", t);
    }
    assert !(RolesKey <= t) && !EndsSection(t) by {
      ItemLineInside(t);
    }
    assert GroupItem(t) == Some(group) by {
      GroupItemOf(group);
    }
  }

  /** The loop reads a written `users:` line after a group as that group's members. */
  lemma MembersTextRead(users: string, group: string, roles: seq<(string, seq<string>)>)
    requires '\'' !in users
    ensures RolesStep(Trim(MembersText(users)), RolesScan(true, Some(group), roles))
      == Some(RolesScan(true, None, Put(roles, group, SplitMembers(users))))
  {
    MembersLineRead(users);
  }

  /** A written `users:` line trims to an item line that carries the members and no group. */
  lemma MembersLineRead(users: string)
    requires '\'' !in users
    ensures var t := Trim(MembersText(users));
      !(RolesKey <= t) && !EndsSection(t) && GroupItem(t) == None && UsersItem(t) == Some(users)
  {
    var t := "users: '" + users + "'";
    assert Trim(MembersText(users)) == t by {
      assert MembersText(users) == "    " + t;
      TrimPadded("    ", t);
    }
    assert !(RolesKey <= t) && !EndsSection(t) by {
      ItemLineInside(t);
    }
    assert GroupItem(t) == None && UsersItem(t) == Some(users) by {
      UsersItemOf(users);
    }
  }

  /** `put` of each written group's members, in order. */
  function PutEntries(m: seq<(string, seq<string>)>, roles: seq<RoleEntry>): seq<(string, seq<string>)>
    decreases |roles|
  {
    if |roles| == 0 then m else PutEntries(Put(m, roles[0].group, SplitMembers(roles[0].users)), roles[1..])
  }

  predicate QuoteFreeRoles(roles: seq<RoleEntry>) {
    forall i :: 0 <= i < |roles| ==> '\'' !in roles[i].group && '\'' !in roles[i].users
  }

  lemma RoleTextsCons(roles: seq<RoleEntry>, rest: seq<string>)
    requires |roles| > 0
    ensures RoleTexts(roles) + rest
      == [GroupText(roles[0].group)] + ([MembersText(roles[0].users)] + (RoleTexts(roles[1..]) + rest))
  {
    var g, ms := GroupText(roles[0].group), MembersText(roles[0].users);
    assert [g, ms] == [g] + [ms];
    RegroupRight([g], [ms], RoleTexts(roles[1..]), rest);
  }

  /** The loop reads written role groups in order, putting each group's members. */
  lemma {:induction false} RolesFoldItems(roles: seq<RoleEntry>, rest: seq<string>, m: seq<(string, seq<string>)>)
    requires QuoteFreeRoles(roles)
    ensures RolesFold(RoleTexts(roles) + rest, RolesScan(true, None, m))
      == RolesFold(rest, RolesScan(true, None, PutEntries(m, roles)))
  {
    if |roles| > 0 {
      var e := roles[0];
      var g, ms := GroupText(e.group), MembersText(e.users);
      var more := RoleTexts(roles[1..]) + rest;
      RoleTextsCons(roles, rest);
      GroupTextRead(e.group, None, m);
      RolesFoldCons(g, [ms] + more, RolesScan(true, None, m), RolesScan(true, Some(e.group), m));
      var m' := Put(m, e.group, SplitMembers(e.users));
      MembersTextRead(e.users, e.group, m);
      RolesFoldCons(ms, more, RolesScan(true, Some(e.group), m), RolesScan(true, None, m'));
      RolesFoldItems(roles[1..], rest, m');
    } else {
      assert RoleTexts(roles) + rest == rest;
    }
  }

  lemma {:induction false} RoleLinesAsLines(roles: seq<RoleEntry>)
    ensures RoleLines(roles) == Lines(RoleTexts(roles))
  {
    if |roles| > 0 {
      var e := roles[0];
      RoleLinesAsLines(roles[1..]);
      LinesAppend([GroupText(e.group), MembersText(e.users)], RoleTexts(roles[1..]));
      LinesCons(GroupText(e.group), [MembersText(e.users)]);
      LinesCons(MembersText(e.users), []);
    }
  }

  lemma {:induction false} RolesFoldEmpties(r: seq<string>, e: seq<string>, st: RolesScan)
    requires AllEmpty(e)
    ensures RolesFold(r + e, st) == RolesFold(r, st)
    decreases |r| + |e|
  {
    if |r| > 0 {
      assert (r + e)[0] == r[0] && (r + e)[1..] == r[1..] + e;
      match RolesStep(Trim(r[0]), st)
      case None =>
      case Some(next) => RolesFoldEmpties(r[1..], e, next);
    } else if |e| > 0 {
      assert r + e == e && e[0] == [];
      if !st.inSection {
        assert [] + e[1..] == e[1..];
        RolesFoldEmpties([], e[1..], st);
      }
    }
  }

  /** The loop reads the same from `split("\\r?\\n")` as from the raw pieces. */
  lemma RolesFoldSplitLines(s: string, st: RolesScan)
    ensures RolesFold(SplitLines(s), st) == RolesFold(RawLines(s), st)
  {
    SplitLinesRaw(s);
    var xs := RawLines(s);
    var r := DropTrailingEmpty(xs);
    DropTrailingEmptySplit(xs);
    RolesFoldEmpties(r, xs[|r|..], st);
  }

  /** The roles section `AcmqYamlService` writes, line by line. */
  function RolesSectionTexts(roles: seq<RoleEntry>): seq<string> {
    [RolesKey + ":"] + RoleTexts(roles)
  }

  predicate OneLineRoles(roles: seq<RoleEntry>) {
    forall i :: 0 <= i < |roles| ==> '\n' !in roles[i].group && '\n' !in roles[i].users
  }

  lemma {:induction false} RoleTextsWritten(roles: seq<RoleEntry>)
    requires OneLineRoles(roles)
    ensures AllWritten(RoleTexts(roles))
  {
    if |roles| > 0 {
      var e := roles[0];
      RoleTextsWritten(roles[1..]);
      var pair := [GroupText(e.group), MembersText(e.users)];
      assert WrittenLine(pair[0]) && WrittenLine(pair[1]);
      AllWrittenAppend(pair, RoleTexts(roles[1..]));
    }
  }

  lemma RolesSectionAsLines(roles: seq<RoleEntry>)
    requires OneLineRoles(roles)
    ensures RolesSection(roles) == Lines(RolesSectionTexts(roles))
    ensures AllWritten(RolesSectionTexts(roles))
  {
    RoleLinesAsLines(roles);
    LinesCons(RolesKey + ":", RoleTexts(roles));
    RoleTextsWritten(roles);
    assert WrittenLine(RolesKey + ":");
    AllWrittenAppend([RolesKey + ":"], RoleTexts(roles));
  }

  /** The raw lines from a written roles section that ends the file or a line. */
  lemma RolesRawLines(roles: seq<RoleEntry>, b: string) returns (tail: seq<string>)
    requires OneLineRoles(roles)
    requires b == [] || b[0] == '\n'
    ensures RawLines(RolesSection(roles) + b) == RolesSectionTexts(roles) + ([""] + tail)
  {
    var xs := RolesSectionTexts(roles);
    RolesSectionAsLines(roles);
    if b == [] {
      RawLinesThen(xs, b);
      assert RawLines(b) == [""];
      tail := [];
    } else {
      var b' := b[1..];
      LinesSnoc(xs, "");
      assert b == "\n" + b';
      assert Lines(xs) + b == Lines(xs + [""]) + b';
      assert WrittenLine("");
      AllWrittenAppend(xs, [""]);
      RawLinesThen(xs + [""], b');
      tail := RawLines(b');
      Assoc(xs, [""], tail);
    }
  }

  /** The header line opens the section. */
  lemma RolesHeaderRead()
    ensures RolesStep(Trim(RolesKey + ":"), RolesStart) == Some(RolesScan(true, None, []))
  {
    TrimVisible(RolesKey + ":", "");
    assert RolesKey + ":" + "" == RolesKey + ":";
  }

  /** A blank line closes the section. */
  lemma RolesBlankStops(rest: seq<string>, st: RolesScan)
    requires st.inSection
    ensures RolesFold([""] + rest, st) == st.roles
  {
    assert ([""] + rest)[0] == "";
  }

  /** The loop reads the written section, then a blank line, as the puts of its groups. */
  lemma RolesFoldSection(roles: seq<RoleEntry>, tail: seq<string>)
    requires QuoteFreeRoles(roles)
    ensures RolesFold(RolesSectionTexts(roles) + ([""] + tail), RolesStart) == PutEntries([], roles)
  {
    var header, items, rest := RolesKey + ":", RoleTexts(roles), [""] + tail;
    Assoc([header], items, rest);
    RolesHeaderRead();
    RolesFoldCons(header, items + rest, RolesStart, RolesScan(true, None, []));
    RolesFoldItems(roles, rest, []);
    RolesBlankStops(tail, RolesScan(true, None, PutEntries([], roles)));
  }

  /**
   * `parseRoles` reads back the roles section `AcmqYamlService` writes as
   * the `put` of each group's members in order, when the section is where
   * the key first occurs and it ends the file or a line.
   */
  lemma ParsedRolesRoundTrip(a: string, roles: seq<RoleEntry>, b: string)
    requires QuoteFreeRoles(roles) && OneLineRoles(roles)
    requires IndexOf(a + RolesSection(roles) + b, RolesKey + ":") == Some(|a|)
    requires b == [] || b[0] == '\n'
    ensures ParsedRoles(a + RolesSection(roles) + b) == PutEntries([], roles)
  {
    var content := a + RolesSection(roles) + b;
    assert content[|a|..] == RolesSection(roles) + b;
    var tail := RolesRawLines(roles, b);
    RolesFoldSplitLines(RolesSection(roles) + b, RolesStart);
    RolesFoldSection(roles, tail);
  }

  /** Distinct groups put into an empty map come out as one entry each, in order. */
  function RoleMembers(roles: seq<RoleEntry>): (r: seq<(string, seq<string>)>)
    ensures |r| == |roles|
  {
    if |roles| == 0 then [] else [(roles[0].group, SplitMembers(roles[0].users))] + RoleMembers(roles[1..])
  }

  predicate DistinctGroups(roles: seq<RoleEntry>) {
    forall i, j :: 0 <= i < j < |roles| ==> roles[i].group != roles[j].group
  }

  /** With distinct groups, each `put` appends: the map lists the groups as written. */
  lemma {:induction false} PutEntriesFresh(m: seq<(string, seq<string>)>, roles: seq<RoleEntry>)
    requires DistinctGroups(roles)
    requires forall i :: 0 <= i < |roles| ==> roles[i].group !in Keys(m)
    ensures PutEntries(m, roles) == m + RoleMembers(roles)
    decreases |roles|
  {
    if |roles| > 0 {
      var e := roles[0];
      var entry := (e.group, SplitMembers(e.users));
      PutFresh(m, e.group, entry.1);
      var m' := m + [entry];
      assert Keys(m') == Keys(m) + [e.group];
      forall i | 0 <= i < |roles[1..]|
        ensures roles[1..][i].group !in Keys(m')
      {
        assert roles[1..][i] == roles[i + 1];
      }
      PutEntriesFresh(m', roles[1..]);
      Assoc(m, [entry], RoleMembers(roles[1..]));
    } else {
      assert m + RoleMembers(roles) == m;
    }
  }

  /**
   * `parseRoles` reads a written roles section with distinct groups as
   * exactly those groups, in order, each with the members its `users`
   * string lists.
   */
  lemma ParsedRolesDistinct(a: string, roles: seq<RoleEntry>, b: string)
    requires QuoteFreeRoles(roles) && OneLineRoles(roles) && DistinctGroups(roles)
    requires IndexOf(a + RolesSection(roles) + b, RolesKey + ":") == Some(|a|)
    requires b == [] || b[0] == '\n'
    ensures ParsedRoles(a + RolesSection(roles) + b) == RoleMembers(roles)
  {
    ParsedRolesRoundTrip(a, roles, b);
    PutEntriesFresh([], roles);
    assert [] + RoleMembers(roles) == RoleMembers(roles);
  }

  /** A member list written with `String.join(",", ...)` splits back into the same list. */
  lemma SplitMembersJoin(members: seq<string>)
    requires forall i :: 0 <= i < |members| ==> members[i] != [] && ',' !in members[i] && Trim(members[i]) == members[i]
    ensures SplitMembers(Join(members, ",")) == members
  {
    JavaSplitJoinNonEmpty(members, ',');
    assert "," == [','];
    if members == [] {
      assert JavaSplit([], ',') == [[]];
    } else {
      TrimmedMembersKeep(members);
    }
  }

  lemma {:induction false} TrimmedMembersKeep(parts: seq<string>)
    requires forall i :: 0 <= i < |parts| ==> parts[i] != [] && Trim(parts[i]) == parts[i]
    ensures TrimmedMembers(parts) == parts
  {
    if |parts| > 0 {
      TrimmedMembersKeep(parts[1..]);
      assert parts == [parts[0]] + parts[1..];
    }
  }
}
