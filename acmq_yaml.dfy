/**
 * The role ledger (`AcmqYamlService`): the hieradata file that lists the
 * broker's users under `icc_artemis_broker::artemis_users_properties_users`
 * and its groups, each with a comma-separated member list, under
 * `icc_artemis_broker::artemis_roles_properties_roles`. A request adds its
 * producers, consumers and subscribers as users (each new user also gets a
 * personal group), merges them into the `<prefix>-admin`, `-read` and
 * `-write` groups, and the two sections are written back in place.
 */
module AcmqYaml {
  import opened Wrappers
  import opened Text
  import opened OrderedSet
  import opened Identifiers
  import opened Request

  /** The Hiera namespace of both ledger keys. */
  const KeyNamespace: string := "icc_artemis_broker::"
  const UsersKey: string := KeyNamespace + "artemis_users_properties_users"
  const RolesKey: string := KeyNamespace + "artemis_roles_properties_roles"

  /** One entry of the roles section: a group and its comma-separated members. */
  datatype RoleEntry = RoleEntry(group: string, users: string)

  /** Which of the two sections a pattern is about. */
  datatype Section = UsersSectionKind | RolesSectionKind

  function KeyOf(sec: Section): string {
    match sec
    case UsersSectionKind => UsersKey
    case RolesSectionKind => RolesKey
  }

  // ---------------------------------------------------------------------
  // The section patterns, each matched at the start of the text it is given
  // ---------------------------------------------------------------------

  /**
   * `KEY:\s*\n` followed by a first item that starts with `\s+`: the greedy
   * `\s*` backs off to the last newline of the whitespace run after the
   * colon that still leaves the item at least one whitespace char; the
   * header ends just after that newline. (Backing off further cannot help:
   * the item's `\s+` then reaches the same end of the run.)
   */
  function HeaderLen(t: string, key: string): (r: Option<nat>)
    ensures r.Some? ==> |key| + 1 < r.value < |t| && t[r.value - 1] == '\n' && IsSpace(t[r.value])
  {
    if !StartsAt(t, key + ":", 0) then None
    else
      var w := WsEnd(t, |key| + 1);
      WsEndSpaces(t, |key| + 1);
      if w < |key| + 2 then None
      else match LastCharIn(t, '\n', |key| + 1, w - 1)
        case None => None
        case Some(j) => Some(j + 1)
  }

  /**
   * One repetition of `\s+-\s+'[^']*'\s*\n` at the start of `t` and its
   * length. Every `\s+` and `[^']*` here is followed by a char it cannot
   * match, so each is maximal; the closing `\s*\n` ends after the last
   * newline of its run, since the enclosing loop may stop after any
   * repetition.
   */
  function UserItemLen(t: string): (r: Option<nat>)
    ensures r.Some? ==> 0 < r.value <= |t|
  {
    var e1 := WsEnd(t, 0);
    if e1 == 0 || e1 == |t| || t[e1] != '-' then None
    else
      var e2 := WsEnd(t, e1 + 1);
      if e2 == e1 + 1 || e2 == |t| || t[e2] != '\'' then None
      else match FindCharIn(t, '\'', e2 + 1, |t|)
        case None => None
        case Some(q) =>
          match LastCharIn(t, '\n', q + 1, WsEnd(t, q + 1))
          case None => None
          case Some(k) => Some(k + 1)
  }

  /**
   * One repetition of `\s+-\s+group:.*\n\s+users:.*\n`. A greedy `.*` stops
   * at the first line terminator, which must be the '\n' that follows.
   */
  function RoleItemLen(t: string): (r: Option<nat>)
    ensures r.Some? ==> 0 < r.value <= |t|
  {
    var e1 := WsEnd(t, 0);
    if e1 == 0 || e1 == |t| || t[e1] != '-' then None
    else
      var e2 := WsEnd(t, e1 + 1);
      if e2 == e1 + 1 || !StartsAt(t, "group:", e2) then None
      else match LineTerminatorFrom(t, e2 + 6)
        case None => None
        case Some(n1) => if t[n1] != '\n' then None else RoleUsersLineLen(t, n1)
  }

  /** The `\s+users:.*\n` rest of a roles item, after the group line's newline at `n1`. */
  function RoleUsersLineLen(t: string, n1: nat): (r: Option<nat>)
    requires n1 < |t|
    ensures r.Some? ==> n1 < r.value <= |t|
  {
    var e3 := WsEnd(t, n1 + 1);
    if e3 == n1 + 1 || !StartsAt(t, "users:", e3) then None
    else match LineTerminatorFrom(t, e3 + 6)
      case None => None
      case Some(n2) => if t[n2] != '\n' then None else Some(n2 + 1)
  }

  function ItemLen(t: string, sec: Section): (r: Option<nat>)
    ensures r.Some? ==> 0 < r.value <= |t|
  {
    match sec
    case UsersSectionKind => UserItemLen(t)
    case RolesSectionKind => RoleItemLen(t)
  }

  /** The greedy `(...)+` loop: as many repetitions as match one after another. */
  function ItemsLen(t: string, sec: Section): (r: nat)
    decreases |t|
    ensures r <= |t|
  {
    match ItemLen(t, sec)
    case None => 0
    case Some(n) => n + ItemsLen(t[n..], sec)
  }

  /** The section pattern at the start of `t`: where group 1 starts and where the match ends. */
  function SectionMatch(t: string, sec: Section): (r: Option<(nat, nat)>)
    ensures r.Some? ==> 0 < r.value.0 < r.value.1 <= |t|
  {
    match HeaderLen(t, KeyOf(sec))
    case None => None
    case Some(g) =>
      var n := ItemsLen(t[g..], sec);
      if n == 0 then None else Some((g, g + n))
  }

  /** The section pattern at position `q` of `s`. */
  function SectionMatchAt(s: string, sec: Section): nat -> Option<(nat, nat)> {
    (q: nat) => if q <= |s| then SectionMatch(s[q..], sec) else None
  }

  /** `matcher.find()`: the first match, as its start, group 1 start and end. */
  function FindSection(s: string, sec: Section): (r: Option<(nat, nat, nat)>)
    ensures r.Some? ==> r.value.0 < r.value.1 < r.value.2 <= |s|
  {
    match FirstMatch(s, 0, SectionMatchAt(s, sec))
    case None => None
    case Some((p, m)) => Some((p, p + m.0, p + m.1))
  }

  // ---------------------------------------------------------------------
  // The per-entry patterns, applied with a find() loop to group 1
  // ---------------------------------------------------------------------

  /** `-\s+'([^']*)'` at the start of `t`: the captured user and the match length. */
  function QuotedUserAt(t: string): (r: Option<(string, nat)>)
    ensures r.Some? ==> 0 < r.value.1 <= |t|
  {
    if |t| == 0 || t[0] != '-' then None
    else
      var e := WsEnd(t, 1);
      if e == 1 || e == |t| || t[e] != '\'' then None
      else match FindCharIn(t, '\'', e + 1, |t|)
        case None => None
        case Some(q) => Some((t[e + 1..q], q + 1))
  }

  /** `while (userMatcher.find()) users.add(group(1))`. */
  function QuotedUsers(t: string): seq<string>
    decreases |t|
  {
    if |t| == 0 then []
    else match QuotedUserAt(t)
      case None => QuotedUsers(t[1..])
      case Some((v, n)) => [v] + QuotedUsers(t[n..])
  }

  /**
   * `-\s+group:\s+'([^']*)'\s*\n\s+users:\s+'([^']*)'` at the start of `t`.
   * Between the two quoted values the whitespace run must hold a newline
   * that leaves at least one whitespace char before `users:`.
   */
  function QuotedRoleAt(t: string): (r: Option<(RoleEntry, nat)>)
    ensures r.Some? ==> 0 < r.value.1 <= |t|
  {
    if |t| == 0 || t[0] != '-' then None
    else
      var e := WsEnd(t, 1);
      if e == 1 || !StartsAt(t, "group:", e) then None
      else
        var f := WsEnd(t, e + 6);
        if f == e + 6 || f == |t| || t[f] != '\'' then None
        else match FindCharIn(t, '\'', f + 1, |t|)
          case None => None
          case Some(q1) => QuotedRoleUsers(t, t[f + 1..q1], q1)
  }

  /** The `\s*\n\s+users:\s+'([^']*)'` rest of a roles entry, after the group's closing quote at `q1`. */
  function QuotedRoleUsers(t: string, group: string, q1: nat): (r: Option<(RoleEntry, nat)>)
    requires q1 < |t|
    ensures r.Some? ==> q1 < r.value.1 <= |t|
  {
    var w := WsEnd(t, q1 + 1);
    if w < q1 + 2 || !StartsAt(t, "users:", w) || FindCharIn(t, '\n', q1 + 1, w - 1).None? then None
    else
      var h := WsEnd(t, w + 6);
      if h == w + 6 || h == |t| || t[h] != '\'' then None
      else match FindCharIn(t, '\'', h + 1, |t|)
        case None => None
        case Some(q2) => Some((RoleEntry(group, t[h + 1..q2]), q2 + 1))
  }

  /** `while (roleMatcher.find()) roles.add(new RoleEntry(group(1), group(2)))`. */
  function QuotedRoles(t: string): seq<RoleEntry>
    decreases |t|
  {
    if |t| == 0 then []
    else match QuotedRoleAt(t)
      case None => QuotedRoles(t[1..])
      case Some((v, n)) => [v] + QuotedRoles(t[n..])
  }

  /** `extractUsersList`: the users of the first users section, or none. */
  function ExtractUsersList(content: string): seq<string> {
    match FindSection(content, UsersSectionKind)
    case None => []
    case Some((_, g, e)) => QuotedUsers(content[g..e])
  }

  /** `extractRolesList`: the entries of the first roles section, or none. */
  function ExtractRolesList(content: string): seq<RoleEntry> {
    match FindSection(content, RolesSectionKind)
    case None => []
    case Some((_, g, e)) => QuotedRoles(content[g..e])
  }

  // ---------------------------------------------------------------------
  // Serialisation and section replacement
  // ---------------------------------------------------------------------

  function UserLine(u: string): string {
    "  - '" + u + "'\n"
  }

  function UserLines(users: seq<string>): string {
    if |users| == 0 then [] else UserLine(users[0]) + UserLines(users[1..])
  }

  /** The rewritten users section: the key, one line per user, one blank line. */
  function UsersSection(users: seq<string>): string {
    UsersKey + ":\n" + UserLines(users) + "\n"
  }

  function RoleLine(e: RoleEntry): string {
    "  - group: '" + e.group + "'\n" + "    users: '" + e.users + "'\n"
  }

  function RoleLines(roles: seq<RoleEntry>): string {
    if |roles| == 0 then [] else RoleLine(roles[0]) + RoleLines(roles[1..])
  }

  /** The rewritten roles section: the key and a `group:`/`users:` pair per entry. */
  function RolesSection(roles: seq<RoleEntry>): string {
    RolesKey + ":\n" + RoleLines(roles)
  }

  /** Splices `section` over the first match of `sec`, or appends it under `comment`. */
  function ReplaceSection(content: string, sec: Section, section: string, comment: string): string {
    match FindSection(content, sec)
    case Some((p, _, e)) => content[..p] + section + content[e..]
    case None => content + comment + section
  }

  /** `replaceUsersSection` */
  function ReplaceUsersSection(content: string, users: seq<string>): string {
    ReplaceSection(content, UsersSectionKind, UsersSection(users), "\n# artemis-broker users\n")
  }

  /** `replaceRolesSection` */
  function ReplaceRolesSection(content: string, roles: seq<RoleEntry>): string {
    ReplaceSection(content, RolesSectionKind, RolesSection(roles), "\n# artemis-broker roles\n")
  }

  // ---------------------------------------------------------------------
  // Ledger updates
  // ---------------------------------------------------------------------

  predicate HasGroup(roles: seq<RoleEntry>, group: string) {
    exists i :: 0 <= i < |roles| && roles[i].group == group
  }

  /** `createPersonalGroupIfNotExists`: a group named after the user, holding just the user. */
  function WithPersonalGroup(roles: seq<RoleEntry>, user: string): (r: seq<RoleEntry>)
    ensures roles <= r && HasGroup(r, user)
    ensures |r| == |roles| + (if HasGroup(roles, user) then 0 else 1)
  {
    if HasGroup(roles, user) then roles
    else
      var r := roles + [RoleEntry(user, user)];
      assert r[|roles|].group == user;
      r
  }

  /** The first entry of the group, as `filter(...).findFirst()` finds it. */
  function FirstGroupIndex(roles: seq<RoleEntry>, group: string): (r: Option<nat>)
    ensures r.Some? ==> r.value < |roles| && roles[r.value].group == group
    ensures r.Some? ==> forall j :: 0 <= j < r.value ==> roles[j].group != group
    ensures r.None? <==> !HasGroup(roles, group)
  {
    if |roles| == 0 then None
    else if roles[0].group == group then Some(0)
    else match FirstGroupIndex(roles[1..], group)
      case None => None
      case Some(i) => Some(i + 1)
  }

  /** The members of a group after `usersToAdd` joined it: the old members first, duplicates dropped. */
  function MergedMembers(existing: string, usersToAdd: seq<string>): (r: seq<string>)
    ensures existing != [] ==> Dedup(JavaSplit(existing, ',')) <= r
    ensures forall x :: x in usersToAdd ==> x in r
    ensures forall x :: x in r ==> x in usersToAdd || (existing != [] && x in JavaSplit(existing, ','))
    ensures Distinct(r)
  {
    var kept := if existing != [] then AddAll([], JavaSplit(existing, ',')) else [];
    AddAll(kept, usersToAdd)
  }

  /** `updateOrCreateRole`: rewrite the first entry of the group, or append a new entry. */
  function UpdatedRoles(roles: seq<RoleEntry>, group: string, usersToAdd: seq<string>): seq<RoleEntry> {
    match FirstGroupIndex(roles, group)
    case Some(i) => roles[i := RoleEntry(group, Join(MergedMembers(roles[i].users, usersToAdd), ","))]
    case None => roles + [RoleEntry(group, Join(usersToAdd, ","))]
  }

  /** The users and roles lists of the ledger while it is being updated. */
  datatype LedgerState = LedgerState(users: seq<string>, roles: seq<RoleEntry>)

  /** The loop over the candidates: each one not yet a user is appended and gets a personal group. */
  function AddCandidates(st: LedgerState, candidates: seq<string>): LedgerState
    decreases |candidates|
  {
    if |candidates| == 0 then st
    else
      var prev := AddCandidates(st, candidates[..|candidates| - 1]);
      var u := candidates[|candidates| - 1];
      if u in prev.users then prev
      else LedgerState(prev.users + [u], WithPersonalGroup(prev.roles, u))
  }

  /** The subscriber of each subscription, in list order. */
  function SubscriberNames(subs: seq<Subscription>): (r: seq<string>)
    ensures |r| == |subs| && forall i :: 0 <= i < |subs| ==> r[i] == subs[i].subscriber
  {
    seq(|subs|, i requires 0 <= i < |subs| => subs[i].subscriber)
  }

  /** The distinct non-empty subscribers of `subs`, in first-seen order. */
  function SubscriberSet(subs: seq<Subscription>): (r: seq<string>)
    ensures Distinct(r)
    ensures forall x :: x in r <==> x != [] && x in SubscriberNames(subs)
  {
    if |subs| == 0 then []
    else
      var prev := SubscriberSet(subs[..|subs| - 1]);
      var s := subs[|subs| - 1].subscriber;
      assert SubscriberNames(subs) == SubscriberNames(subs[..|subs| - 1]) + [s];
      if s != [] then Add(prev, s) else prev
  }

  /** One more subscription adds its subscriber, unless it is empty. */
  lemma SubscriberSetStep(subs: seq<Subscription>, i: nat)
    requires i < |subs|
    ensures SubscriberSet(subs[..i + 1])
      == if subs[i].subscriber != [] then Add(SubscriberSet(subs[..i]), subs[i].subscriber) else SubscriberSet(subs[..i])
  {
    assert subs[..i + 1][..i] == subs[..i];
  }

  /**
   * `extractSubscribers`: the subscribers of the new subscriptions; when
   * none is new but the list is not empty, those of every subscription.
   */
  function Subscribers(request: ProvisionRequest): seq<string> {
    if HasNewSubscriptions(request) then SubscriberSet(NewSubscriptions(request))
    else if request.subscriptions.Some? && |request.subscriptions.value| > 0 then SubscriberSet(request.subscriptions.value)
    else []
  }

  /** The `newUsers` set: producers, then consumers, then subscribers. */
  function CandidateUsers(request: ProvisionRequest, subscribers: seq<string>): seq<string> {
    AddAll(AddAll(AddAll([], OrEmpty(request.producers)), OrEmpty(request.consumers)), subscribers)
  }

  /** The `readUsers` set: consumers (when non-empty), then subscribers. */
  function ReadUsers(request: ProvisionRequest, subscribers: seq<string>): seq<string> {
    AddAll(if NonEmpty(request.consumers) then Dedup(request.consumers.value) else [], subscribers)
  }

  /** `updateRoleGroups`: the admin group always, the read and write groups when they get members. */
  function RoleGroups(roles: seq<RoleEntry>, prefix: string, request: ProvisionRequest, subscribers: seq<string>): seq<RoleEntry> {
    var r1 := UpdatedRoles(roles, prefix + "-admin", ["admin"]);
    var read := ReadUsers(request, subscribers);
    var r2 := if |read| > 0 then UpdatedRoles(r1, prefix + "-read", read) else r1;
    if NonEmpty(request.producers) then UpdatedRoles(r2, prefix + "-write", Dedup(request.producers.value)) else r2
  }

  /** `updateAcmqYaml`, as a function of the file and the request. */
  function UpdatedAcmqYaml(existing: string, request: ProvisionRequest): Result<string> {
    if IsBlank(existing) then Failure("Existing acmq.yaml content cannot be empty")
    else
      var subscribers := Subscribers(request);
      var st := AddCandidates(LedgerState(ExtractUsersList(existing), ExtractRolesList(existing)),
                              CandidateUsers(request, subscribers));
      var roles := RoleGroups(st.roles, NamespacePrefix(request.name), request, subscribers);
      Success(ReplaceRolesSection(ReplaceUsersSection(existing, st.users), roles))
  }

  /** The members the first entry of `group` lists, as `split(",")` reads them; none for an empty list. */
  function Members(roles: seq<RoleEntry>, group: string): seq<string> {
    match FirstGroupIndex(roles, group)
    case None => []
    case Some(i) => if roles[i].users == [] then [] else JavaSplit(roles[i].users, ',')
  }

  // ---------------------------------------------------------------------
  // Properties of the ledger updates
  // ---------------------------------------------------------------------

  /** The candidate loop appends exactly the candidates that are not users yet, in order, once each. */
  lemma {:induction false} AddCandidatesUsers(st: LedgerState, candidates: seq<string>)
    decreases |candidates|
    ensures AddCandidates(st, candidates).users == AddAll(st.users, candidates)
  {
    if |candidates| > 0 {
      AddCandidatesUsers(st, candidates[..|candidates| - 1]);
    }
  }

  /**
   * The candidate loop only appends roles, each one the personal group of a
   * user it added, and every user it added has a group.
   */
  lemma {:induction false} AddCandidatesRoles(st: LedgerState, candidates: seq<string>)
    decreases |candidates|
    ensures st.roles <= AddCandidates(st, candidates).roles
    ensures forall i :: |st.roles| <= i < |AddCandidates(st, candidates).roles| ==>
      AddCandidates(st, candidates).roles[i].group == AddCandidates(st, candidates).roles[i].users
      && AddCandidates(st, candidates).roles[i].group in candidates
      && AddCandidates(st, candidates).roles[i].group !in st.users
    ensures forall u :: u in AddCandidates(st, candidates).users && u !in st.users ==>
      HasGroup(AddCandidates(st, candidates).roles, u)
  {
    if |candidates| > 0 {
      var init := candidates[..|candidates| - 1];
      var u := candidates[|candidates| - 1];
      var prev := AddCandidates(st, init);
      AddCandidatesRoles(st, init);
      AddCandidatesUsers(st, init);
      if u !in prev.users {
        var next := AddCandidates(st, candidates);
        assert next.roles == WithPersonalGroup(prev.roles, u);
        forall v | v in next.users && v !in st.users
          ensures HasGroup(next.roles, v)
        {
          if v != u {
            var j :| 0 <= j < |prev.roles| && prev.roles[j].group == v;
            assert next.roles[j].group == v;
          }
        }
        forall i | |st.roles| <= i < |next.roles|
          ensures next.roles[i].group == next.roles[i].users && next.roles[i].group in candidates
          ensures next.roles[i].group !in st.users
        {
          if i < |prev.roles| {
            assert next.roles[i] == prev.roles[i];
            assert prev.roles[i].group in init;
          }
        }
      }
    }
  }

  /** A list whose group names agree with `roles` on its prefix and add no `group` entry finds the same first entry. */
  lemma {:induction false} FirstGroupIndexSameGroups(roles: seq<RoleEntry>, other: seq<RoleEntry>, group: string)
    requires |roles| <= |other|
    requires forall i :: 0 <= i < |roles| ==> other[i].group == roles[i].group
    requires HasGroup(roles, group) || forall i :: |roles| <= i < |other| ==> other[i].group != group
    ensures FirstGroupIndex(other, group) == FirstGroupIndex(roles, group)
  {
    if |roles| > 0 && roles[0].group != group {
      FirstGroupIndexSameGroups(roles[1..], other[1..], group);
    } else if |roles| == 0 && |other| > 0 {
      assert other[0].group != group;
      FirstGroupIndexSameGroups(roles, other[1..], group);
    }
  }

  /**
   * `updateOrCreateRole` keeps every group name, changes at most the first
   * entry of its group and otherwise appends one entry for the group.
   */
  lemma UpdatedRolesFrame(roles: seq<RoleEntry>, group: string, usersToAdd: seq<string>)
    ensures |UpdatedRoles(roles, group, usersToAdd)| == |roles| + (if HasGroup(roles, group) then 0 else 1)
    ensures forall i :: 0 <= i < |UpdatedRoles(roles, group, usersToAdd)| ==>
      UpdatedRoles(roles, group, usersToAdd)[i].group == if i < |roles| then roles[i].group else group
    ensures forall i :: 0 <= i < |roles| && UpdatedRoles(roles, group, usersToAdd)[i] != roles[i] ==>
      FirstGroupIndex(roles, group) == Some(i)
    ensures HasGroup(UpdatedRoles(roles, group, usersToAdd), group)
  {
    var r := UpdatedRoles(roles, group, usersToAdd);
    match FirstGroupIndex(roles, group)
    case Some(i) =>
      assert r[i].group == group;
    case None =>
      assert r[|roles|].group == group;
  }

  /** Updating one group leaves the members of every other group as they were. */
  lemma MembersFrame(roles: seq<RoleEntry>, updated: string, usersToAdd: seq<string>, group: string)
    requires updated != group
    ensures Members(UpdatedRoles(roles, updated, usersToAdd), group) == Members(roles, group)
    ensures HasGroup(UpdatedRoles(roles, updated, usersToAdd), group) <==> HasGroup(roles, group)
  {
    var r := UpdatedRoles(roles, updated, usersToAdd);
    UpdatedRolesFrame(roles, updated, usersToAdd);
    FirstGroupIndexSameGroups(roles, r, group);
  }

  /**
   * After `updateOrCreateRole` the group lists the users it already had,
   * duplicates dropped and in their order, followed by the users to add
   * that were not members yet.
   */
  lemma UpdatedRolesMembers(roles: seq<RoleEntry>, group: string, usersToAdd: seq<string>)
    requires Distinct(usersToAdd)
    requires forall x :: x in usersToAdd ==> x != [] && ',' !in x
    requires forall x :: x in Members(roles, group) ==> x != []
    ensures Members(UpdatedRoles(roles, group, usersToAdd), group) == AddAll(Dedup(Members(roles, group)), usersToAdd)
  {
    var found := FirstGroupIndex(roles, group);
    if found.Some? {
      UpdatedRolesMembersAt(roles, group, usersToAdd, found.value);
    } else {
      UpdatedRolesMembersAppended(roles, group, usersToAdd);
    }
  }

  /** The rewritten entry holds the old members, deduplicated, then the new users. */
  lemma UpdatedRolesMembersAt(roles: seq<RoleEntry>, group: string, usersToAdd: seq<string>, i: nat)
    requires FirstGroupIndex(roles, group) == Some(i)
    requires forall x :: x in usersToAdd ==> x != [] && ',' !in x
    requires forall x :: x in Members(roles, group) ==> x != []
    ensures Members(UpdatedRoles(roles, group, usersToAdd), group) == AddAll(Dedup(Members(roles, group)), usersToAdd)
  {
    var r := UpdatedRoles(roles, group, usersToAdd);
    UpdatedRolesFrame(roles, group, usersToAdd);
    assert "," == [','];
    var merged := MergedMembers(roles[i].users, usersToAdd);
    FirstGroupIndexSameGroups(roles, r, group);
    assert r[i].users == Join(merged, ",");
    forall k | 0 <= k < |merged|
      ensures merged[k] != [] && ',' !in merged[k]
    {
      var x := merged[k];
      if x !in usersToAdd {
        assert x in Members(roles, group);
        var parts := JavaSplit(roles[i].users, ',');
        var j :| 0 <= j < |parts| && parts[j] == x;
      }
    }
    JavaSplitJoinNonEmpty(merged, ',');
  }

  /** The appended entry holds exactly the new users. */
  lemma UpdatedRolesMembersAppended(roles: seq<RoleEntry>, group: string, usersToAdd: seq<string>)
    requires FirstGroupIndex(roles, group).None?
    requires Distinct(usersToAdd)
    requires forall x :: x in usersToAdd ==> x != [] && ',' !in x
    ensures Members(UpdatedRoles(roles, group, usersToAdd), group) == AddAll(Dedup(Members(roles, group)), usersToAdd)
  {
    var r := UpdatedRoles(roles, group, usersToAdd);
    UpdatedRolesFrame(roles, group, usersToAdd);
    assert "," == [','];
    DedupDistinct(usersToAdd);
    assert FirstGroupIndex(r, group) == Some(|roles|) by {
      assert r[|roles|].group == group;
    }
    JavaSplitJoinNonEmpty(usersToAdd, ',');
  }

  /** Every comma-free, non-empty user passed to `updateOrCreateRole` is a member afterwards. */
  lemma UpdatedRolesContains(roles: seq<RoleEntry>, group: string, usersToAdd: seq<string>, x: string)
    requires forall y :: y in usersToAdd ==> ',' !in y
    requires x in usersToAdd && x != []
    ensures x in Members(UpdatedRoles(roles, group, usersToAdd), group)
  {
    var r := UpdatedRoles(roles, group, usersToAdd);
    UpdatedRolesFrame(roles, group, usersToAdd);
    assert "," == [','];
    match FirstGroupIndex(roles, group)
    case Some(i) =>
      var merged := MergedMembers(roles[i].users, usersToAdd);
      FirstGroupIndexSameGroups(roles, r, group);
      JoinedElementSurvivesSplit(merged, ',', x);
    case None =>
      assert FirstGroupIndex(r, group) == Some(|roles|) by {
        assert r[|roles|].group == group;
      }
      JoinedElementSurvivesSplit(usersToAdd, ',', x);
  }

  /**
   * Group maintenance for a namespace prefix: `<prefix>-admin` ends up
   * listing `admin`; `<prefix>-read` changes only when consumers or
   * subscribers are given and then lists them; `<prefix>-write` changes
   * only when producers are given and then lists them; no other group changes.
   */
  lemma RoleGroupsSpec(roles: seq<RoleEntry>, prefix: string, request: ProvisionRequest, subscribers: seq<string>)
    requires forall x :: x in OrEmpty(request.consumers) + OrEmpty(request.producers) + subscribers ==> ',' !in x
    ensures "admin" in Members(RoleGroups(roles, prefix, request, subscribers), prefix + "-admin")
    ensures |ReadUsers(request, subscribers)| == 0 ==>
      Members(RoleGroups(roles, prefix, request, subscribers), prefix + "-read") == Members(roles, prefix + "-read")
      && (HasGroup(RoleGroups(roles, prefix, request, subscribers), prefix + "-read") <==> HasGroup(roles, prefix + "-read"))
    ensures forall x :: x in ReadUsers(request, subscribers) && x != [] ==>
      x in Members(RoleGroups(roles, prefix, request, subscribers), prefix + "-read")
    ensures !NonEmpty(request.producers) ==>
      Members(RoleGroups(roles, prefix, request, subscribers), prefix + "-write") == Members(roles, prefix + "-write")
      && (HasGroup(RoleGroups(roles, prefix, request, subscribers), prefix + "-write") <==> HasGroup(roles, prefix + "-write"))
    ensures NonEmpty(request.producers) ==> forall x :: x in request.producers.value && x != [] ==>
      x in Members(RoleGroups(roles, prefix, request, subscribers), prefix + "-write")
    ensures forall g :: g != prefix + "-admin" && g != prefix + "-read" && g != prefix + "-write" ==>
      Members(RoleGroups(roles, prefix, request, subscribers), g) == Members(roles, g)
  {
    var admin, read, write := prefix + "-admin", prefix + "-read", prefix + "-write";
    assert admin != read && admin != write && read != write by {
      assert |admin| == |prefix| + 6 && |read| == |prefix| + 5 && |write| == |prefix| + 6;
      assert admin[|prefix| + 1] == 'a' && write[|prefix| + 1] == 'w';
    }
    var r1 := UpdatedRoles(roles, admin, ["admin"]);
    var readUsers := ReadUsers(request, subscribers);
    var r2 := if |readUsers| > 0 then UpdatedRoles(r1, read, readUsers) else r1;
    var r3 := RoleGroups(roles, prefix, request, subscribers);
    UpdatedRolesContains(roles, admin, ["admin"], "admin");
    MembersFrame(roles, admin, ["admin"], read);
    MembersFrame(roles, admin, ["admin"], write);
    if |readUsers| > 0 {
      MembersFrame(r1, read, readUsers, admin);
      MembersFrame(r1, read, readUsers, write);
      forall x | x in readUsers && x != []
        ensures x in Members(r2, read)
      {
        UpdatedRolesContains(r1, read, readUsers, x);
      }
    }
    if NonEmpty(request.producers) {
      var producers := Dedup(request.producers.value);
      MembersFrame(r2, write, producers, admin);
      MembersFrame(r2, write, producers, read);
      forall x | x in request.producers.value && x != []
        ensures x in Members(r3, write)
      {
        UpdatedRolesContains(r2, write, producers, x);
      }
    }
    forall g | g != admin && g != read && g != write
      ensures Members(r3, g) == Members(roles, g)
    {
      MembersFrame(roles, admin, ["admin"], g);
      if |readUsers| > 0 {
        MembersFrame(r1, read, readUsers, g);
      }
      if NonEmpty(request.producers) {
        MembersFrame(r2, write, Dedup(request.producers.value), g);
      }
    }
  }

  /** The `newUsers` set lists producers, then consumers, then subscribers, each once. */
  lemma CandidateUsersOrder(request: ProvisionRequest, subscribers: seq<string>)
    ensures Distinct(CandidateUsers(request, subscribers))
    ensures Dedup(OrEmpty(request.producers)) <= CandidateUsers(request, subscribers)
    ensures forall x :: x in CandidateUsers(request, subscribers) <==>
      x in OrEmpty(request.producers) || x in OrEmpty(request.consumers) || x in subscribers
    ensures forall i :: |AddAll(Dedup(OrEmpty(request.producers)), OrEmpty(request.consumers))| <= i < |CandidateUsers(request, subscribers)| ==>
      CandidateUsers(request, subscribers)[i] in subscribers
  {
  }

  // ---------------------------------------------------------------------
  // The imperative update
  // ---------------------------------------------------------------------

  /** The users and roles lists that `updateAcmqYaml` fills and its helpers mutate. */
  class Ledger {
    var users: seq<string>
    var roles: seq<RoleEntry>

    constructor (users0: seq<string>, roles0: seq<RoleEntry>)
      ensures users == users0 && roles == roles0
    {
      users := users0;
      roles := roles0;
    }

    function State(): LedgerState
      reads this
    {
      LedgerState(users, roles)
    }

    /** `users.add(user)` */
    method AddUser(user: string)
      modifies this
      ensures users == old(users) + [user] && roles == old(roles)
    {
      users := users + [user];
    }

    /** `createPersonalGroupIfNotExists(roles, user)` */
    method CreatePersonalGroupIfNotExists(user: string)
      modifies this
      ensures users == old(users) && roles == WithPersonalGroup(old(roles), user)
    {
      if !HasGroup(roles, user) {
        roles := roles + [RoleEntry(user, user)];
      }
    }

    /** The loop of `updateAcmqYaml` over the candidates: a new user is added with a personal group. */
    method AddCandidateUsers(candidates: seq<string>)
      modifies this
      ensures State() == AddCandidates(old(State()), candidates)
    {
      ghost var start := State();
      var i := 0;
      while i < |candidates|
        invariant 0 <= i <= |candidates|
        invariant State() == AddCandidates(start, candidates[..i])
      {
        var user := candidates[i];
        if user !in users {
          AddUser(user);
          CreatePersonalGroupIfNotExists(user);
        }
        assert candidates[..i + 1][..i] == candidates[..i];
        i := i + 1;
      }
      assert candidates[..|candidates|] == candidates;
    }

    /** `updateOrCreateRole(roles, groupName, usersToAdd)`: the entry's member list is overwritten in place. */
    method UpdateOrCreateRole(groupName: string, usersToAdd: seq<string>)
      modifies this
      ensures users == old(users) && roles == UpdatedRoles(old(roles), groupName, usersToAdd)
    {
      var existing := FirstGroupIndex(roles, groupName);
      if existing.Some? {
        var i := existing.value;
        var userSet: seq<string> := [];
        if roles[i].users != [] {
          userSet := AddAll(userSet, JavaSplit(roles[i].users, ','));
        }
        userSet := AddAll(userSet, usersToAdd);
        roles := roles[i := RoleEntry(groupName, Join(userSet, ","))];
      } else {
        roles := roles + [RoleEntry(groupName, Join(usersToAdd, ","))];
      }
    }

    /** `updateRoleGroups(roles, queuePrefix, request, subscribers)` */
    method UpdateRoleGroups(prefix: string, request: ProvisionRequest, subscribers: seq<string>)
      modifies this
      ensures users == old(users) && roles == RoleGroups(old(roles), prefix, request, subscribers)
    {
      UpdateOrCreateRole(prefix + "-admin", ["admin"]);
      var readUsers: seq<string> := [];
      if NonEmpty(request.consumers) {
        readUsers := AddAll(readUsers, request.consumers.value);
      }
      readUsers := AddAll(readUsers, subscribers);
      if |readUsers| > 0 {
        UpdateOrCreateRole(prefix + "-read", readUsers);
      }
      if NonEmpty(request.producers) {
        UpdateOrCreateRole(prefix + "-write", AddAll([], request.producers.value));
      }
    }
  }

  /** `extractSubscribers(request)` */
  method ExtractSubscribers(request: ProvisionRequest) returns (subscribers: seq<string>)
    ensures subscribers == Subscribers(request)
  {
    var subs: seq<Subscription> := [];
    if HasNewSubscriptions(request) {
      subs := NewSubscriptions(request);
    } else if request.subscriptions.Some? && |request.subscriptions.value| > 0 {
      subs := request.subscriptions.value;
    }
    subscribers := [];
    var i := 0;
    while i < |subs|
      invariant 0 <= i <= |subs|
      invariant subscribers == SubscriberSet(subs[..i])
    {
      SubscriberSetStep(subs, i);
      if subs[i].subscriber != [] {
        subscribers := Add(subscribers, subs[i].subscriber);
      }
      i := i + 1;
    }
    assert subs[..|subs|] == subs;
  }

  lemma {:induction false} UserLinesAppend(a: seq<string>, b: seq<string>)
    ensures UserLines(a + b) == UserLines(a) + UserLines(b)
  {
    if |a| > 0 {
      assert (a + b)[1..] == a[1..] + b;
      UserLinesAppend(a[1..], b);
    } else {
      assert a + b == b;
    }
  }

  lemma {:induction false} RoleLinesAppend(a: seq<RoleEntry>, b: seq<RoleEntry>)
    ensures RoleLines(a + b) == RoleLines(a) + RoleLines(b)
  {
    if |a| > 0 {
      assert (a + b)[1..] == a[1..] + b;
      RoleLinesAppend(a[1..], b);
    } else {
      assert a + b == b;
    }
  }

  /** The StringBuilder loop of `replaceUsersSection`. */
  method BuildUsersSection(users: seq<string>) returns (section: string)
    ensures section == UsersSection(users)
  {
    var lines: string := [];
    var i := 0;
    while i < |users|
      invariant 0 <= i <= |users|
      invariant lines == UserLines(users[..i])
    {
      UserLinesAppend(users[..i], [users[i]]);
      assert users[..i + 1] == users[..i] + [users[i]];
      lines := lines + UserLine(users[i]);
      i := i + 1;
    }
    assert users[..|users|] == users;
    section := UsersKey + ":\n" + lines + "\n";
  }

  /** The StringBuilder loop of `replaceRolesSection`. */
  method BuildRolesSection(roles: seq<RoleEntry>) returns (section: string)
    ensures section == RolesSection(roles)
  {
    var lines: string := [];
    var i := 0;
    while i < |roles|
      invariant 0 <= i <= |roles|
      invariant lines == RoleLines(roles[..i])
    {
      RoleLinesAppend(roles[..i], [roles[i]]);
      assert roles[..i + 1] == roles[..i] + [roles[i]];
      lines := lines + RoleLine(roles[i]);
      i := i + 1;
    }
    assert roles[..|roles|] == roles;
    section := RolesKey + ":\n" + lines;
  }

  /**
   * `updateAcmqYaml`: blank content is rejected; otherwise the candidates
   * are added to the ledger one by one, the namespace groups are updated
   * and both sections are written back.
   */
  method UpdateAcmqYaml(existingContent: string, request: ProvisionRequest) returns (r: Result<string>)
    ensures r.Failure? <==> IsBlank(existingContent)
    ensures r == UpdatedAcmqYaml(existingContent, request)
  {
    if IsBlank(existingContent) {
      return Failure("Existing acmq.yaml content cannot be empty");
    }
    var ledger := new Ledger(ExtractUsersList(existingContent), ExtractRolesList(existingContent));
    var queuePrefix := NamespacePrefix(request.name);
    var newUsers: seq<string> := [];
    if request.producers.Some? {
      newUsers := AddAll(newUsers, request.producers.value);
    }
    if request.consumers.Some? {
      newUsers := AddAll(newUsers, request.consumers.value);
    }
    var subscribers := ExtractSubscribers(request);
    newUsers := AddAll(newUsers, subscribers);
    assert newUsers == CandidateUsers(request, subscribers);
    ghost var start := ledger.State();
    ledger.AddCandidateUsers(newUsers);
    ghost var st := ledger.State();
    assert st == AddCandidates(start, CandidateUsers(request, subscribers));
    ledger.UpdateRoleGroups(queuePrefix, request, subscribers);
    assert ledger.users == st.users;
    assert ledger.roles == RoleGroups(st.roles, queuePrefix, request, subscribers);
    var usersSection := BuildUsersSection(ledger.users);
    var rolesSection := BuildRolesSection(ledger.roles);
    var updated := ReplaceSection(existingContent, UsersSectionKind, usersSection, "\n# artemis-broker users\n");
    assert updated == ReplaceUsersSection(existingContent, st.users);
    updated := ReplaceSection(updated, RolesSectionKind, rolesSection, "\n# artemis-broker roles\n");
    r := Success(updated);
  }
}
