/**
 * `ConfigParserService.parseQueuesFromBrokerXml` and
 * `parseTopicsFromBrokerXml`: the scanners that read queues and topics
 * back from `broker.xml.erb`. Each `while (matcher.find())` loop is a
 * method proved against a fold over the list of matches the pattern finds
 * (`ResourceSettings`, `SubscriptionSettings`); the folds fill
 * insertion-ordered maps keyed by the address variable.
 */
module ConfigCatalogue {
  import opened Wrappers
  import opened Text
  import opened Identifiers
  import opened OrderedSet
  import opened OrderedMap
  import opened BrokerXml
  import opened ConfigParser

  // ---------------------------------------------------------------------
  // The patterns
  // ---------------------------------------------------------------------

  const MatchOpen: string := "match=\"<%="
  const AddressRef: string := "@address_"
  const MulticastRef: string := "@multicast_"
  /** `%>\.#">`, which closes the match of a whole queue or topic. */
  const WildcardClose: string := "%>.#\">"
  const SubscriptionJoin: string := "%>::<%="
  const SubscriptionClose: string := "%>\">"
  const QueueMarker: string := "_queue_"
  const TopicMarker: string := "_topic_"

  /** `<security-setting\s+match="<%=\s*@address_` at `i`: where the address variable starts. */
  function AddressStart(s: string, i: nat): (r: Option<nat>)
    ensures r.Some? ==> i < r.value <= |s|
  {
    if !SpacedAt(s, i, SettingOpen, MatchOpen) then None
    else
      var w := WsEnd(s, SpacedEnd(s, i, SettingOpen, MatchOpen));
      if StartsAt(s, AddressRef, w) then Some(w + |AddressRef|) else None
  }

  /** Groups 1 (the address variable) and 2 (the body) of a queue or topic match, and where it ends. */
  datatype ResourceSpan = ResourceSpan(varName: string, body: string, end: nat)

  /**
   * `<security-setting\s+match="<%=\s*@address_([a-zA-Z0-9_]*M[a-zA-Z0-9_]*)\s*%>\.#">(.*?)</security-setting>`
   * with DOTALL at `i`, for the marker `M` (`_queue_` or `_topic_`). A
   * word character can follow neither `\s*` nor `%>`, so group 1 is the
   * whole word run after `@address_`; the lazy body stops at the first
   * closing tag.
   */
  function ResourceSettingMatch(s: string, i: nat, marker: string): (r: Option<ResourceSpan>)
    ensures r.Some? ==> i < r.value.end <= |s| && Contains(r.value.varName, marker)
  {
    match AddressStart(s, i)
    case None => None
    case Some(vs) => ResourceBodyMatch(s, vs, WordEnd(s, vs), marker)
  }

  /** The rest of a queue or topic match once group 1 is the run from `vs` to `ve`: `\s*%>\.#">(.*?)</security-setting>`. */
  function ResourceBodyMatch(s: string, vs: nat, ve: nat, marker: string): (r: Option<ResourceSpan>)
    requires vs <= ve <= |s|
    ensures r.Some? ==> ve < r.value.end <= |s| && Contains(r.value.varName, marker)
  {
    var w := WsEnd(s, ve);
    if !Contains(s[vs..ve], marker) || !StartsAt(s, WildcardClose, w) then None
    else
      match IndexOfFrom(s, SettingClose, w + |WildcardClose|)
      case None => None
      case Some(be) => Some(ResourceSpan(s[vs..ve], s[w + |WildcardClose|..be], be + |SettingClose|))
  }

  /** Group 1 of a match is a word. */
  lemma ResourceVarIsWord(s: string, i: nat, marker: string)
    requires ResourceSettingMatch(s, i, marker).Some?
    ensures var v := ResourceSettingMatch(s, i, marker).value.varName;
      forall k :: 0 <= k < |v| ==> IsWordChar(v[k])
  {
    var vs := AddressStart(s, i).value;
    var ve := WordEnd(s, vs);
    assert forall k :: 0 <= k < ve - vs ==> s[vs..ve][k] == s[vs + k];
  }

  function ResourceAt(s: string, marker: string): nat -> Option<ResourceSpan> {
    (i: nat) => ResourceSettingMatch(s, i, marker)
  }

  /**
   * The matches `while (matcher.find())` reports from `from` on, in order:
   * each search resumes where the previous match ended.
   */
  function ResourceSettings(s: string, from: nat, marker: string): seq<ResourceSpan>
    decreases |s| + 1 - from
  {
    match FirstMatch(s, from, ResourceAt(s, marker))
    case None => []
    case Some((i, m)) => [m] + ResourceSettings(s, m.end, marker)
  }

  /** Groups 1 (the topic's variable) and 2 (the multicast variable) of a subscription match, and where it ends. */
  datatype SubscriptionSpan = SubscriptionSpan(topicVar: string, multicastVar: string, end: nat)

  /**
   * `<security-setting\s+match="<%=\s*@address_([a-zA-Z0-9_]+)\s*%>::<%=\s*@multicast_([a-zA-Z0-9_]+)\s*%>">`
   * at `i`; as above, each group is the whole word run and must not be empty.
   */
  function SubscriptionSettingMatch(s: string, i: nat): (r: Option<SubscriptionSpan>)
    ensures r.Some? ==> i < r.value.end <= |s| && r.value.topicVar != [] && r.value.multicastVar != []
  {
    match AddressStart(s, i)
    case None => None
    case Some(vs) => MulticastMatch(s, vs, WordEnd(s, vs))
  }

  /** The rest of a subscription match once group 1 is the run from `vs` to `ve`: `\s*%>::<%=\s*@multicast_(\w+)\s*%>">`. */
  function MulticastMatch(s: string, vs: nat, ve: nat): (r: Option<SubscriptionSpan>)
    requires vs <= ve <= |s|
    ensures r.Some? ==> ve < r.value.end <= |s| && r.value.topicVar != [] && r.value.multicastVar != []
  {
    var w := WsEnd(s, ve);
    if ve == vs || !StartsAt(s, SubscriptionJoin, w) then None
    else
      var w2 := WsEnd(s, w + |SubscriptionJoin|);
      if !StartsAt(s, MulticastRef, w2) then None
      else
        var ms := w2 + |MulticastRef|;
        var me := WordEnd(s, ms);
        var w3 := WsEnd(s, me);
        if me == ms || !StartsAt(s, SubscriptionClose, w3) then None
        else Some(SubscriptionSpan(s[vs..ve], s[ms..me], w3 + |SubscriptionClose|))
  }

  function SubscriptionAt(s: string): nat -> Option<SubscriptionSpan> {
    (i: nat) => SubscriptionSettingMatch(s, i)
  }

  /** The subscription matches from `from` on, in order. */
  function SubscriptionSettings(s: string, from: nat): seq<SubscriptionSpan>
    decreases |s| + 1 - from
  {
    match FirstMatch(s, from, SubscriptionAt(s))
    case None => []
    case Some((i, m)) => [m] + SubscriptionSettings(s, m.end)
  }

  // ---------------------------------------------------------------------
  // Who holds a permission: `<permission\s+type="T"\s+roles="([^"]+)"`
  // ---------------------------------------------------------------------

  /** The permission pattern at `i`: its role list, which is not empty. */
  function RoleListMatch(s: string, i: nat, permission: string): (r: Option<string>)
    ensures r.Some? ==> r.value != []
  {
    match SpacedPairEnd(s, i, PermissionOpen, TypeAttr(permission), RolesAttr)
    case None => None
    case Some(rs) =>
      match FindCharIn(s, '"', rs, |s|)
      case None => None
      case Some(q) => if q == rs then None else Some(s[rs..q])
  }

  function RoleListAt(s: string, permission: string): nat -> Option<string> {
    (i: nat) => RoleListMatch(s, i, permission)
  }

  /** What one trimmed role contributes: the members of the group it names, or else the role itself. */
  function Contribution(role: string, groups: seq<(string, seq<string>)>): seq<string> {
    match Get(groups, role)
    case Some(members) => members
    case None => [role]
  }

  /**
   * The role loop: for each role of the list, trimmed, `addAll` of its
   * group's members when `roleGroups` knows it, `add` of the role itself
   * otherwise.
   */
  function Expanded(acc: seq<string>, roles: seq<string>, groups: seq<(string, seq<string>)>): seq<string>
    decreases |roles|
  {
    if |roles| == 0 then acc
    else
      var prev := Expanded(acc, roles[..|roles| - 1], groups);
      var role := Trim(roles[|roles| - 1]);
      match Get(groups, role)
      case Some(members) => AddAll(prev, members)
      case None => Add(prev, role)
  }

  /** Everything the roles contribute, in order and with repetitions. */
  function Contributions(roles: seq<string>, groups: seq<(string, seq<string>)>): seq<string>
    decreases |roles|
  {
    if |roles| == 0 then []
    else Contributions(roles[..|roles| - 1], groups) + Contribution(Trim(roles[|roles| - 1]), groups)
  }

  /**
   * The holders of a permission in a setting's body: the first permission
   * of that type, its role list split on commas and expanded; nobody when
   * the body has no such permission.
   */
  function Holders(body: string, permission: string, groups: seq<(string, seq<string>)>): seq<string> {
    match FirstMatch(body, 0, RoleListAt(body, permission))
    case None => []
    case Some((_, list)) => Expanded([], JavaSplit(list, ','), groups)
  }

  /** The role loop adds the contributions one by one, as a `LinkedHashSet` would. */
  lemma {:induction false} ExpandedAddsContributions(acc: seq<string>, roles: seq<string>, groups: seq<(string, seq<string>)>)
    decreases |roles|
    ensures Expanded(acc, roles, groups) == AddAll(acc, Contributions(roles, groups))
  {
    if |roles| > 0 {
      var init, role := roles[..|roles| - 1], Trim(roles[|roles| - 1]);
      ExpandedAddsContributions(acc, init, groups);
      AddAllConcat(acc, Contributions(init, groups), Contribution(role, groups));
      if Get(groups, role).None? {
        assert [role][..0] == [];
      }
    }
  }

  /**
   * The holders are the contributions of the listed roles without
   * repetitions, in first-seen order: a role naming a known group stands
   * for its members, any other role for itself.
   */
  lemma HoldersSpec(body: string, permission: string, groups: seq<(string, seq<string>)>, i: nat, list: string)
    requires FirstMatch(body, 0, RoleListAt(body, permission)) == Some((i, list))
    ensures Holders(body, permission, groups) == Dedup(Contributions(JavaSplit(list, ','), groups))
    ensures Distinct(Holders(body, permission, groups))
  {
    ExpandedAddsContributions([], JavaSplit(list, ','), groups);
  }

  /** A body with no permission of that type has no holders. */
  lemma HoldersNone(body: string, permission: string, groups: seq<(string, seq<string>)>)
    requires FirstMatch(body, 0, RoleListAt(body, permission)).None?
    ensures Holders(body, permission, groups) == []
  {
  }

  /** One role naming a known group contributes exactly that group's members, each once. */
  lemma HoldersOfGroup(body: string, permission: string, groups: seq<(string, seq<string>)>, i: nat, group: string)
    requires FirstMatch(body, 0, RoleListAt(body, permission)) == Some((i, group))
    requires ',' !in group && Trim(group) == group
    requires Get(groups, group).Some? && Distinct(Get(groups, group).value)
    ensures Holders(body, permission, groups) == Get(groups, group).value
  {
    var split, members := JavaSplit(group, ','), Get(groups, group).value;
    assert split == [group];
    assert split[..0] == [];
    assert Contributions(split, groups) == [] + Contribution(group, groups);
    assert Contribution(group, groups) == members;
    HoldersSpec(body, permission, groups, i, group);
    assert Contributions(split, groups) == members;
    DedupDistinct(members);
    assert Dedup(Contributions(split, groups)) == members;
  }

  /** The role loop of one permission (ConfigParserService lines 272-286, 449-480). */
  method CollectHolders(body: string, permission: string, groups: seq<(string, seq<string>)>) returns (holders: seq<string>)
    ensures holders == Holders(body, permission, groups)
  {
    match FirstMatch(body, 0, RoleListAt(body, permission)) {
      case None =>
        holders := [];
      case Some((_, list)) =>
        holders := ExpandRoles(JavaSplit(list, ','), groups);
    }
  }

  /** The loop over the split role list: each group's members, or the role itself. */
  method ExpandRoles(roles: seq<string>, groups: seq<(string, seq<string>)>) returns (holders: seq<string>)
    ensures holders == Expanded([], roles, groups)
  {
    holders := [];
    for k := 0 to |roles|
      invariant holders == Expanded([], roles[..k], groups)
    {
      assert roles[..k + 1][..k] == roles[..k];
      var role := Trim(roles[k]);
      match Get(groups, role) {
        case Some(members) =>
          holders := AddEach(holders, members);
        case None =>
          holders := Add(holders, role);
      }
    }
    assert roles[..|roles|] == roles;
  }

  // ---------------------------------------------------------------------
  // The insertion-ordered tables the scanners fill
  // ---------------------------------------------------------------------

  /** The address variables of the matches, in order. */
  function VarNames(spans: seq<ResourceSpan>): (r: seq<string>)
    ensures |r| == |spans| && forall k :: 0 <= k < |spans| ==> r[k] == spans[k].varName
  {
    seq(|spans|, k requires 0 <= k < |spans| => spans[k].varName)
  }

  lemma VarNamesCons(spans: seq<ResourceSpan>)
    requires |spans| > 0
    ensures VarNames(spans) == [spans[0].varName] + VarNames(spans[1..])
  {
  }

  /** `map.put(varName, data)` for each match in turn, starting from `acc`. */
  function Table<D>(spans: seq<ResourceSpan>, data: ResourceSpan -> D, acc: seq<(string, D)>): seq<(string, D)>
    decreases |spans|
  {
    if |spans| == 0 then acc
    else Table(spans[1..], data, Put(acc, spans[0].varName, data(spans[0])))
  }

  /** The last match naming `v`, if any: the one whose `put` stands at the end. */
  function LastWith(spans: seq<ResourceSpan>, v: string): (r: Option<ResourceSpan>)
    decreases |spans|
    ensures r.Some? ==> r.value in spans && r.value.varName == v
  {
    if |spans| == 0 then None
    else match LastWith(spans[1..], v)
      case Some(m) => Some(m)
      case None => if spans[0].varName == v then Some(spans[0]) else None
  }

  /** The table's keys are the variables in first-seen order, each once. */
  lemma {:induction false} TableKeys<D>(spans: seq<ResourceSpan>, data: ResourceSpan -> D, acc: seq<(string, D)>)
    decreases |spans|
    ensures Keys(Table(spans, data, acc)) == AddAll(Keys(acc), VarNames(spans))
  {
    if |spans| > 0 {
      var v := spans[0].varName;
      var next := Put(acc, v, data(spans[0]));
      TableKeys(spans[1..], data, next);
      PutKeys(acc, v, data(spans[0]));
      assert [v][..0] == [];
      assert AddAll(Keys(acc), [v]) == Add(Keys(acc), v);
      VarNamesCons(spans);
      AddAllConcat(Keys(acc), [v], VarNames(spans[1..]));
    }
  }

  /** Each variable maps to what its last match gives: a later `put` replaces an earlier one's value. */
  lemma {:induction false} TableGet<D>(spans: seq<ResourceSpan>, data: ResourceSpan -> D, acc: seq<(string, D)>, v: string)
    decreases |spans|
    ensures Get(Table(spans, data, acc), v) ==
      match LastWith(spans, v)
      case Some(m) => Some(data(m))
      case None => Get(acc, v)
  {
    if |spans| > 0 {
      var next := Put(acc, spans[0].varName, data(spans[0]));
      TableGet(spans[1..], data, next, v);
      PutGet(acc, spans[0].varName, data(spans[0]), v);
    }
  }

  /** The table lists each key once. */
  lemma TableDistinct<D>(spans: seq<ResourceSpan>, data: ResourceSpan -> D)
    ensures Distinct(Keys(Table(spans, data, [])))
  {
    TableKeys(spans, data, []);
  }

  /** The `k`-th entry of a table is the `k`-th distinct variable, with what its last match gives. */
  lemma TableEntry<D>(spans: seq<ResourceSpan>, data: ResourceSpan -> D, k: nat)
    requires k < |Table(spans, data, [])|
    ensures var table := Table(spans, data, []);
      && |Dedup(VarNames(spans))| == |table|
      && table[k].0 == Dedup(VarNames(spans))[k]
      && LastWith(spans, table[k].0).Some?
      && table[k].1 == data(LastWith(spans, table[k].0).value)
  {
    var table := Table(spans, data, []);
    TableKeys(spans, data, []);
    GetAt(table, k);
    TableGet(spans, data, [], table[k].0);
  }

  /** The DTO loop: one DTO per entry, numbered from 1 in the table's order. */
  function Dtos<D, T>(table: seq<(string, D)>, dto: (nat, string, D) -> T): (r: seq<T>)
    decreases |table|
  {
    if |table| == 0 then []
    else Dtos(table[..|table| - 1], dto) + [dto(|table|, table[|table| - 1].0, table[|table| - 1].1)]
  }

  /** The `k`-th DTO is the `k`-th entry's, numbered `k + 1`. */
  lemma {:induction false} DtosAt<D, T>(table: seq<(string, D)>, dto: (nat, string, D) -> T)
    decreases |table|
    ensures |Dtos(table, dto)| == |table|
    ensures forall k :: 0 <= k < |table| ==> Dtos(table, dto)[k] == dto(k + 1, table[k].0, table[k].1)
  {
    if |table| > 0 {
      DtosAt(table[..|table| - 1], dto);
    }
  }

  /** Every match names a word variable holding the marker. */
  predicate WordVars(spans: seq<ResourceSpan>, marker: string) {
    forall m :: m in spans ==> Contains(m.varName, marker) && forall k :: 0 <= k < |m.varName| ==> IsWordChar(m.varName[k])
  }

  lemma WordHasNoDot(v: string)
    requires forall k :: 0 <= k < |v| ==> IsWordChar(v[k])
    ensures '.' !in v
  {
  }

  /** A variable the scan found holds the marker and no dot. */
  lemma WordVarIn(spans: seq<ResourceSpan>, marker: string, m: ResourceSpan)
    requires WordVars(spans, marker) && m in spans
    ensures Contains(m.varName, marker) && '.' !in m.varName
  {
    WordHasNoDot(m.varName);
  }

  /** What the scan finds names word variables holding the marker. */
  lemma {:induction false} ResourceSettingsWords(s: string, from: nat, marker: string)
    decreases |s| + 1 - from
    ensures WordVars(ResourceSettings(s, from, marker), marker)
  {
    match FirstMatch(s, from, ResourceAt(s, marker)) {
      case None =>
      case Some((i, m)) =>
        assert ResourceSettingMatch(s, i, marker) == Some(m);
        ResourceVarIsWord(s, i, marker);
        ResourceSettingsWords(s, m.end, marker);
    }
  }

  // ---------------------------------------------------------------------
  // Queues
  // ---------------------------------------------------------------------

  /** `QueueData`: a queue's variable and the holders of its send and consume permissions. */
  datatype QueueData = QueueData(varName: string, producers: seq<string>, consumers: seq<string>)

  function QueueDataOf(groups: seq<(string, seq<string>)>): ResourceSpan -> QueueData {
    (m: ResourceSpan) => QueueData(m.varName, Holders(m.body, "send", groups), Holders(m.body, "consume", groups))
  }

  /** The queue DTO numbered `index`: display name, team from the part before `_queue_`, and the holders. */
  function QueueDtoAt(index: nat, varName: string, data: QueueData): QueueDto {
    QueueDto("queue-" + NatToString(index), DisplayName(varName), "prod", "Artemis MQ Queue",
             TeamBefore(varName, QueueMarker), data.producers, data.consumers)
  }

  function QueueDtoOf(): (nat, string, QueueData) -> QueueDto {
    (index: nat, varName: string, data: QueueData) => QueueDtoAt(index, varName, data)
  }

  /** The queues built from a list of matches. */
  function QueuesOf(spans: seq<ResourceSpan>, groups: seq<(string, seq<string>)>): seq<QueueDto> {
    Dtos(Table(spans, QueueDataOf(groups), []), QueueDtoOf())
  }

  /** `parseQueuesFromBrokerXml(content, roleGroups)` */
  function ParsedQueues(content: string, groups: seq<(string, seq<string>)>): seq<QueueDto> {
    if content == [] then [] else QueuesOf(ResourceSettings(content, 0, QueueMarker), groups)
  }

  /** `parseQueuesFromBrokerXml`: the scan loop, then the DTO loop. */
  method ParseQueues(content: string, groups: seq<(string, seq<string>)>) returns (queues: seq<QueueDto>)
    ensures queues == ParsedQueues(content, groups)
  {
    if content == [] {
      return [];
    }
    var table := ScanQueues(content, groups);
    queues := NumberQueues(table);
  }

  /** `while (queueMatcher.find())`: the holders of each match, put under its variable. */
  method ScanQueues(content: string, groups: seq<(string, seq<string>)>) returns (table: seq<(string, QueueData)>)
    ensures table == Table(ResourceSettings(content, 0, QueueMarker), QueueDataOf(groups), [])
  {
    table := [];
    var from := 0;
    while true
      invariant Table(ResourceSettings(content, from, QueueMarker), QueueDataOf(groups), table)
             == Table(ResourceSettings(content, 0, QueueMarker), QueueDataOf(groups), [])
      decreases |content| + 1 - from
    {
      match FirstMatch(content, from, ResourceAt(content, QueueMarker)) {
        case None =>
          break;
        case Some((i, m)) =>
          assert ResourceSettingMatch(content, i, QueueMarker) == Some(m);
          var producers := CollectHolders(m.body, "send", groups);
          var consumers := CollectHolders(m.body, "consume", groups);
          table := Put(table, m.varName, QueueData(m.varName, producers, consumers));
          from := m.end;
      }
    }
  }

  /** The loop over `queueDataMap.entrySet()` with `index++`. */
  method NumberQueues(table: seq<(string, QueueData)>) returns (queues: seq<QueueDto>)
    ensures queues == Dtos(table, QueueDtoOf())
  {
    queues := [];
    for k := 0 to |table|
      invariant queues == Dtos(table[..k], QueueDtoOf())
    {
      assert table[..k + 1][..k] == table[..k];
      queues := queues + [QueueDtoAt(k + 1, table[k].0, table[k].1)];
    }
    assert table[..|table|] == table;
  }

  /** The `k`-th queue: the `k`-th distinct variable and the holders its last match gives. */
  lemma QueueAt(spans: seq<ResourceSpan>, groups: seq<(string, seq<string>)>, k: nat)
    requires WordVars(spans, QueueMarker) && k < |QueuesOf(spans, groups)|
    ensures var vars, q := Dedup(VarNames(spans)), QueuesOf(spans, groups)[k];
      && |vars| == |QueuesOf(spans, groups)|
      && Contains(vars[k], QueueMarker) && '.' !in vars[k]
      && LastWith(spans, vars[k]).Some?
      && q == QueueDtoAt(k + 1, vars[k], QueueDataOf(groups)(LastWith(spans, vars[k]).value))
  {
    var vars, table := Dedup(VarNames(spans)), Table(spans, QueueDataOf(groups), []);
    assert |QueuesOf(spans, groups)| == |table| && QueuesOf(spans, groups)[k] == QueueDtoAt(k + 1, table[k].0, table[k].1) by {
      DtosAt(table, QueueDtoOf());
    }
    assert |vars| == |table| && table[k].0 == vars[k] && LastWith(spans, vars[k]).Some?
        && table[k].1 == QueueDataOf(groups)(LastWith(spans, vars[k]).value) by {
      TableEntry(spans, QueueDataOf(groups), k);
    }
    assert Contains(vars[k], QueueMarker) && '.' !in vars[k] by {
      WordVarIn(spans, QueueMarker, LastWith(spans, vars[k]).value);
    }
  }

  /**
   * The queues are the distinct `_queue_` variables of the matching
   * settings in first-seen order: numbered from `queue-1`, shown with dots
   * for underscores, with the team before `_queue_`, and holding the send
   * and consume holders of the last setting for that variable.
   */
  lemma ParsedQueuesSpec(content: string, groups: seq<(string, seq<string>)>)
    requires content != []
    ensures var spans := ResourceSettings(content, 0, QueueMarker);
      var vars, r := Dedup(VarNames(spans)), ParsedQueues(content, groups);
      && |r| == |vars|
      && forall k :: 0 <= k < |r| ==>
        && Contains(vars[k], QueueMarker)
        && r[k].id == "queue-" + NatToString(k + 1)
        && r[k].name == DisplayName(vars[k])
        && r[k].team == TeamBefore(vars[k], QueueMarker)
        && LastWith(spans, vars[k]).Some?
        && r[k].producers == Holders(LastWith(spans, vars[k]).value.body, "send", groups)
        && r[k].consumers == Holders(LastWith(spans, vars[k]).value.body, "consume", groups)
  {
    var spans := ResourceSettings(content, 0, QueueMarker);
    ResourceSettingsWords(content, 0, QueueMarker);
    var table := Table(spans, QueueDataOf(groups), []);
    DtosAt(table, QueueDtoOf());
    TableKeys(spans, QueueDataOf(groups), []);
    forall k | 0 <= k < |table| {
      QueueAt(spans, groups, k);
    }
  }

  /** No two queues share an id. */
  lemma QueueIdsDistinct(spans: seq<ResourceSpan>, groups: seq<(string, seq<string>)>, j: nat, k: nat)
    requires j < k < |QueuesOf(spans, groups)|
    ensures QueuesOf(spans, groups)[j].id != QueuesOf(spans, groups)[k].id
  {
    var table := Table(spans, QueueDataOf(groups), []);
    DtosAt(table, QueueDtoOf());
    NumberedIdsDiffer("queue-", j + 1, k + 1);
  }

  /** No two queues share a display name. */
  lemma QueueNamesDistinct(spans: seq<ResourceSpan>, groups: seq<(string, seq<string>)>, j: nat, k: nat)
    requires WordVars(spans, QueueMarker) && j < k < |QueuesOf(spans, groups)|
    ensures QueuesOf(spans, groups)[j].name != QueuesOf(spans, groups)[k].name
  {
    var vars, r := Dedup(VarNames(spans)), QueuesOf(spans, groups);
    assert |vars| == |r| && r[j].name == DisplayName(vars[j]) && '.' !in vars[j] by {
      QueueAt(spans, groups, j);
    }
    assert r[k].name == DisplayName(vars[k]) && '.' !in vars[k] by {
      QueueAt(spans, groups, k);
    }
    assert vars[j] != vars[k];
    if r[j].name == r[k].name {
      DisplayNameInjective(vars[j], vars[k]);
    }
  }

  /** Ids `<kind>-<n>` differ for different numbers. */
  lemma NumberedIdsDiffer(kind: string, a: nat, b: nat)
    requires a != b
    ensures kind + NatToString(a) != kind + NatToString(b)
  {
    if kind + NatToString(a) == kind + NatToString(b) {
      assert NatToString(a) == (kind + NatToString(a))[|kind|..];
      assert NatToString(b) == (kind + NatToString(b))[|kind|..];
      NatToStringInjective(a, b);
    }
  }

  // ---------------------------------------------------------------------
  // Topics
  // ---------------------------------------------------------------------

  /** `TopicData`: a topic's variable, the holders of its send permission, and subscription name to subscriber. */
  datatype TopicData = TopicData(varName: string, producers: seq<string>, subscriptions: seq<(string, string)>)

  function TopicDataOf(groups: seq<(string, seq<string>)>): ResourceSpan -> TopicData {
    (m: ResourceSpan) => TopicData(m.varName, Holders(m.body, "send", groups), [])
  }

  /** `s.replace("_", "-")` */
  function Dashed(s: string): string {
    Replace(s, '_', "-")
  }

  /**
   * One subscription match: when its topic variable is already a topic,
   * `put(<multicast dashed>, <subscriber dashed>)` into that topic's
   * subscriptions; otherwise nothing.
   */
  function AttachOne(table: seq<(string, TopicData)>, sub: SubscriptionSpan): seq<(string, TopicData)> {
    match Get(table, sub.topicVar)
    case None => table
    case Some(d) =>
      var name, subscriber := Dashed(sub.multicastVar), Dashed(ExtractSubscriptionName(sub.multicastVar));
      Put(table, sub.topicVar, d.(subscriptions := Put(d.subscriptions, name, subscriber)))
  }

  /** The subscription loop over the matches in order. */
  function Attached(table: seq<(string, TopicData)>, subs: seq<SubscriptionSpan>): seq<(string, TopicData)>
    decreases |subs|
  {
    if |subs| == 0 then table else Attached(AttachOne(table, subs[0]), subs[1..])
  }

  /** The topic DTO numbered `index`: display name, team from the part before `_topic_`, holders and subscriptions. */
  function TopicDtoAt(index: nat, varName: string, data: TopicData): TopicDto {
    TopicDto("topic-" + NatToString(index), DisplayName(varName), "prod", "Artemis MQ Topic",
             TeamBefore(varName, TopicMarker), data.producers, data.subscriptions)
  }

  function TopicDtoOf(): (nat, string, TopicData) -> TopicDto {
    (index: nat, varName: string, data: TopicData) => TopicDtoAt(index, varName, data)
  }

  /** The topics built from the topic matches and the subscription matches. */
  function TopicsOf(spans: seq<ResourceSpan>, subs: seq<SubscriptionSpan>, groups: seq<(string, seq<string>)>): seq<TopicDto> {
    Dtos(Attached(Table(spans, TopicDataOf(groups), []), subs), TopicDtoOf())
  }

  /** `parseTopicsFromBrokerXml(content, roleGroups)` */
  function ParsedTopics(content: string, groups: seq<(string, seq<string>)>): seq<TopicDto> {
    if content == [] then []
    else TopicsOf(ResourceSettings(content, 0, TopicMarker), SubscriptionSettings(content, 0), groups)
  }

  /** `parseTopicsFromBrokerXml`: the topic scan, the subscription scan, then the DTO loop. */
  method ParseTopics(content: string, groups: seq<(string, seq<string>)>) returns (topics: seq<TopicDto>)
    ensures topics == ParsedTopics(content, groups)
  {
    if content == [] {
      return [];
    }
    var table := ScanTopics(content, groups);
    table := AttachSubscriptions(content, table);
    topics := NumberTopics(table);
  }

  /** `while (topicMatcher.find())`: the send holders of each match, put under its variable. */
  method ScanTopics(content: string, groups: seq<(string, seq<string>)>) returns (table: seq<(string, TopicData)>)
    ensures table == Table(ResourceSettings(content, 0, TopicMarker), TopicDataOf(groups), [])
  {
    table := [];
    var from := 0;
    while true
      invariant Table(ResourceSettings(content, from, TopicMarker), TopicDataOf(groups), table)
             == Table(ResourceSettings(content, 0, TopicMarker), TopicDataOf(groups), [])
      decreases |content| + 1 - from
    {
      match FirstMatch(content, from, ResourceAt(content, TopicMarker)) {
        case None =>
          break;
        case Some((i, m)) =>
          assert ResourceSettingMatch(content, i, TopicMarker) == Some(m);
          var producers := CollectHolders(m.body, "send", groups);
          table := Put(table, m.varName, TopicData(m.varName, producers, []));
          from := m.end;
      }
    }
  }

  /** `while (subscriptionMatcher.find())`: attach each subscription to its topic, if found. */
  method AttachSubscriptions(content: string, table0: seq<(string, TopicData)>) returns (table: seq<(string, TopicData)>)
    ensures table == Attached(table0, SubscriptionSettings(content, 0))
  {
    table := table0;
    var from := 0;
    while true
      invariant Attached(table, SubscriptionSettings(content, from)) == Attached(table0, SubscriptionSettings(content, 0))
      decreases |content| + 1 - from
    {
      match FirstMatch(content, from, SubscriptionAt(content)) {
        case None =>
          break;
        case Some((i, sub)) =>
          assert SubscriptionSettingMatch(content, i) == Some(sub);
          match Get(table, sub.topicVar) {
            case None =>
            case Some(d) =>
              var subscriber := Dashed(ExtractSubscriptionName(sub.multicastVar));
              table := Put(table, sub.topicVar, d.(subscriptions := Put(d.subscriptions, Dashed(sub.multicastVar), subscriber)));
          }
          from := sub.end;
      }
    }
  }

  /** The loop over `topicDataMap.entrySet()` with `index++`. */
  method NumberTopics(table: seq<(string, TopicData)>) returns (topics: seq<TopicDto>)
    ensures topics == Dtos(table, TopicDtoOf())
  {
    topics := [];
    for k := 0 to |table|
      invariant topics == Dtos(table[..k], TopicDtoOf())
    {
      assert table[..k + 1][..k] == table[..k];
      topics := topics + [TopicDtoAt(k + 1, table[k].0, table[k].1)];
    }
    assert table[..|table|] == table;
  }

  /** The multicast names, dashed, of the subscription matches for topic variable `v`, in order. */
  function SubscriptionNamesFor(subs: seq<SubscriptionSpan>, v: string): seq<string>
    decreases |subs|
  {
    if |subs| == 0 then []
    else (if subs[0].topicVar == v then [Dashed(subs[0].multicastVar)] else []) + SubscriptionNamesFor(subs[1..], v)
  }

  /**
   * The subscriber that topic variable `v`'s subscription `name` ends up
   * with: that of the last subscription match for `v` whose multicast
   * name, dashed, is `name` (a later `put` replaces an earlier one).
   */
  function SubscriberFor(subs: seq<SubscriptionSpan>, v: string, name: string): Option<string>
    decreases |subs|
  {
    if |subs| == 0 then None
    else
      var later := SubscriberFor(subs[1..], v, name);
      if later.Some? then later
      else if subs[0].topicVar == v && Dashed(subs[0].multicastVar) == name
      then Some(Dashed(ExtractSubscriptionName(subs[0].multicastVar)))
      else None
  }

  /** One subscription match puts its subscriber under its name, on its own topic only. */
  lemma AttachOneGet(table: seq<(string, TopicData)>, sub: SubscriptionSpan, v: string, name: string)
    requires Get(table, v).Some?
    ensures Get(AttachOne(table, sub), v).Some?
    ensures Get(Get(AttachOne(table, sub), v).value.subscriptions, name)
      == if sub.topicVar == v && Dashed(sub.multicastVar) == name
         then Some(Dashed(ExtractSubscriptionName(sub.multicastVar)))
         else Get(Get(table, v).value.subscriptions, name)
  {
    match Get(table, sub.topicVar) {
      case None =>
      case Some(d) =>
        var subscriber := Dashed(ExtractSubscriptionName(sub.multicastVar));
        var d' := d.(subscriptions := Put(d.subscriptions, Dashed(sub.multicastVar), subscriber));
        PutGet(table, sub.topicVar, d', v);
        PutGet(d.subscriptions, Dashed(sub.multicastVar), subscriber, name);
    }
  }

  /** After the subscription loop, a topic's subscription reads as its last match set it, or as before when none names it. */
  lemma {:induction false} AttachedGet(table: seq<(string, TopicData)>, subs: seq<SubscriptionSpan>, v: string, name: string)
    requires Get(table, v).Some?
    decreases |subs|
    ensures Get(Attached(table, subs), v).Some?
    ensures Get(Get(Attached(table, subs), v).value.subscriptions, name)
      == if SubscriberFor(subs, v, name).Some? then SubscriberFor(subs, v, name)
         else Get(Get(table, v).value.subscriptions, name)
  {
    if |subs| > 0 {
      var next := AttachOne(table, subs[0]);
      AttachOneGet(table, subs[0], v, name);
      AttachedGet(next, subs[1..], v, name);
    }
  }

  /** Attaching subscriptions keeps the topics, their order and their producers. */
  lemma AttachOneKeeps(table: seq<(string, TopicData)>, sub: SubscriptionSpan, v: string)
    ensures Keys(AttachOne(table, sub)) == Keys(table)
    ensures Get(AttachOne(table, sub), v).Some? == Get(table, v).Some?
    ensures Get(table, v).Some? ==> Get(AttachOne(table, sub), v).value.producers == Get(table, v).value.producers
    ensures sub.topicVar != v ==> Get(AttachOne(table, sub), v) == Get(table, v)
    ensures sub.topicVar == v && Get(table, v).Some? ==>
      Keys(Get(AttachOne(table, sub), v).value.subscriptions) == Add(Keys(Get(table, v).value.subscriptions), Dashed(sub.multicastVar))
  {
    match Get(table, sub.topicVar) {
      case None =>
      case Some(d) =>
        var subscriber := Dashed(ExtractSubscriptionName(sub.multicastVar));
        var d' := d.(subscriptions := Put(d.subscriptions, Dashed(sub.multicastVar), subscriber));
        GetPresent(table, sub.topicVar);
        PutKeys(table, sub.topicVar, d');
        PutGet(table, sub.topicVar, d', v);
        PutKeys(d.subscriptions, Dashed(sub.multicastVar), subscriber);
    }
  }

  /**
   * The subscription loop keeps the topics, their order and their
   * producers, and gives topic `v` the subscription names of its matches,
   * in first-seen order, after those it had.
   */
  lemma {:induction false} AttachedSpec(table: seq<(string, TopicData)>, subs: seq<SubscriptionSpan>, v: string)
    decreases |subs|
    ensures Keys(Attached(table, subs)) == Keys(table)
    ensures Get(Attached(table, subs), v).Some? == Get(table, v).Some?
    ensures Get(table, v).Some? ==>
      && Get(Attached(table, subs), v).value.producers == Get(table, v).value.producers
      && Keys(Get(Attached(table, subs), v).value.subscriptions)
         == AddAll(Keys(Get(table, v).value.subscriptions), SubscriptionNamesFor(subs, v))
  {
    if |subs| > 0 {
      var sub, next := subs[0], AttachOne(table, subs[0]);
      AttachOneKeeps(table, sub, v);
      AttachedSpec(next, subs[1..], v);
      var here := if sub.topicVar == v then [Dashed(sub.multicastVar)] else [];
      assert SubscriptionNamesFor(subs, v) == here + SubscriptionNamesFor(subs[1..], v);
      if Get(table, v).Some? {
        var before := Keys(Get(table, v).value.subscriptions);
        AddAllConcat(before, here, SubscriptionNamesFor(subs[1..], v));
        if sub.topicVar == v {
          assert here[..0] == [];
          assert AddAll(before, here) == Add(before, Dashed(sub.multicastVar));
        }
      }
    }
  }

  /**
   * The `k`-th topic: the `k`-th distinct `_topic_` variable, the send
   * holders of its last setting, and the subscription names of the
   * subscription settings that name it, each once, in first-seen order,
   * each mapped to the subscriber of the last such setting.
   */
  lemma TopicAt(spans: seq<ResourceSpan>, subs: seq<SubscriptionSpan>, groups: seq<(string, seq<string>)>, k: nat)
    requires WordVars(spans, TopicMarker) && k < |TopicsOf(spans, subs, groups)|
    ensures var vars, t := Dedup(VarNames(spans)), TopicsOf(spans, subs, groups)[k];
      && |vars| == |TopicsOf(spans, subs, groups)|
      && Contains(vars[k], TopicMarker) && '.' !in vars[k]
      && LastWith(spans, vars[k]).Some?
      && t.id == "topic-" + NatToString(k + 1)
      && t.name == DisplayName(vars[k])
      && t.team == TeamBefore(vars[k], TopicMarker)
      && t.producers == Holders(LastWith(spans, vars[k]).value.body, "send", groups)
      && Keys(t.subscriptions) == Dedup(SubscriptionNamesFor(subs, vars[k]))
      && forall name :: Get(t.subscriptions, name) == SubscriberFor(subs, vars[k], name)
  {
    var vars, table := Dedup(VarNames(spans)), Table(spans, TopicDataOf(groups), []);
    var att := Attached(table, subs);
    assert |att| == |table| && Distinct(Keys(att)) by {
      AttachedSpec(table, subs, []);
      TableDistinct(spans, TopicDataOf(groups));
    }
    var t := TopicsOf(spans, subs, groups)[k];
    assert |TopicsOf(spans, subs, groups)| == |att| && t == TopicDtoAt(k + 1, att[k].0, att[k].1) by {
      DtosAt(att, TopicDtoOf());
    }
    assert |vars| == |table| && table[k].0 == vars[k] && LastWith(spans, vars[k]).Some?
        && table[k].1 == TopicDataOf(groups)(LastWith(spans, vars[k]).value) by {
      TableEntry(spans, TopicDataOf(groups), k);
    }
    assert att[k].0 == vars[k] by {
      AttachedSpec(table, subs, vars[k]);
      assert Keys(att)[k] == Keys(table)[k];
    }
    assert Get(att, vars[k]) == Some(att[k].1) && Get(table, vars[k]) == Some(table[k].1) by {
      GetAt(att, k);
      TableDistinct(spans, TopicDataOf(groups));
      GetAt(table, k);
    }
    AttachedSpec(table, subs, vars[k]);
    forall name | true
      ensures Get(t.subscriptions, name) == SubscriberFor(subs, vars[k], name)
    {
      AttachedGet(table, subs, vars[k], name);
    }
    assert Contains(vars[k], TopicMarker) && '.' !in vars[k] by {
      WordVarIn(spans, TopicMarker, LastWith(spans, vars[k]).value);
    }
  }

  /** No two topics share an id. */
  lemma TopicIdsDistinct(spans: seq<ResourceSpan>, subs: seq<SubscriptionSpan>, groups: seq<(string, seq<string>)>, j: nat, k: nat)
    requires j < k < |TopicsOf(spans, subs, groups)|
    ensures TopicsOf(spans, subs, groups)[j].id != TopicsOf(spans, subs, groups)[k].id
  {
    var att := Attached(Table(spans, TopicDataOf(groups), []), subs);
    DtosAt(att, TopicDtoOf());
    NumberedIdsDiffer("topic-", j + 1, k + 1);
  }

  /** No two topics share a display name. */
  lemma TopicNamesDistinct(spans: seq<ResourceSpan>, subs: seq<SubscriptionSpan>, groups: seq<(string, seq<string>)>, j: nat, k: nat)
    requires WordVars(spans, TopicMarker) && j < k < |TopicsOf(spans, subs, groups)|
    ensures TopicsOf(spans, subs, groups)[j].name != TopicsOf(spans, subs, groups)[k].name
  {
    var vars, r := Dedup(VarNames(spans)), TopicsOf(spans, subs, groups);
    assert |vars| == |r| && r[j].name == DisplayName(vars[j]) && '.' !in vars[j] by {
      TopicAt(spans, subs, groups, j);
    }
    assert r[k].name == DisplayName(vars[k]) && '.' !in vars[k] by {
      TopicAt(spans, subs, groups, k);
    }
    assert vars[j] != vars[k];
    if r[j].name == r[k].name {
      DisplayNameInjective(vars[j], vars[k]);
    }
  }
}
