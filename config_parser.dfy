/**
 * `ConfigParserService`: the read-only catalogue built from `acmq.yaml`
 * (users and role groups) and `broker.xml.erb` (queues, topics and their
 * subscriptions), and the user view that joins the two. The files' texts
 * are inputs; reading them from the repositories is not modelled.
 */
module ConfigParser {
  import opened Wrappers
  import opened Text
  import opened Identifiers
  import opened OrderedSet
  import opened OrderedMap
  import opened AcmqYaml
  import opened BrokerXml

  // ---------------------------------------------------------------------
  // The DTOs (`QueueDto`, `TopicDto`, `UserDto`); `createdAt` is a clock read and left out
  // ---------------------------------------------------------------------

  datatype QueueDto = QueueDto(
    id: string, name: string, environment: string, description: string, team: string,
    producers: seq<string>, consumers: seq<string>)

  /** `subscriptions` maps a subscription's name to its subscriber. */
  datatype TopicDto = TopicDto(
    id: string, name: string, environment: string, description: string, team: string,
    producers: seq<string>, subscriptions: seq<(string, string)>)

  /** `UserDto.RoleItem`; `subscription` is absent outside the subscription list. */
  datatype RoleItem = RoleItem(kind: string, name: string, subscription: Option<string>, environment: string)

  datatype UserRolesDto = UserRolesDto(producer: seq<RoleItem>, consumer: seq<RoleItem>, subscription: seq<RoleItem>)

  datatype UserDto = UserDto(id: string, name: string, description: string, team: string, roles: UserRolesDto)

  /** The private `UserRoles` holder: three ordered sets and a subscription-to-topic ordered map. */
  datatype UserRoles = UserRoles(
    producerQueues: seq<string>, consumerQueues: seq<string>, producerTopics: seq<string>,
    subscriptions: seq<(string, string)>)

  const NoRoles: UserRoles := UserRoles([], [], [], [])

  // ---------------------------------------------------------------------
  // Name helpers
  // ---------------------------------------------------------------------

  const SubscriptionMarker: string := "_subscription_"

  /**
   * `extractSubscriptionName`: what follows the first `_subscription_`, or
   * the whole name when the marker is absent.
   */
  function ExtractSubscriptionName(multicastVar: string): (r: string)
    ensures IndexOf(multicastVar, SubscriptionMarker).None? ==> r == multicastVar
    ensures IndexOf(multicastVar, SubscriptionMarker).Some? ==>
      multicastVar == multicastVar[..IndexOf(multicastVar, SubscriptionMarker).value] + SubscriptionMarker + r
  {
    if multicastVar == [] then multicastVar
    else match IndexOf(multicastVar, SubscriptionMarker)
      case None => multicastVar
      case Some(i) =>
        StartsAtIff(multicastVar, SubscriptionMarker, i);
        assert multicastVar == multicastVar[..i] + multicastVar[i..i + |SubscriptionMarker|] + multicastVar[i + |SubscriptionMarker|..];
        multicastVar[i + |SubscriptionMarker|..]
  }

  /** A marker that starts with `_` is first found right after a `_`-free head. */
  lemma MarkerAfterPlainHead(head: string, marker: string, tail: string)
    requires '_' !in head && |marker| > 0 && marker[0] == '_'
    ensures IndexOf(head + marker + tail, marker) == Some(|head|)
  {
    var s := head + marker + tail;
    StartsAtLiteral(head, marker, tail);
    forall j | 0 <= j < |head|
      ensures !StartsAt(s, marker, j)
    {
      assert s[j] == head[j];
      StartsAtIff(s, marker, j);
    }
    assert IndexOf(s, marker).Some?;
  }

  /** A multicast variable `<head>_subscription_<sub>` names the subscription `<sub>`. */
  lemma ExtractSubscriptionNameOf(head: string, sub: string)
    requires '_' !in head
    ensures ExtractSubscriptionName(head + SubscriptionMarker + sub) == sub
  {
    MarkerAfterPlainHead(head, SubscriptionMarker, sub);
  }

  predicate IsDelimiter(c: char) {
    c == '_' || c == '.'
  }

  /**
   * `extractPrefix`: the text before the first `_` or `.`; the whole name
   * when there is none or it is the first char.
   */
  function ExtractPrefix(name: string): (r: string)
    ensures r <= name
  {
    if name == [] then []
    else
      var underscore, dot := FindCharIn(name, '_', 0, |name|), FindCharIn(name, '.', 0, |name|);
      var delimiter :=
        if underscore.Some? && dot.Some? then Some(if underscore.value < dot.value then underscore.value else dot.value)
        else if underscore.Some? then underscore
        else dot;
      if delimiter.Some? && delimiter.value > 0 then name[..delimiter.value] else name
  }

  /**
   * The prefix is the whole name exactly when the name has no delimiter
   * or starts with one; otherwise it is the delimiter-free text up to the
   * first delimiter.
   */
  lemma ExtractPrefixSpec(name: string)
    ensures var r := ExtractPrefix(name);
      && (r == name <==> (forall k :: 0 <= k < |name| ==> !IsDelimiter(name[k])) || IsDelimiter(name[0]))
      && (r != name ==> 0 < |r| < |name| && IsDelimiter(name[|r|]) && forall k :: 0 <= k < |r| ==> !IsDelimiter(r[k]))
  {
    if name != [] {
      FindCharInFacts(name, '_', 0, |name|);
      FindCharInFacts(name, '.', 0, |name|);
    }
  }

  /** `s.substring(0, 1).toUpperCase() + s.substring(1)` for a first char below U+0080. */
  function Capitalised(s: string): (r: string)
    requires s != []
    ensures |r| == |s| && r[1..] == s[1..]
  {
    [if 'a' <= s[0] <= 'z' then (s[0] as int - 32) as char else s[0]] + s[1..]
  }

  const UnknownTeam: string := "Team Unknown"

  /** `extractTeamFromName`: `Team` and the capitalised prefix, or `Team Unknown` for an empty one. */
  function TeamFromName(name: string): string {
    var prefix := ExtractPrefix(name);
    if |prefix| > 0 then "Team " + Capitalised(prefix) else UnknownTeam
  }

  /** A name `<ns><d><rest>` with a delimiter-free `ns` belongs to `Team <Ns>`. */
  lemma TeamFromNameOf(ns: string, d: char, rest: string)
    requires ns != [] && forall k :: 0 <= k < |ns| ==> !IsDelimiter(ns[k])
    requires IsDelimiter(d)
    ensures TeamFromName(ns + [d] + rest) == "Team " + Capitalised(ns)
  {
    var name := ns + [d] + rest;
    ExtractPrefixSpec(name);
    var r := ExtractPrefix(name);
    assert name[0] == ns[0] && name[|ns|] == d;
    assert r != name;
    assert forall k :: 0 <= k < |ns| ==> name[k] == ns[k];
    assert |r| == |ns|;
    assert r == name[..|ns|] == ns;
  }

  /**
   * `extractTeamFromQueueName` / `extractTeamFromTopicName`: the text before
   * the first marker (`_queue_` or `_topic_`), capitalised, when non-empty.
   */
  function TeamBefore(varName: string, marker: string): string {
    match IndexOf(varName, marker)
    case Some(i) => if i > 0 then "Team " + Capitalised(varName[..i]) else UnknownTeam
    case None => UnknownTeam
  }

  /** A variable `<ns>_queue_<rest>` (or `_topic_`) belongs to `Team <Ns>`. */
  lemma TeamBeforeOf(ns: string, marker: string, rest: string)
    requires ns != [] && '_' !in ns && |marker| > 0 && marker[0] == '_'
    ensures TeamBefore(ns + marker + rest, marker) == "Team " + Capitalised(ns)
  {
    MarkerAfterPlainHead(ns, marker, rest);
    assert (ns + marker + rest)[..|ns|] == ns;
  }
}
