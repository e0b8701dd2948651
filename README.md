# acmq-prov-backend — a Dafny model of the provisioning core

The backend provisions ActiveMQ Artemis queues and topics. A
`ProvisionRequest` names the resource, its producers and consumers and,
for a topic, its subscriptions. The backend then rewrites three
configuration files:

- the hieradata `acmq.yaml`, which holds the broker users and their roles;
- the Puppet `init.pp`, which holds class parameters and their validations;
- the `broker.xml.erb` template, which holds the security settings and the addresses.

It also reads these files back into DTOs (users, roles, queues and topics).

This project models that core in Dafny. Each Java service has its own
module, with the same branches, constants and error cases as the Java:

| Module | Java source | What it models |
|---|---|---|
| `Request` | `ProvisionRequest` | the request record and its field constraints |
| `AcmqYaml` | `AcmqYamlService` | the user and role ledger |
| `AcmqYamlSections` | `AcmqYamlService` | the section rewriting |
| `InitPp` | `InitPpService` | the `init.pp` update |
| `BrokerXml` | `BrokerXmlTemplateService` | the security-setting generators, existence checks and role replacement |
| `BrokerXmlInsert` | `BrokerXmlTemplateService` | insertion and indentation |
| `BrokerXmlAddress` | `BrokerXmlTemplateService` | address entries and subscription queues |
| `HieradataTemplate` | `HieradataTemplateService` | the generated hieradata content |
| `Provisioning` | `ProvisioningService` | the pure helpers |
| `ProvisioningFlow` | `ProvisioningService` | the commit messages, the pull-request description and the two repository updates |

`ConfigParserService` is split across four modules:

- `ConfigParser`: names, teams and prefixes;
- `ConfigLedger`: `parseUsers` and `parseRoles`;
- `ConfigCatalogue`: the queue and topic parsers;
- `ConfigUsers`: the user DTOs.

`ConfigRoundTrip` joins the two sides: the queue or topic blocks that
`BrokerXmlTemplateService` generates parse back, through the
`ConfigCatalogue` parsers, to that queue or topic with its holders and its
legacy subscription.

Shared modules:

- `Text`: the Java `String` and regex operations used, written out as functions on `seq<char>`;
- `Identifiers`: variable and namespace names;
- `OrderedSet` and `OrderedMap`: `LinkedHashSet` and `LinkedHashMap` with insertion order;
- `Wrappers`: `Option` and `Result`.

How the Java becomes Dafny:

- **Regular expressions.** Each one becomes a per-position matcher and a first-occurrence scan. Greedy runs are maximal, and where backtracking matters the choice is spelled out.
- **StringBuilder and `for` loops.** These become methods with loops, proved equal to a specification function. Lemmas then state the properties of that function:
  - read-back: what a generator writes, the matching reader or parser reads back;
  - existence: what an insertion adds, the existence check then finds;
  - what is kept: the text outside a rewritten region is unchanged;
  - settling: a second run with the same request changes nothing.
- **Repositories.** The file contents are inputs. The new contents and the commit messages are outputs.

## Model

| member | source | states |
|---|---|---|
| Request.ValidNameVariable | acmq-prov-backend/src/main/java/com/company/mqprovisioning/dto/ProvisionRequest.java:26-30 | a name matching `[a-zA-Z0-9._-]+` gives a non-empty Puppet identifier made of word chars and a namespace prefix without '.' |
| Request.NameIsTicketNumberIff | acmq-prov-backend/src/main/java/com/company/mqprovisioning/dto/ProvisionRequest.java:26-73 | a valid name is a valid ticket number exactly when it has no '.' and at most 50 chars |
| Request.NewOnly | acmq-prov-backend/src/main/java/com/company/mqprovisioning/dto/ProvisionRequest.java:84-91 | the result holds only `isNew` entries of the list, and every `isNew` entry of the list is in it |
| Request.NewOnlyIsFilter | acmq-prov-backend/src/main/java/com/company/mqprovisioning/dto/ProvisionRequest.java:84-91 | `filter(isNew)` is exact: the result is the list read at the ascending positions of exactly its `isNew` entries (same length, same order) |
| Request.NewOnlyAppend | acmq-prov-backend/src/main/java/com/company/mqprovisioning/dto/ProvisionRequest.java:84-91 | the filter keeps list order: filtering a concatenation concatenates the filtered parts |
| Request.NewSubscriptions | acmq-prov-backend/src/main/java/com/company/mqprovisioning/dto/ProvisionRequest.java:84-91 | `getNewSubscriptions`: empty when the list is absent; otherwise exactly the `isNew` entries of the list |
| Request.HasNewSubscriptionsIff | acmq-prov-backend/src/main/java/com/company/mqprovisioning/dto/ProvisionRequest.java:101-106 | `hasNewSubscriptions` holds exactly when the list is present and some entry is flagged new |
| Request.HasConsumersOrProducersIff | acmq-prov-backend/src/main/java/com/company/mqprovisioning/dto/ProvisionRequest.java:75-78 | `hasConsumersOrProducers` holds exactly when the consumer and producer lists together (absent counts as empty) hold an entry |
| Request.NewImpliesHasSubscriptions | acmq-prov-backend/src/main/java/com/company/mqprovisioning/dto/ProvisionRequest.java:93-106 | a request with a new subscription has subscriptions; a present list whose entries are all old gives no new subscription |
| Identifiers.ToVariableName | acmq-prov-backend/src/main/java/com/company/mqprovisioning/service/template/BrokerXmlTemplateService.java:674-677 | `replaceAll("[.\\-]", "_")`: same length, each '.' and '-' becomes '_', every other char is kept; no '.' or '-' remains |
| Identifiers.ToVariableNameIdempotent | acmq-prov-backend/src/main/java/com/company/mqprovisioning/service/template/BrokerXmlTemplateService.java:674-677 | converting a converted name changes nothing |
| Identifiers.ToVariableNameCollides | acmq-prov-backend/src/main/java/com/company/mqprovisioning/service/template/BrokerXmlTemplateService.java:674-677 | two names get the same variable exactly when they have equal length and agree at every index up to swapping '.', '-' and '_' |
| Identifiers.ToVariableNameIsIdentifier | acmq-prov-backend/src/main/java/com/company/mqprovisioning/service/template/InitPpService.java:118-121 | a name over `[a-zA-Z0-9._-]` becomes a word-char identifier |
| Identifiers.NamespacePrefix | acmq-prov-backend/src/main/java/com/company/mqprovisioning/service/template/BrokerXmlTemplateService.java:667-672 | `extractNamespacePrefix`: a prefix of the name without '.'; either the whole name or followed by the first '.' |
| Identifiers.NamespacePrefixOfDotted | acmq-prov-backend/src/main/java/com/company/mqprovisioning/service/template/AcmqYamlService.java:265-273 | `extractQueuePrefix` of `ns + "." + rest` with a dot-free `ns` is `ns` |
| Identifiers.DisplayName | acmq-prov-backend/src/main/java/com/company/mqprovisioning/service/ConfigParserService.java:315 | `replace("_", ".")`: same length, each '_' becomes '.', other chars kept |
| Identifiers.DisplayNameInjective | acmq-prov-backend/src/main/java/com/company/mqprovisioning/service/ConfigParserService.java:315 | dot-free variable names keep distinct display names |
| Identifiers.DisplayNameOfVariableName | acmq-prov-backend/src/main/java/com/company/mqprovisioning/service/ConfigParserService.java:492 | a name without '-' or '_' comes back from its variable spelling through the display name |
| Request.TicketNumberIsName | acmq-prov-backend/src/main/java/com/company/mqprovisioning/dto/ProvisionRequest.java:69-73 | every valid ticket number is a valid name |
| Request.NewPositions | acmq-prov-backend/src/main/java/com/company/mqprovisioning/dto/ProvisionRequest.java:84-91 | the ascending indices of the entries flagged `isNew`, all of them and only them |
| AcmqYaml.HeaderLen | acmq-prov-backend/src/main/java/com/company/mqprovisioning/service/template/AcmqYamlService.java:155 | `KEY:\s*\n` before an indented item: the header ends just after a newline and the next char is whitespace (what the read-back lemmas below rely on) |
| AcmqYaml.UserItemLen | acmq-prov-backend/src/main/java/com/company/mqprovisioning/service/template/AcmqYamlService.java:155 | one repetition of `\s+-\s+'[^']*'\s*\n` is a non-empty prefix of the text; which prefix is pinned down by `AcmqYamlSections.UserItemsLen` |
| AcmqYaml.RoleItemLen | acmq-prov-backend/src/main/java/com/company/mqprovisioning/service/template/AcmqYamlService.java:183 | one repetition of `\s+-\s+group:.*\n\s+users:.*\n` is a non-empty prefix of the text; pinned down on written entries by `AcmqYamlSections.RoleItemLenIs` |
| AcmqYaml.ItemsLen | acmq-prov-backend/src/main/java/com/company/mqprovisioning/service/template/AcmqYamlService.java:155 | the greedy `(...)+` loop consumes a prefix of the text; on generated sections see `AcmqYamlSections.UserItemsLen` and `RoleItemsLen` |
| AcmqYaml.SectionMatch | acmq-prov-backend/src/main/java/com/company/mqprovisioning/service/template/AcmqYamlService.java:154-157 | a section match at the start puts group 1 strictly inside the match |
| AcmqYaml.FindSection | acmq-prov-backend/src/main/java/com/company/mqprovisioning/service/template/AcmqYamlService.java:159-160 | `matcher.find()`: the match start, group start and match end are ordered and within the text; a generated section is found at its start (`AcmqYamlSections.GeneratedSectionFound`) |
| AcmqYaml.QuotedUserAt | acmq-prov-backend/src/main/java/com/company/mqprovisioning/service/template/AcmqYamlService.java:163-168 | `-\s+'([^']*)'` consumes a non-empty prefix; on a written line it captures exactly the user (`AcmqYamlSections.QuotedUserAtLine`) |
| AcmqYaml.QuotedRoleAt | acmq-prov-backend/src/main/java/com/company/mqprovisioning/service/template/AcmqYamlService.java:192-202 | `-\s+group:\s+'([^']*)'\s*\n\s+users:\s+'([^']*)'` consumes a non-empty prefix; on a written entry it captures exactly that entry (`AcmqYamlSections.QuotedRoleAtLine`) |
| AcmqYaml.WithPersonalGroup | acmq-prov-backend/src/main/java/com/company/mqprovisioning/service/template/AcmqYamlService.java:80-91 | `createPersonalGroupIfNotExists`: the old entries are kept as a prefix, the user's group exists afterwards, and one entry is appended exactly when the group was missing |
| AcmqYaml.FirstGroupIndex | acmq-prov-backend/src/main/java/com/company/mqprovisioning/service/template/AcmqYamlService.java:314-316 | `filter(...).findFirst()`: the index of an entry of the group with no earlier entry of it; none exactly when no entry has the group |
| AcmqYaml.MergedMembers | acmq-prov-backend/src/main/java/com/company/mqprovisioning/service/template/AcmqYamlService.java:321-335 | the old members (split at ',', deduplicated) stay first and in order, every user to add is a member, nothing else is, and no member repeats |
| AcmqYaml.SubscriberSet | acmq-prov-backend/src/main/java/com/company/mqprovisioning/service/template/AcmqYamlService.java:97-132 | the subscriber set is duplicate-free and holds exactly the non-empty subscribers of the scanned subscriptions |
| AcmqYaml.SubscriberSetStep | acmq-prov-backend/src/main/java/com/company/mqprovisioning/service/template/AcmqYamlService.java:105-127 | each subscription adds its subscriber to the `LinkedHashSet` unless that subscriber is empty |
| AcmqYaml.AddCandidatesUsers | acmq-prov-backend/src/main/java/com/company/mqprovisioning/service/template/AcmqYamlService.java:56-64 | the candidate loop appends exactly the candidates that are not users yet, in candidate order, once each |
| AcmqYaml.AddCandidatesRoles | acmq-prov-backend/src/main/java/com/company/mqprovisioning/service/template/AcmqYamlService.java:56-64 | the loop only appends roles, each the personal group (`group == users`) of a candidate it added, and every added user ends with a group |
| AcmqYaml.FirstGroupIndexSameGroups | acmq-prov-backend/src/main/java/com/company/mqprovisioning/service/template/AcmqYamlService.java:314-316 | a roles list with the same group names on the prefix and no extra entry of the group finds the same first entry |
| AcmqYaml.UpdatedRolesFrame | acmq-prov-backend/src/main/java/com/company/mqprovisioning/service/template/AcmqYamlService.java:312-345 | `updateOrCreateRole` keeps every group name in place, changes at most the first entry of the group, and otherwise appends one entry for it; the group exists afterwards |
| AcmqYaml.MembersFrame | acmq-prov-backend/src/main/java/com/company/mqprovisioning/service/template/AcmqYamlService.java:312-345 | updating one group leaves the members and the existence of every other group unchanged |
| AcmqYaml.UpdatedRolesMembers | acmq-prov-backend/src/main/java/com/company/mqprovisioning/service/template/AcmqYamlService.java:312-345 | after the update the group lists its old members, deduplicated and in order, followed by the users to add that were not members yet |
| AcmqYaml.UpdatedRolesMembersAt | acmq-prov-backend/src/main/java/com/company/mqprovisioning/service/template/AcmqYamlService.java:318-338 | the existing-group branch: old members deduplicated, then the new users |
| AcmqYaml.UpdatedRolesMembersAppended | acmq-prov-backend/src/main/java/com/company/mqprovisioning/service/template/AcmqYamlService.java:339-344 | the new-group branch: the appended entry lists exactly the users to add |
| AcmqYaml.UpdatedRolesContains | acmq-prov-backend/src/main/java/com/company/mqprovisioning/service/template/AcmqYamlService.java:312-345 | every non-empty, comma-free user passed in is a member of the group afterwards |
| AcmqYaml.RoleGroupsSpec | acmq-prov-backend/src/main/java/com/company/mqprovisioning/service/template/AcmqYamlService.java:276-310 | `<prefix>-admin` lists `admin`; `<prefix>-read` changes only when consumers or subscribers are given and then lists them; `<prefix>-write` changes only when producers are given and then lists them; no other group changes |
| AcmqYaml.CandidateUsersOrder | acmq-prov-backend/src/main/java/com/company/mqprovisioning/service/template/AcmqYamlService.java:40-52 | the `newUsers` set holds producers, then consumers, then subscribers, each once; its members are exactly those of the three lists |
| AcmqYaml.Ledger.constructor | acmq-prov-backend/src/main/java/com/company/mqprovisioning/service/template/AcmqYamlService.java:34-35 | the ledger starts with the users and roles read from the file |
| AcmqYaml.Ledger.AddUser | acmq-prov-backend/src/main/java/com/company/mqprovisioning/service/template/AcmqYamlService.java:58 | `users.add(user)`: the user is appended and the roles are unchanged |
| AcmqYaml.Ledger.CreatePersonalGroupIfNotExists | acmq-prov-backend/src/main/java/com/company/mqprovisioning/service/template/AcmqYamlService.java:80-91 | the roles become `WithPersonalGroup` of the old roles; the users are unchanged |
| AcmqYaml.Ledger.AddCandidateUsers | acmq-prov-backend/src/main/java/com/company/mqprovisioning/service/template/AcmqYamlService.java:56-64 | the new state is the candidate fold applied to the old state (specified by `AddCandidatesUsers` and `AddCandidatesRoles`) |
| AcmqYaml.Ledger.UpdateOrCreateRole | acmq-prov-backend/src/main/java/com/company/mqprovisioning/service/template/AcmqYamlService.java:312-345 | the roles become `UpdatedRoles` of the old roles (specified by `UpdatedRolesFrame` and `UpdatedRolesMembers`); the users are unchanged |
| AcmqYaml.Ledger.UpdateRoleGroups | acmq-prov-backend/src/main/java/com/company/mqprovisioning/service/template/AcmqYamlService.java:276-310 | the roles become `RoleGroups` of the old roles (specified by `RoleGroupsSpec`); the users are unchanged |
| AcmqYaml.ExtractSubscribers | acmq-prov-backend/src/main/java/com/company/mqprovisioning/service/template/AcmqYamlService.java:97-132 | the loop computes the subscriber set of the new subscriptions, or of all subscriptions when none is new |
| AcmqYaml.UserLinesAppend | acmq-prov-backend/src/main/java/com/company/mqprovisioning/service/template/AcmqYamlService.java:216-218 | the users written for a concatenated list are the two lists' lines, one after the other |
| AcmqYaml.RoleLinesAppend | acmq-prov-backend/src/main/java/com/company/mqprovisioning/service/template/AcmqYamlService.java:244-247 | the entries written for a concatenated list are the two lists' lines, one after the other |
| AcmqYaml.BuildUsersSection | acmq-prov-backend/src/main/java/com/company/mqprovisioning/service/template/AcmqYamlService.java:213-219 | the StringBuilder loop writes the key line, one `  - 'user'` line per user and a blank line |
| AcmqYaml.BuildRolesSection | acmq-prov-backend/src/main/java/com/company/mqprovisioning/service/template/AcmqYamlService.java:241-247 | the StringBuilder loop writes the key line and one group line plus users line per entry |
| AcmqYaml.UpdateAcmqYaml | acmq-prov-backend/src/main/java/com/company/mqprovisioning/service/template/AcmqYamlService.java:26-74 | blank content fails, anything else succeeds; the result is the reconciled text (candidates, personal groups, namespace groups, both sections rewritten) |
| AcmqYamlSections.ReplaceSectionKeeps | acmq-prov-backend/src/main/java/com/company/mqprovisioning/service/template/AcmqYamlService.java:212-262 | a found section is replaced in place: the text before the match and after it are kept and the new section sits between them, starting at the key; a missing section is appended after the whole text under its comment |
| AcmqYamlSections.QuotedUsersLines | acmq-prov-backend/src/main/java/com/company/mqprovisioning/service/template/AcmqYamlService.java:163-168 | the user scan over written lines yields exactly the users, in order, then whatever the following text yields |
| AcmqYamlSections.UserItemsLen | acmq-prov-backend/src/main/java/com/company/mqprovisioning/service/template/AcmqYamlService.java:212-219 | the item loop consumes exactly the written user lines and the blank line after them, when the text after them starts no user item and has no line break in its leading whitespace |
| AcmqYamlSections.HeaderBeforeItem | acmq-prov-backend/src/main/java/com/company/mqprovisioning/service/template/AcmqYamlService.java:155 | `KEY:\s*\n` before an indented item ends just after the newline following the colon |
| AcmqYamlSections.UsersSectionFound | acmq-prov-backend/src/main/java/com/company/mqprovisioning/service/template/AcmqYamlService.java:212-219 | in a generated users section followed by such text, `find()` reports the match at the start and group 1 as exactly the user lines and the blank line |
| AcmqYamlSections.UsersSectionReadBack | acmq-prov-backend/src/main/java/com/company/mqprovisioning/service/template/AcmqYamlService.java:150-235 | a users section written (a non-empty list of quote-free users) anywhere in a text, after any prefix, reads back exactly, in order, when its key is the first occurrence of `users:` and the text after it starts no user item |
| AcmqYamlSections.RoleItemLenIs | acmq-prov-backend/src/main/java/com/company/mqprovisioning/service/template/AcmqYamlService.java:240-247 | a written entry whose values hold no quote or line break is exactly one repetition of the roles item pattern |
| AcmqYamlSections.QuotedRolesLines | acmq-prov-backend/src/main/java/com/company/mqprovisioning/service/template/AcmqYamlService.java:192-202 | the entry scan over written entries yields exactly the entries, in order, then whatever the following text yields |
| AcmqYamlSections.RoleItemsLen | acmq-prov-backend/src/main/java/com/company/mqprovisioning/service/template/AcmqYamlService.java:240-247 | the item loop consumes exactly the written entries when the text after them starts no roles item |
| AcmqYamlSections.RolesSectionFound | acmq-prov-backend/src/main/java/com/company/mqprovisioning/service/template/AcmqYamlService.java:240-247 | in a generated roles section, `find()` reports the match at the start and group 1 as exactly the entry lines |
| AcmqYamlSections.RolesSectionReadBack | acmq-prov-backend/src/main/java/com/company/mqprovisioning/service/template/AcmqYamlService.java:178-263 | a roles section written (a non-empty list of entries without quotes or line breaks) anywhere in a text reads back exactly, in order, when its key is the first occurrence of `roles:` and the text after it starts no roles item |
| AcmqYamlSections.GeneratedSectionFound | acmq-prov-backend/src/main/java/com/company/mqprovisioning/service/template/AcmqYamlService.java:154-161 | a generated section (key, then items) at the start of the text is what `find()` reports, its group being exactly the items |
| AcmqYamlSections.ExtractedUsersAt | acmq-prov-backend/src/main/java/com/company/mqprovisioning/service/template/AcmqYamlService.java:150-173 | `extractUsersList` reads the quoted users of the group `find()` reports |
| AcmqYamlSections.ExtractedRolesAt | acmq-prov-backend/src/main/java/com/company/mqprovisioning/service/template/AcmqYamlService.java:178-207 | `extractRolesList` reads the entries of the group `find()` reports |
| AcmqYamlSections.SectionFoundAtOffset | acmq-prov-backend/src/main/java/com/company/mqprovisioning/service/template/AcmqYamlService.java:154-161 | a section that `find()` reports at the start of a suffix is reported at that offset of the whole text when its key does not occur earlier |
| AcmqYamlSections.FoundSectionTail | acmq-prov-backend/src/main/java/com/company/mqprovisioning/service/template/AcmqYamlService.java:154-161 | a section `find()` reports starts at its key, and the text after the match starts no further item of the section (the `(...)+` loop is greedy) |
| AcmqYamlSections.ReplacedUsersReadBack | acmq-prov-backend/src/main/java/com/company/mqprovisioning/service/template/AcmqYamlService.java:150-235 | `extractUsersList(replaceUsersSection(content, users))` is `users` for a non-empty quote-free list, whether the section was replaced in place or appended, when the first `users:` in the content is its section or there is none |
| AcmqYamlSections.ReplacedRolesReadBack | acmq-prov-backend/src/main/java/com/company/mqprovisioning/service/template/AcmqYamlService.java:178-263 | `extractRolesList(replaceRolesSection(content, roles))` is `roles` for a non-empty list without quotes or line breaks, replaced in place or appended, when the first `roles:` in the content is its section or there is none |
| AcmqYamlSections.KeyStaysFirst | acmq-prov-backend/src/main/java/com/company/mqprovisioning/service/template/AcmqYamlService.java:227-229 | splicing a text that starts with the key over a stretch starting at the key's first occurrence keeps that occurrence the first |
| BrokerXml.SpacedEnd | acmq-prov-backend/src/main/java/com/company/mqprovisioning/service/template/BrokerXmlTemplateService.java:86-93 | a match of `<security-setting\s+match="…">` at an index ends past the open literal and within the text |
| BrokerXml.OccursFromWitness | acmq-prov-backend/src/main/java/com/company/mqprovisioning/service/template/BrokerXmlTemplateService.java:82-98 | `matcher.find()` succeeds only where the pattern matches (the search is sound) |
| BrokerXml.OccursFromAt | acmq-prov-backend/src/main/java/com/company/mqprovisioning/service/template/BrokerXmlTemplateService.java:82-98 | a match at or after the search start is found (the search is complete) |
| BrokerXml.SpacedLiteral | acmq-prov-backend/src/main/java/com/company/mqprovisioning/service/template/BrokerXmlTemplateService.java:549 | the open tag as the generators write it, with one space, is a match of the existence pattern |
| BrokerXml.OccursAtTag | acmq-prov-backend/src/main/java/com/company/mqprovisioning/service/template/BrokerXmlTemplateService.java:82-98 | any text containing a generated open tag passes the existence check for that tag |
| BrokerXml.AdminThenRoles | acmq-prov-backend/src/main/java/com/company/mqprovisioning/service/template/BrokerXmlTemplateService.java:552-553 | the admin role followed by what `appendRoles` writes is the comma-joined list of admin and roles |
| BrokerXml.CommaRolesAppend | acmq-prov-backend/src/main/java/com/company/mqprovisioning/service/template/BrokerXmlTemplateService.java:655-661 | appending two role lists in turn writes their concatenation |
| BrokerXml.AppendRoles | acmq-prov-backend/src/main/java/com/company/mqprovisioning/service/template/BrokerXmlTemplateService.java:655-661 | `appendRoles` appends `,role` per role, in order; nothing for an absent or empty list |
| BrokerXml.WritePermission | acmq-prov-backend/src/main/java/com/company/mqprovisioning/service/template/BrokerXmlTemplateService.java:600-603 | a permission line holds the admin role then the roles of up to two lists, comma-separated |
| BrokerXml.AppendGrants | acmq-prov-backend/src/main/java/com/company/mqprovisioning/service/template/BrokerXmlTemplateService.java:551-564 | the send, consume and browse lines are appended to the lines written so far |
| BrokerXml.AppendCreateDelete | acmq-prov-backend/src/main/java/com/company/mqprovisioning/service/template/BrokerXmlTemplateService.java:599-624 | a topic's create and delete permission lines are appended to the lines written so far |
| BrokerXml.GenerateQueueSetting | acmq-prov-backend/src/main/java/com/company/mqprovisioning/service/template/BrokerXmlTemplateService.java:544-568 | `generateQueueSecuritySetting` writes exactly the queue block's lines joined by newlines |
| BrokerXml.GenerateTopicMain | acmq-prov-backend/src/main/java/com/company/mqprovisioning/service/template/BrokerXmlTemplateService.java:578-626 | the topic's own block, as its lines joined by newlines |
| BrokerXml.WriteSubscriptionSetting | acmq-prov-backend/src/main/java/com/company/mqprovisioning/service/template/BrokerXmlTemplateService.java:632-646 | a subscription block (open tag with `::`, consume, browse, close) given its role list |
| BrokerXml.GenerateTopicSettings | acmq-prov-backend/src/main/java/com/company/mqprovisioning/service/template/BrokerXmlTemplateService.java:576-650 | `generateTopicSecuritySettings`: the topic block, then the legacy subscription's block when a legacy name is given |
| BrokerXml.GenerateResourceSetting | acmq-prov-backend/src/main/java/com/company/mqprovisioning/service/template/BrokerXmlTemplateService.java:532-539 | the topic generator for resource type `topic`, the queue generator otherwise |
| BrokerXml.ResourceSettingEnds | acmq-prov-backend/src/main/java/com/company/mqprovisioning/service/template/BrokerXmlTemplateService.java:544-650 | a generated resource block starts with '<' and ends with '>' |
| BrokerXml.ResourceSettingRecognised | acmq-prov-backend/src/main/java/com/company/mqprovisioning/service/template/BrokerXmlTemplateService.java:82-98 | placed in any text, the generated block passes the resource check, and for a topic the legacy subscription's check |
| BrokerXml.NamespaceSettingIn | acmq-prov-backend/src/main/java/com/company/mqprovisioning/service/template/BrokerXmlTemplateService.java:494-526 | a text holding the generated namespace block passes the namespace check |
| BrokerXml.ResourceSettingIn | acmq-prov-backend/src/main/java/com/company/mqprovisioning/service/template/BrokerXmlTemplateService.java:82-98 | a text holding the generated resource block passes the resource check, and for a topic the legacy subscription check |
| BrokerXml.GenerateSecuritySettingsToAdd | acmq-prov-backend/src/main/java/com/company/mqprovisioning/service/template/BrokerXmlTemplateService.java:34-63 | the StringBuilder code computes `SecuritySettingsToAdd` (the blocks that are missing, trimmed) |
| BrokerXml.TrimBlocks | acmq-prov-backend/src/main/java/com/company/mqprovisioning/service/template/BrokerXmlTemplateService.java:62 | the final `trim()` removes only the newline after a lone namespace block |
| BrokerXml.SettingsToAddCases | acmq-prov-backend/src/main/java/com/company/mqprovisioning/service/template/BrokerXmlTemplateService.java:34-63 | the result case by case: the namespace block when missing, a newline only between two missing blocks, the resource block when missing |
| BrokerXml.SettingsToAddRecognised | acmq-prov-backend/src/main/java/com/company/mqprovisioning/service/template/BrokerXmlTemplateService.java:34-98 | nothing is added when both blocks exist; whatever text the result is placed in then passes both checks, so a second run adds nothing |
| BrokerXml.FirstAdminIndex | acmq-prov-backend/src/main/java/com/company/mqprovisioning/service/template/BrokerXmlTemplateService.java:193-201 | the first index at or after `from` whose trimmed role ends in `-admin`; none when no such role follows |
| BrokerXml.ExistingAdmin | acmq-prov-backend/src/main/java/com/company/mqprovisioning/service/template/BrokerXmlTemplateService.java:191-201 | the kept admin role ends in `-admin` and is made of chars of the existing role list |
| BrokerXml.RoleSetSpec | acmq-prov-backend/src/main/java/com/company/mqprovisioning/service/template/BrokerXmlTemplateService.java:203-214 | the role set is duplicate-free, holds exactly the new roles and the kept admin role, the admin role first, and is no longer than the two together |
| BrokerXml.WithRoles | acmq-prov-backend/src/main/java/com/company/mqprovisioning/service/template/BrokerXmlTemplateService.java:172-185 | without a permission of that type the text is returned unchanged |
| BrokerXml.KeptAdmin | acmq-prov-backend/src/main/java/com/company/mqprovisioning/service/template/BrokerXmlTemplateService.java:191-201 | the admin-role loop computes `ExistingAdmin` (first trimmed `-admin` entry, `break` at the first) |
| BrokerXml.ReplacePermissionRoles | acmq-prov-backend/src/main/java/com/company/mqprovisioning/service/template/BrokerXmlTemplateService.java:172-220 | `replacePermissionRoles` computes `RolesReplaced` |
| BrokerXml.PermissionMatch | acmq-prov-backend/src/main/java/com/company/mqprovisioning/service/template/BrokerXmlTemplateService.java:174-180 | a permission match's role list lies inside the match and is closed by a quote |
| BrokerXml.PermissionLineMatch | acmq-prov-backend/src/main/java/com/company/mqprovisioning/service/template/BrokerXmlTemplateService.java:552-554 | a generated permission line is a permission match whose role list is exactly the one written |
| BrokerXml.RolesReplacedQuoteFree | acmq-prov-backend/src/main/java/com/company/mqprovisioning/service/template/BrokerXmlTemplateService.java:203-215 | the role list written holds no quote when the new roles hold none |
| BrokerXml.WithRolesReadBack | acmq-prov-backend/src/main/java/com/company/mqprovisioning/service/template/BrokerXmlTemplateService.java:172-220 | after the replacement the same permission, at the same index, reads back the new role list; the text before and after the role list is kept |
| BrokerXml.ResourceBlockMatch | acmq-prov-backend/src/main/java/com/company/mqprovisioning/service/template/BrokerXmlTemplateService.java:126-131 | the lazy DOTALL block match: the inner text starts after the open tag and ends at the first close tag |
| BrokerXml.FirstResourceBlockFound | acmq-prov-backend/src/main/java/com/company/mqprovisioning/service/template/BrokerXmlTemplateService.java:132-141 | what `find()` reports is a block match at the reported index |
| BrokerXml.WithInnerSplice | acmq-prov-backend/src/main/java/com/company/mqprovisioning/service/template/BrokerXmlTemplateService.java:160-162 | replacing the block by its own tags around a new inner text changes only the inner text |
| BrokerXml.UpdateExistingSecuritySetting | acmq-prov-backend/src/main/java/com/company/mqprovisioning/service/template/BrokerXmlTemplateService.java:114-166 | the method computes `SettingUpdated` |
| BrokerXml.SettingUpdatedIs | acmq-prov-backend/src/main/java/com/company/mqprovisioning/service/template/BrokerXmlTemplateService.java:124-162 | with a list given and the block found, the update replaces that block's inner text by the updated inner text |
| BrokerXml.UpdateInner | acmq-prov-backend/src/main/java/com/company/mqprovisioning/service/template/BrokerXmlTemplateService.java:143-158 | send roles are replaced only when producers are given; consume and browse only when consumers are given |
| BrokerXml.SettingUpdatedUnchanged | acmq-prov-backend/src/main/java/com/company/mqprovisioning/service/template/BrokerXmlTemplateService.java:114-137 | without producers and consumers, or without the resource's block, the text is returned unchanged |
| BrokerXml.SettingUpdatedSplice | acmq-prov-backend/src/main/java/com/company/mqprovisioning/service/template/BrokerXmlTemplateService.java:124-166 | only the inner text of the first block changes: everything up to its open tag's end and from its close tag on is kept |
| BrokerXml.SettingUpdatedStillExists | acmq-prov-backend/src/main/java/com/company/mqprovisioning/service/template/BrokerXmlTemplateService.java:114-166 | after an update the resource's block still passes the resource check |
| BrokerXmlAddress.QueueLines | acmq-prov-backend/src/main/java/com/company/mqprovisioning/service/template/BrokerXmlTemplateService.java:860-865 | one multicast queue line per new subscription, as many lines as subscriptions |
| BrokerXmlAddress.QueueLinesAt | acmq-prov-backend/src/main/java/com/company/mqprovisioning/service/template/BrokerXmlTemplateService.java:861-864 | the k-th queue line names the k-th subscription's variable |
| BrokerXmlAddress.GenerateAddressEntry | acmq-prov-backend/src/main/java/com/company/mqprovisioning/service/template/BrokerXmlTemplateService.java:844-878 | `generateAddressEntry` computes the entry `AddressEntry`: open tag, routing block, close tag |
| BrokerXmlAddress.AppendAnycastBlock | acmq-prov-backend/src/main/java/com/company/mqprovisioning/service/template/BrokerXmlTemplateService.java:851-854 | the queue branch appends the anycast block around the queue of the same name |
| BrokerXmlAddress.AppendMulticastBlock | acmq-prov-backend/src/main/java/com/company/mqprovisioning/service/template/BrokerXmlTemplateService.java:855-873 | the topic branch appends the multicast block around the topic's queue lines |
| BrokerXmlAddress.AppendQueueLines | acmq-prov-backend/src/main/java/com/company/mqprovisioning/service/template/BrokerXmlTemplateService.java:861-864 | the loop over the new subscriptions appends one queue line each, in order |
| BrokerXmlAddress.EntryClosed | acmq-prov-backend/src/main/java/com/company/mqprovisioning/service/template/BrokerXmlTemplateService.java:875-877 | closing the address tag completes the entry |
| BrokerXmlAddress.AddressEntryRecognised | acmq-prov-backend/src/main/java/com/company/mqprovisioning/service/template/BrokerXmlTemplateService.java:683-704 | placed in any text, the entry passes `checkAddressExists`, so a second run adds no address |
| BrokerXmlAddress.AddressEntryHasQueues | acmq-prov-backend/src/main/java/com/company/mqprovisioning/service/template/BrokerXmlTemplateService.java:726-748 | a topic's entry passes `checkSubscriptionQueueExistsInAddress` for every new subscription |
| BrokerXmlAddress.QueueLineOccurs | acmq-prov-backend/src/main/java/com/company/mqprovisioning/service/template/BrokerXmlTemplateService.java:736-742 | a generated multicast queue line is what the queue check looks for |
| BrokerXmlAddress.QueueEntryAnycast | acmq-prov-backend/src/main/java/com/company/mqprovisioning/service/template/BrokerXmlTemplateService.java:851-854 | a queue's entry has five lines, routes anycast to the queue of its own name and has no multicast line |
| BrokerXmlAddress.TopicEntryQueues | acmq-prov-backend/src/main/java/com/company/mqprovisioning/service/template/BrokerXmlTemplateService.java:855-873 | a topic's entry holds exactly its queue lines between `<multicast>` and `</multicast>` |
| BrokerXmlAddress.MulticastMatch | acmq-prov-backend/src/main/java/com/company/mqprovisioning/service/template/BrokerXmlTemplateService.java:782-787 | a match of the address block pattern: the body starts after `<multicast>` and ends at the first `</multicast>` |
| BrokerXmlAddress.FirstMulticastBlock | acmq-prov-backend/src/main/java/com/company/mqprovisioning/service/template/BrokerXmlTemplateService.java:787-793 | what `find()` reports is a match at the reported index |
| BrokerXmlAddress.AddSubscriptionQueueToExistingAddress | acmq-prov-backend/src/main/java/com/company/mqprovisioning/service/template/BrokerXmlTemplateService.java:772-825 | the method computes the addition with the indent regex as written (`^(\s*)<queue`) |
| BrokerXmlAddress.QueueAddedUnchanged | acmq-prov-backend/src/main/java/com/company/mqprovisioning/service/template/BrokerXmlTemplateService.java:772-793 | an empty subscription name, or a topic without an address/multicast block, leaves the text unchanged |
| BrokerXmlAddress.QueueAddedKeeps | acmq-prov-backend/src/main/java/com/company/mqprovisioning/service/template/BrokerXmlTemplateService.java:795-818 | only the first block's body changes; the text before it and from its `</multicast>` on is kept, and the new body starts with the old one stripped of trailing whitespace |
| BrokerXmlAddress.QueueAddedRecognised | acmq-prov-backend/src/main/java/com/company/mqprovisioning/service/template/BrokerXmlTemplateService.java:726-825 | after the addition `checkSubscriptionQueueExistsInAddress` holds, so a second run adds nothing |
| BrokerXmlAddress.QueueIndentOneLine | acmq-prov-backend/src/main/java/com/company/mqprovisioning/service/template/BrokerXmlTemplateService.java:800-805 | the corrected indent is spaces and tabs only, so the new queue tag begins on its own line |
| BrokerXmlAddress.UpdatedMulticastNoBlankLine | acmq-prov-backend/src/main/java/com/company/mqprovisioning/service/template/BrokerXmlTemplateService.java:808-813 | with the corrected indent the new queue line follows the last non-blank line after exactly one line break |
| BrokerXmlAddress.QueueAddedNoBlankLine | acmq-prov-backend/src/main/java/com/company/mqprovisioning/service/template/BrokerXmlTemplateService.java:772-825 | with the corrected indent the added queue line follows the kept body after exactly one line break |
| BrokerXmlAddress.QueueIndentAsWrittenBlankLine | acmq-prov-backend/src/main/java/com/company/mqprovisioning/service/template/BrokerXmlTemplateService.java:801 | as written, `\s*` takes the line break before the first queue into the indent, so the added queue line is preceded by an empty line |
| BrokerXmlInsert.GenerateSubscriptionSecuritySetting | acmq-prov-backend/src/main/java/com/company/mqprovisioning/service/template/BrokerXmlTemplateService.java:321-350 | `generateSubscriptionSecuritySetting` computes `SubscriptionSetting` |
| BrokerXmlInsert.SubscriptionSettingEmpty | acmq-prov-backend/src/main/java/com/company/mqprovisioning/service/template/BrokerXmlTemplateService.java:321-350 | the block is empty exactly when the subscription has no name; otherwise it opens with '<' and closes with '>' |
| BrokerXmlInsert.SubscriptionSettingRecognised | acmq-prov-backend/src/main/java/com/company/mqprovisioning/service/template/BrokerXmlTemplateService.java:252-275 | placed in any text, the block passes `checkSubscriptionSecuritySettingExists` |
| BrokerXmlInsert.PermissionLineIn | acmq-prov-backend/src/main/java/com/company/mqprovisioning/service/template/BrokerXmlTemplateService.java:172-185 | a generated permission line with a quote-free role list reads back as that list, in any text |
| BrokerXmlInsert.PartsReadBack | acmq-prov-backend/src/main/java/com/company/mqprovisioning/service/template/BrokerXmlTemplateService.java:174-185 | a matching head, a quote-free role list and a matching tail read back as the list |
| BrokerXmlInsert.RolesAtSpan | acmq-prov-backend/src/main/java/com/company/mqprovisioning/service/template/BrokerXmlTemplateService.java:174-185 | a permission match reads back as the text between its role list's bounds |
| BrokerXmlInsert.SubscriberRolesQuoteFree | acmq-prov-backend/src/main/java/com/company/mqprovisioning/service/template/BrokerXmlTemplateService.java:329-342 | no quote in the name or the subscriber leaves none in the role list |
| BrokerXmlInsert.GrantBlockReadBack | acmq-prov-backend/src/main/java/com/company/mqprovisioning/service/template/BrokerXmlTemplateService.java:335-344 | in a four-line block the consume and browse lines both read back as their role list |
| BrokerXmlInsert.LineInJoin | acmq-prov-backend/src/main/java/com/company/mqprovisioning/service/template/BrokerXmlTemplateService.java:172-185 | a permission line at a known split point reads back as its role list |
| BrokerXmlInsert.SubscriptionSettingGrants | acmq-prov-backend/src/main/java/com/company/mqprovisioning/service/template/BrokerXmlTemplateService.java:321-350 | the consume and browse grants of the block read back as exactly the admin role and the subscriber |
| BrokerXmlInsert.SettingIndentBlank | acmq-prov-backend/src/main/java/com/company/mqprovisioning/service/template/BrokerXmlTemplateService.java:431-442 | a detected security-setting indent is spaces and tabs only |
| BrokerXmlInsert.AddressIndentBlank | acmq-prov-backend/src/main/java/com/company/mqprovisioning/service/ProvisioningService.java:471-484 | a detected address indent is spaces and tabs only |
| BrokerXmlInsert.SettingIndentDefault | acmq-prov-backend/src/main/java/com/company/mqprovisioning/service/template/BrokerXmlTemplateService.java:431-442 | without a security-setting at the start of a line the indent is the default eight spaces |
| BrokerXmlInsert.SettingIndentFirstLine | acmq-prov-backend/src/main/java/com/company/mqprovisioning/service/template/BrokerXmlTemplateService.java:431-442 | a text whose first line is an indented security-setting yields that indent |
| BrokerXmlInsert.TrimmedLines | acmq-prov-backend/src/main/java/com/company/mqprovisioning/service/template/BrokerXmlTemplateService.java:452-453 | every split line trimmed, in order |
| BrokerXmlInsert.IndentedLines | acmq-prov-backend/src/main/java/com/company/mqprovisioning/service/template/BrokerXmlTemplateService.java:458-462 | each trimmed line after the indent chosen for it |
| BrokerXmlInsert.Reindent | acmq-prov-backend/src/main/java/com/company/mqprovisioning/service/template/BrokerXmlTemplateService.java:447-470 | the indentation loop computes `Reindented` over the trimmed lines (blank lines skipped or kept as a newline) |
| BrokerXmlInsert.Piece | acmq-prov-backend/src/main/java/com/company/mqprovisioning/service/template/BrokerXmlTemplateService.java:453-466 | one iteration of the indentation loop writes `LinePiece` for its line |
| BrokerXmlInsert.ReindentedJoin | acmq-prov-backend/src/main/java/com/company/mqprovisioning/service/template/BrokerXmlTemplateService.java:447-470 | without blank lines, re-indenting joins the lines, each after its indent, with newlines: nothing dropped, added or reordered |
| BrokerXmlInsert.ReindentedLines | acmq-prov-backend/src/main/java/com/company/mqprovisioning/service/template/BrokerXmlTemplateService.java:464-466 | before the last line every re-indented line ends with its newline |
| BrokerXmlInsert.IndentedSnoc | acmq-prov-backend/src/main/java/com/company/mqprovisioning/service/template/BrokerXmlTemplateService.java:452-467 | indenting one more line adds that line, indented, at the end |
| BrokerXmlInsert.ApplySecuritySettingIndentation | acmq-prov-backend/src/main/java/com/company/mqprovisioning/service/template/BrokerXmlTemplateService.java:447-470 | `applySecuritySettingIndentation` computes `SubscriptionIndented` |
| BrokerXmlInsert.TrimPlain | acmq-prov-backend/src/main/java/com/company/mqprovisioning/service/template/BrokerXmlTemplateService.java:453 | trimming leaves a plain line as it is |
| BrokerXmlInsert.TrimmedPlain | acmq-prov-backend/src/main/java/com/company/mqprovisioning/service/template/BrokerXmlTemplateService.java:452-453 | trimming leaves plain lines as they are |
| BrokerXmlInsert.ReindentPlainBlock | acmq-prov-backend/src/main/java/com/company/mqprovisioning/service/template/BrokerXmlTemplateService.java:447-470 | plain lines joined with newlines split back into the same lines and are re-indented line for line |
| BrokerXmlInsert.VariableNameOneLine | acmq-prov-backend/src/main/java/com/company/mqprovisioning/service/template/BrokerXmlTemplateService.java:674-677 | a name without a newline gives a variable name without one |
| BrokerXmlInsert.PrefixOneLine | acmq-prov-backend/src/main/java/com/company/mqprovisioning/service/template/BrokerXmlTemplateService.java:667-672 | a name without a newline gives a prefix without one |
| BrokerXmlInsert.TagLinePlain | acmq-prov-backend/src/main/java/com/company/mqprovisioning/service/template/BrokerXmlTemplateService.java:453 | a one-line tag is a plain line |
| BrokerXmlInsert.SubscriptionLinesPlain | acmq-prov-backend/src/main/java/com/company/mqprovisioning/service/template/BrokerXmlTemplateService.java:321-350 | the subscription block has four lines, all plain, when the names and subscriber are one line each |
| BrokerXmlInsert.SubscriptionOpenPlain | acmq-prov-backend/src/main/java/com/company/mqprovisioning/service/template/BrokerXmlTemplateService.java:335-336 | the subscription block's open tag is a plain line |
| BrokerXmlInsert.PermissionLinePlain | acmq-prov-backend/src/main/java/com/company/mqprovisioning/service/template/BrokerXmlTemplateService.java:339-342 | a permission line over a one-line role list is plain |
| BrokerXmlInsert.SubscriptionIndentedPlain | acmq-prov-backend/src/main/java/com/company/mqprovisioning/service/template/BrokerXmlTemplateService.java:447-470 | re-indenting a block of plain lines puts each line after its indent |
| BrokerXmlInsert.OpenTagAtBase | acmq-prov-backend/src/main/java/com/company/mqprovisioning/service/template/BrokerXmlTemplateService.java:457-458 | a generated open tag is an outer tag and gets the base indent |
| BrokerXmlInsert.OccursAfter | acmq-prov-backend/src/main/java/com/company/mqprovisioning/service/template/BrokerXmlTemplateService.java:252-275 | a match in a text is a match after any prefix |
| BrokerXmlInsert.IndentedSettingRecognised | acmq-prov-backend/src/main/java/com/company/mqprovisioning/service/template/BrokerXmlTemplateService.java:252-275 | the generated block, re-indented and placed anywhere, passes `checkSubscriptionSecuritySettingExists` |
| BrokerXmlInsert.TopicBlockEnd | acmq-prov-backend/src/main/java/com/company/mqprovisioning/service/template/BrokerXmlTemplateService.java:369-385 | `matcher.end()` of the topic's block lies in the text, right after a `</security-setting>` |
| BrokerXmlInsert.InsertAtEndOfSecuritySettings | acmq-prov-backend/src/main/java/com/company/mqprovisioning/service/template/BrokerXmlTemplateService.java:406-426 | `insertAtEndOfSecuritySettings` computes `SettingAtEnd` |
| BrokerXmlInsert.InsertSubscriptionSecuritySettingAfterTopic | acmq-prov-backend/src/main/java/com/company/mqprovisioning/service/template/BrokerXmlTemplateService.java:361-401 | `insertSubscriptionSecuritySettingAfterTopic` computes `SettingAfterTopic` |
| BrokerXmlInsert.SettingAfterTopicUnchanged | acmq-prov-backend/src/main/java/com/company/mqprovisioning/service/template/BrokerXmlTemplateService.java:361-413 | a blank block, or a text with neither the topic's block nor `</security-settings>`, is returned unchanged |
| BrokerXmlInsert.SettingAfterTopicKeeps | acmq-prov-backend/src/main/java/com/company/mqprovisioning/service/template/BrokerXmlTemplateService.java:385-398 | after the topic's block the text before and after the insertion point is kept and the result is longer |
| BrokerXmlInsert.SettingAfterTopicAt | acmq-prov-backend/src/main/java/com/company/mqprovisioning/service/template/BrokerXmlTemplateService.java:385-398 | with the topic's block present the new block goes right after it, after a newline |
| BrokerXmlInsert.SettingAfterTopicRecognised | acmq-prov-backend/src/main/java/com/company/mqprovisioning/service/template/BrokerXmlTemplateService.java:252-413 | inserting a generated subscription block makes `checkSubscriptionSecuritySettingExists` hold, so a second run does not insert it again |
| ConfigCatalogue.AddressStart | acmq-prov-backend/src/main/java/com/company/mqprovisioning/service/ConfigParserService.java:424-428 | a match of the setting head at an index ends past that index and within the text |
| ConfigCatalogue.ResourceSettingMatch | acmq-prov-backend/src/main/java/com/company/mqprovisioning/service/ConfigParserService.java:424-428 | a queue or topic setting match ends within the text and its variable holds the `_queue_` or `_topic_` marker |
| ConfigCatalogue.ResourceBodyMatch | acmq-prov-backend/src/main/java/com/company/mqprovisioning/service/ConfigParserService.java:424-428 | the rest of the pattern after the variable: a match ends past the variable's run and within the text, and its variable holds the marker |
| ConfigCatalogue.ResourceVarIsWord | acmq-prov-backend/src/main/java/com/company/mqprovisioning/service/ConfigParserService.java:424-428 | the variable a setting match captures is made of word characters only |
| ConfigCatalogue.SubscriptionSettingMatch | acmq-prov-backend/src/main/java/com/company/mqprovisioning/service/ConfigParserService.java:253-256 | a subscription setting match ends within the text and both captured variables are non-empty |
| ConfigCatalogue.RoleListMatch | acmq-prov-backend/src/main/java/com/company/mqprovisioning/service/ConfigParserService.java:258-261 | a permission match's role list is non-empty |
| ConfigCatalogue.ExpandedAddsContributions | acmq-prov-backend/src/main/java/com/company/mqprovisioning/service/ConfigParserService.java:276-285 | the role loop adds each role's contribution in turn, as `LinkedHashSet.addAll`/`add` do |
| ConfigCatalogue.HoldersSpec | acmq-prov-backend/src/main/java/com/company/mqprovisioning/service/ConfigParserService.java:272-286 | the holders of a permission are the contributions of its listed roles, without repetitions, in first-seen order: a known group stands for its members, any other role for itself |
| ConfigCatalogue.HoldersNone | acmq-prov-backend/src/main/java/com/company/mqprovisioning/service/ConfigParserService.java:272-286 | a body without a permission of that type has no holders |
| ConfigCatalogue.HoldersOfGroup | acmq-prov-backend/src/main/java/com/company/mqprovisioning/service/ConfigParserService.java:276-285 | a single role naming a known group contributes exactly that group's members |
| ConfigCatalogue.CollectHolders | acmq-prov-backend/src/main/java/com/company/mqprovisioning/service/ConfigParserService.java:449-480 | the role loop of one permission computes `Holders` |
| ConfigCatalogue.ExpandRoles | acmq-prov-backend/src/main/java/com/company/mqprovisioning/service/ConfigParserService.java:453-462 | the loop over the split role list computes `Expanded`: each known group's members, or the trimmed role itself, added in turn |
| ConfigCatalogue.VarNames | acmq-prov-backend/src/main/java/com/company/mqprovisioning/service/ConfigParserService.java:444-446 | the variables of the matches, in order |
| ConfigCatalogue.LastWith | acmq-prov-backend/src/main/java/com/company/mqprovisioning/service/ConfigParserService.java:482 | the last match naming a variable is one of the matches and names it |
| ConfigCatalogue.TableKeys | acmq-prov-backend/src/main/java/com/company/mqprovisioning/service/ConfigParserService.java:482 | the `LinkedHashMap` keys are the variables in first-seen order, each once |
| ConfigCatalogue.TableGet | acmq-prov-backend/src/main/java/com/company/mqprovisioning/service/ConfigParserService.java:482 | each variable maps to what its last match gives, since a later `put` replaces the value |
| ConfigCatalogue.TableDistinct | acmq-prov-backend/src/main/java/com/company/mqprovisioning/service/ConfigParserService.java:482 | the table lists each key once |
| ConfigCatalogue.TableEntry | acmq-prov-backend/src/main/java/com/company/mqprovisioning/service/ConfigParserService.java:487 | the k-th entry is the k-th distinct variable, with what its last match gives |
| ConfigCatalogue.DtosAt | acmq-prov-backend/src/main/java/com/company/mqprovisioning/service/ConfigParserService.java:487-506 | the k-th DTO is built from the k-th entry and numbered k + 1 |
| ConfigCatalogue.WordVarIn | acmq-prov-backend/src/main/java/com/company/mqprovisioning/service/ConfigParserService.java:424-428 | a variable the scan found holds the marker and no dot |
| ConfigCatalogue.ResourceSettingsWords | acmq-prov-backend/src/main/java/com/company/mqprovisioning/service/ConfigParserService.java:444-446 | every variable the scan finds is a word holding the marker |
| ConfigCatalogue.ParseQueues | acmq-prov-backend/src/main/java/com/company/mqprovisioning/service/ConfigParserService.java:415-511 | `parseQueuesFromBrokerXml` computes `ParsedQueues` |
| ConfigCatalogue.ScanQueues | acmq-prov-backend/src/main/java/com/company/mqprovisioning/service/ConfigParserService.java:444-483 | the `while (queueMatcher.find())` loop builds the table of the settings' holders |
| ConfigCatalogue.NumberQueues | acmq-prov-backend/src/main/java/com/company/mqprovisioning/service/ConfigParserService.java:487-506 | the loop over the entries with `index++` numbers the DTOs from 1 |
| ConfigCatalogue.QueueAt | acmq-prov-backend/src/main/java/com/company/mqprovisioning/service/ConfigParserService.java:487-506 | the k-th queue is the k-th distinct `_queue_` variable with the holders its last setting gives |
| ConfigCatalogue.ParsedQueuesSpec | acmq-prov-backend/src/main/java/com/company/mqprovisioning/service/ConfigParserService.java:415-511 | the queues are the distinct `_queue_` variables in first-seen order, numbered `queue-1` on, shown with dots for underscores, with the team before `_queue_` and the send and consume holders |
| ConfigCatalogue.QueueIdsDistinct | acmq-prov-backend/src/main/java/com/company/mqprovisioning/service/ConfigParserService.java:495 | no two queues share an id |
| ConfigCatalogue.QueueNamesDistinct | acmq-prov-backend/src/main/java/com/company/mqprovisioning/service/ConfigParserService.java:492 | no two queues share a display name |
| ConfigCatalogue.NumberedIdsDiffer | acmq-prov-backend/src/main/java/com/company/mqprovisioning/service/ConfigParserService.java:495 | ids `<kind>-<n>` differ for different numbers |
| ConfigCatalogue.ParseTopics | acmq-prov-backend/src/main/java/com/company/mqprovisioning/service/ConfigParserService.java:237-334 | `parseTopicsFromBrokerXml` computes `ParsedTopics` |
| ConfigCatalogue.ScanTopics | acmq-prov-backend/src/main/java/com/company/mqprovisioning/service/ConfigParserService.java:267-289 | the `while (topicMatcher.find())` loop builds the table of the settings' send holders |
| ConfigCatalogue.AttachSubscriptions | acmq-prov-backend/src/main/java/com/company/mqprovisioning/service/ConfigParserService.java:293-305 | the `while (subscriptionMatcher.find())` loop attaches each subscription to its topic when the topic is known |
| ConfigCatalogue.NumberTopics | acmq-prov-backend/src/main/java/com/company/mqprovisioning/service/ConfigParserService.java:310-329 | the loop over the entries with `index++` numbers the DTOs from 1 |
| ConfigCatalogue.AttachOneKeeps | acmq-prov-backend/src/main/java/com/company/mqprovisioning/service/ConfigParserService.java:293-305 | one subscription keeps the topics, their order and their producers, and adds its dashed name to its own topic only |
| ConfigCatalogue.AttachedSpec | acmq-prov-backend/src/main/java/com/company/mqprovisioning/service/ConfigParserService.java:293-305 | the subscription loop keeps the topics, their order and their producers, and gives each topic the names of its subscriptions in first-seen order |
| ConfigCatalogue.AttachOneGet | acmq-prov-backend/src/main/java/com/company/mqprovisioning/service/ConfigParserService.java:298-303 | one subscription match puts its dashed subscriber under its dashed name on its own topic; every other entry reads as before |
| ConfigCatalogue.AttachedGet | acmq-prov-backend/src/main/java/com/company/mqprovisioning/service/ConfigParserService.java:293-305 | after the subscription loop, a topic's subscription reads as the subscriber of the last match naming it (the last `put` wins), or as before when none does |
| ConfigCatalogue.TopicAt | acmq-prov-backend/src/main/java/com/company/mqprovisioning/service/ConfigParserService.java:310-329 | the k-th topic is the k-th distinct `_topic_` variable with its last setting's send holders and the subscriptions that name it, each once, in first-seen order, each mapped to the dashed subscriber of its last match |
| ConfigCatalogue.TopicIdsDistinct | acmq-prov-backend/src/main/java/com/company/mqprovisioning/service/ConfigParserService.java:318 | no two topics share an id |
| ConfigCatalogue.TopicNamesDistinct | acmq-prov-backend/src/main/java/com/company/mqprovisioning/service/ConfigParserService.java:315 | no two topics share a display name |
| ConfigRoundTrip.BlockRead | acmq-prov-backend/src/main/java/com/company/mqprovisioning/service/ConfigParserService.java:424-428 | at a generated queue or topic block, the resource pattern captures the block's variable and its whole body and ends after the close tag; the subscription pattern does not match there |
| ConfigRoundTrip.SubscriptionOpenMatch | acmq-prov-backend/src/main/java/com/company/mqprovisioning/service/ConfigParserService.java:253-256 | at a generated subscription open tag, the subscription pattern captures the topic variable and the multicast variable; the resource pattern does not match there |
| ConfigRoundTrip.SendHolders | acmq-prov-backend/src/main/java/com/company/mqprovisioning/service/ConfigParserService.java:449-463 | the `send` line written first in a block reads back as the contributions of the admin role and the producers |
| ConfigRoundTrip.ConsumeHolders | acmq-prov-backend/src/main/java/com/company/mqprovisioning/service/ConfigParserService.java:465-480 | the `consume` line written after the `send` line reads back as the contributions of the admin role and the consumers, not those of the send line |
| ConfigRoundTrip.GrantedHolders | acmq-prov-backend/src/main/java/com/company/mqprovisioning/service/ConfigParserService.java:449-480 | in a body that starts with the generated grant lines, the send holders are the contributions of the admin role and the producers, the consume holders those of the admin role and the consumers |
| ConfigRoundTrip.SingleQueue | acmq-prov-backend/src/main/java/com/company/mqprovisioning/service/ConfigParserService.java:444-506 | one queue match makes one queue DTO, numbered 1, with the send and consume holders of its body |
| ConfigRoundTrip.OneQueue | acmq-prov-backend/src/main/java/com/company/mqprovisioning/service/ConfigParserService.java:415-511 | a text that is one queue block parses to that one queue with its body's holders |
| ConfigRoundTrip.GeneratedQueueRead | acmq-prov-backend/src/main/java/com/company/mqprovisioning/service/ConfigParserService.java:415-511 | the block `generateQueueSecuritySetting` writes parses back to one queue: its variable, the admin role and producers as senders, the admin role and consumers as consumers |
| ConfigRoundTrip.SingleTopic | acmq-prov-backend/src/main/java/com/company/mqprovisioning/service/ConfigParserService.java:267-329 | one topic match and no subscription make one topic DTO, numbered 1, with its send holders and no subscriptions |
| ConfigRoundTrip.SingleSubscribedTopic | acmq-prov-backend/src/main/java/com/company/mqprovisioning/service/ConfigParserService.java:267-329 | one topic match and one subscription naming it make one topic DTO with that subscription, mapped to its dashed subscriber |
| ConfigRoundTrip.OneTopic | acmq-prov-backend/src/main/java/com/company/mqprovisioning/service/ConfigParserService.java:237-334 | a text that is one topic block parses to that one topic with its send holders and no subscriptions |
| ConfigRoundTrip.TopicThenSubscriptionRead | acmq-prov-backend/src/main/java/com/company/mqprovisioning/service/ConfigParserService.java:237-334 | a topic block followed by its subscription block parses to one topic carrying that subscription |
| ConfigRoundTrip.TopicWithoutLegacyRead | acmq-prov-backend/src/main/java/com/company/mqprovisioning/service/ConfigParserService.java:237-334 | without a legacy subscription name, the generated topic block parses back to the topic with the admin role and producers as senders and no subscriptions |
| ConfigRoundTrip.TopicWithLegacyRead | acmq-prov-backend/src/main/java/com/company/mqprovisioning/service/ConfigParserService.java:237-334 | with a legacy subscription name, the generated topic and subscription blocks parse back to the topic with the admin role and producers as senders and the legacy subscription |
| ConfigRoundTrip.GeneratedTopicRead | acmq-prov-backend/src/main/java/com/company/mqprovisioning/service/ConfigParserService.java:237-334 | the blocks `generateTopicSecuritySettings` writes parse back to one topic: its variable, the admin role and producers as senders, and the legacy subscription when one is given |
| ConfigLedger.QuotedAfter | acmq-prov-backend/src/main/java/com/company/mqprovisioning/service/ConfigParserService.java:137-141 | the text `'([^']*)'` captures holds no quote |
| ConfigLedger.TrimmedMembers | acmq-prov-backend/src/main/java/com/company/mqprovisioning/service/ConfigParserService.java:208-211 | the trimmed pieces kept are non-empty |
| ConfigLedger.SplitMembers | acmq-prov-backend/src/main/java/com/company/mqprovisioning/service/ConfigParserService.java:208-211 | `split(",")`, trimmed, empty pieces dropped: every member is non-empty |
| ConfigLedger.UsersFold | acmq-prov-backend/src/main/java/com/company/mqprovisioning/service/ConfigParserService.java:121-145 | the loop only appends users, and each user it reads holds no quote |
| ConfigLedger.UsersFoldAt | acmq-prov-backend/src/main/java/com/company/mqprovisioning/service/ConfigParserService.java:121-145 | one iteration of the users loop from line k |
| ConfigLedger.ParsedUsers | acmq-prov-backend/src/main/java/com/company/mqprovisioning/service/ConfigParserService.java:100-150 | no user `parseUsers` returns holds a quote |
| ConfigLedger.ParseUsers | acmq-prov-backend/src/main/java/com/company/mqprovisioning/service/ConfigParserService.java:100-150 | `parseUsers` computes `ParsedUsers` |
| ConfigLedger.RolesFold | acmq-prov-backend/src/main/java/com/company/mqprovisioning/service/ConfigParserService.java:180-218 | the roles loop never lists a group twice |
| ConfigLedger.RoleItemDistinct | acmq-prov-backend/src/main/java/com/company/mqprovisioning/service/ConfigParserService.java:196-213 | a section line keeps the groups or puts one, so distinct keys stay distinct |
| ConfigLedger.RolesFoldAt | acmq-prov-backend/src/main/java/com/company/mqprovisioning/service/ConfigParserService.java:180-218 | one iteration of the roles loop from line k |
| ConfigLedger.ParsedRoles | acmq-prov-backend/src/main/java/com/company/mqprovisioning/service/ConfigParserService.java:159-225 | `parseRoles` returns each group once |
| ConfigLedger.ParseRoles | acmq-prov-backend/src/main/java/com/company/mqprovisioning/service/ConfigParserService.java:159-225 | `parseRoles` computes `ParsedRoles` |
| ConfigLedger.ReadRoleItem | acmq-prov-backend/src/main/java/com/company/mqprovisioning/service/ConfigParserService.java:196-213 | the body of the roles loop for a line inside the section computes `RoleItemStep` |
| ConfigLedger.UsersFoldEmpties | acmq-prov-backend/src/main/java/com/company/mqprovisioning/service/ConfigParserService.java:118 | empty lines after the last one change nothing |
| ConfigLedger.UsersFoldAllEmpty | acmq-prov-backend/src/main/java/com/company/mqprovisioning/service/ConfigParserService.java:118 | over empty lines alone the loop reads nothing |
| ConfigLedger.UsersFoldSplitLines | acmq-prov-backend/src/main/java/com/company/mqprovisioning/service/ConfigParserService.java:118 | the loop reads the same from `split("\\r?\\n")`, which drops trailing empty lines, as from all the lines |
| ConfigLedger.UserText | acmq-prov-backend/src/main/java/com/company/mqprovisioning/service/template/AcmqYamlService.java:216-218 | a written users item plus its newline is the written line |
| ConfigLedger.QuotedAfterLiteral | acmq-prov-backend/src/main/java/com/company/mqprovisioning/service/ConfigParserService.java:137 | the item pattern reads a quoted value back |
| ConfigLedger.UserTextRead | acmq-prov-backend/src/main/java/com/company/mqprovisioning/service/ConfigParserService.java:130-141 | the loop reads a written users item as that user |
| ConfigLedger.UserLineRead | acmq-prov-backend/src/main/java/com/company/mqprovisioning/service/ConfigParserService.java:122-141 | a written users item trims to a line inside the section that names the user |
| ConfigLedger.UsersFoldCons | acmq-prov-backend/src/main/java/com/company/mqprovisioning/service/ConfigParserService.java:121-145 | the loop after one line continues from the state that line leaves |
| ConfigLedger.UsersFoldItems | acmq-prov-backend/src/main/java/com/company/mqprovisioning/service/ConfigParserService.java:121-145 | the loop reads written users items in order |
| ConfigLedger.UsersSectionAsLines | acmq-prov-backend/src/main/java/com/company/mqprovisioning/service/template/AcmqYamlService.java:212-219 | the written users section is its lines, each one line |
| ConfigLedger.UsersHeaderRead | acmq-prov-backend/src/main/java/com/company/mqprovisioning/service/ConfigParserService.java:125-128 | the header line opens the section |
| ConfigLedger.UsersBlankStops | acmq-prov-backend/src/main/java/com/company/mqprovisioning/service/ConfigParserService.java:132-134 | a blank line closes the section |
| ConfigLedger.UsersFoldSection | acmq-prov-backend/src/main/java/com/company/mqprovisioning/service/ConfigParserService.java:121-145 | the loop reads the written section, whatever follows it, as its users |
| ConfigLedger.ParsedUsersRoundTrip | acmq-prov-backend/src/main/java/com/company/mqprovisioning/service/ConfigParserService.java:100-150 | `parseUsers` reads back the users section `AcmqYamlService` writes, in order, when it stands where the key first occurs |
| ConfigLedger.RoleTexts | acmq-prov-backend/src/main/java/com/company/mqprovisioning/service/template/AcmqYamlService.java:244-247 | two written lines per role group |
| ConfigLedger.RolesFoldCons | acmq-prov-backend/src/main/java/com/company/mqprovisioning/service/ConfigParserService.java:180-218 | the loop after one line continues from the state that line leaves |
| ConfigLedger.GroupItemOf | acmq-prov-backend/src/main/java/com/company/mqprovisioning/service/ConfigParserService.java:196-201 | the group pattern reads a written `group:` value back |
| ConfigLedger.UsersItemOf | acmq-prov-backend/src/main/java/com/company/mqprovisioning/service/ConfigParserService.java:204-212 | a written `users:` line is not a group line, and the users pattern reads its value back |
| ConfigLedger.ItemLineInside | acmq-prov-backend/src/main/java/com/company/mqprovisioning/service/ConfigParserService.java:184-193 | a written item line neither opens nor closes the section |
| ConfigLedger.GroupTextRead | acmq-prov-backend/src/main/java/com/company/mqprovisioning/service/ConfigParserService.java:196-201 | the loop reads a written `group:` line as the current group |
| ConfigLedger.GroupLineRead | acmq-prov-backend/src/main/java/com/company/mqprovisioning/service/ConfigParserService.java:181-201 | a written `group:` line trims to a line inside the section naming the group |
| ConfigLedger.MembersTextRead | acmq-prov-backend/src/main/java/com/company/mqprovisioning/service/ConfigParserService.java:204-213 | the loop reads a written `users:` line after a group as that group's members |
| ConfigLedger.MembersLineRead | acmq-prov-backend/src/main/java/com/company/mqprovisioning/service/ConfigParserService.java:181-213 | a written `users:` line trims to a line inside the section that carries the members and no group |
| ConfigLedger.RolesFoldItems | acmq-prov-backend/src/main/java/com/company/mqprovisioning/service/ConfigParserService.java:180-218 | the loop reads written role groups in order, putting each group's members |
| ConfigLedger.RoleLinesAsLines | acmq-prov-backend/src/main/java/com/company/mqprovisioning/service/template/AcmqYamlService.java:244-247 | the written role lines are the role texts, each followed by a newline |
| ConfigLedger.RolesFoldEmpties | acmq-prov-backend/src/main/java/com/company/mqprovisioning/service/ConfigParserService.java:175 | empty lines after the last one change nothing |
| ConfigLedger.RolesFoldSplitLines | acmq-prov-backend/src/main/java/com/company/mqprovisioning/service/ConfigParserService.java:175 | the loop reads the same from `split("\\r?\\n")` as from all the lines |
| ConfigLedger.RoleTextsWritten | acmq-prov-backend/src/main/java/com/company/mqprovisioning/service/template/AcmqYamlService.java:244-247 | every written role line is one line |
| ConfigLedger.RolesSectionAsLines | acmq-prov-backend/src/main/java/com/company/mqprovisioning/service/template/AcmqYamlService.java:240-247 | the written roles section is its lines, each one line |
| ConfigLedger.RolesRawLines | acmq-prov-backend/src/main/java/com/company/mqprovisioning/service/ConfigParserService.java:175 | a written roles section that ends the file or a line splits into its lines and an empty one |
| ConfigLedger.RolesHeaderRead | acmq-prov-backend/src/main/java/com/company/mqprovisioning/service/ConfigParserService.java:184-187 | the header line opens the section |
| ConfigLedger.RolesBlankStops | acmq-prov-backend/src/main/java/com/company/mqprovisioning/service/ConfigParserService.java:191-193 | a blank line closes the section |
| ConfigLedger.RolesFoldSection | acmq-prov-backend/src/main/java/com/company/mqprovisioning/service/ConfigParserService.java:180-218 | the loop reads the written section, then a blank line, as the puts of its groups |
| ConfigLedger.ParsedRolesRoundTrip | acmq-prov-backend/src/main/java/com/company/mqprovisioning/service/ConfigParserService.java:159-225 | `parseRoles` reads back the roles section `AcmqYamlService` writes as the puts of each group's members, in order |
| ConfigLedger.RoleMembers | acmq-prov-backend/src/main/java/com/company/mqprovisioning/service/ConfigParserService.java:212 | one entry per written group |
| ConfigLedger.PutEntriesFresh | acmq-prov-backend/src/main/java/com/company/mqprovisioning/service/ConfigParserService.java:212 | with distinct groups every `put` appends an entry |
| ConfigLedger.ParsedRolesDistinct | acmq-prov-backend/src/main/java/com/company/mqprovisioning/service/ConfigParserService.java:159-225 | a written roles section with distinct groups reads back as exactly those groups, in order, each with the members its `users` string lists |
| ConfigLedger.SplitMembersJoin | acmq-prov-backend/src/main/java/com/company/mqprovisioning/service/ConfigParserService.java:208-211 | members written with `String.join(",", ...)` split back into the same list |
| ConfigLedger.TrimmedMembersKeep | acmq-prov-backend/src/main/java/com/company/mqprovisioning/service/ConfigParserService.java:208-211 | trimming keeps non-empty trimmed pieces as they are |
| ConfigParser.ExtractSubscriptionName | acmq-prov-backend/src/main/java/com/company/mqprovisioning/service/ConfigParserService.java:380-400 | without `_subscription_` the whole name; otherwise the name is its text up to the first marker, the marker, then the result |
| ConfigParser.MarkerAfterPlainHead | acmq-prov-backend/src/main/java/com/company/mqprovisioning/service/ConfigParserService.java:387 | a marker starting with `_` is first found right after a `_`-free head |
| ConfigParser.ExtractSubscriptionNameOf | acmq-prov-backend/src/main/java/com/company/mqprovisioning/service/ConfigParserService.java:380-400 | a variable `<head>_subscription_<sub>` names the subscription `<sub>` |
| ConfigParser.ExtractPrefix | acmq-prov-backend/src/main/java/com/company/mqprovisioning/service/ConfigParserService.java:672-693 | the prefix is a prefix of the name |
| ConfigParser.ExtractPrefixSpec | acmq-prov-backend/src/main/java/com/company/mqprovisioning/service/ConfigParserService.java:672-693 | the whole name exactly when it has no `_` or `.` or starts with one; otherwise the delimiter-free text up to the first delimiter |
| ConfigParser.Capitalised | acmq-prov-backend/src/main/java/com/company/mqprovisioning/service/ConfigParserService.java:360 | capitalising keeps the length and every char after the first |
| ConfigParser.TeamFromNameOf | acmq-prov-backend/src/main/java/com/company/mqprovisioning/service/ConfigParserService.java:659-667 | a name `<ns><delimiter><rest>` with a delimiter-free `ns` belongs to `Team <Ns>` |
| ConfigParser.TeamBeforeOf | acmq-prov-backend/src/main/java/com/company/mqprovisioning/service/ConfigParserService.java:355-363 | a variable `<ns>_topic_<rest>` (or `_queue_`) belongs to `Team <Ns>` |
| ConfigUsers.BuildUserRoles | acmq-prov-backend/src/main/java/com/company/mqprovisioning/service/ConfigParserService.java:547-583 | `buildUserRolesFromResources` computes `UserRolesOf` |
| ConfigUsers.GrantedAllKeepsSubscriptions | acmq-prov-backend/src/main/java/com/company/mqprovisioning/service/ConfigParserService.java:551-568 | the queue and topic-producer grants leave a user's subscription map alone |
| ConfigUsers.QueueGrantsKeepSubscriptions | acmq-prov-backend/src/main/java/com/company/mqprovisioning/service/ConfigParserService.java:551-564 | the queue loop leaves every subscription map alone |
| ConfigUsers.GrantedSubscriptionsGet | acmq-prov-backend/src/main/java/com/company/mqprovisioning/service/ConfigParserService.java:571-577 | a topic's subscription loop maps each subscription listed for the user to that topic; others read as before |
| ConfigUsers.TopicGrantsGet | acmq-prov-backend/src/main/java/com/company/mqprovisioning/service/ConfigParserService.java:566-579 | the topic loop maps a user's subscription to the last topic listing it for the user |
| ConfigUsers.SubscriptionTopics | acmq-prov-backend/src/main/java/com/company/mqprovisioning/service/ConfigParserService.java:547-583 | in `buildUserRolesFromResources`, a user's subscription map sends each subscription to the last topic whose subscription list names it for that user, and holds nothing else |
| ConfigUsers.GrantEach | acmq-prov-backend/src/main/java/com/company/mqprovisioning/service/ConfigParserService.java:552-555 | the loop over a resource's producers or consumers grants the resource to each of them |
| ConfigUsers.GrantSubscriptions | acmq-prov-backend/src/main/java/com/company/mqprovisioning/service/ConfigParserService.java:573-578 | the loop over a topic's subscriptions grants each one to its subscriber |
| ConfigUsers.RecordedListed | acmq-prov-backend/src/main/java/com/company/mqprovisioning/service/ConfigParserService.java:553-554 | a grant adds its entry to the collection of its kind and leaves the others alone |
| ConfigUsers.GrantedAllListed | acmq-prov-backend/src/main/java/com/company/mqprovisioning/service/ConfigParserService.java:552-555 | granting to a list of users reaches exactly the users on it, however often they appear |
| ConfigUsers.GrantedSubscriptionsListed | acmq-prov-backend/src/main/java/com/company/mqprovisioning/service/ConfigParserService.java:573-578 | a topic's subscription loop gives a user the subscription names whose subscriber it is |
| ConfigUsers.QueueGrantsListed | acmq-prov-backend/src/main/java/com/company/mqprovisioning/service/ConfigParserService.java:550-563 | the queue loop appends, queue by queue, its name when it lists the user that way |
| ConfigUsers.TopicGrantsListed | acmq-prov-backend/src/main/java/com/company/mqprovisioning/service/ConfigParserService.java:565-580 | the topic loop appends, topic by topic, its name when the user sends to it, or the user's subscriptions on it |
| ConfigUsers.UserRolesSpec | acmq-prov-backend/src/main/java/com/company/mqprovisioning/service/ConfigParserService.java:547-583 | each of a user's collections lists, once each in first-seen order, the queues then the topics naming the user that way |
| ConfigUsers.NamesForOtherKinds | acmq-prov-backend/src/main/java/com/company/mqprovisioning/service/ConfigParserService.java:547-583 | a queue never reaches the topic collections and a topic never the queue ones |
| ConfigUsers.BuildUserDtos | acmq-prov-backend/src/main/java/com/company/mqprovisioning/service/ConfigParserService.java:588-653 | `buildUserDtos` computes `UserDtos` |
| ConfigUsers.BuildUserDto | acmq-prov-backend/src/main/java/com/company/mqprovisioning/service/ConfigParserService.java:592-649 | one iteration builds the DTO of one user |
| ConfigUsers.AppendItems | acmq-prov-backend/src/main/java/com/company/mqprovisioning/service/ConfigParserService.java:600-624 | the loop over a collection appends one role item per name, in order |
| ConfigUsers.AppendSubscriptionItems | acmq-prov-backend/src/main/java/com/company/mqprovisioning/service/ConfigParserService.java:627-634 | the loop over the subscriptions appends one role item per entry, in order |
| ConfigUsers.UserIdsDistinct | acmq-prov-backend/src/main/java/com/company/mqprovisioning/service/ConfigParserService.java:591-649 | users keep their order and are numbered from 1, so no two share an id |
| ConfigUsers.UserDtoRoles | acmq-prov-backend/src/main/java/com/company/mqprovisioning/service/ConfigParserService.java:597-646 | a user's DTO lists the roles held for it: queues then topics it sends to, queues it consumes from, its subscriptions, each subscription role naming the topic its subscription maps to |
| ConfigUsers.UserView | acmq-prov-backend/src/main/java/com/company/mqprovisioning/service/ConfigParserService.java:547-653 | the k-th user is `user-(k+1)`, named and teamed after its name, with the queues and topics it sends to, the queues it consumes from and its subscriptions, each once, each subscription role naming the last topic that lists that subscription for the user |
| HieradataTemplate.UserRolesLines | acmq-prov-backend/src/main/java/com/company/mqprovisioning/service/template/HieradataTemplateService.java:19-21 | nine lines per user entry |
| HieradataTemplate.RoleBlock | acmq-prov-backend/src/main/java/com/company/mqprovisioning/service/template/HieradataTemplateService.java:17-23 | a headed block of nine lines per user plus a blank line, or nothing for an absent or empty list |
| HieradataTemplate.UserRolesLinesAt | acmq-prov-backend/src/main/java/com/company/mqprovisioning/service/template/HieradataTemplateService.java:19-21 | the entry of user i is lines 9i to 9i+8 of the list's entries |
| HieradataTemplate.RoleBlockEntry | acmq-prov-backend/src/main/java/com/company/mqprovisioning/service/template/HieradataTemplateService.java:17-23 | in a role block the entry of user i is the nine lines from line 1 + 9i |
| HieradataTemplate.RolesContentConsumers | acmq-prov-backend/src/main/java/com/company/mqprovisioning/service/template/HieradataTemplateService.java:17-23 | the consumer block comes first, headed `# Consumers for <name>`, the entry of consumer i granting `consumer` on the resource |
| HieradataTemplate.RolesContentProducers | acmq-prov-backend/src/main/java/com/company/mqprovisioning/service/template/HieradataTemplateService.java:26-32 | the producer block follows the consumer block, headed `# Producers for <name>`, the entry of producer j granting `producer` on the resource |
| HieradataTemplate.RolesContentEmptyIff | acmq-prov-backend/src/main/java/com/company/mqprovisioning/service/template/HieradataTemplateService.java:13-35 | the role content is empty exactly when the request has no consumers and no producers |
| HieradataTemplate.GenerateUserRole | acmq-prov-backend/src/main/java/com/company/mqprovisioning/service/template/HieradataTemplateService.java:37-59 | `generateUserRole` writes the user's nine-line entry, with `consume` for a consumer and `send` otherwise |
| HieradataTemplate.AppendUserRoles | acmq-prov-backend/src/main/java/com/company/mqprovisioning/service/template/HieradataTemplateService.java:19-21 | the loop over one list appends each user's entry in order |
| HieradataTemplate.UserRolesLinesSnoc | acmq-prov-backend/src/main/java/com/company/mqprovisioning/service/template/HieradataTemplateService.java:19-21 | the text of the first i + 1 entries extends that of the first i |
| HieradataTemplate.AppendRoleBlock | acmq-prov-backend/src/main/java/com/company/mqprovisioning/service/template/HieradataTemplateService.java:17-23 | one optional block of `generateRolesContent` |
| HieradataTemplate.GenerateRolesContent | acmq-prov-backend/src/main/java/com/company/mqprovisioning/service/template/HieradataTemplateService.java:13-35 | `generateRolesContent` computes `RolesContent` |
| HieradataTemplate.UndoubleDoubleQuotes | acmq-prov-backend/src/main/java/com/company/mqprovisioning/service/template/HieradataTemplateService.java:80-81 | doubling the quotes of a description loses nothing: a YAML reader gets it back |
| HieradataTemplate.ItemLines | acmq-prov-backend/src/main/java/com/company/mqprovisioning/service/template/HieradataTemplateService.java:94-96 | one item line per element |
| HieradataTemplate.FieldValue | acmq-prov-backend/src/main/java/com/company/mqprovisioning/service/template/HieradataTemplateService.java:77 | the value read from a field line is the value that line was written with |
| HieradataTemplate.IndexOfLine | acmq-prov-backend/src/main/java/com/company/mqprovisioning/service/template/HieradataTemplateService.java:73-107 | the first line equal to a given line, or none when it is absent |
| HieradataTemplate.NoField | acmq-prov-backend/src/main/java/com/company/mqprovisioning/service/template/HieradataTemplateService.java:73-107 | a key whose char at k no line has is found nowhere |
| HieradataTemplate.NotALine | acmq-prov-backend/src/main/java/com/company/mqprovisioning/service/template/HieradataTemplateService.java:73-107 | a line whose char at k no line has is not among the lines |
| HieradataTemplate.FieldAppend | acmq-prov-backend/src/main/java/com/company/mqprovisioning/service/template/HieradataTemplateService.java:73-107 | the first field line of two stretches is the first stretch's if it has one |
| HieradataTemplate.FieldAfter | acmq-prov-backend/src/main/java/com/company/mqprovisioning/service/template/HieradataTemplateService.java:73-107 | the first key line after a stretch without one is the one read |
| HieradataTemplate.FieldLineValue | acmq-prov-backend/src/main/java/com/company/mqprovisioning/service/template/HieradataTemplateService.java:77 | a field line reads back as its value |
| HieradataTemplate.ReadItemsOf | acmq-prov-backend/src/main/java/com/company/mqprovisioning/service/template/HieradataTemplateService.java:94-96 | written item lines read back as the list, in order |
| HieradataTemplate.IndexOfLineAt | acmq-prov-backend/src/main/java/com/company/mqprovisioning/service/template/HieradataTemplateService.java:73-107 | the first line equal to a given line is found at its index |
| HieradataTemplate.ListedUnderBlock | acmq-prov-backend/src/main/java/com/company/mqprovisioning/service/template/HieradataTemplateService.java:92-97 | a list block read back under its header gives the list |
| HieradataTemplate.ItemsDiffer | acmq-prov-backend/src/main/java/com/company/mqprovisioning/service/template/HieradataTemplateService.java:95 | every item line starts with the fixed `        - '` |
| HieradataTemplate.BlockDiffers | acmq-prov-backend/src/main/java/com/company/mqprovisioning/service/template/HieradataTemplateService.java:92-97 | a list block differs from a char at k when its header and the item prefix do |
| HieradataTemplate.MetadataDiffers | acmq-prov-backend/src/main/java/com/company/mqprovisioning/service/template/HieradataTemplateService.java:88-104 | the metadata block differs from a char at k when its fixed lines and headers do |
| HieradataTemplate.DefinitionReadsName | acmq-prov-backend/src/main/java/com/company/mqprovisioning/service/template/HieradataTemplateService.java:77 | read back, a definition names the resource |
| HieradataTemplate.DefinitionReadsDescription | acmq-prov-backend/src/main/java/com/company/mqprovisioning/service/template/HieradataTemplateService.java:79-82 | a definition carries a description exactly when the request has a non-empty one, with quotes doubled so that a reader recovers it |
| HieradataTemplate.DefinitionReadsRouting | acmq-prov-backend/src/main/java/com/company/mqprovisioning/service/template/HieradataTemplateService.java:85 | read back, a queue is routed ANYCAST and a topic MULTICAST |
| HieradataTemplate.DefinitionReadsTeam | acmq-prov-backend/src/main/java/com/company/mqprovisioning/service/template/HieradataTemplateService.java:89 | read back, a definition names the owning team |
| HieradataTemplate.DefinitionDurableIff | acmq-prov-backend/src/main/java/com/company/mqprovisioning/service/template/HieradataTemplateService.java:84 | only a queue definition has the line `    durable: true` |
| HieradataTemplate.ListedUnderOrAbsent | acmq-prov-backend/src/main/java/com/company/mqprovisioning/service/template/HieradataTemplateService.java:92-104 | an optional list block read back under its header gives the list, or nothing when it is absent |
| HieradataTemplate.HeadDiffers | acmq-prov-backend/src/main/java/com/company/mqprovisioning/service/template/HieradataTemplateService.java:76-85 | the lines up to the routing type differ from a char at k when each fixed prefix does |
| HieradataTemplate.FixedLinesDiffer | acmq-prov-backend/src/main/java/com/company/mqprovisioning/service/template/HieradataTemplateService.java:76-90 | the lines before the two lists differ from a char at k when each fixed prefix does |
| HieradataTemplate.DefinitionReadsConsumers | acmq-prov-backend/src/main/java/com/company/mqprovisioning/service/template/HieradataTemplateService.java:92-97 | read back, a definition lists exactly the request's consumers (`subscribers` for a topic); an absent or empty list has no header |
| HieradataTemplate.DefinitionReadsProducers | acmq-prov-backend/src/main/java/com/company/mqprovisioning/service/template/HieradataTemplateService.java:99-104 | read back, a definition lists exactly the request's producers (`publishers` for a topic); an absent or empty list has no header |
| HieradataTemplate.AcmqContentLines | acmq-prov-backend/src/main/java/com/company/mqprovisioning/service/template/HieradataTemplateService.java:61-71 | with no line break inside a field, the generated text splits back into the definition's lines |
| HieradataTemplate.AppendItems | acmq-prov-backend/src/main/java/com/company/mqprovisioning/service/template/HieradataTemplateService.java:94-96 | the loop writes one item line per element |
| HieradataTemplate.AppendListBlock | acmq-prov-backend/src/main/java/com/company/mqprovisioning/service/template/HieradataTemplateService.java:92-97 | an optional list: its header and items, or nothing |
| HieradataTemplate.AppendHead | acmq-prov-backend/src/main/java/com/company/mqprovisioning/service/template/HieradataTemplateService.java:76-85 | the first part of a definition, up to the routing type |
| HieradataTemplate.AppendMetadata | acmq-prov-backend/src/main/java/com/company/mqprovisioning/service/template/HieradataTemplateService.java:88-104 | the metadata part: team, owner and the two optional lists |
| HieradataTemplate.AppendLists | acmq-prov-backend/src/main/java/com/company/mqprovisioning/service/template/HieradataTemplateService.java:92-104 | the two optional lists closing the metadata block |
| HieradataTemplate.GenerateDefinition | acmq-prov-backend/src/main/java/com/company/mqprovisioning/service/template/HieradataTemplateService.java:73-107 | `generateQueueDefinition` and `generateTopicDefinition` write `DefinitionLines` |
| HieradataTemplate.GenerateAcmqContent | acmq-prov-backend/src/main/java/com/company/mqprovisioning/service/template/HieradataTemplateService.java:61-71 | `generateAcmqContent` computes `AcmqContent` |
| InitPp.AssignsAtInfix | acmq-prov-backend/src/main/java/com/company/mqprovisioning/service/template/InitPpService.java:47-48 | an assignment inside a piece of text is an assignment in any text containing that piece |
| InitPp.Unassigned | acmq-prov-backend/src/main/java/com/company/mqprovisioning/service/template/InitPpService.java:89-98 | the subscriptions kept are exactly those whose `$multicast_` variable is not assigned, never more than given |
| InitPp.MissingSubscriptions | acmq-prov-backend/src/main/java/com/company/mqprovisioning/service/template/InitPpService.java:85-116 | every missing subscription is new and unassigned; with new subscriptions, each is missing exactly when unassigned; a non-topic without new subscriptions misses nothing |
| InitPp.ClassParamsMatch | acmq-prov-backend/src/main/java/com/company/mqprovisioning/service/template/InitPpService.java:26-29 | a class pattern match: group 1 lies after its start and ends before the match end |
| InitPp.FindClassParams | acmq-prov-backend/src/main/java/com/company/mqprovisioning/service/template/InitPpService.java:128-133 | `find()` reports the first class block with its group inside the match |
| InitPp.ValidatesMatch | acmq-prov-backend/src/main/java/com/company/mqprovisioning/service/template/InitPpService.java:31-34 | a section match: group 1 ends right after a newline and the `# REPOS` marker starts with '#' |
| InitPp.ValidatesAtBounds | acmq-prov-backend/src/main/java/com/company/mqprovisioning/service/template/InitPpService.java:31-34 | the bounds of a section match found at a position |
| InitPp.FindValidates | acmq-prov-backend/src/main/java/com/company/mqprovisioning/service/template/InitPpService.java:274-279 | `find()` reports the first VALIDATES section, its body after a newline and its marker at a '#' |
| InitPp.AlignmentMatchAt | acmq-prov-backend/src/main/java/com/company/mqprovisioning/service/template/InitPpService.java:190 | a `^(\s*\$[a-zA-Z0-9_]+)(\s+)=` match ends at an `=` at least three chars in |
| InitPp.VisualWidth | acmq-prov-backend/src/main/java/com/company/mqprovisioning/service/template/InitPpService.java:196-205 | the visual width lies between the length and four times it |
| InitPp.VisualWidthNoTabs | acmq-prov-backend/src/main/java/com/company/mqprovisioning/service/template/InitPpService.java:196-205 | without tabs the visual width is the length |
| InitPp.VisualWidthTab | acmq-prov-backend/src/main/java/com/company/mqprovisioning/service/template/InitPpService.java:199-201 | a tab advances the width to the next multiple of 4 |
| InitPp.ColumnsFromNoMatch | acmq-prov-backend/src/main/java/com/company/mqprovisioning/service/template/InitPpService.java:194 | where no match starts the scan moves on one char |
| InitPp.ColumnsFromMatch | acmq-prov-backend/src/main/java/com/company/mqprovisioning/service/template/InitPpService.java:194-206 | a match records its `=` column and the scan resumes after the `=` |
| InitPp.InsertSorted | acmq-prov-backend/src/main/java/com/company/mqprovisioning/service/template/InitPpService.java:213 | inserting adds one element |
| InitPp.InsertSortedSorted | acmq-prov-backend/src/main/java/com/company/mqprovisioning/service/template/InitPpService.java:213 | inserting into a sorted list keeps it sorted and adds exactly the element |
| InitPp.InsertSortedPerm | acmq-prov-backend/src/main/java/com/company/mqprovisioning/service/template/InitPpService.java:213 | inserting adds exactly the element |
| InitPp.SortAsc | acmq-prov-backend/src/main/java/com/company/mqprovisioning/service/template/InitPpService.java:213 | `Collections.sort`: the result is sorted and a permutation of the input |
| InitPp.CountPermutation | acmq-prov-backend/src/main/java/com/company/mqprovisioning/service/template/InitPpService.java:213-217 | how many columns lie left of a column does not depend on the order |
| InitPp.CountBounds | acmq-prov-backend/src/main/java/com/company/mqprovisioning/service/template/InitPpService.java:213-217 | a count is at most the length, all of it when every element qualifies, none when none does |
| InitPp.SortedNoneBelow | acmq-prov-backend/src/main/java/com/company/mqprovisioning/service/template/InitPpService.java:213-217 | in a sorted list nothing from index h on lies strictly below the h-th element |
| InitPp.SortedAllAtOrBelow | acmq-prov-backend/src/main/java/com/company/mqprovisioning/service/template/InitPpService.java:213-217 | in a sorted list everything up to index h lies at or below the h-th element |
| InitPp.MedianOfSorted | acmq-prov-backend/src/main/java/com/company/mqprovisioning/service/template/InitPpService.java:215-217 | in a sorted list the middle element has at most half the list strictly below it and more than half at or below it |
| InitPp.MedianColumnIsMedian | acmq-prov-backend/src/main/java/com/company/mqprovisioning/service/template/InitPpService.java:208-217 | the chosen column is 4 past a median of the measured columns: one of them, with at most half left of it and more than half at or left of it |
| InitPp.SortedMedian | acmq-prov-backend/src/main/java/com/company/mqprovisioning/service/template/InitPpService.java:213-217 | the middle element of the sorted columns is a median of the unsorted ones |
| InitPp.MeasureVisualWidth | acmq-prov-backend/src/main/java/com/company/mqprovisioning/service/template/InitPpService.java:196-205 | the inner char loop computes the visual width |
| InitPp.ColumnStep | acmq-prov-backend/src/main/java/com/company/mqprovisioning/service/template/InitPpService.java:194-206 | one step of the `find()` loop moves forward and keeps the columns still to be measured |
| InitPp.RecordColumn | acmq-prov-backend/src/main/java/com/company/mqprovisioning/service/template/InitPpService.java:195-206 | a match records the width of the text before its `=` and resumes after it |
| InitPp.MeasureColumns | acmq-prov-backend/src/main/java/com/company/mqprovisioning/service/template/InitPpService.java:189-207 | the `find()` loop measures the `=` column of each match, in order |
| InitPp.DetectAlignmentColumn | acmq-prov-backend/src/main/java/com/company/mqprovisioning/service/template/InitPpService.java:189-218 | `detectAlignmentColumn` computes `AlignmentColumn`: 60 without matches, else the median column plus 4 |
| InitPp.FormatParameterLine | acmq-prov-backend/src/main/java/com/company/mqprovisioning/service/template/InitPpService.java:257-268 | the line's length is the `=` index plus the `= '<value>',` part |
| InitPp.FormatParameterLineAssigns | acmq-prov-backend/src/main/java/com/company/mqprovisioning/service/template/InitPpService.java:257-268 | a formatted line assigns its variable: the name starts at index 2 and only spaces separate it from the `=` |
| InitPp.FormatParameterLineMeasured | acmq-prov-backend/src/main/java/com/company/mqprovisioning/service/template/InitPpService.java:257-268 | what `formatParameterLine` writes is what `detectAlignmentColumn` measures: the `=` at the requested column, or one past the name when that is too short |
| InitPp.DeclaredSubscriptionNames | acmq-prov-backend/src/main/java/com/company/mqprovisioning/service/template/InitPpService.java:238-249 | a topic declares the names of its new subscriptions, in order, or else its legacy name, or nothing |
| InitPp.GeneratedParamsShape | acmq-prov-backend/src/main/java/com/company/mqprovisioning/service/template/InitPpService.java:223-252 | a queue gets `address` and `anycast`; other types get `address`, then one `multicast` per new subscription or the legacy name |
| InitPp.ParameterAndValidationLinesAgree | acmq-prov-backend/src/main/java/com/company/mqprovisioning/service/template/InitPpService.java:314-339 | the i-th validation line is `validate_string(...)` of exactly the variable the i-th declaration line assigns |
| InitPp.AddressLineFirst | acmq-prov-backend/src/main/java/com/company/mqprovisioning/service/template/InitPpService.java:223-252 | every request declares its address first |
| InitPp.ValidationLineNames | acmq-prov-backend/src/main/java/com/company/mqprovisioning/service/template/InitPpService.java:314-339 | a validation line wraps the variable `$<prefix>_<variableName>` |
| InitPp.IsParamLineTrimmed | acmq-prov-backend/src/main/java/com/company/mqprovisioning/service/template/InitPpService.java:143-150 | trimming the line first changes nothing: trim never removes `$` or `=` |
| InitPp.LastParamLine | acmq-prov-backend/src/main/java/com/company/mqprovisioning/service/template/InitPpService.java:143-150 | the last line holding both `$` and `=`, or none when no line does |
| InitPp.RebuiltPrefix | acmq-prov-backend/src/main/java/com/company/mqprovisioning/service/template/InitPpService.java:160-177 | after i lines the loop has written the first i spliced lines, each followed by a newline |
| InitPp.SplicedPrefixStep | acmq-prov-backend/src/main/java/com/company/mqprovisioning/service/template/InitPpService.java:160-177 | away from the last declaring line, the splice grows by one line |
| InitPp.RebuiltPrefixAtLast | acmq-prov-backend/src/main/java/com/company/mqprovisioning/service/template/InitPpService.java:167-172 | at the last declaring line the new lines follow it, after an empty line |
| InitPp.RebuiltIsSpliced | acmq-prov-backend/src/main/java/com/company/mqprovisioning/service/template/InitPpService.java:160-177 | the rebuilding loop writes the spliced lines joined by newlines |
| InitPp.SplicedAfterLast | acmq-prov-backend/src/main/java/com/company/mqprovisioning/service/template/InitPpService.java:160-177 | when the last line declares, the splice ends with the new lines and an empty line |
| InitPp.FindLastParamLine | acmq-prov-backend/src/main/java/com/company/mqprovisioning/service/template/InitPpService.java:141-150 | the backward scan returns the index of the last declaring line, or -1 |
| InitPp.BuildLines | acmq-prov-backend/src/main/java/com/company/mqprovisioning/service/template/InitPpService.java:169-171 | each new line followed by a newline |
| InitPp.RebuildClassParams | acmq-prov-backend/src/main/java/com/company/mqprovisioning/service/template/InitPpService.java:158-179 | the StringBuilder loop writes the spliced lines joined by newlines |
| InitPp.AddDeclarations | acmq-prov-backend/src/main/java/com/company/mqprovisioning/service/template/InitPpService.java:127-183 | `addClassParameters` and `addSubscriptionParameter` compute `WithDeclarations` |
| InitPp.WithDeclarationsAssigns | acmq-prov-backend/src/main/java/com/company/mqprovisioning/service/template/InitPpService.java:127-183 | each generated declaration is an assignment once the block is rewritten, when the block was found and already declared something |
| InitPp.DeclaredInBlock | acmq-prov-backend/src/main/java/com/company/mqprovisioning/service/template/InitPpService.java:158-179 | a declaration spliced into a block that already declared something is an assignment |
| InitPp.AssignedInText | acmq-prov-backend/src/main/java/com/company/mqprovisioning/service/template/InitPpService.java:47-48 | a text holding a line that assigns a variable assigns it, whatever surrounds it |
| InitPp.ParamsTextContains | acmq-prov-backend/src/main/java/com/company/mqprovisioning/service/template/InitPpService.java:158-179 | every new line appears in the rebuilt block when a line already declared something |
| InitPp.SplicedAfterHolds | acmq-prov-backend/src/main/java/com/company/mqprovisioning/service/template/InitPpService.java:167-172 | after a declaring line the splice holds every new line |
| InitPp.Indented | acmq-prov-backend/src/main/java/com/company/mqprovisioning/service/template/InitPpService.java:296-299 | each validation line after the two-space indent |
| InitPp.IndentedSnoc | acmq-prov-backend/src/main/java/com/company/mqprovisioning/service/template/InitPpService.java:296-299 | one more validation adds its indented line at the end |
| InitPp.BuildValidationBlock | acmq-prov-backend/src/main/java/com/company/mqprovisioning/service/template/InitPpService.java:296-299 | the loop writes one indented line per validation |
| InitPp.AddValidations | acmq-prov-backend/src/main/java/com/company/mqprovisioning/service/template/InitPpService.java:273-309 | `addValidations` and `addSubscriptionValidation` compute `WithValidations` |
| InitPp.AssignsAtPrefix | acmq-prov-backend/src/main/java/com/company/mqprovisioning/service/template/InitPpService.java:47-48 | an assignment is still one in a prefix that reaches past its `=` |
| InitPp.AssignsAtSuffix | acmq-prov-backend/src/main/java/com/company/mqprovisioning/service/template/InitPpService.java:47-48 | an assignment is still one in a suffix that starts at or before its name |
| InitPp.StrippedPrefix | acmq-prov-backend/src/main/java/com/company/mqprovisioning/service/template/InitPpService.java:293 | the stripped section body continues the text before it |
| InitPp.KeptBeforeSection | acmq-prov-backend/src/main/java/com/company/mqprovisioning/service/template/InitPpService.java:293-307 | an assignment whose `=` lies before the stripped run is kept |
| InitPp.KeptAfterSection | acmq-prov-backend/src/main/java/com/company/mqprovisioning/service/template/InitPpService.java:293-307 | an assignment that starts at or after the marker is kept |
| InitPp.StrippedRunIsWhitespace | acmq-prov-backend/src/main/java/com/company/mqprovisioning/service/template/InitPpService.java:293 | what `stripTrailing` removes is whitespace |
| InitPp.AssignmentHasNoHash | acmq-prov-backend/src/main/java/com/company/mqprovisioning/service/template/InitPpService.java:47-48 | an assignment to a name without '#' holds no '#' up to its `=` |
| InitPp.StrippedSectionKeepsAssignments | acmq-prov-backend/src/main/java/com/company/mqprovisioning/service/template/InitPpService.java:293-307 | stripping the whitespace before a '#' and inserting text there keeps every assignment to a name without '#' |
| InitPp.WithValidationsKeepsAssignments | acmq-prov-backend/src/main/java/com/company/mqprovisioning/service/template/InitPpService.java:273-309 | rewriting the VALIDATES section keeps every assignment the existence check can see, for names without '#' |
| InitPp.UpdatedInitPp | acmq-prov-backend/src/main/java/com/company/mqprovisioning/service/template/InitPpService.java:36-79 | blank content fails, and only blank content; content with the address and no missing subscription is returned as it is |
| InitPp.AddMissingSubscriptions | acmq-prov-backend/src/main/java/com/company/mqprovisioning/service/template/InitPpService.java:70-75 | the loop over the missing subscriptions adds each one's declaration and validation in turn |
| InitPp.UpdateInitPp | acmq-prov-backend/src/main/java/com/company/mqprovisioning/service/template/InitPpService.java:36-79 | `updateInitPp` computes `UpdatedInitPp`, failing exactly where the Java throws |
| InitPp.QueueMissesNothing | acmq-prov-backend/src/main/java/com/company/mqprovisioning/service/template/InitPpService.java:85-116 | a queue without new subscriptions misses no subscription variable |
| InitPp.AssignedIsNotBlank | acmq-prov-backend/src/main/java/com/company/mqprovisioning/service/template/InitPpService.java:39-41 | text that assigns a `$` variable is not blank |
| InitPp.AddressVarHasNoHash | acmq-prov-backend/src/main/java/com/company/mqprovisioning/service/template/InitPpService.java:118-121 | the address variable of a valid name holds no '#' |
| InitPp.UpdatedInitPpDeclaresAddress | acmq-prov-backend/src/main/java/com/company/mqprovisioning/service/template/InitPpService.java:62-66 | once a queue request is applied its `$address_` variable is assigned |
| InitPp.UpdateInitPpSettlesForQueue | acmq-prov-backend/src/main/java/com/company/mqprovisioning/service/template/InitPpService.java:36-79 | a second update with the same queue request changes nothing |
| InitPp.UnassignedAppend | acmq-prov-backend/src/main/java/com/company/mqprovisioning/service/template/InitPpService.java:89-98 | the missing subscriptions keep the request's order |
| InitPp.SplicedAfterKeeps | acmq-prov-backend/src/main/java/com/company/mqprovisioning/service/template/InitPpService.java:160-177 | every line of the old parameter block is still a line of the spliced block |
| InitPp.ParamsTextKeepsLine | acmq-prov-backend/src/main/java/com/company/mqprovisioning/service/template/InitPpService.java:158-179 | every line of the old parameter block occurs in the rewritten block text |
| InitPp.WithDeclarationsKeepsLine | acmq-prov-backend/src/main/java/com/company/mqprovisioning/service/template/InitPpService.java:127-183 | a variable assigned on a line of the class block is still assigned after the block is rewritten |
| InitPp.BlockKeepsLine | acmq-prov-backend/src/main/java/com/company/mqprovisioning/service/template/InitPpService.java:158-179 | an assignment on a line of the block is one in any text around the rewritten block |
| InitPp.WithSubscriptionKeeps | acmq-prov-backend/src/main/java/com/company/mqprovisioning/service/template/InitPpService.java:70-75 | a block-line assignment of a name without '#' survives adding one subscription |
| InitPp.MulticastVarHasNoHash | acmq-prov-backend/src/main/java/com/company/mqprovisioning/service/template/InitPpService.java:118-121 | the multicast variable of a valid name holds no '#' |
| InitPp.WithSubscriptionDeclares | acmq-prov-backend/src/main/java/com/company/mqprovisioning/service/template/InitPpService.java:345-434 | `addSubscriptionParameter` then `addSubscriptionValidation` declare the subscription's variable when the class block already declares something |
| InitPp.UpdateInitPpSettlesForTopic | acmq-prov-backend/src/main/java/com/company/mqprovisioning/service/template/InitPpService.java:36-79 | a topic missing exactly one subscription variable gets it, and a second update with the same request changes nothing |
| InitPp.StillAssignedAfterOne | acmq-prov-backend/src/main/java/com/company/mqprovisioning/service/template/InitPpService.java:89-98 | after adding the one missing subscription every new subscription's variable is assigned |
| InitPp.NothingMissingSettles | acmq-prov-backend/src/main/java/com/company/mqprovisioning/service/template/InitPpService.java:47-56 | content assigning the address and every variable the request checks for is returned as it is |
| Provisioning.ValidateRequest | acmq-prov-backend/src/main/java/com/company/mqprovisioning/service/ProvisioningService.java:261-275 | an accepted request is passed on unchanged |
| Provisioning.ValidateRequestIff | acmq-prov-backend/src/main/java/com/company/mqprovisioning/service/ProvisioningService.java:261-275 | accepted exactly when a list holds an entry or a subscription is new, and the type is "queue" or "topic"; a request naming nothing is refused for that reason first |
| Provisioning.ValidateQueueNameIff | acmq-prov-backend/src/main/java/com/company/mqprovisioning/service/ProvisioningService.java:284-286 | a queue name passes exactly when present, non-empty and made of letters, digits, '.', '_' and '-' |
| Provisioning.WithoutAdmin | acmq-prov-backend/src/main/java/com/company/mqprovisioning/service/ProvisioningService.java:293-310 | the filter never lengthens a list |
| Provisioning.WithoutAdminMembers | acmq-prov-backend/src/main/java/com/company/mqprovisioning/service/ProvisioningService.java:296 | the filter keeps exactly the entries that are not `admin`, in any letter case |
| Provisioning.WithoutAdminAppend | acmq-prov-backend/src/main/java/com/company/mqprovisioning/service/ProvisioningService.java:293-310 | the kept entries stay in their order |
| Provisioning.WithoutAdminKeepsAll | acmq-prov-backend/src/main/java/com/company/mqprovisioning/service/ProvisioningService.java:293-310 | a list without an `admin` entry is kept whole, and keeps its length only then |
| Provisioning.WithoutAdminIdempotent | acmq-prov-backend/src/main/java/com/company/mqprovisioning/service/ProvisioningService.java:293-310 | filtering twice is filtering once |
| Provisioning.FilterAdminFromRequest | acmq-prov-backend/src/main/java/com/company/mqprovisioning/service/ProvisioningService.java:293-310 | each present list loses its `admin` entries; absent lists stay absent |
| Provisioning.FilterAdminFromRequestSpec | acmq-prov-backend/src/main/java/com/company/mqprovisioning/service/ProvisioningService.java:293-310 | no `admin` entry is left, every other entry stays, and filtering again changes nothing |
| Provisioning.AdminOnlyRequestAccepted | acmq-prov-backend/src/main/java/com/company/mqprovisioning/service/ProvisioningService.java:32-45 | validation runs before the filter, so a request whose only consumer is `Admin` is accepted and goes on with no consumers |
| Provisioning.ApplyIndentation | acmq-prov-backend/src/main/java/com/company/mqprovisioning/service/ProvisioningService.java:388-426 | `applyIndentation` re-indents each trimmed line, keeping blank lines as line breaks |
| Provisioning.ApplyAddressIndentation | acmq-prov-backend/src/main/java/com/company/mqprovisioning/service/ProvisioningService.java:492-525 | `applyAddressIndentation` re-indents each trimmed line by its tag |
| Provisioning.IndentJoined | acmq-prov-backend/src/main/java/com/company/mqprovisioning/service/ProvisioningService.java:388-426 | re-indenting joined one-line lines re-indents exactly those lines, trimmed |
| Provisioning.ReindentedAround | acmq-prov-backend/src/main/java/com/company/mqprovisioning/service/ProvisioningService.java:388-426 | a non-blank trimmed line appears, after its indent, in the re-indented block |
| Provisioning.TagLineSurvives | acmq-prov-backend/src/main/java/com/company/mqprovisioning/service/ProvisioningService.java:388-426 | a tag line of a block, after any re-indentation, is a tag match in any text around the block |
| Provisioning.BaseSettingIndent | acmq-prov-backend/src/main/java/com/company/mqprovisioning/service/ProvisioningService.java:335-340 | the detected indent less one trailing space |
| Provisioning.InsertSecuritySettings | acmq-prov-backend/src/main/java/com/company/mqprovisioning/service/ProvisioningService.java:319-359 | `insertSecuritySettings`: an empty file gets the new text alone, a file without `</security-settings>` gets it appended after a blank line, otherwise it goes re-indented before the last closing tag |
| Provisioning.InsertAddress | acmq-prov-backend/src/main/java/com/company/mqprovisioning/service/ProvisioningService.java:432-466 | `insertAddress`: an empty file or one without `</addresses>` is returned unchanged, otherwise the entry goes re-indented before the last closing tag |
| Provisioning.SettingsInsertedAt | acmq-prov-backend/src/main/java/com/company/mqprovisioning/service/ProvisioningService.java:347-358 | with the closing tag at p, the result is the stripped text before it, a newline, the re-indented block, a newline and the text from p on |
| Provisioning.AddressInsertedAt | acmq-prov-backend/src/main/java/com/company/mqprovisioning/service/ProvisioningService.java:455-465 | with the closing tag at p, the result is the stripped text before it, a newline, the re-indented entry, a newline and the text from p on |
| Provisioning.SettingsInsertedKeepsTail | acmq-prov-backend/src/main/java/com/company/mqprovisioning/service/ProvisioningService.java:319-359 | from the last `</security-settings>` on the text is kept as it was |
| Provisioning.AddressInsertedKeepsTail | acmq-prov-backend/src/main/java/com/company/mqprovisioning/service/ProvisioningService.java:432-466 | from the last `</addresses>` on the text is kept as it was |
| Provisioning.InsertedUnchanged | acmq-prov-backend/src/main/java/com/company/mqprovisioning/service/ProvisioningService.java:432-445 | without its closing tag `insertAddress` changes nothing, and an empty file gets the settings alone |
| Provisioning.InsertedSettingTag | acmq-prov-backend/src/main/java/com/company/mqprovisioning/service/ProvisioningService.java:319-359 | a tag line of a block placed before the closing tag is a match in the result |
| Provisioning.InsertedAddressTag | acmq-prov-backend/src/main/java/com/company/mqprovisioning/service/ProvisioningService.java:432-466 | a tag line of an entry placed before the closing tag is a match in the result |
| Provisioning.SettingsToAddLines | acmq-prov-backend/src/main/java/com/company/mqprovisioning/service/ProvisioningService.java:133-155 | the text to add, when something is missing, is the lines of the missing blocks, each block opening with its tag |
| Provisioning.SecuritySettingsInsertedRecognised | acmq-prov-backend/src/main/java/com/company/mqprovisioning/service/ProvisioningService.java:133-155 | once inserted, the namespace and resource blocks that were missing pass their existence checks, for a request whose names, user lists and subscription names hold no line break (`OneLineRequest`) |
| Provisioning.AppendedSettingsRecognised | acmq-prov-backend/src/main/java/com/company/mqprovisioning/service/ProvisioningService.java:320-332 | on the two paths that do not re-indent, the missing blocks pass their checks, for a request whose names, user lists and subscription names hold no line break (`OneLineRequest`) |
| Provisioning.SettingsBeforeCloseRecognised | acmq-prov-backend/src/main/java/com/company/mqprovisioning/service/ProvisioningService.java:334-358 | on the re-indenting path the missing blocks pass their checks, for a request whose names, user lists and subscription names hold no line break (`OneLineRequest`) |
| Provisioning.AddressInsertedRecognised | acmq-prov-backend/src/main/java/com/company/mqprovisioning/service/ProvisioningService.java:192-197 | with `</addresses>` present, the inserted entry passes `checkAddressExists`, for a request whose names, user lists and subscription names hold no line break (`OneLineRequest`) |
| Provisioning.AddressInsertedHasQueue | acmq-prov-backend/src/main/java/com/company/mqprovisioning/service/ProvisioningService.java:192-197 | after `insertAddress` each new subscription of a topic has its queue in the inserted entry |
| Provisioning.NoDashNoUser | acmq-prov-backend/src/main/java/com/company/mqprovisioning/service/ProvisioningService.java:623-648 | text without a dash holds no user |
| Provisioning.UserLineFound | acmq-prov-backend/src/main/java/com/company/mqprovisioning/service/ProvisioningService.java:623-648 | a user line as `updateAcmqYaml` writes it is found wherever it stands |
| Provisioning.OtherUserFormsFound | acmq-prov-backend/src/main/java/com/company/mqprovisioning/service/ProvisioningService.java:623-648 | the double-quoted and the bare forms at the end of a line are found too |
| ProvisioningFlow.BulletsAppend | acmq-prov-backend/src/main/java/com/company/mqprovisioning/service/ProvisioningService.java:560-575 | the bullets of a concatenation are the bullets of each part, in order |
| ProvisioningFlow.AppendBullets | acmq-prov-backend/src/main/java/com/company/mqprovisioning/service/ProvisioningService.java:562-564 | one ` - <item>` line per item, in order |
| ProvisioningFlow.AppendListed | acmq-prov-backend/src/main/java/com/company/mqprovisioning/service/ProvisioningService.java:560-566 | the heading and its bullets, only for a present, non-empty list |
| ProvisioningFlow.EntriesSnoc | acmq-prov-backend/src/main/java/com/company/mqprovisioning/service/ProvisioningService.java:578-586 | one more subscription adds its entry at the end |
| ProvisioningFlow.AppendSubscriptionEntries | acmq-prov-backend/src/main/java/com/company/mqprovisioning/service/ProvisioningService.java:577-587 | the loop over the new subscriptions writes one entry each, in order |
| ProvisioningFlow.AppendResourceLines | acmq-prov-backend/src/main/java/com/company/mqprovisioning/service/ProvisioningService.java:554-573 | the resource section: kind and name, then the publisher and consumer lists |
| ProvisioningFlow.AppendChanges | acmq-prov-backend/src/main/java/com/company/mqprovisioning/service/ProvisioningService.java:575-600 | the change section |
| ProvisioningFlow.BuildCommitMessage | acmq-prov-backend/src/main/java/com/company/mqprovisioning/service/ProvisioningService.java:532-603 | the StringBuilder code shared by both message generators |
| ProvisioningFlow.GenerateHieradataCommitMessage | acmq-prov-backend/src/main/java/com/company/mqprovisioning/service/ProvisioningService.java:532-603 | `generateHieradataCommitMessage` computes `HieradataCommitMessage` |
| ProvisioningFlow.GeneratePuppetCommitMessage | acmq-prov-backend/src/main/java/com/company/mqprovisioning/service/ProvisioningService.java:654-723 | `generatePuppetCommitMessage` computes `PuppetCommitMessage` |
| ProvisioningFlow.TrimKeepsHeader | acmq-prov-backend/src/main/java/com/company/mqprovisioning/service/ProvisioningService.java:602 | the final `trim()` cannot reach into the header |
| ProvisioningFlow.CommitMessageStartsWithHeader | acmq-prov-backend/src/main/java/com/company/mqprovisioning/service/ProvisioningService.java:532-723 | both messages open with the requester, team and ticket lines, untouched by the trim |
| ProvisioningFlow.CommitMessagesAgreeOnUpdates | acmq-prov-backend/src/main/java/com/company/mqprovisioning/service/ProvisioningService.java:532-723 | for an order that is not `new` both messages read the same, whatever the broker file holds |
| ProvisioningFlow.ExistingResourceDescribedAsUpdate | acmq-prov-backend/src/main/java/com/company/mqprovisioning/service/ProvisioningService.java:654-723 | a new resource whose security setting already exists is described in the Puppet message exactly as an update |
| ProvisioningFlow.SecureXml | acmq-prov-backend/src/main/java/com/company/mqprovisioning/service/ProvisioningService.java:133-155 | step 4 of `updateBrokerXmlRepo`: update the existing setting, or insert the missing blocks |
| ProvisioningFlow.SecureSubscriptions | acmq-prov-backend/src/main/java/com/company/mqprovisioning/service/ProvisioningService.java:157-190 | step 4b: per new subscription, the subscriber is added to the topic's setting and the subscription's block inserted when absent |
| ProvisioningFlow.AddAddress | acmq-prov-backend/src/main/java/com/company/mqprovisioning/service/ProvisioningService.java:192-213 | steps 5 and 5b; the address test reads the original text |
| ProvisioningFlow.UpdateBrokerXml | acmq-prov-backend/src/main/java/com/company/mqprovisioning/service/ProvisioningService.java:118-215 | `updateBrokerXmlRepo`, steps 4 to 5b, in the source's order |
| ProvisioningFlow.SettingTextNotBlank | acmq-prov-backend/src/main/java/com/company/mqprovisioning/service/ProvisioningService.java:150 | a text holding a `<security-setting` match is not blank |
| ProvisioningFlow.SecuredXmlHasResource | acmq-prov-backend/src/main/java/com/company/mqprovisioning/service/ProvisioningService.java:133-155 | after step 4 the resource has its own block, and a missing namespace block is there as well |
| ProvisioningFlow.SubscriptionSettingAddedRecognised | acmq-prov-backend/src/main/java/com/company/mqprovisioning/service/ProvisioningService.java:173-188 | step 4b adds the subscription's block only when absent; afterwards it is there and a second pass changes nothing |
| ProvisioningFlow.QueueAddedIfMissingRecognised | acmq-prov-backend/src/main/java/com/company/mqprovisioning/service/ProvisioningService.java:198-212 | step 5b adds a subscription's queue only when absent; afterwards it is there and a second pass changes nothing |
| ProvisioningFlow.AddressedXmlRecognised | acmq-prov-backend/src/main/java/com/company/mqprovisioning/service/ProvisioningService.java:192-213 | without an address for the resource the new entry, with a queue per new subscription, is recognised in the result |
| ProvisioningFlow.HieradataUpdateNoChange | acmq-prov-backend/src/main/java/com/company/mqprovisioning/service/ProvisioningService.java:92-96 | no hieradata change is published exactly when the reconciled text equals the original |
| ProvisioningFlow.ProcessedRequestIff | acmq-prov-backend/src/main/java/com/company/mqprovisioning/service/ProvisioningService.java:32-75 | a request is processed exactly when valid and both `acmq.yaml` and `init.pp` are non-blank; the Puppet change is always produced, the hieradata one only when the text changes |
| ProvisioningFlow.PuppetUpdateFails | acmq-prov-backend/src/main/java/com/company/mqprovisioning/service/ProvisioningService.java:118-131 | the Puppet step fails exactly on a blank `init.pp` and otherwise writes the updated `broker.xml.erb` |
| ProvisioningFlow.GeneratePrDescription | acmq-prov-backend/src/main/java/com/company/mqprovisioning/service/ProvisioningService.java:233-259 | the StringBuilder code builds exactly `PrDescription`: opening, fields, the consumer and producer lists when present and non-empty, then the description when non-empty |
| ProvisioningFlow.AppendDashItems | acmq-prov-backend/src/main/java/com/company/mqprovisioning/service/ProvisioningService.java:244 | the `forEach` appends one `- x` line per item, in list order |
| ProvisioningFlow.DashItemsAppend | acmq-prov-backend/src/main/java/com/company/mqprovisioning/service/ProvisioningService.java:244 | the markdown list of a concatenation is the lists of the parts, in order |
| ProvisioningFlow.PrDescriptionEnds | acmq-prov-backend/src/main/java/com/company/mqprovisioning/service/ProvisioningService.java:233-259 | the description opens with the heading and request id and ends with the request's description when it has one |
| ProvisioningFlow.PrDescriptionBare | acmq-prov-backend/src/main/java/com/company/mqprovisioning/service/ProvisioningService.java:233-259 | with no consumers, producers or description only the fixed heading and field lines remain |
| ProvisioningFlow.PrConsumersListed | acmq-prov-backend/src/main/java/com/company/mqprovisioning/service/ProvisioningService.java:242-246 | a consumer list `[c] + cs` appears right after the fields as the title, `- c`, then the lines of `cs` |

## Left out

- Git, Bitbucket and the file system are not modelled: `GitService`, branches, commits and pull requests. Each repository file is an input string, and the new text and the commit message are outputs.
- `processProvisionRequest` is modelled without its `UUID.randomUUID()` request id. The id is a parameter of the pull-request description. `createdAt` is also dropped, because `LocalDate.now()` is a clock.
- The `requestCache` map and `getRequestStatus` are not modelled, because they are concurrent in-memory bookkeeping with no effect on any file.
- `ConfigParserService.parseAllConfigs` is not modelled, because it only reads the three files from the repositories and passes them to the parsers, which are modelled.
- Logging (`log.info`, `log.debug`, `log.warn`) is dropped, because it changes no result.
- Exceptions: an `IllegalArgumentException` or `RuntimeException` the Java throws is a `Failure` of a `Result`. The message text is not modelled.
- Java `null` is `None` for the lists, the description and the legacy subscription name. A `subscriptionName`, `subscriber`, `team` or `requester` that the code only prints or tests for emptiness is a string, with `null` taken as `""`. So where Java would print `null` (for example `team: 'null'` in the hieradata content), the model prints an empty value.
- Case-insensitive matching:
  - The existence checks in `BrokerXmlTemplateService` compile their patterns with `Pattern.CASE_INSENSITIVE`. The model compares case-sensitively. Names differing only in letter case are reported as absent where Java reports them as present.
  - `equalsIgnoreCase` against the literals `"admin"` and `"new"` is modelled char by char for those ASCII letters only.
  - `toUpperCase` of a team prefix's first char is modelled for ASCII letters only.
- Whitespace above U+007F: `String.strip`, `stripTrailing` and `Character.isWhitespace` also treat some Unicode space separators above U+007F as whitespace. The model knows only the ASCII ones plus U+001C-U+001F. Java's UTF-16 surrogate pairs are single Dafny chars.
- `HashMap` and `LinkedHashMap` are modelled as follows:
  - a map that is iterated is an insertion-ordered association list;
  - a map that is only looked up is a Dafny `map`;
  - the iteration order of a plain `HashMap` is not modelled.
- `TopicData.subscribers` is never filled by `parseTopicsFromBrokerXml`, so the model leaves that set out of `TopicData`.
- `addSubscriberToTopicSecuritySetting` is called by `updateBrokerXmlRepo` but has no definition in the source. It is a function parameter of the broker pipeline.
- `BrokerXmlTemplateService.generateSecuritySettings` is not modelled, because it is private and nothing calls it. Its parts, `generateNamespaceSecuritySetting` and `generateResourceSecuritySetting`, are modelled.
- `getVariableName` is not modelled separately, because it is `convertToVariableName` of the name (`Identifiers.ToVariableName`).
- The deprecated overloads are not modelled. They are `checkSubscriptionSecuritySettingExists(content, request)`, `generateSubscriptionSecuritySetting(request)`, `checkSubscriptionQueueExistsInAddress(content, request)` and `addSubscriptionQueueToExistingAddress(content, request)`. Each only forwards the legacy `subscriptionName` to the modelled per-subscription version.
- `updateNewSubscriberFlags` sets `isNewSubscriber` on each subscription in place. It is modelled as the function `SubscriberIsNew` of the existing `acmq.yaml`, which the commit-message builders and the broker pipeline take as the flag.
- `filterAdminFromRequest` mutates the request. It is modelled as returning the filtered request.
- AcmqYamlSections.UsersSectionReadBack: proved only for a non-empty list of quote-free users, when the key is the first `users:` in the text and the text after the section starts no user item and has no line break in its leading whitespace. Otherwise `find()` may match elsewhere or run on into the following text.
- AcmqYamlSections.RolesSectionReadBack: proved only for a non-empty list of entries without quotes or line breaks, when the key is the first `roles:` in the text and the text after the section starts no roles item.
- AcmqYamlSections.ReplacedUsersReadBack: proved only when the content's first `users:` opens the section `find()` reports, or the content has no `users:`. An earlier `users:` that is not a section (for example `other_users:`) is not covered.
- AcmqYamlSections.ReplacedRolesReadBack: proved under the same condition on the content's first `roles:`.
- Provisioning.SecuritySettingsInsertedRecognised, Provisioning.AppendedSettingsRecognised, Provisioning.SettingsBeforeCloseRecognised and Provisioning.AddressInsertedRecognised: proved only for a request whose names, user lists and subscription names hold no line break (`OneLineRequest`). The Java never checks this, so such a request is not covered.
- ConfigRoundTrip.GeneratedQueueRead: proved for a text that is the generated queue block alone, not a whole `broker.xml` around it. The variable must be a run of word chars holding `_queue_`. The prefix and every producer and consumer must be non-empty and free of `<`, `"` and `,`. The Java checks none of this, and a role with a comma in it would read back as two roles.
- ConfigRoundTrip.GeneratedTopicRead: proved under the same conditions for a topic, with `_topic_` in the variable. A legacy subscription name, when given, must be a name token, so that its variable is a run of word chars.
- ConfigRoundTrip.TopicWithoutLegacyRead and ConfigRoundTrip.TopicWithLegacyRead: the two cases of `GeneratedTopicRead`, under its conditions.
- AcmqYaml.UpdateAcmqYaml: no lemma states that reconciling the same request twice gives the same text. The ledger lemmas state what the sections hold after one run.
- InitPp.UpdateInitPpSettlesForTopic: proved for a topic missing exactly one subscription variable, whose assignments stand on lines of the class block. The fold over several missing subscriptions is covered only by `AddMissingSubscriptions` and `WithSubscriptionKeeps`.

## Findings

| source | as written | input that shows it | evidently intended | confidence | as-written member | corrected member |
|---|---|---|---|---|---|---|
| acmq-prov-backend/src/main/java/com/company/mqprovisioning/service/template/BrokerXmlTemplateService.java:801 | the queue indent is found with `^(\s*)<queue` in MULTILINE mode; `\s` matches the line break that opens the multicast body, so the captured indent is "\n " and the added queue line is preceded by an empty line | a multicast body "\n <queue .../>" | the indent is the spaces and tabs before `<queue` on its own line (`[ \t]*`), so the new queue line directly follows the last one | not executed | BrokerXmlAddress.QueueIndentAsWrittenBlankLine | BrokerXmlAddress.QueueAddedNoBlankLine |

The broker pipeline (`ProvisioningFlow`) follows the code as written, `QueueAddedAsWritten`. `QueueAdded` is the corrected definition, and `QueueIndentOneLine` and `QueueAddedNoBlankLine` are proved about it.
