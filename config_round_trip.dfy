/**
 * The broker template read back: what `BrokerXmlTemplateService` writes
 * for a queue or a topic (`generateResourceSecuritySetting`) is what
 * `ConfigParserService.parseQueuesFromBrokerXml` and
 * `parseTopicsFromBrokerXml` read from it. The queue or topic variable
 * comes back as written, its send and consume holders are the
 * contributions of the role lists the grants were written with, and a
 * topic carries the legacy subscription written with it.
 */
module ConfigRoundTrip {
  import opened Wrappers
  import opened Text
  import opened OrderedSet
  import opened OrderedMap
  import opened Identifiers
  import opened Request
  import opened BrokerXml
  import opened BrokerXmlInsert
  import opened ConfigParser
  import opened ConfigCatalogue

  // ---------------------------------------------------------------------
  // Where a tag can start
  // ---------------------------------------------------------------------

  /** Every `<` of the text has a next char, and that char is not `c`. */
  predicate LtNotBefore(x: string, c: char) {
    forall k :: 0 <= k < |x| ==> LtNotBeforeAt(x, k, c)
  }

  /** The char at `k` is no `<`, or one followed by a char other than `c`. */
  predicate LtNotBeforeAt(x: string, k: nat, c: char)
    requires k < |x|
  {
    x[k] == '<' ==> k + 1 < |x| && x[k + 1] != c
  }

  /** A text without `<` has no tag in it. */
  lemma LtFree(x: string, c: char)
    requires '<' !in x
    ensures LtNotBefore(x, c)
  {
    forall k | 0 <= k < |x|
      ensures LtNotBeforeAt(x, k, c)
    {
      assert x[k] in x;
    }
  }

  /** A `<` followed by a text without one, whose first char is not `c`. */
  lemma LtLead(y: string, c: char)
    requires '<' !in y && y != [] && y[0] != c
    ensures LtNotBefore("<" + y, c)
  {
    var x := "<" + y;
    forall k | 0 <= k < |x|
      ensures LtNotBeforeAt(x, k, c)
    {
      if k > 0 {
        assert x[k] == y[k - 1] && y[k - 1] in y;
      }
    }
  }

  lemma LtConcat(a: string, b: string, c: char)
    requires LtNotBefore(a, c) && LtNotBefore(b, c)
    ensures LtNotBefore(a + b, c)
  {
    var x := a + b;
    forall k | 0 <= k < |x|
      ensures LtNotBeforeAt(x, k, c)
    {
      if k < |a| {
        assert LtNotBeforeAt(a, k, c);
        assert x[k] == a[k];
        if k + 1 < |a| {
          assert x[k + 1] == a[k + 1];
        }
      } else {
        assert LtNotBeforeAt(b, k - |a|, c);
        assert x[k] == b[k - |a|];
        if k + 1 < |x| {
          assert x[k + 1] == b[k + 1 - |a|];
        }
      }
    }
  }

  /** No `<security-setting` starts between `lo` and `hi`. */
  lemma NoOpenBetween(s: string, lo: nat, hi: nat)
    requires lo <= hi <= |s| && LtNotBefore(s[lo..hi], 's')
    ensures forall j :: lo <= j < hi ==> AddressStart(s, j).None?
  {
    forall j | lo <= j < hi
      ensures !StartsAt(s, SettingOpen, j)
    {
      NotTagAt(s, lo, hi, j, SettingOpen, 's');
    }
  }

  /** No `</security-setting>` starts between `lo` and `hi`. */
  lemma NoCloseBetween(s: string, lo: nat, hi: nat)
    requires lo <= hi <= |s| && LtNotBefore(s[lo..hi], '/')
    ensures forall j :: lo <= j < hi ==> !StartsAt(s, SettingClose, j)
  {
    forall j | lo <= j < hi
      ensures !StartsAt(s, SettingClose, j)
    {
      NotTagAt(s, lo, hi, j, SettingClose, '/');
    }
  }

  /** A tag opening with `<` and `c` does not start inside a stretch where no `<` precedes `c`. */
  lemma NotTagAt(s: string, lo: nat, hi: nat, j: nat, tag: string, c: char)
    requires lo <= j < hi <= |s| && LtNotBefore(s[lo..hi], c)
    requires |tag| >= 2 && tag[0] == '<' && tag[1] == c
    ensures !StartsAt(s, tag, j)
  {
    assert LtNotBeforeAt(s[lo..hi], j - lo, c);
    assert s[lo..hi][j - lo] == s[j];
    if s[j] == '<' {
      assert s[lo..hi][j - lo + 1] == s[j + 1];
    }
    StartsAtCovers(s, tag, j, j);
    StartsAtCovers(s, tag, j, j + 1);
  }

  // ---------------------------------------------------------------------
  // The open tags the generators write
  // ---------------------------------------------------------------------

  /** A variable as the scanners read it: a non-empty run of word chars. */
  predicate WordName(v: string) {
    v != [] && forall k :: 0 <= k < |v| ==> IsWordChar(v[k])
  }

  /** `<security-setting match="<%= @address_`, what both open tags start with. */
  const AddressHead: string := SettingOpen + " " + MatchOpen + " " + AddressRef

  /** `%>::<%= @multicast_`, between a subscription's two variables. */
  const MulticastHead: string := SubscriptionJoin + " " + MulticastRef

  /** The open tag of a queue's or topic's block. */
  function ResourceOpen(v: string): string {
    SettingOpen + " " + ResourceMatch(v)
  }

  /** The open tag of a subscription's block. */
  function SubscriptionOpen(v: string, sv: string): string {
    SettingOpen + " " + SubscriptionMatch(v, sv)
  }

  lemma AssocRight(a: string, b: string, c: string, d: string)
    ensures a + b + c + d == a + (b + c + d)
  {
  }

  lemma AssocLeft3(a: string, b: string, c: string, d: string)
    ensures a + (b + c + d) == (a + b) + c + d
  {
  }

  lemma AssocLeft5(a: string, b: string, c: string, d: string, e: string, f: string)
    ensures a + (b + c + d + e + f) == (a + b) + c + d + e + f
  {
  }

  /** `AddressHead` is the tag name and a space before the attribute's opening. */
  lemma AddressHeadSplit()
    ensures AddressHead == SettingOpen + " " + "match=\"<%= @address_"
  {
    AssocRight(SettingOpen + " ", MatchOpen, " ", AddressRef);
    assert MatchOpen + " " + AddressRef == "match=\"<%= @address_";
  }

  lemma ResourceOpenSplit(v: string)
    ensures ResourceOpen(v) == AddressHead + v + WildcardClose
  {
    AddressHeadSplit();
    AssocLeft3(SettingOpen + " ", "match=\"<%= @address_", v, "%>.#\">");
  }

  lemma SubscriptionOpenSplit(v: string, sv: string)
    ensures SubscriptionOpen(v, sv) == AddressHead + v + MulticastHead + sv + SubscriptionClose
  {
    AddressHeadSplit();
    assert MulticastHead == "%>::<%= @multicast_";
    AssocLeft5(SettingOpen + " ", "match=\"<%= @address_", v, "%>::<%= @multicast_", sv, "%>\">");
  }

  /** Three pieces laid end to end at `p`. */
  lemma Split3(s: string, p: nat, a: string, b: string, c: string)
    requires p + |a| + |b| + |c| <= |s| && s[p..p + |a| + |b| + |c|] == a + b + c
    ensures s[p..p + |a|] == a && s[p + |a|..p + |a| + |b|] == b
    ensures s[p + |a| + |b|..p + |a| + |b| + |c|] == c
  {
    var x := a + b + c;
    forall k | 0 <= k < |a|
      ensures s[p..p + |a|][k] == a[k]
    {
      assert s[p..p + |a|][k] == s[p..p + |x|][k] == x[k];
    }
    forall k | 0 <= k < |b|
      ensures s[p + |a|..p + |a| + |b|][k] == b[k]
    {
      assert s[p + |a|..p + |a| + |b|][k] == s[p..p + |x|][|a| + k] == x[|a| + k];
    }
    forall k | 0 <= k < |c|
      ensures s[p + |a| + |b|..p + |x|][k] == c[k]
    {
      assert s[p + |a| + |b|..p + |x|][k] == s[p..p + |x|][|a| + |b| + k] == x[|a| + |b| + k];
    }
  }

  /** A piece of a slice starts where it sits. */
  lemma SliceAt(s: string, p: nat, x: string, i: nat, pat: string)
    requires p + |x| <= |s| && s[p..p + |x|] == x && i + |pat| <= |x| && x[i..i + |pat|] == pat
    ensures StartsAt(s, pat, p + i)
  {
    forall k | 0 <= k < |pat|
      ensures s[p + i + k] == pat[k]
    {
      assert s[p + i + k] == s[p..p + |x|][i + k] == x[i + k] == x[i..i + |pat|][k];
    }
    assert s[p + i..p + i + |pat|] == pat;
    StartsAtIff(s, pat, p + i);
  }

  /** The pieces of `AddressHead`, by position. */
  lemma AddressHeadPieces()
    ensures |AddressHead| == 38
    ensures AddressHead[..17] == SettingOpen && AddressHead[17] == ' ' && AddressHead[18] == 'm'
    ensures AddressHead[18..28] == MatchOpen && AddressHead[28] == ' ' && AddressHead[29] == '@'
    ensures AddressHead[29..] == AddressRef
  {
    AddressHeadSplit();
  }

  /** `<security-setting\s+match="<%=\s*@address_` at `p`. */
  lemma AddressHeadAt(s: string, p: nat)
    requires p + |AddressHead| <= |s| && s[p..p + |AddressHead|] == AddressHead
    ensures AddressStart(s, p) == Some(p + |AddressHead|)
  {
    var x := AddressHead;
    AddressHeadPieces();
    SliceAt(s, p, x, 0, SettingOpen);
    SliceAt(s, p, x, 18, MatchOpen);
    SliceAt(s, p, x, 29, AddressRef);
    assert s[p + 17] == x[17] && s[p + 18] == x[18] && s[p + 28] == x[28] && s[p + 29] == x[29];
    WsEndIs(s, p + 17, p + 18);
    WsEndIs(s, p + 28, p + 29);
    AddressStartAt(s, p);
  }

  /** `AddressStart` once the tag name, the attribute opening and `@address_` are known by position. */
  lemma AddressStartAt(s: string, p: nat)
    requires StartsAt(s, SettingOpen, p) && WsEnd(s, p + 17) == p + 18
    requires StartsAt(s, MatchOpen, p + 18) && WsEnd(s, p + 28) == p + 29
    requires StartsAt(s, AddressRef, p + 29)
    ensures AddressStart(s, p) == Some(p + 38)
  {
    assert |SettingOpen| == 17 && |MatchOpen| == 10 && |AddressRef| == 9;
    assert SpacedAt(s, p, SettingOpen, MatchOpen);
    assert SpacedEnd(s, p, SettingOpen, MatchOpen) == p + 28;
  }

  /** A word variable at `p` followed by `%` is the whole word run there. */
  lemma VarAt(s: string, p: nat, v: string)
    requires WordName(v) && p + |v| < |s| && s[p..p + |v|] == v && s[p + |v|] == '%'
    ensures WordEnd(s, p) == p + |v| && WsEnd(s, p + |v|) == p + |v|
  {
    forall k | p <= k < p + |v|
      ensures IsWordChar(s[k])
    {
      assert s[k] == s[p..p + |v|][k - p];
    }
    WordEndIs(s, p, p + |v|);
    WsEndIs(s, p + |v|, p + |v|);
  }

  /** `%>.#">` at `q`. */
  lemma WildcardCloseAt(s: string, q: nat)
    requires q + |WildcardClose| <= |s| && s[q..q + |WildcardClose|] == WildcardClose
    ensures StartsAt(s, WildcardClose, q) && s[q] == '%' && s[q + 2] == '.'
  {
    StartsAtIff(s, WildcardClose, q);
    assert s[q] == s[q..q + 6][0] && s[q + 2] == s[q..q + 6][2];
  }

  /** `%>::<%= @multicast_` at `q`. */
  lemma MulticastHeadAt(s: string, q: nat)
    requires q + |MulticastHead| <= |s| && s[q..q + |MulticastHead|] == MulticastHead
    ensures |MulticastHead| == 19
    ensures StartsAt(s, SubscriptionJoin, q) && s[q] == '%' && s[q + 2] == ':'
    ensures WsEnd(s, q + 7) == q + 8 && StartsAt(s, MulticastRef, q + 8)
  {
    var x := MulticastHead;
    assert |x| == 19 && x[..7] == SubscriptionJoin && x[8..] == MulticastRef;
    assert x[0] == '%' && x[2] == ':' && x[7] == ' ' && x[8] == '@';
    SliceAt(s, q, x, 0, SubscriptionJoin);
    SliceAt(s, q, x, 8, MulticastRef);
    assert s[q] == x[0] && s[q + 2] == x[2] && s[q + 7] == x[7] && s[q + 8] == x[8];
    WsEndIs(s, q + 7, q + 8);
  }

  /** `%>">` at `q`. */
  lemma SubscriptionCloseAt(s: string, q: nat)
    requires q + |SubscriptionClose| <= |s| && s[q..q + |SubscriptionClose|] == SubscriptionClose
    ensures StartsAt(s, SubscriptionClose, q) && s[q] == '%'
  {
    StartsAtIff(s, SubscriptionClose, q);
    assert s[q] == s[q..q + 4][0];
  }

  /** The open tag at `p`: `@address_` ending at `p + 38`, a word run of `|v|` chars, then `%>.#">`. */
  predicate OpenFacts(s: string, p: nat, v: string) {
    var ve := p + 38 + |v|;
    && ve + 6 <= |s| && AddressStart(s, p) == Some(p + 38)
    && WordEnd(s, p + 38) == ve && WsEnd(s, ve) == ve && StartsAt(s, WildcardClose, ve) && s[ve + 2] == '.'
  }

  /** `body` at `n`, followed by the first closing tag from `n` on. */
  predicate ClosesAt(s: string, n: nat, body: string) {
    n + |body| <= |s| && s[n..n + |body|] == body && IndexOfFrom(s, SettingClose, n) == Some(n + |body|)
  }

  /** What the resource pattern needs at `p` to read variable `v` and body `body`. */
  predicate ResourceTagFacts(s: string, p: nat, v: string, body: string, marker: string) {
    && AddressStart(s, p) == Some(p + 38) && WordEnd(s, p + 38) == p + 38 + |v| && s[p + 38..p + 38 + |v|] == v
    && BodyFacts(s, p + 38, p + 38 + |v|, body, marker)
  }

  /** What the resource pattern needs past the variable's run from `vs` to `ve` to read body `body`. */
  predicate BodyFacts(s: string, vs: nat, ve: nat, body: string, marker: string) {
    vs <= ve <= |s| && WsEnd(s, ve) == ve && StartsAt(s, WildcardClose, ve) && Contains(s[vs..ve], marker) && ClosesAt(s, ve + 6, body)
  }

  /** The resource pattern at `p` once its pieces are known by position. */
  lemma ResourceTagMatch(s: string, p: nat, v: string, body: string, marker: string)
    requires ResourceTagFacts(s, p, v, body, marker)
    ensures ResourceSettingMatch(s, p, marker).Some?
    ensures ResourceSettingMatch(s, p, marker).value.varName == v
    ensures ResourceSettingMatch(s, p, marker).value.body == body
    ensures ResourceSettingMatch(s, p, marker).value.end == p + 38 + |v| + 6 + |body| + |SettingClose|
  {
    ResourceBodyAt(s, p + 38, p + 38 + |v|, body, marker);
    ResourceAfterAddress(s, p, p + 38, p + 38 + |v|, marker);
  }

  /** Past `@address_`, the resource pattern is its body stage on the variable's run. */
  lemma ResourceAfterAddress(s: string, p: nat, vs: nat, ve: nat, marker: string)
    requires AddressStart(s, p) == Some(vs) && WordEnd(s, vs) == ve
    ensures ResourceSettingMatch(s, p, marker) == ResourceBodyMatch(s, vs, ve, marker)
  {
  }

  /** The rest of the resource pattern once the variable's run is known. */
  lemma ResourceBodyAt(s: string, vs: nat, ve: nat, body: string, marker: string)
    requires BodyFacts(s, vs, ve, body, marker)
    ensures ResourceBodyMatch(s, vs, ve, marker).Some?
    ensures ResourceBodyMatch(s, vs, ve, marker).value.varName == s[vs..ve]
    ensures ResourceBodyMatch(s, vs, ve, marker).value.body == body
    ensures ResourceBodyMatch(s, vs, ve, marker).value.end == ve + 6 + |body| + |SettingClose|
  {
    assert |WildcardClose| == 6;
  }

  /** The multicast part of the subscription pattern once its pieces are known by position. */
  lemma MulticastTagMatch(s: string, vs: nat, ve: nat, me: nat)
    requires vs < ve && ve + 19 < me <= |s| && WsEnd(s, ve) == ve
    requires StartsAt(s, SubscriptionJoin, ve) && WsEnd(s, ve + 7) == ve + 8
    requires StartsAt(s, MulticastRef, ve + 8)
    requires WordEnd(s, ve + 19) == me && WsEnd(s, me) == me && StartsAt(s, SubscriptionClose, me)
    ensures MulticastMatch(s, vs, ve) == Some(SubscriptionSpan(s[vs..ve], s[ve + 19..me], me + 4))
  {
    assert |SubscriptionJoin| == 7 && |MulticastRef| == 11 && |SubscriptionClose| == 4;
  }

  /** A `.` two chars after the topic variable: no subscription starts at `p`. */
  lemma NoSubscriptionAt(s: string, p: nat, vs: nat, ve: nat)
    requires vs <= ve && ve + 2 < |s| && AddressStart(s, p) == Some(vs)
    requires WordEnd(s, vs) == ve && WsEnd(s, ve) == ve && s[ve + 2] == '.'
    ensures SubscriptionSettingMatch(s, p).None?
  {
    StartsAtCovers(s, SubscriptionJoin, ve, ve + 2);
  }

  /** A `:` two chars after the variable: no queue or topic starts at `p`. */
  lemma NoResourceAt(s: string, p: nat, vs: nat, ve: nat, marker: string)
    requires vs <= ve && ve + 2 < |s| && AddressStart(s, p) == Some(vs)
    requires WordEnd(s, vs) == ve && WsEnd(s, ve) == ve && s[ve + 2] == ':'
    ensures ResourceSettingMatch(s, p, marker).None?
  {
    StartsAtCovers(s, WildcardClose, ve, ve + 2);
  }

  /** A queue's or topic's open tag given as its three pieces: where the variable starts and ends. */
  lemma ResourcePieces(s: string, p: nat, v: string)
    requires WordName(v)
    requires var ve := p + 38 + |v|;
      ve + 6 <= |s| && s[p..p + 38] == AddressHead && s[p + 38..ve] == v && s[ve..ve + 6] == WildcardClose
    ensures OpenFacts(s, p, v)
  {
    AddressHeadPieces();
    var vs := p + 38;
    var ve := vs + |v|;
    AddressHeadAt(s, p);
    WildcardCloseAt(s, ve);
    VarAt(s, vs, v);
  }

  /** No subscription starts at a queue's or topic's open tag. */
  lemma OpenNoSubscription(s: string, p: nat, v: string)
    requires OpenFacts(s, p, v)
    ensures SubscriptionSettingMatch(s, p).None?
  {
    NoSubscriptionAt(s, p, p + 38, p + 38 + |v|);
  }

  /** The subscription pattern at an open tag given as its five pieces. */
  lemma SubscriptionPiecesMatch(s: string, p: nat, v: string, sv: string, marker: string)
    requires WordName(v) && WordName(sv)
    requires var vs := p + |AddressHead|; var ve := vs + |v|;
      var ms := ve + |MulticastHead|; var me := ms + |sv|;
      me + |SubscriptionClose| <= |s| && s[p..vs] == AddressHead && s[vs..ve] == v
      && s[ve..ms] == MulticastHead && s[ms..me] == sv
      && s[me..me + |SubscriptionClose|] == SubscriptionClose
    ensures var end := p + |AddressHead| + |v| + |MulticastHead| + |sv| + |SubscriptionClose|;
      SubscriptionSettingMatch(s, p) == Some(SubscriptionSpan(v, sv, end))
    ensures ResourceSettingMatch(s, p, marker).None?
  {
    var vs := p + |AddressHead|;
    var ve := vs + |v|;
    var ms := ve + |MulticastHead|;
    AddressHeadAt(s, p);
    MulticastHeadAt(s, ve);
    VarAt(s, vs, v);
    SubscriptionCloseAt(s, ms + |sv|);
    VarAt(s, ms, sv);
    MulticastTagMatch(s, vs, ve, ms + |sv|);
    NoResourceAt(s, p, vs, ve, marker);
  }

  /** At a subscription's open tag, the subscription pattern captures both variables; the resource pattern does not match there. */
  lemma SubscriptionOpenMatch(s: string, p: nat, v: string, sv: string, marker: string)
    requires WordName(v) && WordName(sv)
    requires p + |SubscriptionOpen(v, sv)| <= |s| && s[p..p + |SubscriptionOpen(v, sv)|] == SubscriptionOpen(v, sv)
    ensures SubscriptionSettingMatch(s, p) == Some(SubscriptionSpan(v, sv, p + |SubscriptionOpen(v, sv)|))
    ensures ResourceSettingMatch(s, p, marker).None?
  {
    SubscriptionOpenSplit(v, sv);
    var a, c := AddressHead + v, sv + SubscriptionClose;
    assert SubscriptionOpen(v, sv) == a + MulticastHead + c;
    Split3(s, p, a, MulticastHead, c);
    Split3(s, p, AddressHead, v, []);
    Split3(s, p + |a| + |MulticastHead|, sv, SubscriptionClose, []);
    SubscriptionPiecesMatch(s, p, v, sv, marker);
  }

  // ---------------------------------------------------------------------
  // The lines between the tags
  // ---------------------------------------------------------------------

  /** `<permission type="`, what every permission line starts with. */
  const TypeHead: string := PermissionOpen + " " + "type=\""

  /** `" roles="`, between the permission type and the role list. */
  const RolesMid: string := "\"" + " " + RolesAttr

  lemma LineAssoc(a: string, b: string, p: string, c: string, d: string, e: string, r: string, t: string)
    ensures a + (b + p + c) + d + e + r + t == (a + b) + p + (c + d + e) + r + t
  {
  }

  lemma AssocRight5(a: string, b: string, c: string, d: string, e: string)
    ensures a + b + c + d + e == a + (b + c + d + e)
  {
  }

  lemma DropFirst(a: string, b: string)
    requires a != []
    ensures (a + b)[1..] == a[1..] + b
  {
  }

  /** A permission line is its fixed head, the type, the fixed middle, the role list and `"/>`. */
  lemma PermissionLineSplit(p: string, r: string)
    ensures PermissionLine(p, r) == TypeHead + p + RolesMid + r + "\"/>"
  {
    LineAssoc(PermissionOpen + " ", "type=\"", p, "\"", " ", RolesAttr, r, "\"/>");
  }

  lemma TypeHeadFacts()
    ensures |TypeHead| == 18 && TypeHead[0] == '<' && TypeHead[1] == 'p'
    ensures TypeHead[11] == ' ' && TypeHead[12] == 't'
    ensures '<' !in TypeHead[1..] && '<' !in RolesMid && '<' !in "\"/>"
  {
    assert TypeHead == "<permission type=\"";
    assert TypeHead[1..] == "permission type=\"";
    assert RolesMid == "\" roles=\"";
  }

  /** The shape of a permission line: one `<`, first, then `p`; the type's first char at 18. */
  lemma PermissionLineShape(p: string, r: string)
    requires p != [] && '<' !in p && '<' !in r
    ensures var x := PermissionLine(p, r);
      |x| > 18 && x[0] == '<' && x[1] == 'p' && x[11] == ' ' && x[12] == 't' && x[18] == p[0]
    ensures '<' !in PermissionLine(p, r)[1..]
  {
    var x := PermissionLine(p, r);
    var rest := p + RolesMid + r + "\"/>";
    PermissionLineSplit(p, r);
    TypeHeadFacts();
    AssocRight5(TypeHead, p, RolesMid, r, "\"/>");
    assert x == TypeHead + rest;
    DropFirst(TypeHead, rest);
    assert x[18] == rest[0] == p[0];
  }

  /** One `<`, first, followed by something other than `c`. */
  lemma LeadingLt(x: string, c: char)
    requires |x| >= 2 && x[0] == '<' && x[1] != c && '<' !in x[1..]
    ensures LtNotBefore(x, c)
  {
    LtLead(x[1..], c);
    assert x == "<" + x[1..];
  }

  /** The lines between an open tag and its close: each after a line break, then the last line break. */
  function Framed(mids: seq<string>): (r: string)
    ensures r != []
  {
    if mids == [] then "\n" else "\n" + mids[0] + Framed(mids[1..])
  }

  lemma {:induction false} JoinTail(mids: seq<string>, c: string)
    ensures "\n" + Join(mids + [c], "\n") == Framed(mids) + c
  {
    if mids != [] {
      assert mids + [c] == [mids[0]] + (mids[1..] + [c]);
      JoinCons(mids[0], mids[1..] + [c], "\n");
      JoinTail(mids[1..], c);
      var j := Join(mids[1..] + [c], "\n");
      assert "\n" + (mids[0] + "\n" + j) == "\n" + mids[0] + ("\n" + j);
      assert "\n" + mids[0] + (Framed(mids[1..]) + c) == "\n" + mids[0] + Framed(mids[1..]) + c;
    }
  }

  /** The lines of a block joined with line breaks: the open tag, the framed lines, the close. */
  lemma JoinFramed(o: string, mids: seq<string>, c: string)
    ensures Join([o] + mids + [c], "\n") == o + Framed(mids) + c
  {
    assert [o] + mids + [c] == [o] + (mids + [c]);
    JoinCons(o, mids + [c], "\n");
    JoinTail(mids, c);
    assert o + "\n" + Join(mids + [c], "\n") == o + ("\n" + Join(mids + [c], "\n"));
  }

  lemma {:induction false} FramedLt(mids: seq<string>, c: char)
    requires forall i :: 0 <= i < |mids| ==> LtNotBefore(mids[i], c)
    ensures LtNotBefore(Framed(mids), c)
  {
    LtFree("\n", c);
    if mids != [] {
      FramedLt(mids[1..], c);
      LtConcat("\n", mids[0], c);
      LtConcat("\n" + mids[0], Framed(mids[1..]), c);
    }
  }

  // ---------------------------------------------------------------------
  // Who holds a permission, read back from the generated lines
  // ---------------------------------------------------------------------

  /** The permission pattern starts at a `<`. */
  lemma RoleListNeedsLt(s: string, j: nat, p: string)
    ensures RoleListMatch(s, j, p).Some? ==> j < |s| && s[j] == '<'
  {
    StartsAtCovers(s, PermissionOpen, j, j);
  }

  /** At a permission line of another type (another first letter), the pattern for `p` does not match. */
  lemma RoleListOtherType(s: string, j: nat, p: string)
    requires p != [] && j + 18 < |s| && s[j + 11] == ' ' && s[j + 12] == 't' && s[j + 18] != p[0]
    ensures RoleListMatch(s, j, p).None?
  {
    assert |PermissionOpen| == 11;
    WsEndIs(s, j + 11, j + 12);
    assert |TypeAttr(p)| > 6 && TypeAttr(p)[6] == p[0];
    StartsAtCovers(s, TypeAttr(p), j + 12, j + 18);
  }

  /** Where the insertion pattern reads a non-empty role list, the catalogue's pattern reads the same list. */
  lemma RoleListFromPermission(s: string, i: nat, p: string)
    requires PermissionRolesAt(s, i, p).Some? && PermissionRolesAt(s, i, p).value != []
    ensures RoleListMatch(s, i, p) == PermissionRolesAt(s, i, p)
  {
  }

  /** No permission pattern for `p` matches between `lo` and `hi`. */
  predicate NoGrantBetween(b: string, p: string, lo: nat, hi: nat) {
    forall j :: lo <= j < hi ==> RoleListMatch(b, j, p).None?
  }

  /** The permission search from `from` finds the first match, at `k`, when none is before it. */
  lemma {:induction false} GrantFoundAt(b: string, from: nat, k: nat, p: string)
    requires from <= k <= |b| && RoleListMatch(b, k, p).Some? && NoGrantBetween(b, p, from, k)
    decreases k - from
    ensures FirstMatch(b, from, RoleListAt(b, p)) == Some((k, RoleListMatch(b, k, p).value))
  {
    if from < k {
      GrantFoundAt(b, from + 1, k, p);
    }
  }

  /** The permission pattern for `p` first matches at `k`, reading `roles`. */
  predicate GrantFirstAt(b: string, p: string, k: nat, roles: string) {
    k <= |b| && NoGrantBetween(b, p, 0, k) && RoleListMatch(b, k, p) == Some(roles)
  }

  /** The permission search from the start finds the first match. */
  lemma GrantFound(b: string, p: string, k: nat, roles: string)
    requires GrantFirstAt(b, p, k, roles)
    ensures FirstMatch(b, 0, RoleListAt(b, p)) == Some((k, roles))
  {
    GrantFoundAt(b, 0, k, p);
  }

  /** The holders of a permission whose pattern first matches at `k`: the contributions of the roles read there. */
  lemma GrantHolders(b: string, p: string, k: nat, list: string, groups: seq<(string, seq<string>)>)
    requires GrantFirstAt(b, p, k, list)
    ensures Holders(b, p, groups) == Dedup(Contributions(JavaSplit(list, ','), groups))
  {
    GrantFound(b, p, k, list);
    HoldersSpec(b, p, groups, k, list);
  }

  /** The first permission line of a framed block is found first. */
  lemma FirstGrantFound(b: string, p: string, roles: string, rest: string)
    requires roles != [] && '"' !in roles && b == "\n" + PermissionLine(p, roles) + rest
    ensures FirstMatch(b, 0, RoleListAt(b, p)) == Some((1, roles))
  {
    FirstGrantAt(b, p, roles, rest);
    GrantFound(b, p, 1, roles);
  }

  /** Nothing matches on the line break, and the permission line after it matches with its roles. */
  lemma FirstGrantAt(b: string, p: string, roles: string, rest: string)
    requires roles != [] && '"' !in roles && b == "\n" + PermissionLine(p, roles) + rest
    ensures GrantFirstAt(b, p, 1, roles)
  {
    assert forall k :: 0 <= k < |roles| ==> roles[k] in roles;
    PermissionLineIn("\n", p, roles, rest);
    RoleListFromPermission(b, 1, p);
    RoleListNeedsLt(b, 0, p);
  }

  /** No permission pattern for `p` matches on a line break, a line of another type and a line break. */
  lemma GrantSkipsLine(b: string, x: string, p: string)
    requires |x| > 18 && x[0] == '<' && x[11] == ' ' && x[12] == 't' && '<' !in x[1..]
    requires p != [] && x[18] != p[0]
    requires |b| >= |x| + 2 && b[..|x| + 2] == "\n" + x + "\n"
    ensures NoGrantBetween(b, p, 0, |x| + 2)
  {
    forall j | 0 <= j < |x| + 2
      ensures RoleListMatch(b, j, p).None?
    {
      RoleListNeedsLt(b, j, p);
      assert b[j] == b[..|x| + 2][j];
      if j == 1 {
        assert b[12] == b[..|x| + 2][12] && b[13] == b[..|x| + 2][13] && b[19] == b[..|x| + 2][19];
        RoleListOtherType(b, 1, p);
      } else if 1 < j < |x| + 1 {
        assert b[j] == x[1..][j - 2] && x[1..][j - 2] in x[1..];
      }
    }
  }

  /** A framed block whose first two lines are a `p1` line with plain parts and a `p` line, of another type, with plain roles. */
  predicate SecondGrantShape(b: string, p1: string, r1: string, p: string, roles: string, rest: string) {
    && p1 != [] && p != [] && p1[0] != p[0] && '<' !in p1 && '<' !in r1
    && roles != [] && '"' !in roles
    && b == "\n" + PermissionLine(p1, r1) + "\n" + PermissionLine(p, roles) + rest
  }

  /** Nothing matches up to the second permission line, and that line matches with its roles. */
  lemma SecondGrantAt(b: string, p1: string, r1: string, p: string, roles: string, rest: string)
    requires SecondGrantShape(b, p1, r1, p, roles, rest)
    ensures GrantFirstAt(b, p, |PermissionLine(p1, r1)| + 2, roles)
  {
    var x := PermissionLine(p1, r1);
    var k := |x| + 2;
    PermissionLineShape(p1, r1);
    assert b[..k] == "\n" + x + "\n";
    GrantSkipsLine(b, x, p);
    assert forall m :: 0 <= m < |roles| ==> roles[m] in roles;
    PermissionLineIn("\n" + x + "\n", p, roles, rest);
    RoleListFromPermission(b, k, p);
  }

  /** A role the generators can write and the catalogue can read back: no `<`, quote or comma in it. */
  predicate PlainGrantee(x: string) {
    '<' !in x && '"' !in x && ',' !in x
  }

  /** Every role of the list is non-empty and plain. */
  predicate PlainGrantees(xs: seq<string>) {
    forall i :: 0 <= i < |xs| ==> xs[i] != [] && PlainGrantee(xs[i])
  }

  /** The admin role of a plain prefix is a non-empty plain role. */
  lemma AdminPlain(prefix: string)
    requires PlainGrantee(prefix)
    ensures AdminRole(prefix) != [] && PlainGrantee(AdminRole(prefix))
  {
    assert AdminRole(prefix) == prefix + "-admin";
  }

  /** A written role list: non-empty, no quote or `<`, and it splits back on commas into the roles. */
  lemma RoleListPlain(admin: string, roles: seq<string>)
    requires admin != [] && PlainGrantee(admin) && PlainGrantees(roles)
    ensures var list := Join([admin] + roles, ",");
      list != [] && '"' !in list && '<' !in list && JavaSplit(list, ',') == [admin] + roles
  {
    var xs := [admin] + roles;
    assert forall i :: 1 <= i < |xs| ==> xs[i] == roles[i - 1];
    JoinAvoids(xs, ",", '"');
    JoinAvoids(xs, ",", '<');
    JavaSplitJoinNonEmpty(xs, ',');
  }

  /** The send line at the head of a generated block reads back as the contributions of the admin role and the producers. */
  lemma SendHolders(b: string, admin: string, producers: seq<string>, rest: string, groups: seq<(string, seq<string>)>)
    requires admin != [] && PlainGrantee(admin) && PlainGrantees(producers)
    requires b == "\n" + RolePermission("send", admin, producers) + rest
    ensures Holders(b, "send", groups) == Dedup(Contributions([admin] + producers, groups))
  {
    var list := Join([admin] + producers, ",");
    RoleListPlain(admin, producers);
    FirstGrantFound(b, "send", list, rest);
    HoldersSpec(b, "send", groups, 1, list);
  }

  /** The consume line after the send line reads back as the contributions of the admin role and the consumers. */
  lemma ConsumeHolders(b: string, send: string, admin: string, consumers: seq<string>, rest: string,
                       groups: seq<(string, seq<string>)>)
    requires admin != [] && PlainGrantee(admin) && PlainGrantees(consumers) && '<' !in send
    requires b == "\n" + PermissionLine("send", send) + "\n" + RolePermission("consume", admin, consumers) + rest
    ensures Holders(b, "consume", groups) == Dedup(Contributions([admin] + consumers, groups))
  {
    var list := Join([admin] + consumers, ",");
    RoleListPlain(admin, consumers);
    SecondGrantAt(b, "send", send, "consume", list, rest);
    GrantHolders(b, "consume", |PermissionLine("send", send)| + 2, list, groups);
  }

  /** A permission line with plain parts has its one `<` first, followed by `p`. */
  lemma PermissionLineLt(p: string, r: string, c: char)
    requires p != [] && '<' !in p && '<' !in r && c != 'p'
    ensures LtNotBefore(PermissionLine(p, r), c)
  {
    PermissionLineShape(p, r);
    LeadingLt(PermissionLine(p, r), c);
  }

  // ---------------------------------------------------------------------
  // A whole block read back
  // ---------------------------------------------------------------------

  /** `indexOf(pat, from)` is the first occurrence at or after `from`. */
  lemma IndexOfFromAt(s: string, pat: string, from: nat, i: nat)
    requires from <= i && StartsAt(s, pat, i)
    requires forall j :: from <= j < i ==> !StartsAt(s, pat, j)
    ensures IndexOfFrom(s, pat, from) == Some(i)
  {
  }

  /** The first closing tag after framed lines that hold none is the one right after them. */
  lemma CloseAfterFramed(s: string, n: nat, f: string)
    requires LtNotBefore(f, '/') && n + |f| + |SettingClose| <= |s|
    requires s[n..n + |f|] == f && s[n + |f|..n + |f| + |SettingClose|] == SettingClose
    ensures ClosesAt(s, n, f)
  {
    NoCloseBetween(s, n, n + |f|);
    StartsAtIff(s, SettingClose, n + |f|);
    IndexOfFromAt(s, SettingClose, n, n + |f|);
  }

  /**
   * A queue's or topic's block at `p`: the open tag, a body with no
   * closing tag in it, and the close. The resource pattern reads the
   * variable and the body.
   */
  lemma BlockRead(s: string, p: nat, v: string, body: string, marker: string)
    requires WordName(v) && Contains(v, marker) && LtNotBefore(body, '/')
    requires var x := ResourceOpen(v) + body + SettingClose;
      p + |x| <= |s| && s[p..p + |x|] == x
    ensures var r := ResourceSettingMatch(s, p, marker);
      r.Some? && r.value.varName == v && r.value.body == body
      && r.value.end == p + |ResourceOpen(v) + body + SettingClose|
    ensures SubscriptionSettingMatch(s, p).None?
  {
    BlockPieces(s, p, v, body);
    BlockAt(s, p, v, body, marker);
  }

  /** A block at `p`: `@address_` up to `p + 38`, the variable, `%>.#">`, the body and the close, by position. */
  predicate BlockLaidOut(s: string, p: nat, v: string, body: string) {
    var ve := p + 38 + |v|;
    var be := ve + 6 + |body|;
    && be + |SettingClose| <= |s| && s[p..p + 38] == AddressHead && s[p + 38..ve] == v
    && s[ve..ve + 6] == WildcardClose && s[ve + 6..be] == body && s[be..be + |SettingClose|] == SettingClose
  }

  /** A block given as text at `p`, laid out by position. */
  lemma BlockPieces(s: string, p: nat, v: string, body: string)
    requires var x := ResourceOpen(v) + body + SettingClose;
      p + |x| <= |s| && s[p..p + |x|] == x
    ensures BlockLaidOut(s, p, v, body)
    ensures |ResourceOpen(v) + body + SettingClose| == 38 + |v| + 6 + |body| + |SettingClose|
  {
    var o := ResourceOpen(v);
    Split3(s, p, o, body, SettingClose);
    ResourceOpenSplit(v);
    AddressHeadPieces();
    Split3(s, p, AddressHead, v, WildcardClose);
  }

  /** A queue's or topic's block at `p`, given as its five pieces by position. */
  lemma BlockAt(s: string, p: nat, v: string, body: string, marker: string)
    requires WordName(v) && Contains(v, marker) && LtNotBefore(body, '/') && BlockLaidOut(s, p, v, body)
    ensures var r := ResourceSettingMatch(s, p, marker);
      r.Some? && r.value.varName == v && r.value.body == body
      && r.value.end == p + 38 + |v| + 6 + |body| + |SettingClose|
    ensures SubscriptionSettingMatch(s, p).None?
  {
    BlockFacts(s, p, v, body, marker);
    ResourceTagMatch(s, p, v, body, marker);
    OpenNoSubscription(s, p, v);
  }

  /** The pieces of a block at `p` give what the resource pattern needs. */
  lemma BlockFacts(s: string, p: nat, v: string, body: string, marker: string)
    requires WordName(v) && Contains(v, marker) && LtNotBefore(body, '/') && BlockLaidOut(s, p, v, body)
    ensures ResourceTagFacts(s, p, v, body, marker)
  {
    CloseAfterFramed(s, p + 38 + |v| + 6, body);
    ResourcePieces(s, p, v);
  }

  // ---------------------------------------------------------------------
  // The generated queue read back
  // ---------------------------------------------------------------------

  /** Both patterns start with `<security-setting`, so only at a `<`. */
  lemma AddressNeedsLt(s: string, j: nat)
    ensures AddressStart(s, j).Some? ==> j < |s| && s[j] == '<'
  {
    StartsAtCovers(s, SettingOpen, j, j);
  }

  /** A search from the end of the text looks at the end only. */
  lemma EndScan<M>(s: string, m: nat -> Option<M>)
    requires m(|s|).None?
    ensures FirstMatch(s, |s|, m) == None
  {
    assert FirstMatch(s, |s| + 1, m) == None;
  }

  /** Neither pattern matches at the end of the text. */
  lemma NoTagAtEnd(s: string, marker: string)
    ensures ResourceSettingMatch(s, |s|, marker).None?
    ensures SubscriptionSettingMatch(s, |s|).None?
  {
  }

  /** A queue or topic search from the end of the text finds nothing. */
  lemma NoResourceAtEnd(s: string, marker: string)
    ensures FirstMatch(s, |s|, ResourceAt(s, marker)) == None
  {
    NoTagAtEnd(s, marker);
    EndScan(s, ResourceAt(s, marker));
  }

  /** A subscription search from the end of the text finds nothing. */
  lemma NoSubscriptionAtEnd(s: string)
    ensures FirstMatch(s, |s|, SubscriptionAt(s)) == None
  {
    NoTagAtEnd(s, QueueMarker);
    EndScan(s, SubscriptionAt(s));
  }

  /** The grant lines of plain roles have one `<` each, before a `p`. */
  lemma GrantLinesLt(admin: string, request: ProvisionRequest, c: char)
    requires admin != [] && PlainGrantee(admin) && c != 'p'
    requires PlainGrantees(OrEmpty(request.producers)) && PlainGrantees(OrEmpty(request.consumers))
    ensures var g := GrantLines(admin, request);
      forall i :: 0 <= i < |g| ==> LtNotBefore(g[i], c)
  {
    RoleListPlain(admin, OrEmpty(request.producers));
    RoleListPlain(admin, OrEmpty(request.consumers));
    PermissionLineLt("send", Join([admin] + OrEmpty(request.producers), ","), c);
    PermissionLineLt("consume", Join([admin] + OrEmpty(request.consumers), ","), c);
    PermissionLineLt("browse", Join([admin] + OrEmpty(request.consumers), ","), c);
  }

  /**
   * A body that starts with the grant lines: the send holders are the
   * contributions of the admin role and the producers, the consume holders
   * those of the admin role and the consumers.
   */
  lemma GrantedHolders(admin: string, request: ProvisionRequest, tail: seq<string>, groups: seq<(string, seq<string>)>)
    requires admin != [] && PlainGrantee(admin)
    requires PlainGrantees(OrEmpty(request.producers)) && PlainGrantees(OrEmpty(request.consumers))
    ensures var b := Framed(GrantLines(admin, request) + tail);
      && Holders(b, "send", groups) == Dedup(Contributions([admin] + OrEmpty(request.producers), groups))
      && Holders(b, "consume", groups) == Dedup(Contributions([admin] + OrEmpty(request.consumers), groups))
  {
    var xs := GrantLines(admin, request) + tail;
    var send := Join([admin] + OrEmpty(request.producers), ",");
    var rest := Framed(xs[2..]);
    assert xs[0] == RolePermission("send", admin, OrEmpty(request.producers)) == PermissionLine("send", send);
    assert xs[1] == RolePermission("consume", admin, OrEmpty(request.consumers));
    assert Framed(xs) == "\n" + xs[0] + Framed(xs[1..]);
    assert Framed(xs[1..]) == "\n" + xs[1] + rest by {
      assert xs[1..][1..] == xs[2..];
    }
    SendHolders(Framed(xs), admin, OrEmpty(request.producers), Framed(xs[1..]), groups);
    RoleListPlain(admin, OrEmpty(request.producers));
    assert Framed(xs) == "\n" + xs[0] + "\n" + xs[1] + rest;
    ConsumeHolders(Framed(xs), send, admin, OrEmpty(request.consumers), rest, groups);
  }

  /** One match makes one queue, numbered 1. */
  lemma SingleQueue(m: ResourceSpan, groups: seq<(string, seq<string>)>)
    ensures QueuesOf([m], groups)
      == [QueueDtoAt(1, m.varName, QueueData(m.varName, Holders(m.body, "send", groups), Holders(m.body, "consume", groups)))]
  {
    var d := QueueData(m.varName, Holders(m.body, "send", groups), Holders(m.body, "consume", groups));
    var table := Table([m], QueueDataOf(groups), []);
    assert [m][1..] == [];
    assert QueueDataOf(groups)(m) == d;
    assert table == Table([], QueueDataOf(groups), Put([], m.varName, d)) == [(m.varName, d)];
    assert Dtos(table, QueueDtoOf()) == Dtos(table[..0], QueueDtoOf()) + [QueueDtoOf()(1, m.varName, d)];
  }

  /** The one queue found in a text that is one queue block, with its holders. */
  lemma OneQueue(s: string, v: string, body: string, groups: seq<(string, seq<string>)>)
    requires WordName(v) && Contains(v, QueueMarker) && LtNotBefore(body, '/')
    requires s == ResourceOpen(v) + body + SettingClose
    ensures ParsedQueues(s, groups)
      == [QueueDtoAt(1, v, QueueData(v, Holders(body, "send", groups), Holders(body, "consume", groups)))]
  {
    BlockRead(s, 0, v, body, QueueMarker);
    var m := ResourceSettingMatch(s, 0, QueueMarker).value;
    FirstMatchAtFirst(s, 0, 0, ResourceAt(s, QueueMarker));
    assert ResourceSettings(s, 0, QueueMarker) == [m] by {
      NoResourceAtEnd(s, QueueMarker);
    }
    SingleQueue(m, groups);
  }

  /**
   * `parseQueuesFromBrokerXml` reads the block `generateQueueSecuritySetting`
   * writes back as one queue: its variable, the contributions of the admin
   * role and the producers as senders, and of the admin role and the
   * consumers as consumers.
   */
  lemma GeneratedQueueRead(v: string, prefix: string, request: ProvisionRequest, groups: seq<(string, seq<string>)>)
    requires request.resourceType != "topic"
    requires WordName(v) && Contains(v, QueueMarker) && PlainGrantee(prefix)
    requires PlainGrantees(OrEmpty(request.producers)) && PlainGrantees(OrEmpty(request.consumers))
    ensures var admin := AdminRole(prefix);
      ParsedQueues(ResourceSetting(v, prefix, request), groups)
      == [QueueDtoAt(1, v, QueueData(v, Dedup(Contributions([admin] + OrEmpty(request.producers), groups)),
                                        Dedup(Contributions([admin] + OrEmpty(request.consumers), groups))))]
  {
    var admin := AdminRole(prefix);
    AdminPlain(prefix);
    var g := GrantLines(admin, request);
    JoinFramed(ResourceOpen(v), g, SettingClose);
    GrantLinesLt(admin, request, '/');
    FramedLt(g, '/');
    GrantedHolders(admin, request, [], groups);
    assert g + [] == g;
    OneQueue(ResourceSetting(v, prefix, request), v, Framed(g), groups);
  }

  // ---------------------------------------------------------------------
  // Stretches where no setting starts
  // ---------------------------------------------------------------------

  /** No address pattern starts between `lo` and `hi`. */
  predicate Quiet(s: string, lo: nat, hi: nat) {
    forall j :: lo <= j < hi ==> AddressStart(s, j).None?
  }

  /** A search step over a position where nothing matches. */
  lemma ScanStep<M>(s: string, from: nat, m: nat -> Option<M>)
    requires from <= |s| && m(from).None?
    ensures FirstMatch(s, from, m) == FirstMatch(s, from + 1, m)
  {
  }

  /** Where no address pattern starts, neither setting pattern matches. */
  lemma NoAddressNoMatch(s: string, j: nat, marker: string)
    requires AddressStart(s, j).None?
    ensures ResourceSettingMatch(s, j, marker).None? && SubscriptionSettingMatch(s, j).None?
  {
  }

  /** A queue or topic search over a stretch with no address pattern, up to the end, finds nothing. */
  lemma {:induction false} NoResourceFrom(s: string, from: nat, marker: string)
    requires from <= |s| && Quiet(s, from, |s|)
    decreases |s| - from
    ensures FirstMatch(s, from, ResourceAt(s, marker)) == None
  {
    if from == |s| {
      NoResourceAtEnd(s, marker);
    } else {
      NoAddressNoMatch(s, from, marker);
      ScanStep(s, from, ResourceAt(s, marker));
      NoResourceFrom(s, from + 1, marker);
    }
  }

  /** A subscription search over a stretch with no address pattern, up to the end, finds nothing. */
  lemma {:induction false} NoSubscriptionFrom(s: string, from: nat)
    requires from <= |s| && Quiet(s, from, |s|)
    decreases |s| - from
    ensures FirstMatch(s, from, SubscriptionAt(s)) == None
  {
    if from == |s| {
      NoSubscriptionAtEnd(s);
    } else {
      NoAddressNoMatch(s, from, QueueMarker);
      ScanStep(s, from, SubscriptionAt(s));
      NoSubscriptionFrom(s, from + 1);
    }
  }

  /** A word has no `<`. */
  lemma WordLtFree(v: string, c: char)
    requires WordName(v)
    ensures LtNotBefore(v, c)
  {
    forall k | 0 <= k < |v|
      ensures v[k] != '<'
    {
      assert IsWordChar(v[k]);
    }
  }

  /** After its first `<`, the common head of the open tags has only the `<` of `<%=`. */
  lemma AddressHeadTail()
    ensures |AddressHead| == 38 && LtNotBefore(AddressHead[1..], 's')
  {
    var a, b, c := SettingOpen[1..] + " " + "match=\"", "<" + "%=", " " + AddressRef;
    assert MatchOpen == "match=\"" + b;
    assert AddressHead[1..] == (SettingOpen + " " + MatchOpen)[1..] + c;
    assert (SettingOpen + " " + MatchOpen)[1..] == SettingOpen[1..] + " " + MatchOpen;
    assert AddressHead[1..] == a + b + c;
    LtFree(a, 's');
    LtLead("%=", 's');
    LtFree(c, 's');
    LtConcat(a, b, 's');
    LtConcat(a + b, c, 's');
  }

  /** After its first `<`, a queue's or topic's open tag has no tag start. */
  lemma ResourceOpenTail(v: string)
    requires WordName(v)
    ensures LtNotBefore(ResourceOpen(v)[1..], 's')
  {
    ResourceOpenSplit(v);
    AddressHeadTail();
    WordLtFree(v, 's');
    LtFree(WildcardClose, 's');
    DropFirst(AddressHead, v + WildcardClose);
    LtConcat(v, WildcardClose, 's');
    LtConcat(AddressHead[1..], v + WildcardClose, 's');
  }

  /** The multicast part of a subscription's open tag has only the `<` of `<%=`. */
  lemma MulticastTail(sv: string)
    requires WordName(sv)
    ensures LtNotBefore(MulticastHead + sv + SubscriptionClose, 's')
  {
    assert MulticastHead == "%>::" + ("<" + "%= ") + MulticastRef;
    LtFree("%>::", 's');
    LtLead("%= ", 's');
    LtConcat("%>::", "<" + "%= ", 's');
    LtFree(MulticastRef, 's');
    LtConcat("%>::" + ("<" + "%= "), MulticastRef, 's');
    WordLtFree(sv, 's');
    LtFree(SubscriptionClose, 's');
    LtConcat(MulticastHead, sv, 's');
    LtConcat(MulticastHead + sv, SubscriptionClose, 's');
  }

  /** After its first `<`, a subscription's open tag has only the `<` of `<%=`. */
  lemma SubscriptionOpenTail(v: string, sv: string)
    requires WordName(v) && WordName(sv)
    ensures LtNotBefore(SubscriptionOpen(v, sv)[1..], 's')
  {
    SubscriptionOpenSplit(v, sv);
    AddressHeadTail();
    WordLtFree(v, 's');
    MulticastTail(sv);
    var t := MulticastHead + sv + SubscriptionClose;
    AssocRight5(AddressHead, v, MulticastHead, sv, SubscriptionClose);
    assert v + MulticastHead + sv + SubscriptionClose == v + t;
    DropFirst(AddressHead, v + t);
    LtConcat(v, t, 's');
    LtConcat(AddressHead[1..], v + t, 's');
  }

  /** The close tag's `<` is followed by `/`. */
  lemma SettingCloseLt()
    ensures LtNotBefore(SettingClose, 's')
  {
    assert SettingClose == "<" + "/security-setting>";
    LtLead("/security-setting>", 's');
  }

  // ---------------------------------------------------------------------
  // The generated topic read back
  // ---------------------------------------------------------------------

  lemma PlainGranteesConcat(xs: seq<string>, ys: seq<string>)
    requires PlainGrantees(xs) && PlainGrantees(ys)
    ensures PlainGrantees(xs + ys)
  {
    var zs := xs + ys;
    forall i | 0 <= i < |zs|
      ensures zs[i] != [] && PlainGrantee(zs[i])
    {
      if i < |xs| {
        assert zs[i] == xs[i];
      } else {
        assert zs[i] == ys[i - |xs|];
      }
    }
  }

  /** The create and delete lines of plain roles have one `<` each, before a `p`. */
  lemma CreateDeleteLinesLt(admin: string, request: ProvisionRequest, c: char)
    requires admin != [] && PlainGrantee(admin) && c != 'p'
    requires PlainGrantees(OrEmpty(request.producers)) && PlainGrantees(OrEmpty(request.consumers))
    ensures var d := CreateDeleteLines(admin, request);
      forall i :: 0 <= i < |d| ==> LtNotBefore(d[i], c)
  {
    var both := OrEmpty(request.consumers) + OrEmpty(request.producers);
    PlainGranteesConcat(OrEmpty(request.consumers), OrEmpty(request.producers));
    RoleListPlain(admin, both);
    CreateLinesLt(Join([admin] + both, ","), c);
    DeleteLinesLt(admin, c);
  }

  lemma CreateLinesLt(list: string, c: char)
    requires '<' !in list && c != 'p'
    ensures LtNotBefore(PermissionLine("createNonDurableQueue", list), c)
    ensures LtNotBefore(PermissionLine("createDurableQueue", list), c)
    ensures LtNotBefore(PermissionLine("createAddress", list), c)
  {
    PermissionLineLt("createNonDurableQueue", list, c);
    PermissionLineLt("createDurableQueue", list, c);
    PermissionLineLt("createAddress", list, c);
  }

  lemma DeleteLinesLt(admin: string, c: char)
    requires '<' !in admin && c != 'p'
    ensures LtNotBefore(PermissionLine("deleteNonDurableQueue", admin), c)
    ensures LtNotBefore(PermissionLine("deleteDurableQueue", admin), c)
    ensures LtNotBefore(PermissionLine("deleteAddress", admin), c)
  {
    PermissionLineLt("deleteNonDurableQueue", admin, c);
    PermissionLineLt("deleteDurableQueue", admin, c);
    PermissionLineLt("deleteAddress", admin, c);
  }

  /** The lines of a setting block are tag-free after their `<`, for `/` and for `s`. */
  lemma BodyLt(lines: seq<string>)
    requires forall i :: 0 <= i < |lines| ==> LtNotBefore(lines[i], '/') && LtNotBefore(lines[i], 's')
    ensures LtNotBefore(Framed(lines), '/') && LtNotBefore(Framed(lines), 's')
  {
    FramedLt(lines, '/');
    FramedLt(lines, 's');
  }

  /** Past the first `<` of a block, no setting starts. */
  lemma BlockTail(o: string, body: string)
    requires o != [] && LtNotBefore(o[1..], 's') && LtNotBefore(body, 's')
    ensures LtNotBefore((o + body + SettingClose)[1..], 's')
  {
    SettingCloseLt();
    LtConcat(o[1..], body, 's');
    LtConcat(o[1..] + body, SettingClose, 's');
    AssocRight(o, body, SettingClose, []);
    DropFirst(o, body + SettingClose);
    assert (o + body + SettingClose)[1..] == o[1..] + body + SettingClose;
  }

  /** One match and no subscription make one topic, numbered 1, without subscriptions. */
  lemma SingleTopic(m: ResourceSpan, groups: seq<(string, seq<string>)>)
    ensures TopicsOf([m], [], groups) == [TopicDtoAt(1, m.varName, TopicData(m.varName, Holders(m.body, "send", groups), []))]
  {
    var d := TopicData(m.varName, Holders(m.body, "send", groups), []);
    var table := Table([m], TopicDataOf(groups), []);
    assert [m][1..] == [];
    assert TopicDataOf(groups)(m) == d;
    assert table == Table([], TopicDataOf(groups), Put([], m.varName, d)) == [(m.varName, d)];
    assert Attached(table, []) == table;
    assert Dtos(table, TopicDtoOf()) == Dtos(table[..0], TopicDtoOf()) + [TopicDtoOf()(1, m.varName, d)];
  }

  /** The subscription of a topic's multicast variable, as the subscription loop records it. */
  function SubscriptionEntry(sv: string): (string, string) {
    (Dashed(sv), Dashed(ExtractSubscriptionName(sv)))
  }

  /** One match and one subscription of its topic make one topic, numbered 1, with that subscription. */
  lemma SingleSubscribedTopic(m: ResourceSpan, sub: SubscriptionSpan, groups: seq<(string, seq<string>)>)
    requires sub.topicVar == m.varName
    ensures TopicsOf([m], [sub], groups)
      == [TopicDtoAt(1, m.varName, TopicData(m.varName, Holders(m.body, "send", groups), [SubscriptionEntry(sub.multicastVar)]))]
  {
    var d := TopicData(m.varName, Holders(m.body, "send", groups), []);
    var table := Table([m], TopicDataOf(groups), []);
    assert [m][1..] == [];
    assert TopicDataOf(groups)(m) == d;
    assert table == Table([], TopicDataOf(groups), Put([], m.varName, d)) == [(m.varName, d)];
    var e := SubscriptionEntry(sub.multicastVar);
    var d2 := d.(subscriptions := [e]);
    assert Put(d.subscriptions, e.0, e.1) == [e];
    assert Get(table, m.varName) == Some(d);
    assert AttachOne(table, sub) == Put(table, m.varName, d2) == [(m.varName, d2)];
    assert [sub][1..] == [];
    assert Attached(table, [sub]) == Attached(AttachOne(table, sub), []) == [(m.varName, d2)];
    var t2 := [(m.varName, d2)];
    assert Dtos(t2, TopicDtoOf()) == Dtos(t2[..0], TopicDtoOf()) + [TopicDtoOf()(1, m.varName, d2)];
  }

  /** No setting starts in a stretch whose `<`s are not before `s`. */
  lemma QuietStretch(s: string, lo: nat, x: string)
    requires lo + |x| <= |s| && s[lo..lo + |x|] == x && LtNotBefore(x, 's')
    ensures Quiet(s, lo, lo + |x|)
  {
    NoOpenBetween(s, lo, lo + |x|);
  }

  /** No subscription in a text that is one topic block. */
  lemma NoSubscriptionInBlock(s: string, v: string, body: string)
    requires WordName(v) && LtNotBefore(body, 's')
    requires s == ResourceOpen(v) + body + SettingClose
    requires SubscriptionSettingMatch(s, 0).None?
    ensures SubscriptionSettings(s, 0) == []
  {
    ResourceOpenTail(v);
    BlockTail(ResourceOpen(v), body);
    QuietStretch(s, 1, s[1..]);
    NoSubscriptionFrom(s, 1);
    ScanStep(s, 0, SubscriptionAt(s));
  }

  /** The one topic found in a text that is one topic block, with its send holders and no subscription. */
  lemma OneTopic(s: string, v: string, body: string, groups: seq<(string, seq<string>)>)
    requires WordName(v) && Contains(v, TopicMarker) && LtNotBefore(body, '/') && LtNotBefore(body, 's')
    requires s == ResourceOpen(v) + body + SettingClose
    ensures ParsedTopics(s, groups) == [TopicDtoAt(1, v, TopicData(v, Holders(body, "send", groups), []))]
  {
    BlockRead(s, 0, v, body, TopicMarker);
    var m := ResourceSettingMatch(s, 0, TopicMarker).value;
    FirstMatchAtFirst(s, 0, 0, ResourceAt(s, TopicMarker));
    assert ResourceSettings(s, 0, TopicMarker) == [m] by {
      NoResourceAtEnd(s, TopicMarker);
    }
    NoSubscriptionInBlock(s, v, body);
    SingleTopic(m, groups);
  }

  /** A line break is not where a setting starts. */
  lemma NoMatchAtBreak(s: string, j: nat, marker: string)
    requires j < |s| && s[j] == '\n'
    ensures ResourceSettingMatch(s, j, marker).None? && SubscriptionSettingMatch(s, j).None?
  {
    AddressNeedsLt(s, j);
    NoAddressNoMatch(s, j, marker);
  }

  /** A subscription block at `q` that runs to the end: its open tag matches, and nothing starts after its `<`. */
  lemma SubscriptionBlockAt(s: string, q: nat, u: string, v: string, sv: string, sbody: string, marker: string)
    requires WordName(v) && WordName(sv) && LtNotBefore(sbody, 's')
    requires u == SubscriptionOpen(v, sv) + sbody + SettingClose
    requires q + |u| == |s| && s[q..q + |u|] == u
    ensures 1 < |SubscriptionOpen(v, sv)| && q + |SubscriptionOpen(v, sv)| <= |s|
    ensures SubscriptionSettingMatch(s, q) == Some(SubscriptionSpan(v, sv, q + |SubscriptionOpen(v, sv)|))
    ensures ResourceSettingMatch(s, q, marker).None?
    ensures Quiet(s, q + 1, |s|)
  {
    var so := SubscriptionOpen(v, sv);
    SubscriptionOpenSplit(v, sv);
    Split3(s, q, so, sbody, SettingClose);
    SubscriptionOpenMatch(s, q, v, sv, marker);
    SubscriptionOpenTail(v, sv);
    QuietAfterOpen(s, q, u, so, sbody);
  }

  /** Past the `<` of a block at `q`, no setting starts inside the block. */
  lemma QuietAfterOpen(s: string, q: nat, u: string, o: string, body: string)
    requires o != [] && LtNotBefore(o[1..], 's') && LtNotBefore(body, 's')
    requires u == o + body + SettingClose && q + |u| <= |s| && s[q..q + |u|] == u
    ensures Quiet(s, q + 1, q + |u|)
  {
    BlockTail(o, body);
    assert s[q + 1..q + |u|] == u[1..];
    QuietStretch(s, q + 1, u[1..]);
  }

  /** The part of a two-block text after the topic block's line break: the subscription block, quiet after its `<`. */
  lemma SubscriptionBlockTail(s: string, t: string, u: string, v: string, sv: string, sbody: string, marker: string)
    requires WordName(v) && WordName(sv) && LtNotBefore(sbody, 's')
    requires u == SubscriptionOpen(v, sv) + sbody + SettingClose && s == t + "\n" + u
    ensures 1 < |SubscriptionOpen(v, sv)| && |t| + 1 + |SubscriptionOpen(v, sv)| <= |s|
    ensures SubscriptionSettingMatch(s, |t| + 1) == Some(SubscriptionSpan(v, sv, |t| + 1 + |SubscriptionOpen(v, sv)|))
    ensures ResourceSettingMatch(s, |t| + 1, marker).None?
    ensures Quiet(s, |t| + 2, |s|)
  {
    assert s[|t| + 1..|t| + 1 + |u|] == u;
    SubscriptionBlockAt(s, |t| + 1, u, v, sv, sbody, marker);
  }

  /** After a topic block, a line break and its subscription block, the topic search finds nothing more. */
  lemma NoResourceAfterBlock(s: string, t: string, u: string, v: string, sv: string, sbody: string, marker: string)
    requires WordName(v) && WordName(sv) && LtNotBefore(sbody, 's')
    requires u == SubscriptionOpen(v, sv) + sbody + SettingClose && s == t + "\n" + u
    ensures FirstMatch(s, |t|, ResourceAt(s, marker)) == None
  {
    SubscriptionBlockTail(s, t, u, v, sv, sbody, marker);
    NoResourceFrom(s, |t| + 2, marker);
    ScanStep(s, |t| + 1, ResourceAt(s, marker));
    assert s[|t|] == '\n';
    NoMatchAtBreak(s, |t|, marker);
    ScanStep(s, |t|, ResourceAt(s, marker));
  }

  /** In a topic block followed by its subscription block, the topic search finds the topic only. */
  lemma TopicThenSubscriptionTopics(s: string, t: string, u: string, v: string, body: string, sv: string, sbody: string)
    requires WordName(v) && Contains(v, TopicMarker) && LtNotBefore(body, '/')
    requires WordName(sv) && LtNotBefore(sbody, 's')
    requires t == ResourceOpen(v) + body + SettingClose
    requires u == SubscriptionOpen(v, sv) + sbody + SettingClose && s == t + "\n" + u
    ensures var r := ResourceSettings(s, 0, TopicMarker);
      |r| == 1 && r[0].varName == v && r[0].body == body
  {
    assert s[0..|t|] == t;
    BlockRead(s, 0, v, body, TopicMarker);
    var m := ResourceSettingMatch(s, 0, TopicMarker).value;
    FirstMatchAtFirst(s, 0, 0, ResourceAt(s, TopicMarker));
    NoResourceAfterBlock(s, t, u, v, sv, sbody, TopicMarker);
    assert ResourceSettings(s, 0, TopicMarker) == [m];
  }

  /** No subscription up to a line break, when none is at 0 and no setting starts in between. */
  lemma NoSubscriptionBefore(s: string, n: nat)
    requires n < |s| && s[n] == '\n' && SubscriptionSettingMatch(s, 0).None?
    requires Quiet(s, 1, n)
    ensures forall j :: 0 <= j <= n ==> SubscriptionAt(s)(j).None?
  {
    forall j | 0 <= j <= n
      ensures SubscriptionSettingMatch(s, j).None?
    {
      if j == n {
        NoMatchAtBreak(s, j, QueueMarker);
      } else if 0 < j {
        NoAddressNoMatch(s, j, QueueMarker);
      }
    }
  }

  /** A topic block at the head of the text: no subscription at 0, no setting after its `<`. */
  lemma TopicBlockQuiet(s: string, t: string, v: string, body: string)
    requires WordName(v) && LtNotBefore(body, 's')
    requires t == ResourceOpen(v) + body + SettingClose
    requires |t| <= |s| && s[..|t|] == t
    ensures SubscriptionSettingMatch(s, 0).None?
    ensures Quiet(s, 1, |t|)
  {
    assert s[0..|t|] == t;
    ResourceOpenTail(v);
    QuietAfterOpen(s, 0, t, ResourceOpen(v), body);
    BlockPieces(s, 0, v, body);
    ResourcePieces(s, 0, v);
    OpenNoSubscription(s, 0, v);
  }

  /** The subscription search skips a stretch with nothing at 0, no setting after it, and a line break. */
  lemma ScanPastBreak(s: string, n: nat)
    requires n < |s| && s[n] == '\n' && SubscriptionSettingMatch(s, 0).None?
    requires Quiet(s, 1, n)
    ensures FirstMatch(s, 0, SubscriptionAt(s)) == FirstMatch(s, n + 1, SubscriptionAt(s))
  {
    NoSubscriptionBefore(s, n);
    ScanSkip(s, 0, n + 1, SubscriptionAt(s));
  }

  /** In a topic block followed by its subscription block, the subscription search finds the subscription only. */
  lemma TopicThenSubscriptionSubscriptions(s: string, t: string, u: string, v: string, body: string, sv: string, sbody: string)
    requires WordName(v) && Contains(v, TopicMarker) && LtNotBefore(body, '/') && LtNotBefore(body, 's')
    requires WordName(sv) && LtNotBefore(sbody, 's')
    requires t == ResourceOpen(v) + body + SettingClose
    requires u == SubscriptionOpen(v, sv) + sbody + SettingClose && s == t + "\n" + u
    ensures var r := SubscriptionSettings(s, 0);
      |r| == 1 && r[0].topicVar == v && r[0].multicastVar == sv
  {
    TwoBlockFacts(s, t, u, v, body, sv, sbody);
    TwoBlockScan(s, |t|, SubscriptionSpan(v, sv, |t| + 1 + |SubscriptionOpen(v, sv)|));
  }

  /**
   * Where the subscription pattern can match in a text with a stretch up
   * to a line break at `n`, then a subscription `sub` whose open tag starts
   * right after the break, and no setting after that tag's `<`.
   */
  predicate BreakThenSubscription(s: string, n: nat, sub: SubscriptionSpan) {
    && n < |s| && s[n] == '\n' && SubscriptionSettingMatch(s, 0).None? && Quiet(s, 1, n)
    && n + 1 < sub.end <= |s| && SubscriptionSettingMatch(s, n + 1) == Some(sub) && Quiet(s, n + 2, |s|)
  }

  /** A topic block, a line break and a subscription block: where the subscription pattern can match. */
  lemma TwoBlockFacts(s: string, t: string, u: string, v: string, body: string, sv: string, sbody: string)
    requires WordName(v) && Contains(v, TopicMarker) && LtNotBefore(body, '/') && LtNotBefore(body, 's')
    requires WordName(sv) && LtNotBefore(sbody, 's')
    requires t == ResourceOpen(v) + body + SettingClose
    requires u == SubscriptionOpen(v, sv) + sbody + SettingClose && s == t + "\n" + u
    ensures BreakThenSubscription(s, |t|, SubscriptionSpan(v, sv, |t| + 1 + |SubscriptionOpen(v, sv)|))
  {
    assert s[..|t|] == t && s[|t|] == '\n';
    TopicBlockQuiet(s, t, v, body);
    SubscriptionBlockTail(s, t, u, v, sv, sbody, TopicMarker);
  }

  /** A text with nothing up to a line break and one subscription after it that runs to the end: the subscription search finds that one. */
  lemma TwoBlockScan(s: string, n: nat, sub: SubscriptionSpan)
    requires BreakThenSubscription(s, n, sub)
    ensures var r := SubscriptionSettings(s, 0);
      |r| == 1 && r[0].topicVar == sub.topicVar && r[0].multicastVar == sub.multicastVar
  {
    ScanReaches(s, n, sub);
    OneSubscriptionFound(s, n + 1, sub);
  }

  /** The search from the start passes the line break and finds the subscription after it, and nothing after that. */
  lemma ScanReaches(s: string, n: nat, sub: SubscriptionSpan)
    requires BreakThenSubscription(s, n, sub)
    ensures FirstMatch(s, 0, SubscriptionAt(s)) == Some((n + 1, sub))
    ensures FirstMatch(s, sub.end, SubscriptionAt(s)) == None
  {
    ScanFindsAt(s, n + 1, sub);
    ScanPastBreak(s, n);
  }

  /** What the subscription loop collects when the search finds one match and nothing after it. */
  lemma OneSubscriptionFound(s: string, q: nat, sub: SubscriptionSpan)
    requires FirstMatch(s, 0, SubscriptionAt(s)) == Some((q, sub))
    requires FirstMatch(s, sub.end, SubscriptionAt(s)) == None
    ensures var r := SubscriptionSettings(s, 0);
      |r| == 1 && r[0].topicVar == sub.topicVar && r[0].multicastVar == sub.multicastVar
  {
    assert SubscriptionSettings(s, sub.end) == [];
    assert SubscriptionSettings(s, 0) == [sub];
  }

  /** A subscription at `q` with no setting after its `<`: the search from `q` finds it, and nothing after it. */
  lemma ScanFindsAt(s: string, q: nat, sub: SubscriptionSpan)
    requires q < sub.end <= |s| && SubscriptionSettingMatch(s, q) == Some(sub)
    requires Quiet(s, q + 1, |s|)
    ensures FirstMatch(s, q, SubscriptionAt(s)) == Some((q, sub))
    ensures FirstMatch(s, sub.end, SubscriptionAt(s)) == None
  {
    FirstMatchAtFirst(s, q, q, SubscriptionAt(s));
    NoSubscriptionFrom(s, sub.end);
  }

  /** A search over positions where nothing matches goes on from the first position past them. */
  lemma {:induction false} ScanSkip<M>(s: string, from: nat, past: nat, m: nat -> Option<M>)
    requires from <= past <= |s|
    requires forall j :: from <= j < past ==> m(j).None?
    decreases past - from
    ensures FirstMatch(s, from, m) == FirstMatch(s, past, m)
  {
    if from < past {
      ScanSkip(s, from + 1, past, m);
    }
  }

  // ---------------------------------------------------------------------
  // The generated topic, with and without its legacy subscription
  // ---------------------------------------------------------------------

  /** A topic block followed by its subscription block reads back as one topic carrying that subscription. */
  lemma TopicThenSubscriptionRead(s: string, t: string, u: string, v: string, body: string, sv: string, sbody: string,
                                  groups: seq<(string, seq<string>)>)
    requires WordName(v) && Contains(v, TopicMarker) && LtNotBefore(body, '/') && LtNotBefore(body, 's')
    requires WordName(sv) && LtNotBefore(sbody, 's')
    requires t == ResourceOpen(v) + body + SettingClose
    requires u == SubscriptionOpen(v, sv) + sbody + SettingClose && s == t + "\n" + u
    ensures ParsedTopics(s, groups) == [TopicDtoAt(1, v, TopicData(v, Holders(body, "send", groups), [SubscriptionEntry(sv)]))]
  {
    TopicThenSubscriptionTopics(s, t, u, v, body, sv, sbody);
    TopicThenSubscriptionSubscriptions(s, t, u, v, body, sv, sbody);
    var r, r2 := ResourceSettings(s, 0, TopicMarker), SubscriptionSettings(s, 0);
    assert r == [r[0]] && r2 == [r2[0]];
    SingleSubscribedTopic(r[0], r2[0], groups);
  }

  /** A name token becomes a word: its `.` and `-` become `_`. */
  lemma NameTokenWord(name: string)
    requires IsNameToken(name)
    ensures WordName(ToVariableName(name))
  {
    var r := ToVariableName(name);
    forall k | 0 <= k < |r|
      ensures IsWordChar(r[k])
    {
      assert IsNameChar(name[k]);
    }
  }

  /** The topic's body: the grants, then the create and delete rights. */
  function TopicBody(prefix: string, request: ProvisionRequest): string {
    Framed(GrantLines(AdminRole(prefix), request) + CreateDeleteLines(AdminRole(prefix), request))
  }

  /** The topic's body has no tag after its `<`s, and its send holders are the admin role's and the producers' contributions. */
  lemma TopicBodyFacts(prefix: string, request: ProvisionRequest, groups: seq<(string, seq<string>)>)
    requires PlainGrantee(prefix)
    requires PlainGrantees(OrEmpty(request.producers)) && PlainGrantees(OrEmpty(request.consumers))
    ensures var b := TopicBody(prefix, request);
      && LtNotBefore(b, '/') && LtNotBefore(b, 's')
      && Holders(b, "send", groups) == Dedup(Contributions([AdminRole(prefix)] + OrEmpty(request.producers), groups))
  {
    var admin := AdminRole(prefix);
    AdminPlain(prefix);
    var g, d := GrantLines(admin, request), CreateDeleteLines(admin, request);
    GrantLinesLt(admin, request, '/');
    GrantLinesLt(admin, request, 's');
    CreateDeleteLinesLt(admin, request, '/');
    CreateDeleteLinesLt(admin, request, 's');
    var mids := g + d;
    forall i | 0 <= i < |mids|
      ensures LtNotBefore(mids[i], '/') && LtNotBefore(mids[i], 's')
    {
      if i < |g| {
        assert mids[i] == g[i];
      } else {
        assert mids[i] == d[i - |g|];
      }
    }
    BodyLt(mids);
    GrantedHolders(admin, request, d, groups);
  }

  /** The topic's own block, joined: its open tag, its body, the close. */
  lemma TopicMainJoined(v: string, prefix: string, request: ProvisionRequest)
    ensures Join(TopicMainLines(v, prefix, request), "\n") == ResourceOpen(v) + TopicBody(prefix, request) + SettingClose
  {
    var admin := AdminRole(prefix);
    var mids := GrantLines(admin, request) + CreateDeleteLines(admin, request);
    assert TopicMainLines(v, prefix, request) == [ResourceOpen(v)] + mids + [SettingClose];
    JoinFramed(ResourceOpen(v), mids, SettingClose);
  }

  /** The consume and browse lines of a subscription block. */
  function SubscriptionBody(roles: string): string {
    Framed([PermissionLine("consume", roles), PermissionLine("browse", roles)])
  }

  /** A subscription's block, joined: its open tag, its body with no setting after its `<`s, the close. */
  lemma SubscriptionJoined(v: string, sv: string, roles: string)
    requires '<' !in roles
    ensures Join(SubscriptionSettingLines(v, sv, roles), "\n") == SubscriptionOpen(v, sv) + SubscriptionBody(roles) + SettingClose
    ensures LtNotBefore(SubscriptionBody(roles), 's')
  {
    var mids := [PermissionLine("consume", roles), PermissionLine("browse", roles)];
    assert SubscriptionSettingLines(v, sv, roles) == [SubscriptionOpen(v, sv)] + mids + [SettingClose];
    JoinFramed(SubscriptionOpen(v, sv), mids, SettingClose);
    PermissionLineLt("consume", roles, 's');
    PermissionLineLt("browse", roles, 's');
    FramedLt(mids, 's');
  }

  /** The subscriptions a generated topic is read back with: its legacy one, when the request names one. */
  function LegacySubscriptions(request: ProvisionRequest): seq<(string, string)> {
    if LegacyName(request) == [] then [] else [SubscriptionEntry(ToVariableName(LegacyName(request)))]
  }

  /**
   * The topic the broker template writes reads back as one topic, numbered
   * 1, under its variable, with the admin role's and the producers'
   * contributions as its producers and its legacy subscription, if any.
   */
  lemma GeneratedTopicRead(v: string, prefix: string, request: ProvisionRequest, groups: seq<(string, seq<string>)>)
    requires request.resourceType == "topic"
    requires WordName(v) && Contains(v, TopicMarker) && PlainGrantee(prefix)
    requires PlainGrantees(OrEmpty(request.producers)) && PlainGrantees(OrEmpty(request.consumers))
    requires LegacyName(request) != [] ==> IsNameToken(LegacyName(request))
    ensures ParsedTopics(ResourceSetting(v, prefix, request), groups)
      == [TopicDtoAt(1, v, TopicData(v, Dedup(Contributions([AdminRole(prefix)] + OrEmpty(request.producers), groups)),
                                     LegacySubscriptions(request)))]
  {
    if LegacyName(request) == [] {
      TopicWithoutLegacyRead(v, prefix, request, groups);
    } else {
      TopicWithLegacyRead(v, prefix, request, groups);
    }
  }

  /** A request without a legacy subscription name: the topic's block alone, read back as the topic without subscriptions. */
  lemma TopicWithoutLegacyRead(v: string, prefix: string, request: ProvisionRequest, groups: seq<(string, seq<string>)>)
    requires request.resourceType == "topic" && LegacyName(request) == []
    requires WordName(v) && Contains(v, TopicMarker) && PlainGrantee(prefix)
    requires PlainGrantees(OrEmpty(request.producers)) && PlainGrantees(OrEmpty(request.consumers))
    ensures ParsedTopics(ResourceSetting(v, prefix, request), groups)
      == [TopicDtoAt(1, v, TopicData(v, Dedup(Contributions([AdminRole(prefix)] + OrEmpty(request.producers), groups)), []))]
  {
    TopicBodyFacts(prefix, request, groups);
    TopicMainJoined(v, prefix, request);
    var main := TopicMainLines(v, prefix, request);
    assert main + [] == main;
    assert ResourceSettingLines(v, prefix, request) == TopicSettingLines(v, prefix, request) == main;
    OneTopic(ResourceSetting(v, prefix, request), v, TopicBody(prefix, request), groups);
  }

  /** A request with a legacy subscription name: the topic's block, then the subscription's, read back as the topic with that subscription. */
  lemma TopicWithLegacyRead(v: string, prefix: string, request: ProvisionRequest, groups: seq<(string, seq<string>)>)
    requires request.resourceType == "topic" && LegacyName(request) != [] && IsNameToken(LegacyName(request))
    requires WordName(v) && Contains(v, TopicMarker) && PlainGrantee(prefix)
    requires PlainGrantees(OrEmpty(request.producers)) && PlainGrantees(OrEmpty(request.consumers))
    ensures ParsedTopics(ResourceSetting(v, prefix, request), groups)
      == [TopicDtoAt(1, v, TopicData(v, Dedup(Contributions([AdminRole(prefix)] + OrEmpty(request.producers), groups)),
                                     [SubscriptionEntry(ToVariableName(LegacyName(request)))]))]
  {
    TopicBodyFacts(prefix, request, groups);
    TopicMainJoined(v, prefix, request);
    var sv := ToVariableName(LegacyName(request));
    NameTokenWord(LegacyName(request));
    var admin := AdminRole(prefix);
    AdminPlain(prefix);
    RoleListPlain(admin, OrEmpty(request.consumers));
    var roles := Join([admin] + OrEmpty(request.consumers), ",");
    var lines := SubscriptionSettingLines(v, sv, roles);
    SubscriptionJoined(v, sv, roles);
    JoinAppend(TopicMainLines(v, prefix, request), lines, "\n");
    TopicThenSubscriptionRead(ResourceSetting(v, prefix, request), Join(TopicMainLines(v, prefix, request), "\n"),
                              Join(lines, "\n"), v, TopicBody(prefix, request), sv, SubscriptionBody(roles), groups);
  }
}
