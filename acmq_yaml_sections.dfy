/**
 * The two ledger sections as `AcmqYamlService` writes them, read back with
 * its own `extractUsersList` / `extractRolesList` patterns, and what
 * `replaceUsersSection` / `replaceRolesSection` keep of the rest of the file.
 */
module AcmqYamlSections {
  import opened Wrappers
  import opened Text
  import opened AcmqYaml

  // ---------------------------------------------------------------------
  // Section replacement
  // ---------------------------------------------------------------------

  /**
   * A found section is replaced in place: the text before its match and the
   * text after it are kept, the new section between them. A section that is
   * not found is appended, under its comment, after the whole text.
   */
  lemma ReplaceSectionKeeps(content: string, sec: Section, section: string, comment: string)
    ensures var f, r := FindSection(content, sec), ReplaceSection(content, sec, section, comment);
      f.Some? ==>
        var p, e := f.value.0, f.value.2;
        && StartsAt(content, KeyOf(sec), p)
        && |r| == p + |section| + (|content| - e)
        && r[..p] == content[..p] && r[p..p + |section|] == section && r[p + |section|..] == content[e..]
    ensures var f, r := FindSection(content, sec), ReplaceSection(content, sec, section, comment);
      f.None? ==>
        && |r| == |content| + |comment| + |section|
        && r[..|content|] == content && r[|content|..] == comment + section
  {
    var f := FindSection(content, sec);
    if f.Some? {
      var p, e := f.value.0, f.value.2;
      assert ReplaceSection(content, sec, section, comment) == content[..p] + section + content[e..];
      SplicedIn(content, p, e, section);
      SectionStartsWithKey(content, sec, p);
    } else {
      var r := content + (comment + section);
      assert content + comment + section == r;
      assert r[..|content|] == content;
    }
  }

  /** What a splice keeps: the text before it, the new middle and the text after it. */
  lemma SplicedIn(content: string, p: nat, e: nat, section: string)
    requires p <= e <= |content|
    ensures var r := content[..p] + section + content[e..];
      && |r| == p + |section| + (|content| - e)
      && r[..p] == content[..p] && r[p..p + |section|] == section && r[p + |section|..] == content[e..]
  {
    var r := content[..p] + section + content[e..];
    assert r[..p] == content[..p];
    assert r[p..p + |section|] == section;
    assert r[p + |section|..] == content[e..];
  }

  /** A section match starts with its key. */
  lemma SectionStartsWithKey(content: string, sec: Section, p: nat)
    requires FindSection(content, sec).Some? && FindSection(content, sec).value.0 == p
    ensures StartsAt(content, KeyOf(sec), p)
  {
    var m := FirstMatch(content, 0, SectionMatchAt(content, sec));
    assert m.Some? && m.value.0 == p;
    assert p <= |content| && SectionMatch(content[p..], sec).Some?;
    KeyBeforeColon(content, KeyOf(sec), p);
  }

  /** A header at `p` (the key and its colon) puts the key at `p`. */
  lemma KeyBeforeColon(content: string, key: string, p: nat)
    requires p <= |content| && HeaderLen(content[p..], key).Some?
    ensures StartsAt(content, key, p)
  {
    var t := content[p..];
    assert StartsAt(t, key + ":", 0);
    StartsAtIff(t, key + ":", 0);
    StartsAtIff(content, key, p);
    assert content[p..p + |key|] == t[..|key|] == (key + ":")[..|key|] == key;
  }

  // ---------------------------------------------------------------------
  // The users section read back
  // ---------------------------------------------------------------------

  /** No user holds a quote, so each one is captured whole by `'([^']*)'`. */
  predicate QuoteFree(users: seq<string>) {
    forall i :: 0 <= i < |users| ==> '\'' !in users[i]
  }

  /** No newline in the whitespace run that `rest` starts with. */
  predicate NoNewlineRun(rest: string) {
    forall k :: 0 <= k < WsEnd(rest, 0) ==> rest[k] != '\n'
  }

  /**
   * What may follow the users section's blank line: no newline before its
   * first non-blank char (so the blank line stays the last newline the item
   * pattern takes) and no further user item.
   */
  predicate UsersTail(rest: string) {
    NoNewlineRun(rest) && UserItemLen(rest).None?
  }

  /** `-\s+'([^']*)'` captures the user of a written line, and the scan goes on after its newline. */
  lemma QuotedUsersLine(u: string, more: string)
    requires '\'' !in u
    ensures QuotedUsers(UserLine(u) + more) == [u] + QuotedUsers(more)
  {
    var t := UserLine(u) + more;
    var n := |UserLine(u)| - 3;
    assert n + 3 <= |t| && t[0] == ' ' && t[1] == ' ' && t[n + 2] == '\n' && t[n + 3..] == more by {
      UserLineChars(u, more);
    }
    QuotedUserAtLine(u, more);
    ScanOneUser(t, u, n, more);
  }

  /** The user pattern matches a written line from its dash, ending at its closing quote. */
  lemma QuotedUserAtLine(u: string, more: string)
    requires '\'' !in u
    ensures var t, n := (UserLine(u) + more)[2..], |UserLine(u)| - 3;
      QuotedUserAt(t).Some? && QuotedUserAt(t).value.0 == u && QuotedUserAt(t).value.1 == n
  {
    var c := |u|;
    var t := (UserLine(u) + more)[2..];
    var n := |UserLine(u)| - 3;
    assert n == 4 + c && n <= |t| && t[0] == '-' && t[1] == ' ' && t[2] == '\'' && t[3..3 + c] == u && t[3 + c] == '\'' by {
      UserLineChars(u, more);
    }
    CharAbsentAt(t, 3, u, '\'');
    UserQuoteAt(t, u, n);
  }

  /** `-\s+'([^']*)'` on a dash, a blank, a quoted value without quotes. */
  lemma UserQuoteAt(t: string, u: string, n: nat)
    requires n == 4 + |u| && n <= |t| && t[0] == '-' && t[1] == ' ' && t[2] == '\'' && t[3..3 + |u|] == u && t[3 + |u|] == '\''
    requires forall k :: 3 <= k < 3 + |u| ==> t[k] != '\''
    ensures QuotedUserAt(t).Some? && QuotedUserAt(t).value.0 == u && QuotedUserAt(t).value.1 == n
  {
    WsEndIs(t, 1, 2);
    FindCharInIs(t, '\'', 3, |t|, 3 + |u|);
  }

  /** Two blanks, a user match of `n` chars, a newline: the scan yields the user and goes on after the newline. */
  lemma ScanOneUser(t: string, u: string, n: nat, more: string)
    requires n + 3 <= |t| && t[0] != '-' && t[1] != '-' && t[n + 2] != '-' && t[n + 3..] == more
    requires QuotedUserAt(t[2..]).Some? && QuotedUserAt(t[2..]).value.0 == u && QuotedUserAt(t[2..]).value.1 == n
    ensures QuotedUsers(t) == [u] + QuotedUsers(more)
  {
    QuotedUsersSkip(t);
    QuotedUsersSkip(t[1..]);
    assert t[1..][1..] == t[2..];
    QuotedUsersTake(t[2..], u, n);
    assert t[2..][n..] == t[n + 2..];
    QuotedUsersSkip(t[n + 2..]);
    assert t[n + 2..][1..] == more;
  }

  /** The user scan moves one char on where no user starts. */
  lemma QuotedUsersSkip(t: string)
    requires |t| > 0 && t[0] != '-'
    ensures QuotedUsers(t) == QuotedUsers(t[1..])
  {
  }

  /** The user scan takes a user that starts here and goes on after it. */
  lemma QuotedUsersTake(t: string, v: string, n: nat)
    requires QuotedUserAt(t).Some? && QuotedUserAt(t).value.0 == v && QuotedUserAt(t).value.1 == n
    ensures n <= |t| && QuotedUsers(t) == [v] + QuotedUsers(t[n..])
  {
  }

  /** The written lines yield their users, in order, before whatever follows. */
  lemma {:induction false} QuotedUsersLines(users: seq<string>, more: string)
    requires QuoteFree(users)
    ensures QuotedUsers(UserLines(users) + more) == users + QuotedUsers(more)
  {
    if |users| > 0 {
      var u, us := users[0], users[1..];
      assert UserLines(users) + more == UserLine(u) + (UserLines(us) + more);
      QuotedUsersLine(u, UserLines(us) + more);
      QuotedUsersLines(us, more);
      AppendAfterHead(users, QuotedUsers(more));
    } else {
      assert UserLines(users) + more == more;
    }
  }

  /** A written line followed by another item is one repetition of the users item pattern. */
  lemma UserItemLenBefore(u: string, more: string)
    requires '\'' !in u && |more| >= 3 && more[0] == ' ' && more[1] == ' ' && more[2] == '-'
    ensures UserItemLen(UserLine(u) + more) == Some(|UserLine(u)|)
  {
    var t, c := UserLine(u) + more, |u|;
    assert |UserLine(u)| == 7 + c && 9 + c < |t| && t[0] == ' ' && t[1] == ' ' && t[2] == '-' && t[3] == ' ' && t[4] == '\''
      && t[5..5 + c] == u && t[5 + c] == '\'' && t[6 + c] == '\n' && t[7 + c] == ' ' && t[8 + c] == ' ' && t[9 + c] == '-' by {
      UserLineChars(u, more);
    }
    CharAbsentAt(t, 5, u, '\'');
    assert WsEnd(t, 6 + c) == 9 + c && LastCharIn(t, '\n', 6 + c, 9 + c) == Some(6 + c) by {
      WsEndIs(t, 6 + c, 9 + c);
      LastCharInIs(t, '\n', 6 + c, 9 + c, 6 + c);
    }
    UserItemLenOf(t, c, 9 + c, 6 + c, |UserLine(u)|);
  }

  /** The last written line with the blank line after it is one repetition ending after the blank line. */
  lemma UserItemLenLast(u: string, rest: string)
    requires '\'' !in u && NoNewlineRun(rest)
    ensures UserItemLen(UserLine(u) + ("\n" + rest)) == Some(|UserLine(u)| + 1)
  {
    var t, c := UserLine(u) + ("\n" + rest), |u|;
    var w := WsEnd(rest, 0);
    assert |UserLine(u)| == 7 + c && 7 + c < |t| && t[0] == ' ' && t[1] == ' ' && t[2] == '-' && t[3] == ' ' && t[4] == '\''
      && t[5..5 + c] == u && t[5 + c] == '\'' && t[6 + c] == '\n' && t[7 + c] == '\n' && t[8 + c..] == rest by {
      UserLineChars(u, "\n" + rest);
    }
    CharAbsentAt(t, 5, u, '\'');
    BlankLineRun(t, 6 + c, rest);
    UserItemLenOf(t, c, 8 + c + w, 7 + c, |UserLine(u)| + 1);
  }

  /** Two newlines at `i` and then `rest`: the run ends where `rest`'s does, and its last newline is the second. */
  lemma BlankLineRun(t: string, i: nat, rest: string)
    requires i + 2 <= |t| && t[i] == '\n' && t[i + 1] == '\n' && t[i + 2..] == rest && NoNewlineRun(rest)
    ensures var w := i + 2 + WsEnd(rest, 0);
      WsEnd(t, i) == w && LastCharIn(t, '\n', i, w) == Some(i + 1)
  {
    var w := i + 2 + WsEnd(rest, 0);
    WsEndSpaces(rest, 0);
    assert forall k :: i + 2 <= k < |t| ==> t[k] == rest[k - i - 2];
    WsEndIs(t, i, w);
    LastCharInIs(t, '\n', i, w, i + 1);
  }

  /** `\s+-\s+'[^']*'\s*\n` on a written line: the repetition ends after the last newline of the blank run. */
  lemma UserItemLenOf(t: string, c: nat, w: nat, k: nat, n: nat)
    requires n == k + 1 && 5 + c < |t| && 6 + c <= |t|
    requires t[0] == ' ' && t[1] == ' ' && t[2] == '-' && t[3] == ' ' && t[4] == '\'' && t[5 + c] == '\''
    requires forall j :: 5 <= j < 5 + c ==> t[j] != '\''
    requires WsEnd(t, 6 + c) == w && LastCharIn(t, '\n', 6 + c, w) == Some(k)
    ensures UserItemLen(t) == Some(n)
  {
    WsEndIs(t, 0, 2);
    WsEndIs(t, 3, 4);
    FindCharInIs(t, '\'', 5, |t|, 5 + c);
  }

  /** The chars of a written users line. */
  lemma UserLineChars(u: string, more: string)
    ensures var t, l := UserLine(u) + more, |UserLine(u)|;
      && l == |u| + 7 && t[0] == ' ' && t[1] == ' ' && t[2] == '-' && t[3] == ' ' && t[4] == '\''
      && (forall k :: 5 <= k < 5 + |u| ==> t[k] == u[k - 5])
      && t[l - 2] == '\'' && t[l - 1] == '\n' && t[l..] == more
  {
  }

  /** The users written after the header are all repetitions of the item pattern, up to the blank line. */
  lemma {:induction false} UserItemsLen(users: seq<string>, rest: string)
    requires users != [] && QuoteFree(users) && UsersTail(rest)
    ensures ItemsLen(UserLines(users) + ("\n" + rest), UsersSectionKind) == |UserLines(users)| + 1
  {
    var u, us := users[0], users[1..];
    var l := |UserLine(u)|;
    var more := UserLines(us) + ("\n" + rest);
    var t := UserLines(users) + ("\n" + rest);
    assert t == UserLine(u) + more by {
      Assoc(UserLine(u), UserLines(us), "\n" + rest);
    }
    if |us| > 0 {
      assert ItemLen(t, UsersSectionKind) == Some(l) by {
        assert more == UserLine(us[0]) + (UserLines(us[1..]) + ("\n" + rest)) by {
          Assoc(UserLine(us[0]), UserLines(us[1..]), "\n" + rest);
        }
        UserLineChars(us[0], UserLines(us[1..]) + ("\n" + rest));
        UserItemLenBefore(u, more);
      }
      assert t[l..] == more by {
        UserLineChars(u, more);
      }
      ItemsLenStep(t, UsersSectionKind, l);
      UserItemsLen(us, rest);
    } else {
      assert ItemLen(t, UsersSectionKind) == Some(l + 1) by {
        UserItemLenLast(u, rest);
      }
      assert t[l + 1..] == rest by {
        UserLineChars(u, "\n" + rest);
      }
      ItemsLenStep(t, UsersSectionKind, l + 1);
      assert ItemLen(rest, UsersSectionKind).None?;
    }
  }

  /** One more repetition of the item pattern. */
  lemma ItemsLenStep(t: string, sec: Section, n: nat)
    requires ItemLen(t, sec) == Some(n)
    ensures n <= |t| && ItemsLen(t, sec) == n + ItemsLen(t[n..], sec)
  {
  }

  /** `KEY:\s*\n` before an indented item ends just after the newline that follows the colon. */
  lemma HeaderBeforeItem(key: string, body: string)
    requires |body| >= 3 && body[0] == ' ' && body[1] == ' ' && body[2] == '-'
    ensures HeaderLen(key + ":\n" + body, key) == Some(|key| + 2)
  {
    var s, k := key + ":\n" + body, |key|;
    StartsAtLiteral([], key + ":", "\n" + body);
    assert [] + (key + ":") + ("\n" + body) == s;
    assert s[k + 1] == '\n' && s[k + 2] == ' ' && s[k + 3] == ' ' && s[k + 4] == '-';
    WsEndIs(s, k + 1, k + 4);
    LastCharInIs(s, '\n', k + 1, k + 3, k + 1);
  }

  /**
   * A header followed by `n` chars of items is a section match at the start
   * of the text (stated field by field: the solver handles that far better
   * than an equality of tuples).
   */
  lemma SectionFoundAtStart(s: string, sec: Section, body: string, n: nat)
    requires s == KeyOf(sec) + ":\n" + body
    requires |body| >= 3 && body[0] == ' ' && body[1] == ' ' && body[2] == '-'
    requires ItemsLen(body, sec) == n && n > 0
    ensures var g, f := |KeyOf(sec)| + 2, FindSection(s, sec);
      && f.Some? && f.value.0 == 0 && f.value.1 == g && f.value.2 == g + n
  {
    var g := |KeyOf(sec)| + 2;
    HeaderThenBody(s, KeyOf(sec), body);
    SectionFoundAfter(s, sec, g, n);
  }

  /** The header of a written section ends just after its newline, and the body follows it. */
  lemma HeaderThenBody(s: string, key: string, body: string)
    requires s == key + ":\n" + body
    requires |body| >= 3 && body[0] == ' ' && body[1] == ' ' && body[2] == '-'
    ensures |key| + 2 <= |s| && HeaderLen(s, key) == Some(|key| + 2) && s[|key| + 2..] == body
  {
    HeaderBeforeItem(key, body);
    AfterHeader(key, body, |body|);
  }

  /** A header at the start of the text ending at `g`, followed by `n > 0` chars of items, is what `find()` reports. */
  lemma SectionFoundAfter(s: string, sec: Section, g: nat, n: nat)
    requires g <= |s| && HeaderLen(s, KeyOf(sec)) == Some(g) && ItemsLen(s[g..], sec) == n && n > 0
    ensures var f := FindSection(s, sec);
      && g + n <= |s| && f.Some? && f.value.0 == 0 && f.value.1 == g && f.value.2 == g + n
  {
    assert SectionMatchAt(s, sec)(0) == Some((g, g + n)) by {
      SectionMatchFrom(s, sec, g, n);
      assert s[0..] == s;
    }
    assert FirstMatch(s, 0, SectionMatchAt(s, sec)) == Some((0, (g, g + n))) by {
      FirstMatchAtStart(s, SectionMatchAt(s, sec));
    }
    FindSectionIs(s, sec, 0, (g, g + n));
  }

  /** The text after a header's newline is its body. */
  lemma AfterHeader(key: string, body: string, n: nat)
    requires n <= |body|
    ensures var s := key + ":\n" + body; |key| + 2 + n <= |s| && s[|key| + 2..|key| + 2 + n] == body[..n]
  {
    var s := key + ":\n" + body;
    assert s[|key| + 2..] == body;
  }

  /** `find()`'s first match, as start, group start and end. */
  lemma FindSectionIs(s: string, sec: Section, p: nat, m: (nat, nat))
    requires FirstMatch(s, 0, SectionMatchAt(s, sec)) == Some((p, m))
    ensures var f := FindSection(s, sec);
      f.Some? && f.value.0 == p && f.value.1 == p + m.0 && f.value.2 == p + m.1
  {
  }

  /** A header ending at `g` and `n > 0` chars of items after it are a section match. */
  lemma SectionMatchFrom(s: string, sec: Section, g: nat, n: nat)
    requires g <= |s| && HeaderLen(s, KeyOf(sec)) == Some(g) && ItemsLen(s[g..], sec) == n && n > 0
    ensures SectionMatch(s, sec) == Some((g, g + n))
  {
  }

  /** `find()` from the start reports a match at the start. */
  lemma FirstMatchAtStart<M>(s: string, m: nat -> Option<M>)
    requires m(0).Some?
    ensures FirstMatch(s, 0, m) == Some((0, m(0).value))
  {
  }

  /** A section match starts with the key and its colon. */
  lemma SectionMatchNeedsKey(s: string, sec: Section, q: nat)
    requires q <= |s|
    ensures SectionMatch(s[q..], sec).Some? ==> StartsAt(s, KeyOf(sec) + ":", q)
  {
    if SectionMatch(s[q..], sec).Some? {
      StartsAtUnslice(s, q, |s|, s[q..], KeyOf(sec) + ":", 0);
    }
  }

  /**
   * A section found at the start of `t` is found, with the same groups,
   * in any text that ends with `t` from `p` on, when its key does not
   * occur before `p`: no match can start before the key does.
   */
  lemma SectionFoundAtOffset(s: string, p: nat, t: string, sec: Section, g: nat, e: nat)
    requires p <= |s| && s[p..] == t
    requires FindSection(t, sec).Some? && FindSection(t, sec).value.0 == 0
    requires FindSection(t, sec).value.1 == g && FindSection(t, sec).value.2 == e
    requires IndexOf(s, KeyOf(sec) + ":") == Some(p)
    ensures var f := FindSection(s, sec);
      && f.Some? && f.value.0 == p && f.value.1 == p + g && f.value.2 == p + e
  {
    var m := SectionMatchAt(s, sec);
    FoundAtStartMatch(t, sec, g, e);
    assert m(p) == SectionMatch(t, sec);
    NoMatchBeforeKey(s, sec, p);
    FirstMatchAtFirst(s, 0, p, m);
    FindSectionIs(s, sec, p, m(p).value);
  }

  /** A slice of a suffix is the shifted slice of the whole. */
  lemma SliceOfSuffix<T>(s: seq<T>, p: nat, t: seq<T>, g: nat, e: nat)
    requires p <= |s| && s[p..] == t && g <= e <= |t|
    ensures p + e <= |s| && s[p + g..p + e] == t[g..e]
  {
    assert s[p + g..p + e] == s[p..][g..e];
  }

  /** A section found at the start of `t` is the section pattern's match there. */
  lemma FoundAtStartMatch(t: string, sec: Section, g: nat, e: nat)
    requires FindSection(t, sec).Some? && FindSection(t, sec).value.0 == 0
    requires FindSection(t, sec).value.1 == g && FindSection(t, sec).value.2 == e
    ensures SectionMatch(t, sec).Some? && SectionMatch(t, sec).value.0 == g && SectionMatch(t, sec).value.1 == e
  {
    var r := FirstMatch(t, 0, SectionMatchAt(t, sec));
    assert r.Some? && r.value.0 == 0 && r.value.1.0 == g && r.value.1.1 == e;
    assert SectionMatchAt(t, sec)(0) == Some(r.value.1);
    assert t[0..] == t;
  }

  /** No section match starts before the first occurrence of the key. */
  lemma NoMatchBeforeKey(s: string, sec: Section, p: nat)
    requires IndexOf(s, KeyOf(sec) + ":") == Some(p)
    ensures forall j :: 0 <= j < p ==> SectionMatchAt(s, sec)(j).None?
  {
    forall j | 0 <= j < p
      ensures SectionMatchAt(s, sec)(j).None?
    {
      SectionMatchNeedsKey(s, sec, j);
    }
  }


  /**
   * The users section as written, anywhere in a text whose first
   * occurrence of the key is the section's own and followed by text that
   * neither continues its blank line nor adds a user item, is what the
   * section pattern finds, and `extractUsersList` returns exactly the users
   * written, in order.
   */
  lemma UsersSectionReadBack(a: string, users: seq<string>, rest: string)
    requires users != [] && QuoteFree(users) && UsersTail(rest)
    requires IndexOf(a + UsersSection(users) + rest, UsersKey + ":") == Some(|a|)
    ensures ExtractUsersList(a + UsersSection(users) + rest) == users
  {
    var s, t := a + UsersSection(users) + rest, UsersSection(users) + rest;
    var g, e := UsersSectionFound(users, rest);
    Assoc(a, UsersSection(users), rest);
    assert QuotedUsers(UserLines(users) + "\n") == users by {
      QuotedUsersLines(users, "\n");
      assert "\n"[1..] == [];
    }
    assert s[|a|..] == t;
    UsersReadAt(s, |a|, t, g, e, UserLines(users) + "\n");
  }

  /** `extractUsersList` reads the group of the section that starts `s[p..]`, when the key does not occur before `p`. */
  lemma UsersReadAt(s: string, p: nat, t: string, g: nat, e: nat, items: string)
    requires p <= |s| && s[p..] == t
    requires FindSection(t, UsersSectionKind).Some? && FindSection(t, UsersSectionKind).value.0 == 0
    requires FindSection(t, UsersSectionKind).value.1 == g && FindSection(t, UsersSectionKind).value.2 == e
    requires g <= e <= |t| && t[g..e] == items
    requires IndexOf(s, KeyOf(UsersSectionKind) + ":") == Some(p)
    ensures ExtractUsersList(s) == QuotedUsers(items)
  {
    SectionFoundAtOffset(s, p, t, UsersSectionKind, g, e);
    SliceOfSuffix(s, p, t, g, e);
    ExtractedUsersAt(s, p + g, p + e, items);
  }

  /** `find()` reports the item group of a generated users section as exactly its user lines and the newline after them. */
  lemma UsersSectionFound(users: seq<string>, rest: string) returns (g: nat, e: nat)
    requires users != [] && QuoteFree(users) && UsersTail(rest)
    ensures FindSection(UsersSection(users) + rest, UsersSectionKind).Some?
    ensures FindSection(UsersSection(users) + rest, UsersSectionKind).value.0 == 0
    ensures FindSection(UsersSection(users) + rest, UsersSectionKind).value.1 == g
    ensures FindSection(UsersSection(users) + rest, UsersSectionKind).value.2 == e
    ensures g <= e <= |UsersSection(users) + rest| && (UsersSection(users) + rest)[g..e] == UserLines(users) + "\n"
  {
    var lines := UserLines(users);
    var items := lines + "\n";
    var body := lines + ("\n" + rest);
    assert |body| >= 3 && body[0] == ' ' && body[1] == ' ' && body[2] == '-' by {
      assert lines == UserLine(users[0]) + UserLines(users[1..]);
      UserLineChars(users[0], UserLines(users[1..]) + ("\n" + rest));
    }
    assert ItemsLen(body, UsersSectionKind) == |items| by {
      UserItemsLen(users, rest);
    }
    Assoc(lines, "\n", rest);
    g, e := GeneratedSectionFound(UsersSectionKind, items, rest, body);
    Assoc(KeyOf(UsersSectionKind) + ":\n", lines, "\n");
  }

  /** A generated section (key, then items) at the start of the text is what `find()` reports. */
  lemma GeneratedSectionFound(sec: Section, items: string, rest: string, body: string) returns (g: nat, e: nat)
    requires body == items + rest
    requires |body| >= 3 && body[0] == ' ' && body[1] == ' ' && body[2] == '-'
    requires ItemsLen(body, sec) == |items| && |items| > 0
    ensures var s := KeyOf(sec) + ":\n" + items + rest;
      && FindSection(s, sec).Some? && FindSection(s, sec).value.0 == 0
      && FindSection(s, sec).value.1 == g && FindSection(s, sec).value.2 == e
      && g <= e <= |s| && s[g..e] == items
  {
    var h := KeyOf(sec) + ":\n";
    Assoc(h, items, rest);
    SectionFoundAtStart(h + items + rest, sec, body, |items|);
    ItemsAfterHeader(KeyOf(sec), items, rest);
    g, e := |KeyOf(sec)| + 2, |KeyOf(sec)| + 2 + |items|;
  }

  /** The items of a written section sit just after its header. */
  lemma ItemsAfterHeader(key: string, items: string, rest: string)
    ensures var s, g := key + ":\n" + items + rest, |key| + 2;
      g + |items| <= |s| && s[g..g + |items|] == items
  {
    Assoc(key + ":\n", items, rest);
    AfterHeader(key, items + rest, |items|);
    PrefixOfAppend(items, rest);
  }

  /** The first chars of an append are its left side. */
  lemma PrefixOfAppend<T>(a: seq<T>, b: seq<T>)
    ensures (a + b)[..|a|] == a
  {
  }

  /** `extractUsersList` reads the users of the section group that `find()` reports. */
  lemma ExtractedUsersAt(s: string, g: nat, e: nat, items: string)
    requires FindSection(s, UsersSectionKind).Some? && FindSection(s, UsersSectionKind).value.1 == g
    requires FindSection(s, UsersSectionKind).value.2 == e
    requires g <= e <= |s| && s[g..e] == items
    ensures ExtractUsersList(s) == QuotedUsers(items)
  {
  }

  // ---------------------------------------------------------------------
  // The roles section read back
  // ---------------------------------------------------------------------

  /** A value that `'([^']*)'` captures whole and that `.*` runs over: no quote, no line terminator. */
  predicate PlainValue(v: string) {
    '\'' !in v && forall k :: 0 <= k < |v| ==> !IsLineTerminator(v[k])
  }

  predicate PlainRoles(roles: seq<RoleEntry>) {
    forall i :: 0 <= i < |roles| ==> PlainValue(roles[i].group) && PlainValue(roles[i].users)
  }

  /** The chars of a written entry, `  - group: 'G'` and `    users: 'U'` on two lines. */
  lemma RoleLineChars(e: RoleEntry, more: string)
    ensures var t, a, b := RoleLine(e) + more, |e.group|, |e.users|;
      && |RoleLine(e)| == 28 + a + b
      && t[0] == ' ' && t[1] == ' ' && t[2] == '-' && t[3] == ' ' && t[4] == 'g' && t[5] == 'r' && t[6] == 'o' && t[7] == 'u' && t[8] == 'p' && t[9] == ':' && t[10] == ' ' && t[11] == '\''
      && t[12..12 + a] == e.group && t[12 + a] == '\'' && t[13 + a] == '\n'
      && t[14 + a] == ' ' && t[15 + a] == ' ' && t[16 + a] == ' ' && t[17 + a] == ' '
      && t[18 + a] == 'u' && t[19 + a] == 's' && t[20 + a] == 'e' && t[21 + a] == 'r' && t[22 + a] == 's' && t[23 + a] == ':' && t[24 + a] == ' ' && t[25 + a] == '\''
      && t[26 + a..26 + a + b] == e.users && t[26 + a + b] == '\'' && t[27 + a + b] == '\n'
      && t[28 + a + b..] == more
  {
  }

  /** A written entry is one repetition of the roles item pattern, whatever follows it. */
  lemma RoleItemLenIs(e: RoleEntry, more: string)
    requires PlainValue(e.group) && PlainValue(e.users)
    ensures RoleItemLen(RoleLine(e) + more) == Some(|RoleLine(e)|)
  {
    var t, a, b := RoleLine(e) + more, |e.group|, |e.users|;
    assert |RoleLine(e)| == 28 + a + b by {
      RoleLineChars(e, more);
    }
    GroupLineChars(e, more);
    UsersLineChars(e, more);
    RoleItemLenOf(t, a, b, |RoleLine(e)|);
  }

  /** What the item pattern reads of a written entry's group line. */
  lemma GroupLineChars(e: RoleEntry, more: string)
    requires PlainValue(e.group)
    ensures var t, a := RoleLine(e) + more, |e.group|;
      && 13 + a < |t|
      && t[0] == ' ' && t[1] == ' ' && t[2] == '-' && t[3] == ' ' && StartsAt(t, "group:", 4) && t[10] == ' '
      && t[11] == '\'' && t[12 + a] == '\'' && t[13 + a] == '\n'
      && (forall k :: 12 <= k < 12 + a ==> !IsLineTerminator(t[k]))
  {
    RoleLineChars(e, more);
    StartsAtSix(RoleLine(e) + more, "group:", 4);
    NoTerminatorAt(RoleLine(e) + more, 12, e.group);
  }

  /** What the item pattern reads of a written entry's users line. */
  lemma UsersLineChars(e: RoleEntry, more: string)
    requires PlainValue(e.users)
    ensures var t, a, b := RoleLine(e) + more, |e.group|, |e.users|;
      && 27 + a + b < |t| && |RoleLine(e)| == 28 + a + b
      && t[14 + a] == ' ' && t[15 + a] == ' ' && t[16 + a] == ' ' && t[17 + a] == ' '
      && StartsAt(t, "users:", 18 + a) && t[24 + a] == ' ' && t[25 + a] == '\''
      && t[26 + a + b] == '\'' && t[27 + a + b] == '\n'
      && (forall k :: 26 + a <= k < 26 + a + b ==> !IsLineTerminator(t[k]))
  {
    RoleLineChars(e, more);
    StartsAtSix(RoleLine(e) + more, "users:", 18 + |e.group|);
    NoTerminatorAt(RoleLine(e) + more, 26 + |e.group|, e.users);
  }

  /** A group line and a users line, as the item pattern reads them, are one repetition. */
  lemma RoleItemLenOf(t: string, a: nat, b: nat, n: nat)
    requires n == 28 + a + b && n <= |t|
    requires t[0] == ' ' && t[1] == ' ' && t[2] == '-' && t[3] == ' ' && StartsAt(t, "group:", 4) && t[10] == ' '
    requires t[11] == '\'' && t[12 + a] == '\'' && t[13 + a] == '\n'
    requires forall k :: 12 <= k < 12 + a ==> !IsLineTerminator(t[k])
    requires t[14 + a] == ' ' && t[15 + a] == ' ' && t[16 + a] == ' ' && t[17 + a] == ' '
    requires StartsAt(t, "users:", 18 + a) && t[24 + a] == ' ' && t[25 + a] == '\''
    requires t[26 + a + b] == '\'' && t[27 + a + b] == '\n'
    requires forall k :: 26 + a <= k < 26 + a + b ==> !IsLineTerminator(t[k])
    ensures RoleItemLen(t) == Some(n)
  {
    GroupLineLen(t, a);
    UsersLineLen(t, a, b);
  }

  /** `\s+-\s+group:.*\n` runs to the newline that ends the group line. */
  lemma GroupLineLen(t: string, a: nat)
    requires 13 + a < |t|
    requires t[0] == ' ' && t[1] == ' ' && t[2] == '-' && t[3] == ' ' && StartsAt(t, "group:", 4) && t[10] == ' '
    requires t[11] == '\'' && t[12 + a] == '\'' && t[13 + a] == '\n'
    requires forall k :: 12 <= k < 12 + a ==> !IsLineTerminator(t[k])
    ensures RoleItemLen(t) == RoleUsersLineLen(t, 13 + a)
  {
    WsEndIs(t, 0, 2);
    WsEndIs(t, 3, 4);
    LineTerminatorFromIs(t, 10, 13 + a);
  }

  /** `\s+users:.*\n` after the group line's newline at `13 + a` runs to the newline that ends the users line. */
  lemma UsersLineLen(t: string, a: nat, b: nat)
    requires 27 + a + b < |t|
    requires t[14 + a] == ' ' && t[15 + a] == ' ' && t[16 + a] == ' ' && t[17 + a] == ' '
    requires StartsAt(t, "users:", 18 + a) && t[24 + a] == ' ' && t[25 + a] == '\''
    requires t[26 + a + b] == '\'' && t[27 + a + b] == '\n'
    requires forall k :: 26 + a <= k < 26 + a + b ==> !IsLineTerminator(t[k])
    ensures RoleUsersLineLen(t, 13 + a) == Some(28 + a + b)
  {
    WsEndIs(t, 14 + a, 18 + a);
    LineTerminatorFromIs(t, 24 + a, 27 + a + b);
  }

  /** `-\s+group:\s+'([^']*)'\s*\n\s+users:\s+'([^']*)'` captures a written entry, and the scan goes on after its newline. */
  lemma QuotedRolesLine(e: RoleEntry, more: string)
    requires '\'' !in e.group && '\'' !in e.users
    ensures QuotedRoles(RoleLine(e) + more) == [e] + QuotedRoles(more)
  {
    var t := RoleLine(e) + more;
    var n := |RoleLine(e)| - 3;
    assert n + 3 <= |t| && t[0] == ' ' && t[1] == ' ' && t[n + 2] == '\n' && t[n + 3..] == more by {
      RoleLineChars(e, more);
    }
    QuotedRoleAtLine(e, more);
    ScanOneEntry(t, e, n, more);
  }

  /** Two blanks, an entry of `n` chars, a newline: the scan yields the entry and goes on after the newline. */
  lemma ScanOneEntry(t: string, e: RoleEntry, n: nat, more: string)
    requires n + 3 <= |t| && t[0] != '-' && t[1] != '-' && t[n + 2] != '-' && t[n + 3..] == more
    requires QuotedRoleAt(t[2..]).Some? && QuotedRoleAt(t[2..]).value.0 == e && QuotedRoleAt(t[2..]).value.1 == n
    ensures QuotedRoles(t) == [e] + QuotedRoles(more)
  {
    QuotedRolesSkip(t);
    QuotedRolesSkip(t[1..]);
    assert t[1..][1..] == t[2..];
    QuotedRolesTake(t[2..], e, n);
    assert t[2..][n..] == t[n + 2..];
    QuotedRolesSkip(t[n + 2..]);
    assert t[n + 2..][1..] == more;
  }

  /** The entry pattern matches a written entry from its dash, ending at its closing quote. */
  lemma QuotedRoleAtLine(e: RoleEntry, more: string)
    requires '\'' !in e.group && '\'' !in e.users
    ensures var t, n := (RoleLine(e) + more)[2..], |RoleLine(e)| - 3;
      QuotedRoleAt(t).Some? && QuotedRoleAt(t).value.0 == e && QuotedRoleAt(t).value.1 == n
  {
    GroupOfLine(e, more);
    UsersOfLine(e, more);
  }

  /** The group line of a written entry, read from its dash, hands over at the group's closing quote. */
  lemma GroupOfLine(e: RoleEntry, more: string)
    requires '\'' !in e.group
    ensures var t := (RoleLine(e) + more)[2..];
      10 + |e.group| < |t| && QuotedRoleAt(t) == QuotedRoleUsers(t, e.group, 10 + |e.group|)
  {
    var a := |e.group|;
    var t := (RoleLine(e) + more)[2..];
    assert 10 + a < |t| && t[0] == '-' && t[1] == ' ' && StartsAt(t, "group:", 2) && t[8] == ' ' && t[9] == '\''
      && t[10..10 + a] == e.group && t[10 + a] == '\'' by {
      RoleLineChars(e, more);
      StartsAtSix(t, "group:", 2);
    }
    CharAbsentAt(t, 10, e.group, '\'');
    GroupQuoteAt(t, a);
  }

  /** The users line of a written entry completes the entry and ends at the users' closing quote. */
  lemma UsersOfLine(e: RoleEntry, more: string)
    requires '\'' !in e.users
    ensures var t, n := (RoleLine(e) + more)[2..], |RoleLine(e)| - 3;
      && 10 + |e.group| < |t|
      && var r := QuotedRoleUsers(t, e.group, 10 + |e.group|); r.Some? && r.value.0 == e && r.value.1 == n
  {
    var a, b := |e.group|, |e.users|;
    var t := (RoleLine(e) + more)[2..];
    var n := |RoleLine(e)| - 3;
    assert n == 25 + a + b && n <= |t|
      && t[11 + a] == '\n' && t[12 + a] == ' ' && t[13 + a] == ' ' && t[14 + a] == ' ' && t[15 + a] == ' '
      && StartsAt(t, "users:", 16 + a) && t[22 + a] == ' ' && t[23 + a] == '\''
      && t[24 + a..24 + a + b] == e.users && t[24 + a + b] == '\'' by {
      RoleLineChars(e, more);
      StartsAtSix(t, "users:", 16 + a);
    }
    CharAbsentAt(t, 24 + a, e.users, '\'');
    UsersQuoteAt(t, a, b, e, n);
  }

  /** `-\s+group:\s+'([^']*)'` at a written entry's dash captures the group and closes at its quote. */
  lemma GroupQuoteAt(t: string, a: nat)
    requires 10 + a < |t|
    requires t[0] == '-' && t[1] == ' ' && StartsAt(t, "group:", 2) && t[8] == ' ' && t[9] == '\'' && t[10 + a] == '\''
    requires forall k :: 10 <= k < 10 + a ==> t[k] != '\''
    ensures QuotedRoleAt(t) == QuotedRoleUsers(t, t[10..10 + a], 10 + a)
  {
    WsEndIs(t, 1, 2);
    WsEndIs(t, 8, 9);
    FindCharInIs(t, '\'', 10, |t|, 10 + a);
  }

  /** `\s*\n\s+users:\s+'([^']*)'` after the group's quote at `10 + a` captures the users and closes at their quote. */
  lemma UsersQuoteAt(t: string, a: nat, b: nat, e: RoleEntry, n: nat)
    requires n == 25 + a + b && n <= |t| && |e.users| == b && t[24 + a..24 + a + b] == e.users
    requires t[11 + a] == '\n' && t[12 + a] == ' ' && t[13 + a] == ' ' && t[14 + a] == ' ' && t[15 + a] == ' '
    requires StartsAt(t, "users:", 16 + a) && t[22 + a] == ' ' && t[23 + a] == '\'' && t[24 + a + b] == '\''
    requires forall k :: 24 + a <= k < 24 + a + b ==> t[k] != '\''
    ensures var r := QuotedRoleUsers(t, e.group, 10 + a); r.Some? && r.value.0 == e && r.value.1 == n
  {
    WsEndIs(t, 11 + a, 16 + a);
    FindCharInIs(t, '\n', 11 + a, 15 + a, 11 + a);
    WsEndIs(t, 22 + a, 23 + a);
    FindCharInIs(t, '\'', 24 + a, |t|, 24 + a + b);
  }



  /** A char that a value lacks is absent where the value is written. */
  lemma CharAbsentAt(t: string, lo: nat, v: string, c: char)
    requires lo + |v| <= |t| && t[lo..lo + |v|] == v && c !in v
    ensures forall j :: lo <= j < lo + |v| ==> t[j] != c
  {
    assert forall j :: lo <= j < lo + |v| ==> t[j] == v[j - lo];
  }

  /** No line terminator in a value means none where the value is written. */
  lemma NoTerminatorAt(t: string, lo: nat, v: string)
    requires lo + |v| <= |t| && t[lo..lo + |v|] == v && PlainValue(v)
    ensures forall j :: lo <= j < lo + |v| ==> !IsLineTerminator(t[j])
  {
    assert forall j :: lo <= j < lo + |v| ==> t[j] == v[j - lo];
  }

  /** The entry scan moves one char on where no entry starts. */
  lemma QuotedRolesSkip(t: string)
    requires |t| > 0 && t[0] != '-'
    ensures QuotedRoles(t) == QuotedRoles(t[1..])
  {
  }

  /** The entry scan takes an entry that starts here and goes on after it. */
  lemma QuotedRolesTake(t: string, v: RoleEntry, n: nat)
    requires QuotedRoleAt(t).Some? && QuotedRoleAt(t).value.0 == v && QuotedRoleAt(t).value.1 == n
    ensures n <= |t| && QuotedRoles(t) == [v] + QuotedRoles(t[n..])
  {
  }

  /** The written entries yield themselves, in order, before whatever follows. */
  lemma {:induction false} QuotedRolesLines(roles: seq<RoleEntry>, more: string)
    requires PlainRoles(roles)
    ensures QuotedRoles(RoleLines(roles) + more) == roles + QuotedRoles(more)
  {
    if |roles| > 0 {
      var r, rs := roles[0], roles[1..];
      assert RoleLines(roles) + more == RoleLine(r) + (RoleLines(rs) + more) by {
        Assoc(RoleLine(r), RoleLines(rs), more);
      }
      QuotedRolesLine(r, RoleLines(rs) + more);
      QuotedRolesLines(rs, more);
      AppendAfterHead(roles, QuotedRoles(more));
    } else {
      assert RoleLines(roles) + more == more;
    }
  }

  /** The written entries are all repetitions of the item pattern, and the text after them is not. */
  lemma {:induction false} RoleItemsLen(roles: seq<RoleEntry>, rest: string)
    requires PlainRoles(roles) && RoleItemLen(rest).None?
    ensures ItemsLen(RoleLines(roles) + rest, RolesSectionKind) == |RoleLines(roles)|
  {
    var t := RoleLines(roles) + rest;
    if |roles| > 0 {
      var r, rs := roles[0], roles[1..];
      var l, more := |RoleLine(r)|, RoleLines(rs) + rest;
      assert t == RoleLine(r) + more by {
        Assoc(RoleLine(r), RoleLines(rs), rest);
      }
      assert ItemLen(t, RolesSectionKind) == Some(l) by {
        RoleItemLenIs(r, more);
      }
      assert t[l..] == more by {
        RoleLineChars(r, more);
      }
      ItemsLenStep(t, RolesSectionKind, l);
      RoleItemsLen(rs, rest);
    } else {
      assert t == rest;
    }
  }

  /** `find()` reports the item group of a generated roles section as exactly its entry lines. */
  lemma RolesSectionFound(roles: seq<RoleEntry>, rest: string) returns (g: nat, e: nat)
    requires roles != [] && PlainRoles(roles) && RoleItemLen(rest).None?
    ensures FindSection(RolesSection(roles) + rest, RolesSectionKind).Some?
    ensures FindSection(RolesSection(roles) + rest, RolesSectionKind).value.0 == 0
    ensures FindSection(RolesSection(roles) + rest, RolesSectionKind).value.1 == g
    ensures FindSection(RolesSection(roles) + rest, RolesSectionKind).value.2 == e
    ensures g <= e <= |RolesSection(roles) + rest| && (RolesSection(roles) + rest)[g..e] == RoleLines(roles)
  {
    var lines := RoleLines(roles);
    var body := lines + rest;
    assert |body| >= 3 && body[0] == ' ' && body[1] == ' ' && body[2] == '-' by {
      Assoc(RoleLine(roles[0]), RoleLines(roles[1..]), rest);
      RoleLineChars(roles[0], RoleLines(roles[1..]) + rest);
    }
    assert ItemsLen(body, RolesSectionKind) == |lines| && |lines| > 0 by {
      RoleItemsLen(roles, rest);
      RoleLineChars(roles[0], RoleLines(roles[1..]));
    }
    g, e := GeneratedSectionFound(RolesSectionKind, lines, rest, body);
  }

  /**
   * What `replaceRolesSection` writes, `extractRolesList` reads back: the
   * entries, in order, when no value holds a quote or a line break, the
   * key does not occur before the section and no further entry follows it.
   */
  lemma RolesSectionReadBack(a: string, roles: seq<RoleEntry>, rest: string)
    requires roles != [] && PlainRoles(roles) && RoleItemLen(rest).None?
    requires IndexOf(a + RolesSection(roles) + rest, RolesKey + ":") == Some(|a|)
    ensures ExtractRolesList(a + RolesSection(roles) + rest) == roles
  {
    var s, t := a + RolesSection(roles) + rest, RolesSection(roles) + rest;
    var g, e := RolesSectionFound(roles, rest);
    Assoc(a, RolesSection(roles), rest);
    assert QuotedRoles(RoleLines(roles)) == roles by {
      QuotedRolesLines(roles, []);
      assert RoleLines(roles) + [] == RoleLines(roles);
    }
    assert s[|a|..] == t;
    RolesReadAt(s, |a|, t, g, e, RoleLines(roles));
  }

  /** `extractRolesList` reads the group of the section that starts `s[p..]`, when the key does not occur before `p`. */
  lemma RolesReadAt(s: string, p: nat, t: string, g: nat, e: nat, items: string)
    requires p <= |s| && s[p..] == t
    requires FindSection(t, RolesSectionKind).Some? && FindSection(t, RolesSectionKind).value.0 == 0
    requires FindSection(t, RolesSectionKind).value.1 == g && FindSection(t, RolesSectionKind).value.2 == e
    requires g <= e <= |t| && t[g..e] == items
    requires IndexOf(s, KeyOf(RolesSectionKind) + ":") == Some(p)
    ensures ExtractRolesList(s) == QuotedRoles(items)
  {
    SectionFoundAtOffset(s, p, t, RolesSectionKind, g, e);
    SliceOfSuffix(s, p, t, g, e);
    ExtractedRolesAt(s, p + g, p + e, items);
  }

  /** `extractRolesList` reads the entries of the section group that `find()` reports. */
  lemma ExtractedRolesAt(s: string, g: nat, e: nat, items: string)
    requires FindSection(s, RolesSectionKind).Some? && FindSection(s, RolesSectionKind).value.1 == g
    requires FindSection(s, RolesSectionKind).value.2 == e
    requires g <= e <= |s| && s[g..e] == items
    ensures ExtractRolesList(s) == QuotedRoles(items)
  {
  }

  // ---------------------------------------------------------------------
  // Reading back a replaced section
  // ---------------------------------------------------------------------

  /** The greedy item loop stops where no further item matches. */
  lemma {:induction false} ItemsLenStops(t: string, sec: Section)
    decreases |t|
    ensures ItemLen(t[ItemsLen(t, sec)..], sec).None?
  {
    match ItemLen(t, sec) {
      case None =>
        assert t[0..] == t;
      case Some(n) =>
        ItemsLenStops(t[n..], sec);
        assert t[n..][ItemsLen(t[n..], sec)..] == t[ItemsLen(t, sec)..];
    }
  }

  /** A users item ends after the last newline of its closing run, so what follows has none before its first non-blank char. */
  lemma LastUserItemRun(t: string)
    requires UserItemLen(t).Some?
    ensures NoNewlineRun(t[UserItemLen(t).value..])
  {
    var e1 := WsEnd(t, 0);
    var e2 := WsEnd(t, e1 + 1);
    var q := FindCharIn(t, '\'', e2 + 1, |t|).value;
    var w := WsEnd(t, q + 1);
    var k := LastCharIn(t, '\n', q + 1, w).value;
    var rest := t[k + 1..];
    assert UserItemLen(t).value == k + 1;
    WsEndSpaces(t, q + 1);
    assert forall i :: 0 <= i < |rest| ==> rest[i] == t[k + 1 + i];
    WsEndIs(rest, 0, w - (k + 1));
  }

  /** After the users items, nothing continues the last item's run with a newline. */
  lemma {:induction false} UserItemsRun(t: string)
    decreases |t|
    ensures ItemsLen(t, UsersSectionKind) > 0 ==> NoNewlineRun(t[ItemsLen(t, UsersSectionKind)..])
  {
    match UserItemLen(t) {
      case None =>
      case Some(n) =>
        if ItemsLen(t[n..], UsersSectionKind) > 0 {
          UserItemsRun(t[n..]);
          assert t[n..][ItemsLen(t[n..], UsersSectionKind)..] == t[ItemsLen(t, UsersSectionKind)..];
        } else {
          LastUserItemRun(t);
        }
    }
  }

  /**
   * The first match of a section pattern starts with the key, and what
   * follows it holds no further item (for users, no newline either before
   * its first non-blank char).
   */
  lemma FoundSectionTail(content: string, sec: Section)
    requires FindSection(content, sec).Some?
    ensures var f := FindSection(content, sec);
      && StartsAt(content, KeyOf(sec) + ":", f.value.0)
      && ItemLen(content[f.value.2..], sec).None?
      && (sec == UsersSectionKind ==> NoNewlineRun(content[f.value.2..]))
  {
    var p := FindSection(content, sec).value.0;
    FoundMatchAt(content, sec);
    SectionMatchNeedsKey(content, sec, p);
    var u := content[p..];
    MatchTail(u, sec);
    var e := SectionMatch(u, sec).value.1;
    assert u[e..] == content[p + e..];
  }

  /** `find()` reports the section match at its start. */
  lemma FoundMatchAt(content: string, sec: Section)
    requires FindSection(content, sec).Some?
    ensures var p := FindSection(content, sec).value.0;
      && p <= |content| && SectionMatch(content[p..], sec).Some?
      && FindSection(content, sec).value.2 == p + SectionMatch(content[p..], sec).value.1
  {
    var r := FirstMatch(content, 0, SectionMatchAt(content, sec));
    assert SectionMatchAt(content, sec)(r.value.0) == Some(r.value.1);
  }

  /** What follows a section match holds no further item, and for users no newline before its first non-blank char. */
  lemma MatchTail(u: string, sec: Section)
    requires SectionMatch(u, sec).Some?
    ensures var e := SectionMatch(u, sec).value.1;
      && ItemLen(u[e..], sec).None?
      && (sec == UsersSectionKind ==> NoNewlineRun(u[e..]))
  {
    var g := HeaderLen(u, KeyOf(sec)).value;
    var n := ItemsLen(u[g..], sec);
    assert u[g..][n..] == u[g + n..];
    ItemsLenStops(u[g..], sec);
    if sec == UsersSectionKind {
      UserItemsRun(u[g..]);
    }
  }

  /** The key opens the first section match of the text, or does not occur in it at all. */
  predicate KeyFirst(content: string, sec: Section) {
    match FindSection(content, sec)
    case Some((p, _, _)) => IndexOf(content, KeyOf(sec) + ":") == Some(p)
    case None => !Contains(content, KeyOf(sec) + ":")
  }

  /**
   * Splicing a text that starts with the pattern over a stretch that
   * starts with the pattern's first occurrence leaves that occurrence
   * the first.
   */
  lemma KeyStaysFirst(content: string, p: nat, e: nat, section: string, pat: string)
    requires p <= e <= |content| && IndexOf(content, pat) == Some(p) && StartsAt(section, pat, 0)
    ensures IndexOf(content[..p] + section + content[e..], pat) == Some(p)
  {
    var r := content[..p] + section + content[e..];
    var n := p + |pat|;
    StartsAtWithin(content[..p], section, content[e..], pat, 0);
    assert n <= |r| && n <= |content| && r[..n] == content[..n] by {
      StartsAtIff(section, pat, 0);
      StartsAtIff(r, pat, p);
      StartsAtIff(content, pat, p);
      assert r[..n] == r[..p] + r[p..n];
      assert content[..n] == content[..p] + content[p..n];
    }
    forall j | 0 <= j < p
      ensures !StartsAt(r, pat, j)
    {
      StartsAtSharedIff(r, content, pat, j, n);
    }
  }

  /**
   * Appending a comment that starts and ends with a newline, and then a
   * text that starts with a pattern holding no newline and longer than
   * the comment, to a text without the pattern makes the appended
   * occurrence the first.
   */
  lemma AppendedKeyFirst(content: string, comment: string, section: string, pat: string)
    requires !Contains(content, pat) && StartsAt(section, pat, 0)
    requires |comment| > 0 && comment[0] == '\n' && comment[|comment| - 1] == '\n' && |comment| <= |pat|
    requires forall i :: 0 <= i < |pat| ==> pat[i] != '\n'
    ensures IndexOf(content + comment + section, pat) == Some(|content| + |comment|)
  {
    var a := content + comment;
    var r := a + section;
    StartsAtConcat(a, section, pat, 0);
    forall j | 0 <= j < |a|
      ensures !StartsAt(r, pat, j)
    {
      if j + |pat| <= |content| {
        assert r[..|content|] == content[..|content|];
        StartsAtSharedIff(r, content, pat, j, |content|);
      } else {
        var i := if j <= |content| then |content| else |a| - 1;
        assert r[i] == '\n';
        StartsAtCovers(r, pat, j, i);
      }
    }
  }

  /** Neither key holds a newline. */
  lemma KeyLineFree(sec: Section)
    ensures forall i :: 0 <= i < |KeyOf(sec) + ":"| ==> (KeyOf(sec) + ":")[i] != '\n'
    ensures |KeyOf(sec) + ":"| > 24
  {
    assert '\n' !in KeyNamespace;
    assert '\n' !in KeyOf(sec) + ":";
  }

  /**
   * What `replaceUsersSection` writes, `extractUsersList` reads back: the
   * users, in order, when none holds a quote and the file's first
   * occurrence of the key opens its users section, or the key is absent.
   */
  lemma ReplacedUsersReadBack(content: string, users: seq<string>)
    requires users != [] && QuoteFree(users) && KeyFirst(content, UsersSectionKind)
    ensures ExtractUsersList(ReplaceUsersSection(content, users)) == users
  {
    if FindSection(content, UsersSectionKind).Some? {
      SplicedUsersReadBack(content, users);
    } else {
      AppendedUsersReadBack(content, users);
    }
  }

  /** The users section spliced over the one found. */
  lemma SplicedUsersReadBack(content: string, users: seq<string>)
    requires users != [] && QuoteFree(users) && KeyFirst(content, UsersSectionKind)
    requires FindSection(content, UsersSectionKind).Some?
    ensures ExtractUsersList(ReplaceUsersSection(content, users)) == users
  {
    var pat, section := KeyOf(UsersSectionKind) + ":", UsersSection(users);
    var f := FindSection(content, UsersSectionKind).value;
    SectionOpensWithKey(UsersSectionKind, "\n" + UserLines(users) + "\n");
    assert section == pat + ("\n" + UserLines(users) + "\n");
    FoundSectionTail(content, UsersSectionKind);
    KeyStaysFirst(content, f.0, f.2, section, pat);
    UsersSectionReadBack(content[..f.0], users, content[f.2..]);
  }

  /** The users section appended under its comment, when none is found. */
  lemma AppendedUsersReadBack(content: string, users: seq<string>)
    requires users != [] && QuoteFree(users) && KeyFirst(content, UsersSectionKind)
    requires FindSection(content, UsersSectionKind).None?
    ensures ExtractUsersList(ReplaceUsersSection(content, users)) == users
  {
    var pat, section, comment := KeyOf(UsersSectionKind) + ":", UsersSection(users), "\n# artemis-broker users\n";
    SectionOpensWithKey(UsersSectionKind, "\n" + UserLines(users) + "\n");
    assert section == pat + ("\n" + UserLines(users) + "\n");
    KeyLineFree(UsersSectionKind);
    AppendedKeyFirst(content, comment, section, pat);
    assert content + comment + section + [] == content + comment + section;
    UsersSectionReadBack(content + comment, users, []);
  }

  /**
   * What `replaceRolesSection` writes, `extractRolesList` reads back: the
   * entries, in order, when no value holds a quote or a line break and the
   * file's first occurrence of the key opens its roles section, or the key
   * is absent.
   */
  lemma ReplacedRolesReadBack(content: string, roles: seq<RoleEntry>)
    requires roles != [] && PlainRoles(roles) && KeyFirst(content, RolesSectionKind)
    ensures ExtractRolesList(ReplaceRolesSection(content, roles)) == roles
  {
    if FindSection(content, RolesSectionKind).Some? {
      SplicedRolesReadBack(content, roles);
    } else {
      AppendedRolesReadBack(content, roles);
    }
  }

  /** The roles section spliced over the one found. */
  lemma SplicedRolesReadBack(content: string, roles: seq<RoleEntry>)
    requires roles != [] && PlainRoles(roles) && KeyFirst(content, RolesSectionKind)
    requires FindSection(content, RolesSectionKind).Some?
    ensures ExtractRolesList(ReplaceRolesSection(content, roles)) == roles
  {
    var f := FindSection(content, RolesSectionKind).value;
    FoundSectionTail(content, RolesSectionKind);
    SplicedRolesKeyFirst(content, roles, f.0, f.2);
    RolesSectionReadBack(content[..f.0], roles, content[f.2..]);
  }

  /** The roles key of a section spliced over its first occurrence stays the first. */
  lemma SplicedRolesKeyFirst(content: string, roles: seq<RoleEntry>, p: nat, e: nat)
    requires p <= e <= |content| && IndexOf(content, RolesKey + ":") == Some(p)
    ensures IndexOf(content[..p] + RolesSection(roles) + content[e..], RolesKey + ":") == Some(p)
  {
    var pat, body := RolesKey + ":", "\n" + RoleLines(roles);
    assert RolesSection(roles) == pat + body;
    StartsAtLiteral([], pat, body);
    assert [] + pat + body == pat + body;
    KeyStaysFirst(content, p, e, pat + body, pat);
  }

  /** The roles section appended under its comment, when none is found. */
  lemma AppendedRolesReadBack(content: string, roles: seq<RoleEntry>)
    requires roles != [] && PlainRoles(roles) && KeyFirst(content, RolesSectionKind)
    requires FindSection(content, RolesSectionKind).None?
    ensures ExtractRolesList(ReplaceRolesSection(content, roles)) == roles
  {
    var pat, section, comment := KeyOf(RolesSectionKind) + ":", RolesSection(roles), "\n# artemis-broker roles\n";
    SectionOpensWithKey(RolesSectionKind, "\n" + RoleLines(roles));
    assert section == pat + ("\n" + RoleLines(roles));
    KeyLineFree(RolesSectionKind);
    AppendedKeyFirst(content, comment, section, pat);
    assert content + comment + section + [] == content + comment + section;
    RolesSectionReadBack(content + comment, roles, []);
  }

  /** A section text opens with its key and colon. */
  lemma SectionOpensWithKey(sec: Section, body: string)
    ensures StartsAt(KeyOf(sec) + ":" + body, KeyOf(sec) + ":", 0)
  {
    StartsAtLiteral([], KeyOf(sec) + ":", body);
    assert [] + (KeyOf(sec) + ":") + body == KeyOf(sec) + ":" + body;
  }
}
