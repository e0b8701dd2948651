/**
 * Name helpers shared by the Puppet manifest, the broker template and the
 * role ledger: the Puppet variable name of a resource, its namespace prefix
 * and the dotted display name the catalogue shows.
 */
module Identifiers {
  import opened Text

  /** `name.replaceAll("[.\\-]", "_")`: the Puppet variable spelling of a resource name. */
  function ToVariableName(name: string): (r: string)
    ensures |r| == |name|
    ensures forall i :: 0 <= i < |name| ==> r[i] == if name[i] == '.' || name[i] == '-' then '_' else name[i]
    ensures '.' !in r && '-' !in r
  {
    if |name| == 0 then []
    else [if name[0] == '.' || name[0] == '-' then '_' else name[0]] + ToVariableName(name[1..])
  }

  /** Converting twice is converting once. */
  lemma ToVariableNameIdempotent(name: string)
    ensures ToVariableName(ToVariableName(name)) == ToVariableName(name)
  {
    var v := ToVariableName(name);
    assert forall i :: 0 <= i < |v| ==> ToVariableName(v)[i] == v[i];
  }

  /** '.', '-' and '_', the characters that all become '_'. */
  predicate IsSeparator(c: char) {
    c == '.' || c == '-' || c == '_'
  }

  /**
   * Two names share a variable exactly when they have the same length and
   * agree everywhere up to swapping '.', '-' and '_' (so "a.b", "a-b" and
   * "a_b" collide).
   */
  lemma ToVariableNameCollides(a: string, b: string)
    ensures ToVariableName(a) == ToVariableName(b) <==>
      |a| == |b| && forall i :: 0 <= i < |a| ==> a[i] == b[i] || (IsSeparator(a[i]) && IsSeparator(b[i]))
  {
    var u, v := ToVariableName(a), ToVariableName(b);
    if |a| == |b| && forall i :: 0 <= i < |a| ==> a[i] == b[i] || (IsSeparator(a[i]) && IsSeparator(b[i])) {
      forall i | 0 <= i < |a|
        ensures u[i] == v[i]
      {
        SameVariableChar(a[i], b[i]);
      }
    }
    if u == v {
      forall i | 0 <= i < |a|
        ensures a[i] == b[i] || (IsSeparator(a[i]) && IsSeparator(b[i]))
      {
        assert u[i] == v[i];
        SameVariableChar(a[i], b[i]);
      }
    }
  }

  /** The per-character mapping of `ToVariableName` identifies exactly the separators. */
  lemma SameVariableChar(x: char, y: char)
    ensures ((if x == '.' || x == '-' then '_' else x) == (if y == '.' || y == '-' then '_' else y))
      <==> x == y || (IsSeparator(x) && IsSeparator(y))
  {
  }

  /** A name made of `[a-zA-Z0-9._-]` becomes a Puppet identifier `[a-zA-Z0-9_]`. */
  lemma ToVariableNameIsIdentifier(name: string)
    requires forall i :: 0 <= i < |name| ==> IsWordChar(name[i]) || name[i] == '.' || name[i] == '-'
    ensures forall i :: 0 <= i < |name| ==> IsWordChar(ToVariableName(name)[i])
  {
  }

  /**
   * The namespace prefix of a resource: the text before the first '.', or
   * the whole name when it has none (`extractNamespacePrefix`,
   * `extractQueuePrefix`).
   */
  function NamespacePrefix(name: string): (r: string)
    ensures r <= name && '.' !in r
    ensures r == name || name[|r|] == '.'
  {
    if '.' in name then name[..IndexOfChar(name, '.')] else name
  }

  /** The prefix is the part before the first dot of any dotted name. */
  lemma NamespacePrefixOfDotted(ns: string, rest: string)
    requires '.' !in ns
    ensures NamespacePrefix(ns + "." + rest) == ns
  {
    var n := ns + "." + rest;
    assert n[|ns|] == '.';
    assert n[..|ns|] == ns;
  }

  /** `varName.replace("_", ".")`: how the catalogue shows a variable name. */
  function DisplayName(varName: string): (r: string)
    ensures |r| == |varName|
    ensures forall i :: 0 <= i < |varName| ==> r[i] == if varName[i] == '_' then '.' else varName[i]
    ensures '_' !in r
  {
    if |varName| == 0 then []
    else [if varName[0] == '_' then '.' else varName[0]] + DisplayName(varName[1..])
  }

  /** Names without dots (every address variable is one) keep distinct display names. */
  lemma DisplayNameInjective(a: string, b: string)
    requires '.' !in a && '.' !in b && DisplayName(a) == DisplayName(b)
    ensures a == b
  {
    assert |a| == |b|;
    forall i | 0 <= i < |a|
      ensures a[i] == b[i]
    {
      assert DisplayName(a)[i] == DisplayName(b)[i];
    }
  }

  /** A dotted name without '-' or '_' survives the trip to a variable and back. */
  lemma DisplayNameOfVariableName(name: string)
    requires '-' !in name && '_' !in name
    ensures DisplayName(ToVariableName(name)) == name
  {
    var r := DisplayName(ToVariableName(name));
    assert forall i :: 0 <= i < |name| ==> r[i] == name[i];
  }
}
