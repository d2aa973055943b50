/**
 * PHP's `strtr($subject, $pairs)` with an array of pairs, and the placeholder
 * table `Log::record` builds for it from the caller's context.
 *
 * The subject is scanned left to right. At each position the LONGEST key that
 * starts there is replaced by its value and the scan resumes after the key, so
 * a value is never scanned again; where no key starts, one character is copied.
 * Empty keys never match.
 */
module Strtr {

  /** The length of the longest prefix of `s`, at most `n` long, that is a key of `table`; 0 for none. */
  function MatchLen(s: string, table: map<string, string>, n: nat): (k: nat)
    requires n <= |s|
    ensures k <= n
    ensures k > 0 ==> s[..k] in table
    ensures forall j :: k < j <= n ==> s[..j] !in table
  {
    if n == 0 then 0
    else if s[..n] in table then n
    else MatchLen(s, table, n - 1)
  }

  /** `strtr($s, $table)`. */
  function Translate(s: string, table: map<string, string>): (r: string)
    decreases |s|
  {
    if s == [] then []
    else
      var n := MatchLen(s, table, |s|);
      if n > 0 then table[s[..n]] + Translate(s[n..], table)
      else [s[0]] + Translate(s[1..], table)
  }

  /** With no pairs at all, `strtr` gives its subject back. */
  lemma {:induction false} EmptyTableIdentity(s: string)
    ensures Translate(s, map[]) == s
    decreases |s|
  {
    if s != [] {
      assert MatchLen(s, map[], |s|) == 0;
      EmptyTableIdentity(s[1..]);
      assert [s[0]] + s[1..] == s;
    }
  }

  /** The token `{name}` that stands for context entry `name`. */
  function Brace(name: string): (t: string)
    ensures |t| == |name| + 2 && t[0] == '{' && t[|t| - 1] == '}'
    ensures t[1..|t| - 1] == name
  {
    "{" + name + "}"
  }

  /** The replacement table `Log::record` builds: `'{' . $key . '}' => $val` for every context entry. */
  function Placeholders(context: map<string, string>): (table: map<string, string>)
    ensures forall name :: name in context ==> Brace(name) in table && table[Brace(name)] == context[name]
  {
    forall a, b ensures Brace(a) == Brace(b) ==> a == b {
      if Brace(a) == Brace(b) {
        assert a == Brace(a)[1..|Brace(a)| - 1];
      }
    }
    map name | name in context :: Brace(name) := context[name]
  }

  /** Every key of the placeholder table is `{name}` for a context entry `name`. */
  lemma PlaceholderShape(context: map<string, string>, t: string)
    ensures t in Placeholders(context) ==>
      |t| >= 2 && t[0] == '{' && t[|t| - 1] == '}' && t[1..|t| - 1] in context
  {
    if t in Placeholders(context) {
      var name :| name in context && Brace(name) == t;
    }
  }

  /** Every key of the table opens with `{`, as every placeholder does. */
  predicate OpensWithBrace(table: map<string, string>) {
    forall t :: t in table ==> |t| > 0 && t[0] == '{'
  }

  /** No context name contains `}`: then a placeholder ends at the first `}` after its `{`. */
  predicate PlainNames(context: map<string, string>) {
    forall name :: name in context ==> '}' !in name
  }

  lemma PlaceholdersOpenWithBrace(context: map<string, string>)
    ensures OpensWithBrace(Placeholders(context))
  {
    forall t | t in Placeholders(context) ensures |t| > 0 && t[0] == '{' {
      PlaceholderShape(context, t);
    }
  }

  /** Text without `{` is copied verbatim: nothing in it can start a placeholder. */
  lemma {:induction false} PlainPrefixCopied(p: string, s: string, table: map<string, string>)
    requires OpensWithBrace(table)
    requires '{' !in p
    ensures Translate(p + s, table) == p + Translate(s, table)
    decreases |p|
  {
    if p != [] {
      var ps := p + s;
      assert ps[0] == p[0];
      assert forall j :: 0 < j <= |ps| ==> ps[..j][0] == p[0];
      var n := MatchLen(ps, table, |ps|);
      assert n == 0;
      assert Translate(ps, table) == [p[0]] + Translate(ps[1..], table);
      assert ps[1..] == p[1..] + s;
      PlainPrefixCopied(p[1..], s, table);
      assert [p[0]] + (p[1..] + Translate(s, table)) == p + Translate(s, table);
    } else {
      assert p + s == s;
    }
  }

  /** A message with no `{` at all comes back unchanged. */
  lemma NoBraceUnchanged(s: string, context: map<string, string>)
    requires '{' !in s
    ensures Translate(s, Placeholders(context)) == s
  {
    PlaceholdersOpenWithBrace(context);
    PlainPrefixCopied(s, [], Placeholders(context));
    assert s + [] == s;
  }

  /** Any key that starts at the front of `Brace(name) + rest` is at most `Brace(name)` long. */
  lemma NoLongerToken(name: string, rest: string, context: map<string, string>, j: nat)
    requires PlainNames(context)
    requires |Brace(name)| < j <= |Brace(name) + rest|
    ensures (Brace(name) + rest)[..j] !in Placeholders(context)
  {
    var s := Brace(name) + rest;
    var t := s[..j];
    var other := t[1..|t| - 1];
    assert other[|name|] == t[|name| + 1] == s[|name| + 1] == '}';
    assert other !in context;
    PlaceholderShape(context, t);
  }

  /**
   * `{name}` for a known name is replaced by its value, and the value is emitted
   * as it is: the scan resumes after the placeholder, not inside the value.
   */
  lemma SubstitutePlaceholder(name: string, rest: string, context: map<string, string>)
    requires PlainNames(context)
    requires name in context
    ensures Translate(Brace(name) + rest, Placeholders(context))
         == context[name] + Translate(rest, Placeholders(context))
  {
    var table := Placeholders(context);
    var s := Brace(name) + rest;
    var b := |Brace(name)|;
    assert s[..b] == Brace(name);
    forall j | b < j <= |s| ensures s[..j] !in table {
      NoLongerToken(name, rest, context, j);
    }
    var n := MatchLen(s, table, |s|);
    assert n == b;
    assert s[b..] == rest;
  }

  /** `{name}` for a name the context lacks stays in the text verbatim. */
  lemma KeepUnknownPlaceholder(name: string, rest: string, context: map<string, string>)
    requires PlainNames(context)
    requires name !in context && '{' !in name && '}' !in name
    ensures Translate(Brace(name) + rest, Placeholders(context))
         == Brace(name) + Translate(rest, Placeholders(context))
  {
    var table := Placeholders(context);
    var s := Brace(name) + rest;
    var tail := name + "}";
    var t := Translate(rest, table);
    assert Translate(s, table) == [s[0]] + Translate(s[1..], table) by {
      forall j | 0 < j <= |s| ensures s[..j] !in table {
        UnknownNoMatch(name, rest, context, j);
      }
      NothingStartsHere(s, table);
    }
    assert Translate(s[1..], table) == tail + t by {
      assert s[1..] == tail + rest;
      PlaceholdersOpenWithBrace(context);
      PlainPrefixCopied(tail, rest, table);
    }
    assert [s[0]] + (tail + t) == Brace(name) + t by {
      assert [s[0]] == "{";
      assert Brace(name) == "{" + tail;
    }
  }

  /** Where no key starts, exactly one character is copied. */
  lemma NothingStartsHere(s: string, table: map<string, string>)
    requires s != []
    requires forall j :: 0 < j <= |s| ==> s[..j] !in table
    ensures Translate(s, table) == [s[0]] + Translate(s[1..], table)
  {
    assert MatchLen(s, table, |s|) == 0;
  }

  /** No key starts at the front of `Brace(name) + rest` when `name` is unknown. */
  lemma UnknownNoMatch(name: string, rest: string, context: map<string, string>, j: nat)
    requires PlainNames(context)
    requires name !in context && '}' !in name
    requires 0 < j <= |Brace(name) + rest|
    ensures (Brace(name) + rest)[..j] !in Placeholders(context)
  {
    var s := Brace(name) + rest;
    var t := s[..j];
    PlaceholderShape(context, t);
    if j == 1 {
      assert |t| < 2;
    } else if j <= |name| + 1 {
      assert t[|t| - 1] == name[j - 2];
    } else if j == |name| + 2 {
      assert t == Brace(name);
      assert t[1..|t| - 1] == name;
    } else {
      var other := t[1..|t| - 1];
      assert other[|name|] == s[|name| + 1] == '}';
      assert other !in context;
    }
  }

  /**
   * Text and placeholders interleave: `user {u} id {id}` with u = a, id = 1
   * reads `user a id 1`, and so does every template of that shape.
   */
  lemma {:induction false} TwoPlaceholders(p1: string, n1: string, p2: string, n2: string,
                                           context: map<string, string>)
    requires PlainNames(context)
    requires '{' !in p1 && '{' !in p2
    requires n1 in context && n2 in context
    ensures Translate(p1 + Brace(n1) + p2 + Brace(n2), Placeholders(context))
         == p1 + context[n1] + p2 + context[n2]
  {
    var table := Placeholders(context);
    PlaceholdersOpenWithBrace(context);
    var last := Translate(Brace(n2) + [], table);
    assert last == context[n2] by {
      SubstitutePlaceholder(n2, [], context);
      EmptyTableIdentity([]);
    }
    var s2 := p2 + (Brace(n2) + []);
    assert Translate(s2, table) == p2 + context[n2] by {
      PlainPrefixCopied(p2, Brace(n2) + [], table);
    }
    var s1 := Brace(n1) + s2;
    assert Translate(s1, table) == context[n1] + (p2 + context[n2]) by {
      SubstitutePlaceholder(n1, s2, context);
    }
    assert Translate(p1 + s1, table) == p1 + (context[n1] + (p2 + context[n2])) by {
      PlainPrefixCopied(p1, s1, table);
    }
    Regroup(p1, Brace(n1), p2, Brace(n2) + []);
    Regroup(p1, context[n1], p2, context[n2]);
    assert Brace(n2) + [] == Brace(n2);
  }

  lemma Regroup(a: string, b: string, c: string, d: string)
    ensures a + b + c + d == a + (b + (c + d))
  {
  }

  /**
   * A value that itself looks like a placeholder is not expanded a second time:
   * `{name}` whose value is `{other}` yields `{other}`, whatever `other` maps to.
   */
  lemma ValuesAreNotRescanned(name: string, other: string, context: map<string, string>)
    requires PlainNames(context)
    requires name in context && context[name] == Brace(other)
    ensures Translate(Brace(name), Placeholders(context)) == Brace(other)
  {
    assert Brace(name) == Brace(name) + "";
    SubstitutePlaceholder(name, "", context);
  }

  /**
   * Why `PlainNames` is needed: when a context name contains `}`, the longest
   * key wins, so `{a}x}` becomes the value of `a}x` and `{a}` is never replaced
   * by the value of `a`.
   */
  lemma LongerNameWins(a: string, x: string, context: map<string, string>)
    requires a in context && a + "}" + x in context
    ensures Translate(Brace(a) + x + "}", Placeholders(context)) == context[a + "}" + x]
  {
    var s := Brace(a) + x + "}";
    assert s == Brace(a + "}" + x);
    assert s[..|s|] == s;
    assert MatchLen(s, Placeholders(context), |s|) == |s|;
    assert s[|s|..] == [];
  }
}
